/** The metrics shown above the flux table (total movement, stations affected,
    deposits, withdrawals) and the top-20 chart. */
module Summary {
  import opened Estimator

  /** The number of stations in the movement chart. */
  const TOP_N := 20

  datatype FluxSummary = FluxSummary(totalMouvements: int, stationsBouge: int, depots: int, prises: int)

  function SumMouvement(rows: seq<FluxRow>): int {
    if rows == [] then 0 else rows[0].mouvement + SumMouvement(rows[1..])
  }

  function CountKind(rows: seq<FluxRow>, k: Kind): nat {
    if rows == [] then 0 else (if rows[0].kind == k then 1 else 0) + CountKind(rows[1..], k)
  }

  function Summarise(flux: seq<FluxRow>): FluxSummary {
    FluxSummary(SumMouvement(flux), |flux|, CountKind(flux, Depot), CountKind(flux, Prise))
  }

  /** The chart's rows: the head of the table. On a ranked table they are the
      TOP_N largest movements: no row left out moved more than a charted one. */
  function Chart(flux: seq<FluxRow>): (r: seq<FluxRow>)
    ensures |r| == if |flux| < TOP_N then |flux| else TOP_N
    ensures r == flux[..|r|]
    ensures Sorted(flux) ==> forall i, j :: 0 <= i < |r| <= j < |flux| ==> r[i].mouvement >= flux[j].mouvement
  {
    flux[..if |flux| < TOP_N then |flux| else TOP_N]
  }

  /** Every row is either a deposit or a withdrawal. */
  lemma {:induction false} KindsPartition(rows: seq<FluxRow>)
    ensures CountKind(rows, Depot) + CountKind(rows, Prise) == |rows|
  {
    if rows != [] {
      KindsPartition(rows[1..]);
    }
  }

  lemma {:induction false} SumAtLeastCount(rows: seq<FluxRow>)
    requires forall r :: r in rows ==> r.mouvement > 0
    ensures SumMouvement(rows) >= |rows|
  {
    if rows != [] {
      assert rows[0] in rows;
      SumAtLeastCount(rows[1..]);
    }
  }

  lemma {:induction false} SumInsert(x: FluxRow, rows: seq<FluxRow>)
    ensures SumMouvement(Insert(x, rows)) == x.mouvement + SumMouvement(rows)
  {
    if rows == [] || x.mouvement >= rows[0].mouvement {
      assert ([x] + rows)[1..] == rows;
    } else {
      SumInsert(x, rows[1..]);
      assert ([rows[0]] + Insert(x, rows[1..]))[1..] == Insert(x, rows[1..]);
    }
  }

  /** Ranking does not change the total. */
  lemma {:induction false} SumRank(rows: seq<FluxRow>)
    ensures SumMouvement(Rank(rows)) == SumMouvement(rows)
  {
    if rows != [] {
      SumRank(rows[1..]);
      SumInsert(rows[0], Rank(rows[1..]));
    }
  }

  /** Removing rows without movement does not change the total of non-negative magnitudes. */
  lemma {:induction false} SumMoved(rows: seq<FluxRow>)
    requires forall r :: r in rows ==> r.mouvement >= 0
    ensures SumMouvement(Moved(rows)) == SumMouvement(rows)
  {
    if rows != [] {
      assert rows[0] in rows;
      SumMoved(rows[1..]);
      if rows[0].mouvement > 0 {
        assert Moved(rows) == [rows[0]] + Moved(rows[1..]);
        assert ([rows[0]] + Moved(rows[1..]))[1..] == Moved(rows[1..]);
      }
    }
  }

  /** The metrics of a flux table: deposits and withdrawals add up to the
      stations affected, which is the number of rows; the total movement is at
      least that number and equals the movement summed over every joined
      station, unchanged ones contributing 0. */
  lemma SummaryOfFlux(first: seq<Reading>, last: seq<Reading>)
    ensures var s := Summarise(Flux(first, last));
      && s.stationsBouge == |Flux(first, last)|
      && s.depots + s.prises == s.stationsBouge
      && s.totalMouvements >= s.stationsBouge
      && s.totalMouvements == SumMouvement(Joined(first, last))
  {
    var joined := Joined(first, last);
    KindsPartition(Flux(first, last));
    SumAtLeastCount(Flux(first, last));
    forall r | r in joined ensures r.mouvement >= 0 {
      JoinedMember(first, last, r);
    }
    SumMoved(joined);
    SumRank(Moved(joined));
  }
}
