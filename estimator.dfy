/** The two-point movement estimator of the real-time flux tab. The oldest and
    the newest snapshot of the window are outer-joined on station name, a
    station missing from one side counting 0 bikes; each station gets its signed
    change and its magnitude; unchanged stations are removed; each remaining one
    is labelled a deposit or a withdrawal; the rows are ranked by magnitude,
    largest first. */
module Estimator {
  import opened Seqs

  /** A station name and its bike total in one snapshot. */
  type Reading = (string, int)

  /** The movement label: more bikes than before (deposit) or not (withdrawal). */
  datatype Kind = Depot | Prise

  /** One row of the flux table. */
  datatype FluxRow = FluxRow(
    station: string,
    kind: Kind,
    mouvement: int,
    totalPrev: int,
    totalCurr: int,
    delta: int)

  function Names(s: seq<Reading>): seq<string> {
    seq(|s|, i requires 0 <= i < |s| => s[i].0)
  }

  /** Each station occurs at most once in the snapshot. */
  predicate UniqueNames(s: seq<Reading>) {
    Distinct(Names(s))
  }

  function Abs(x: int): int {
    if x < 0 then -x else x
  }

  /** The bike total of a station in a snapshot, 0 when the station is absent
      (the join's missing side filled with 0). */
  function Lookup(s: seq<Reading>, name: string): (n: int)
    ensures name !in Names(s) ==> n == 0
    ensures UniqueNames(s) ==> forall i :: 0 <= i < |s| && s[i].0 == name ==> n == s[i].1
  {
    if s == [] then 0
    else
      assert Names(s) == [s[0].0] + Names(s[1..]);
      assert forall i :: 0 <= i < |s| ==> Names(s)[i] == s[i].0;
      if s[0].0 == name then s[0].1 else Lookup(s[1..], name)
  }

  /** The join keys: the stations of the newest snapshot, then those only in the oldest one. */
  function JoinKeys(first: seq<Reading>, last: seq<Reading>): seq<string> {
    Names(last) + Filter(Names(first), (n: string) => n !in Names(last))
  }

  /** The joined row of one station. */
  function JoinRow(first: seq<Reading>, last: seq<Reading>, name: string): FluxRow {
    var prev := Lookup(first, name);
    var curr := Lookup(last, name);
    var delta := curr - prev;
    FluxRow(name, if delta > 0 then Depot else Prise, Abs(delta), prev, curr, delta)
  }

  /** The outer join of the two snapshots, with delta, magnitude and label. */
  function Joined(first: seq<Reading>, last: seq<Reading>): seq<FluxRow> {
    var keys := JoinKeys(first, last);
    seq(|keys|, i requires 0 <= i < |keys| => JoinRow(first, last, keys[i]))
  }

  /** The rows whose magnitude is positive. */
  function Moved(rows: seq<FluxRow>): (r: seq<FluxRow>)
    ensures forall x :: x in r ==> x.mouvement > 0
  {
    Filter(rows, (r: FluxRow) => r.mouvement > 0)
  }

  /** Non-increasing by magnitude. */
  predicate Sorted(rows: seq<FluxRow>) {
    forall i, j :: 0 <= i < j < |rows| ==> rows[i].mouvement >= rows[j].mouvement
  }

  function Insert(x: FluxRow, rows: seq<FluxRow>): (r: seq<FluxRow>)
    ensures multiset(r) == multiset(rows) + multiset{x}
  {
    if rows == [] || x.mouvement >= rows[0].mouvement then [x] + rows
    else
      assert rows == [rows[0]] + rows[1..];
      [rows[0]] + Insert(x, rows[1..])
  }

  lemma {:induction false} InsertSorted(x: FluxRow, rows: seq<FluxRow>)
    requires Sorted(rows)
    ensures Sorted(Insert(x, rows))
  {
    if rows != [] && x.mouvement < rows[0].mouvement {
      var rest := Insert(x, rows[1..]);
      InsertSorted(x, rows[1..]);
      forall y | y in rest
        ensures y.mouvement <= rows[0].mouvement
      {
        assert y in multiset(rest);
      }
      var r := [rows[0]] + rest;
      forall i, j | 0 <= i < j < |r|
        ensures r[i].mouvement >= r[j].mouvement
      {
        if i > 0 {
          assert r[i] == rest[i - 1] && r[j] == rest[j - 1];
        } else {
          assert r[j] == rest[j - 1];
        }
      }
    }
  }

  /** The ranking by magnitude, largest first. Equal magnitudes keep their
      join order here; the contract promises nothing about them. */
  function Rank(rows: seq<FluxRow>): (r: seq<FluxRow>)
    ensures Sorted(r) && multiset(r) == multiset(rows)
  {
    if rows == [] then []
    else
      assert rows == [rows[0]] + rows[1..];
      InsertSorted(rows[0], Rank(rows[1..]));
      Insert(rows[0], Rank(rows[1..]))
  }

  /** The flux table computed from the oldest and the newest snapshot of the window. */
  function Flux(first: seq<Reading>, last: seq<Reading>): (r: seq<FluxRow>)
    ensures Sorted(r)
    ensures forall x :: x in r ==> x.mouvement > 0
  {
    RankMembers(Moved(Joined(first, last)));
    Rank(Moved(Joined(first, last)))
  }

  lemma RankMembers(rows: seq<FluxRow>)
    ensures forall x :: x in Rank(rows) <==> x in rows
  {
    forall x ensures x in Rank(rows) <==> x in rows {
      assert x in Rank(rows) <==> x in multiset(Rank(rows));
    }
  }

  lemma KeysMember(first: seq<Reading>, last: seq<Reading>, name: string)
    ensures name in JoinKeys(first, last) <==> name in Names(first) || name in Names(last)
  {
    FilterMembership(Names(first), (n: string) => n !in Names(last), name);
  }

  lemma JoinedMember(first: seq<Reading>, last: seq<Reading>, r: FluxRow)
    ensures r in Joined(first, last) <==> r.station in JoinKeys(first, last) && r == JoinRow(first, last, r.station)
  {
    var keys := JoinKeys(first, last);
    if r.station in keys && r == JoinRow(first, last, r.station) {
      var i :| 0 <= i < |keys| && keys[i] == r.station;
      assert Joined(first, last)[i] == r;
    }
  }

  lemma FluxMember(first: seq<Reading>, last: seq<Reading>, r: FluxRow)
    ensures r in Flux(first, last) <==> r in Joined(first, last) && r.mouvement > 0
  {
    var moved := Moved(Joined(first, last));
    FilterMembership(Joined(first, last), (x: FluxRow) => x.mouvement > 0, r);
    RankMembers(moved);
  }

  /** Every row of the flux table carries the station's totals in the oldest
      and in the newest snapshot (0 where absent), their signed difference and
      its non-zero magnitude, and is labelled a deposit exactly when bikes were
      added and a withdrawal exactly when bikes were taken. */
  lemma FluxRowsAreDeltas(first: seq<Reading>, last: seq<Reading>, i: nat)
    requires i < |Flux(first, last)|
    ensures var r := Flux(first, last)[i];
      && (r.station in Names(first) || r.station in Names(last))
      && r.totalPrev == Lookup(first, r.station)
      && r.totalCurr == Lookup(last, r.station)
      && r.delta == r.totalCurr - r.totalPrev
      && r.mouvement == Abs(r.delta) && r.mouvement > 0
      && (r.kind == Depot <==> r.delta > 0)
      && (r.kind == Prise <==> r.delta < 0)
  {
    var r := Flux(first, last)[i];
    FluxMember(first, last, r);
    JoinedMember(first, last, r);
    KeysMember(first, last, r.station);
  }

  /** A station appears in the flux table exactly when it is in one of the two
      snapshots and its bike total differs between them. */
  lemma FluxStations(first: seq<Reading>, last: seq<Reading>, name: string)
    ensures (exists r :: r in Flux(first, last) && r.station == name) <==>
      (name in Names(first) || name in Names(last)) && Lookup(first, name) != Lookup(last, name)
  {
    KeysMember(first, last, name);
    var row := JoinRow(first, last, name);
    JoinedMember(first, last, row);
    FluxMember(first, last, row);
    if exists r :: r in Flux(first, last) && r.station == name {
      var r :| r in Flux(first, last) && r.station == name;
      FluxMember(first, last, r);
      JoinedMember(first, last, r);
    }
  }

  /** No movement between the two snapshots leaves the table empty. */
  lemma FluxEmpty(first: seq<Reading>, last: seq<Reading>)
    ensures Flux(first, last) == [] <==>
      forall name :: name in Names(first) || name in Names(last) ==> Lookup(first, name) == Lookup(last, name)
  {
    var flux := Flux(first, last);
    if flux != [] {
      FluxStations(first, last, flux[0].station);
    }
    forall name | name in Names(first) || name in Names(last)
      ensures flux == [] ==> Lookup(first, name) == Lookup(last, name)
    {
      FluxStations(first, last, name);
    }
  }

  /** No station occurs in two rows. */
  predicate DistinctStations(rows: seq<FluxRow>) {
    forall i, j :: 0 <= i < j < |rows| ==> rows[i].station != rows[j].station
  }

  lemma KeysDistinct(first: seq<Reading>, last: seq<Reading>)
    requires UniqueNames(first) && UniqueNames(last)
    ensures Distinct(JoinKeys(first, last))
  {
    var a, b := Names(last), Filter(Names(first), (n: string) => n !in Names(last));
    FilterDistinct(Names(first), (n: string) => n !in Names(last));
    var keys := a + b;
    forall i, j | 0 <= i < j < |keys| ensures keys[i] != keys[j] {
      if j >= |a| && i < |a| {
        assert keys[j] == b[j - |a|] && keys[j] in b;
      } else if i >= |a| {
        assert keys[i] == b[i - |a|] && keys[j] == b[j - |a|];
      }
    }
  }

  lemma {:induction false} MovedDistinct(rows: seq<FluxRow>)
    requires DistinctStations(rows)
    ensures DistinctStations(Moved(rows))
  {
    if rows != [] {
      MovedDistinct(rows[1..]);
      forall y | y in Moved(rows[1..]) ensures y.station != rows[0].station {
        FilterMembership(rows[1..], (r: FluxRow) => r.mouvement > 0, y);
      }
    }
  }

  lemma {:induction false} InsertDistinct(x: FluxRow, rows: seq<FluxRow>)
    requires DistinctStations(rows)
    requires forall y :: y in rows ==> y.station != x.station
    ensures DistinctStations(Insert(x, rows))
  {
    if rows != [] && x.mouvement < rows[0].mouvement {
      var rest := Insert(x, rows[1..]);
      InsertDistinct(x, rows[1..]);
      forall y | y in rest ensures y.station != rows[0].station {
        assert y in multiset(rest);
      }
      var r := [rows[0]] + rest;
      forall i, j | 0 <= i < j < |r| ensures r[i].station != r[j].station {
        assert r[j] == rest[j - 1];
        if i > 0 {
          assert r[i] == rest[i - 1];
        }
      }
    }
  }

  lemma {:induction false} RankDistinct(rows: seq<FluxRow>)
    requires DistinctStations(rows)
    ensures DistinctStations(Rank(rows))
  {
    if rows != [] {
      RankDistinct(rows[1..]);
      RankMembers(rows[1..]);
      InsertDistinct(rows[0], Rank(rows[1..]));
    }
  }

  /** With station names unique in each snapshot, every station occurs at most
      once in the flux table. */
  lemma FluxOnce(first: seq<Reading>, last: seq<Reading>)
    requires UniqueNames(first) && UniqueNames(last)
    ensures DistinctStations(Flux(first, last))
  {
    KeysDistinct(first, last);
    MovedDistinct(Joined(first, last));
    RankDistinct(Moved(Joined(first, last)));
  }
}
