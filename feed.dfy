/** Normalisation of the live station feed into the dashboard's station rows,
    and the sidebar filters applied to those rows. */
module Feed {
  import opened Seqs

  datatype Option<T> = None | Some(value: T)

  /** A numeric station property as the integer conversion sees it: absent
      (the default 0 applies), a value that converts to `n`, or a value the
      conversion rejects. */
  datatype NumField = Missing | Num(n: int) | NotANumber

  /** The `properties` object of one feature; `nom` and `etat` are None when absent. */
  datatype Props = Props(
    nom: Option<string>,
    nbvelos: NumField,
    nbelec: NumField,
    nbclassiq: NumField,
    nbplaces: NumField,
    etat: Option<string>)

  /** One GeoJSON feature. `props` is None when the feature has no `properties`
      key; `coordinates` is None when `geometry` or its `coordinates` key is
      missing. A null `coordinates` value is `Some([])`: like a short list, it
      fails only when the station is kept. */
  datatype Feature = Feature(props: Option<Props>, coordinates: Option<seq<real>>)

  /** The outcome of the HTTP request: no usable body (network error, non-2xx
      status, undecodable JSON), or a body whose `features` key may be missing. */
  datatype Response = Unavailable | Body(features: Option<seq<Feature>>)

  /** One row of the live table. */
  datatype StationRow = StationRow(
    station: string,
    total: int,
    elec: int,
    classic: int,
    places: int,
    lat: real,
    lon: real,
    colour: string,
    size: int)

  const UNKNOWN_NAME := "Inconnue"
  const CONNECTED := "CONNECTEE"
  const DISCONNECTED := "DECONNECTEE"
  const RED := "#FF0000"
  const ORANGE := "#FFA500"
  const BLUE := "#005DAA"
  const SIZE_STOCKED := 20
  const SIZE_EMPTY := 10

  /** What becomes of one feature: its conversion raised, it is filtered out, or it yields a row. */
  datatype Outcome = Failed | Dropped | Kept(row: StationRow)

  /** The integer conversion of a field, defaulting an absent one to 0. */
  function IntOrZero(f: NumField): Option<int> {
    match f
    case Missing => Some(0)
    case Num(n) => Some(n)
    case NotANumber => None
  }

  function Colour(total: int): string {
    if total == 0 then RED else if total < 5 then ORANGE else BLUE
  }

  /** Every numeric field of `p` converts. */
  predicate Converts(p: Props) {
    p.nbvelos != NotANumber && p.nbelec != NotANumber && p.nbclassiq != NotANumber && p.nbplaces != NotANumber
  }

  /** The value a converting field takes, absent fields counting as 0. */
  function ValueOf(f: NumField): int {
    if f.Num? then f.n else 0
  }

  /** The retention rule: connected, or reporting bikes or free places. */
  predicate Shown(p: Props) {
    p.etat == Some(CONNECTED) || ValueOf(p.nbvelos) > 0 || ValueOf(p.nbplaces) > 0
  }

  /** The map styling of a row agrees with its bike total: the three colour
      bands and the two marker sizes. */
  predicate Styled(r: StationRow) {
    && (r.colour == RED <==> r.total == 0)
    && (r.colour == ORANGE <==> r.total != 0 && r.total < 5)
    && (r.colour == BLUE <==> r.total >= 5)
    && (r.size == SIZE_STOCKED <==> r.total > 0)
    && (r.size == SIZE_EMPTY <==> r.total <= 0)
  }

  /** Normalisation of one feature (the loop body of the live fetch). */
  function Normalise(f: Feature): (r: Outcome)
    ensures r.Failed? <==>
      || f.props.None?
      || f.coordinates.None?
      || !Converts(f.props.value)
      || (Shown(f.props.value) && |f.coordinates.value| < 2)
    ensures r.Dropped? <==>
      f.props.Some? && f.coordinates.Some? && Converts(f.props.value) && !Shown(f.props.value)
    ensures r.Kept? ==>
      var p, g := f.props.value, f.coordinates.value;
      && r.row.station == (if p.nom.Some? then p.nom.value else UNKNOWN_NAME)
      && r.row.total == ValueOf(p.nbvelos)
      && r.row.elec == ValueOf(p.nbelec)
      && r.row.classic == ValueOf(p.nbclassiq)
      && r.row.places == ValueOf(p.nbplaces)
      && r.row.lat == g[1]
      && r.row.lon == g[0]
      && Styled(r.row)
  {
    match f.props
    case None => Failed
    case Some(p) =>
      if f.coordinates.None? then Failed
      else
        var nom := if p.nom.Some? then p.nom.value else UNKNOWN_NAME;
        match (IntOrZero(p.nbvelos), IntOrZero(p.nbelec), IntOrZero(p.nbclassiq), IntOrZero(p.nbplaces))
        case (Some(total), Some(elec), Some(classic), Some(places)) =>
          var etat := if p.etat.Some? then p.etat.value else DISCONNECTED;
          var colour := Colour(total);
          if etat == CONNECTED || total > 0 || places > 0 then
            var g := f.coordinates.value;
            if |g| < 2 then Failed
            else Kept(StationRow(nom, total, elec, classic, places, g[1], g[0], colour,
                                 if total > 0 then SIZE_STOCKED else SIZE_EMPTY))
          else Dropped
        case _ => Failed
  }

  /** The rows of a whole batch, or None when any feature raised: one failure
      anywhere discards the batch. */
  function Process(fs: seq<Feature>): (r: Option<seq<StationRow>>)
    ensures r.Some? ==> |r.value| <= |fs| && forall row :: row in r.value ==> Styled(row)
  {
    if fs == [] then Some([])
    else
      match Normalise(fs[0])
      case Failed => None
      case Dropped => Process(fs[1..])
      case Kept(row) =>
        match Process(fs[1..])
        case None => None
        case Some(rest) => Some([row] + rest)
  }

  /** One more feature processed after a batch. */
  function Step(acc: Option<seq<StationRow>>, o: Outcome): Option<seq<StationRow>> {
    match acc
    case None => None
    case Some(rows) =>
      match o
      case Failed => None
      case Dropped => Some(rows)
      case Kept(row) => Some(rows + [row])
  }

  lemma {:induction false} ProcessAppend(fs: seq<Feature>, f: Feature)
    ensures Process(fs + [f]) == Step(Process(fs), Normalise(f))
  {
    if fs == [] {
      assert [f][1..] == [] && [] + [f] == [f];
      if Normalise(f).Kept? {
        assert [Normalise(f).row] + [] == [] + [Normalise(f).row];
      }
    } else {
      assert (fs + [f])[0] == fs[0];
      assert (fs + [f])[1..] == fs[1..] + [f];
      ProcessAppend(fs[1..], f);
      if Normalise(fs[0]).Kept? && Process(fs[1..]).Some? && Normalise(f).Kept? {
        var row, rest, last := Normalise(fs[0]).row, Process(fs[1..]).value, Normalise(f).row;
        assert [row] + (rest + [last]) == ([row] + rest) + [last];
      }
    }
  }

  /** The batch is discarded exactly when some feature fails to normalise. */
  lemma {:induction false} ProcessFails(fs: seq<Feature>)
    ensures Process(fs).None? <==> exists i :: 0 <= i < |fs| && Normalise(fs[i]).Failed?
  {
    if fs != [] {
      ProcessFails(fs[1..]);
      if Process(fs[1..]).None? {
        var i :| 0 <= i < |fs[1..]| && Normalise(fs[1..][i]).Failed?;
        assert Normalise(fs[i + 1]).Failed?;
      }
      if exists i :: 0 <= i < |fs| && Normalise(fs[i]).Failed? {
        var i :| 0 <= i < |fs| && Normalise(fs[i]).Failed?;
        if i > 0 {
          assert Normalise(fs[1..][i - 1]).Failed?;
        }
      }
    }
  }

  /** When the batch succeeds, its rows are exactly the rows of the kept features. */
  lemma {:induction false} ProcessRows(fs: seq<Feature>, row: StationRow)
    requires Process(fs).Some?
    ensures row in Process(fs).value <==> exists i :: 0 <= i < |fs| && Normalise(fs[i]) == Kept(row)
  {
    if fs != [] {
      ProcessRows(fs[1..], row);
      if exists i :: 0 <= i < |fs| && Normalise(fs[i]) == Kept(row) {
        var i :| 0 <= i < |fs| && Normalise(fs[i]) == Kept(row);
        if i > 0 {
          assert Normalise(fs[1..][i - 1]) == Kept(row);
        }
      }
      if exists i :: 0 <= i < |fs[1..]| && Normalise(fs[1..][i]) == Kept(row) {
        var i :| 0 <= i < |fs[1..]| && Normalise(fs[1..][i]) == Kept(row);
        assert Normalise(fs[i + 1]) == Kept(row);
      }
    }
  }

  /** The table the live fetch produces: empty whenever anything went wrong. */
  function LiveRows(resp: Response): seq<StationRow> {
    match resp
    case Unavailable => []
    case Body(None) => []
    case Body(Some(fs)) =>
      match Process(fs)
      case None => []
      case Some(rows) => rows
  }

  /** The live fetch: normalises the features one by one, appending each kept row. */
  method GetLiveData(resp: Response) returns (rows: seq<StationRow>)
    ensures rows == LiveRows(resp)
    ensures forall row :: row in rows ==> Styled(row)
  {
    rows := [];
    if resp.Unavailable? || resp.features.None? {
      return;
    }
    var fs := resp.features.value;
    var i := 0;
    while i < |fs|
      invariant 0 <= i <= |fs|
      invariant Process(fs[..i]) == Some(rows)
    {
      ProcessAppend(fs[..i], fs[i]);
      assert fs[..i + 1] == fs[..i] + [fs[i]];
      match Normalise(fs[i]) {
        case Failed =>
          ProcessFails(fs);
          rows := [];
          return;
        case Dropped =>
        case Kept(row) =>
          rows := rows + [row];
      }
      i := i + 1;
    }
    assert fs[..i] == fs;
  }

  /** The sidebar's minimum-bikes filter. */
  function AtLeast(rows: seq<StationRow>, minBikes: int): seq<StationRow> {
    Filter(rows, (r: StationRow) => r.total >= minBikes)
  }

  /** The sidebar's electric-only filter. */
  function WithElectric(rows: seq<StationRow>): seq<StationRow> {
    Filter(rows, (r: StationRow) => r.elec > 0)
  }

  /** The live table after both sidebar filters. */
  function LiveFiltered(rows: seq<StationRow>, minBikes: int, elecOnly: bool): seq<StationRow> {
    var byBikes := AtLeast(rows, minBikes);
    if elecOnly then WithElectric(byBikes) else byBikes
  }

  /** The filters keep exactly the rows with enough bikes (and, when asked,
      some electric bikes), in their original order. */
  lemma LiveFilteredSpec(rows: seq<StationRow>, minBikes: int, elecOnly: bool)
    ensures forall r :: r in LiveFiltered(rows, minBikes, elecOnly) <==>
      r in rows && r.total >= minBikes && (elecOnly ==> r.elec > 0)
    ensures forall r :: multiset(LiveFiltered(rows, minBikes, elecOnly))[r] ==
                        (if r.total >= minBikes && (elecOnly ==> r.elec > 0) then multiset(rows)[r] else 0)
    ensures SubsequenceOf(LiveFiltered(rows, minBikes, elecOnly), rows)
  {
    var byBikes := AtLeast(rows, minBikes);
    forall r ensures r in LiveFiltered(rows, minBikes, elecOnly) <==>
      r in rows && r.total >= minBikes && (elecOnly ==> r.elec > 0)
    {
      FilterMembership(rows, (r: StationRow) => r.total >= minBikes, r);
      FilterMembership(byBikes, (r: StationRow) => r.elec > 0, r);
    }
    forall r ensures multiset(LiveFiltered(rows, minBikes, elecOnly))[r] ==
      (if r.total >= minBikes && (elecOnly ==> r.elec > 0) then multiset(rows)[r] else 0)
    {
      FilterCount(rows, (r: StationRow) => r.total >= minBikes, r);
      FilterCount(byBikes, (r: StationRow) => r.elec > 0, r);
    }
    FilterIsSubsequence(rows, (r: StationRow) => r.total >= minBikes);
    if elecOnly {
      FilterIsSubsequence(byBikes, (r: StationRow) => r.elec > 0);
      SubsequenceTransitive(WithElectric(byBikes), byBikes, rows);
    }
  }
}
