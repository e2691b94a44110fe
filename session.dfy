/** The per-session history of full-fleet snapshots behind the real-time flux
    tab: each refresh appends the current snapshot with its timestamp, drops
    every entry that is not younger than one hour, and compares the oldest
    survivor with the newest. Wall-clock time is passed in as `now`, in seconds. */
module Session {
  import opened Seqs
  import Feed
  import Estimator

  /** The retention horizon, in seconds. */
  const ONE_HOUR := 3600

  /** One refresh: its timestamp and the live table it saw. */
  datatype Entry = Entry(timestamp: int, data: seq<Feed.StationRow>)

  /** The entries strictly younger than `cutoff`, in their original order. */
  function Retained(entries: seq<Entry>, cutoff: int): seq<Entry> {
    Filter(entries, (e: Entry) => e.timestamp > cutoff)
  }

  /** Timestamps never decrease along the history. */
  predicate Chronological(entries: seq<Entry>) {
    forall i, j :: 0 <= i < j < |entries| ==> entries[i].timestamp <= entries[j].timestamp
  }

  /** The (station, bike total) readings of a snapshot, the join's inputs. */
  function Readings(rows: seq<Feed.StationRow>): seq<Estimator.Reading> {
    seq(|rows|, i requires 0 <= i < |rows| => (rows[i].station, rows[i].total))
  }

  /** Pruning keeps exactly the entries younger than the cutoff, in their
      original relative order; so an entry older than the horizon never
      appears in a later window. */
  lemma RetainedSpec(entries: seq<Entry>, cutoff: int)
    ensures forall e :: e in Retained(entries, cutoff) <==> e in entries && e.timestamp > cutoff
    ensures forall e :: multiset(Retained(entries, cutoff))[e] ==
                        (if e.timestamp > cutoff then multiset(entries)[e] else 0)
    ensures SubsequenceOf(Retained(entries, cutoff), entries)
  {
    forall e ensures e in Retained(entries, cutoff) <==> e in entries && e.timestamp > cutoff {
      FilterMembership(entries, (e: Entry) => e.timestamp > cutoff, e);
    }
    forall e ensures multiset(Retained(entries, cutoff))[e] ==
      (if e.timestamp > cutoff then multiset(entries)[e] else 0)
    {
      FilterCount(entries, (e: Entry) => e.timestamp > cutoff, e);
    }
    FilterIsSubsequence(entries, (e: Entry) => e.timestamp > cutoff);
  }

  /** Retention is monotonic: pruning twice is pruning once at the later cutoff,
      so what one prune removed no later prune brings back. */
  lemma {:induction false} RetainedTwice(entries: seq<Entry>, c1: int, c2: int)
    ensures Retained(Retained(entries, c1), c2) == Retained(entries, if c1 < c2 then c2 else c1)
  {
    if entries != [] {
      RetainedTwice(entries[1..], c1, c2);
    }
  }

  /** In a chronological history, pruning drops a prefix of oldest entries. */
  lemma {:induction false} RetainedSuffix(entries: seq<Entry>, cutoff: int)
    requires Chronological(entries)
    ensures exists k :: 0 <= k <= |entries| && Retained(entries, cutoff) == entries[k..]
  {
    if entries == [] {
      assert Retained(entries, cutoff) == entries[0..];
    } else if entries[0].timestamp > cutoff {
      forall e | e in entries ensures e.timestamp > cutoff {
        var i :| 0 <= i < |entries| && entries[i] == e;
        assert entries[0].timestamp <= entries[i].timestamp;
      }
      RetainedAll(entries, cutoff);
      assert Retained(entries, cutoff) == entries[0..];
    } else {
      RetainedSuffix(entries[1..], cutoff);
      var k :| 0 <= k <= |entries[1..]| && Retained(entries[1..], cutoff) == entries[1..][k..];
      assert entries[1..][k..] == entries[k + 1..];
    }
  }

  lemma {:induction false} RetainedAll(entries: seq<Entry>, cutoff: int)
    requires forall e :: e in entries ==> e.timestamp > cutoff
    ensures Retained(entries, cutoff) == entries
  {
    if entries != [] {
      RetainedAll(entries[1..], cutoff);
    }
  }

  /** Under a clock that does not go backwards, a refresh keeps the history chronological. */
  lemma RefreshChronological(entries: seq<Entry>, cutoff: int, e: Entry)
    requires Chronological(entries)
    requires forall x :: x in entries ==> x.timestamp <= e.timestamp
    ensures Chronological(Retained(entries, cutoff) + [e])
  {
    RetainedSuffix(entries, cutoff);
    var k :| 0 <= k <= |entries| && Retained(entries, cutoff) == entries[k..];
    var tail := entries[k..];
    assert forall i :: 0 <= i < |tail| ==> tail[i] == entries[k + i];
    assert forall x :: x in tail ==> x in entries;
  }

  /** The snapshot history of one dashboard session. */
  class History {
    var entries: seq<Entry>

    /** A session starts without history. */
    constructor ()
      ensures entries == []
    {
      entries := [];
    }

    /** Records the snapshot taken at `now`. */
    method Append(now: int, data: seq<Feed.StationRow>)
      modifies this
      ensures entries == old(entries) + [Entry(now, data)]
    {
      entries := entries + [Entry(now, data)];
    }

    /** Drops every entry not strictly younger than one hour before `now`. */
    method Prune(now: int)
      modifies this
      ensures entries == Retained(old(entries), now - ONE_HOUR)
    {
      entries := Retained(entries, now - ONE_HOUR);
    }

    /** The reset button: the history is discarded. */
    method Clear()
      modifies this
      ensures entries == []
    {
      entries := [];
    }

    /** One refresh of the flux tab: record the current snapshot, prune to the
        last hour, and compare the oldest retained snapshot with the newest
        (the one just recorded); with fewer than two entries nothing is compared.
        The caller never refreshes with an empty live table. */
    method CalculateRealtimeFlux(now: int, current: seq<Feed.StationRow>) returns (flux: seq<Estimator.FluxRow>)
      requires current != []
      modifies this
      ensures entries == Retained(old(entries), now - ONE_HOUR) + [Entry(now, current)]
      ensures forall e :: e in entries ==> e.timestamp > now - ONE_HOUR
      ensures Chronological(old(entries)) && (forall e :: e in old(entries) ==> e.timestamp <= now) ==>
        Chronological(entries)
      ensures |entries| < 2 ==> flux == []
      ensures |entries| >= 2 ==> flux == Estimator.Flux(Readings(entries[0].data), Readings(current))
    {
      ghost var before := entries;
      Append(now, current);
      Prune(now);
      FilterAppend(before, Entry(now, current), (e: Entry) => e.timestamp > now - ONE_HOUR);
      RetainedSpec(before, now - ONE_HOUR);
      if Chronological(before) && (forall e :: e in before ==> e.timestamp <= now) {
        RefreshChronological(before, now - ONE_HOUR, Entry(now, current));
      }
      if |entries| < 2 {
        flux := [];
      } else {
        flux := Estimator.Flux(Readings(entries[0].data), Readings(entries[|entries| - 1].data));
      }
    }

    /** The reset button followed by the refresh it triggers: a single entry,
        so no movement is reported. */
    method ResetAndRefresh(now: int, current: seq<Feed.StationRow>) returns (flux: seq<Estimator.FluxRow>)
      requires current != []
      modifies this
      ensures entries == [Entry(now, current)]
      ensures flux == []
    {
      Clear();
      flux := CalculateRealtimeFlux(now, current);
    }
  }

  /** Three refreshes ten minutes apart see 10, then 7, then 12 bikes at one
      station: the table compares only the first and the last snapshot, so it
      reports a deposit of 2 and the withdrawal in between is invisible. */
  method TwoPointScenario()
  {
    var h := new History();
    var row := Feed.StationRow("Victoire", 10, 4, 6, 8, 44.83, -0.57, Feed.BLUE, Feed.SIZE_STOCKED);
    var flux := h.CalculateRealtimeFlux(0, [row]);
    assert flux == [];
    flux := h.CalculateRealtimeFlux(600, [row.(total := 7)]);
    flux := h.CalculateRealtimeFlux(1200, [row.(total := 12)]);
    assert h.entries[0].data == [row];
    assert Readings([row]) == [("Victoire", 10)];
    assert Readings([row.(total := 12)]) == [("Victoire", 12)];
    assert flux == [Estimator.FluxRow("Victoire", Estimator.Depot, 2, 10, 12, 2)];
  }
}
