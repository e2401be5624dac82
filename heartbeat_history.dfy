/** The heartbeat history of archive/api/db.py: every beat is kept as a
    record, and a service's health is summarised from its beats, newest
    first: the last beat, a three-way state by the time since it, and the
    median of the gaps between adjacent beats that are shorter than an hour.
    Timestamps are whole seconds and `now` is a parameter. */
module HeartbeatHistory {
  import opened Wrappers
  import Models
  import Sorting
  import Statistics

  const OneHour: int := 3600
  const OneDay: int := 24 * 3600

  /** One stored heartbeat document. */
  datatype Heartbeat = Heartbeat(serviceKey: string, timestamp: nat, metadata: Option<Models.Metadata>)

  /** The summary's state field. */
  datatype HealthState = Ok | Down | Dead {
    function Value(): string
    {
      match this
      case Ok => "ok"
      case Down => "down"
      case Dead => "dead"
    }
  }

  /** The summary `get_service_status` returns. */
  datatype HealthSummary = HealthSummary(serviceKey: string, lastHeartbeat: nat, state: HealthState,
                                         medianInterval: real, metadata: Models.Metadata)

  // ---------------------------------------------------------------------
  // The state thresholds (lines 47-53)
  // ---------------------------------------------------------------------

  /** DEAD strictly past a day, DOWN strictly past an hour, OK otherwise. */
  function StateFor(elapsed: int): (r: HealthState)
    ensures r == Dead <==> elapsed > OneDay
    ensures r == Down <==> OneHour < elapsed <= OneDay
    ensures r == Ok <==> elapsed <= OneHour
  {
    if elapsed > OneDay then Dead
    else if elapsed > OneHour then Down
    else Ok
  }

  /** The severity order OK < DOWN < DEAD. */
  function Rank(s: HealthState): nat
  {
    match s
    case Ok => 0
    case Down => 1
    case Dead => 2
  }

  /** The state only gets worse as the silence grows. */
  lemma StateMonotone(e1: int, e2: int)
    requires e1 <= e2
    ensures Rank(StateFor(e1)) <= Rank(StateFor(e2))
  {
  }

  // ---------------------------------------------------------------------
  // The query: the service's beats, newest first (lines 35-38)
  // ---------------------------------------------------------------------

  function Timestamp(h: Heartbeat): int
  {
    h.timestamp
  }

  /** The records of one service, in storage order. */
  function ForService(records: seq<Heartbeat>, serviceKey: string): (r: seq<Heartbeat>)
    ensures |r| <= |records|
    ensures forall h :: h in r <==> h in records && h.serviceKey == serviceKey
  {
    if |records| == 0 then []
    else
      var last := records[|records| - 1];
      assert forall h :: h in records <==> h in records[..|records| - 1] || h == last by {
        assert records == records[..|records| - 1] + [last];
      }
      ForService(records[..|records| - 1], serviceKey) + (if last.serviceKey == serviceKey then [last] else [])
  }

  /** Each record of the service is kept as often as it is stored, and no
      other record is kept. */
  lemma {:induction false} ForServiceCounts(records: seq<Heartbeat>, serviceKey: string)
    ensures forall h ::
      multiset(ForService(records, serviceKey))[h] == if h.serviceKey == serviceKey then multiset(records)[h] else 0
  {
    if |records| > 0 {
      var init, last := records[..|records| - 1], records[|records| - 1];
      ForServiceCounts(init, serviceKey);
      assert records == init + [last];
      assert multiset(records) == multiset(init) + multiset{last};
    }
  }

  /** Records that all belong to the service are all kept, in order. */
  lemma {:induction false} ForServiceAll(records: seq<Heartbeat>, serviceKey: string)
    requires forall i :: 0 <= i < |records| ==> records[i].serviceKey == serviceKey
    ensures ForService(records, serviceKey) == records
  {
    if |records| > 0 {
      ForServiceAll(records[..|records| - 1], serviceKey);
      assert records == records[..|records| - 1] + [records[|records| - 1]];
    }
  }

  /** `find({"service_key": key}).sort("timestamp", -1)`: the service's
      records, newest first. Ties keep no particular order in the store; here
      they keep a fixed one. */
  function NewestFirst(records: seq<Heartbeat>, serviceKey: string): (r: seq<Heartbeat>)
    ensures multiset(r) == multiset(ForService(records, serviceKey))
    ensures Sorting.Descending(r, Timestamp)
  {
    Sorting.SortDescSorted(ForService(records, serviceKey), Timestamp);
    Sorting.SortDesc(ForService(records, serviceKey), Timestamp)
  }

  // ---------------------------------------------------------------------
  // The gap filter (lines 55-62) and the median (line 64)
  // ---------------------------------------------------------------------

  /** The gap between the beat at `i - 1` and the one at `i`. */
  function Gap(beats: seq<Heartbeat>, i: nat): int
    requires 1 <= i < |beats|
  {
    beats[i - 1].timestamp - beats[i].timestamp
  }

  /** The gaps shorter than an hour, in the order the loop appends them. */
  function KeptIntervals(beats: seq<Heartbeat>): (r: seq<int>)
    ensures |beats| > 0 ==> |r| <= |beats| - 1
    ensures |beats| == 0 ==> r == []
    ensures forall j :: 0 <= j < |r| ==> r[j] < OneHour
  {
    if |beats| <= 1 then []
    else
      var gap := Gap(beats, |beats| - 1);
      KeptIntervals(beats[..|beats| - 1]) + (if gap < OneHour then [gap] else [])
  }

  /** Looking at one more beat keeps one more gap, if it is short. */
  lemma KeptIntervalsStep(beats: seq<Heartbeat>, i: nat)
    requires 1 <= i < |beats|
    ensures KeptIntervals(beats[..i + 1])
         == KeptIntervals(beats[..i]) + (if Gap(beats, i) < OneHour then [Gap(beats, i)] else [])
  {
    assert beats[..i + 1][..i] == beats[..i];
  }

  /** The loop of lines 56-62: walk the newest-first list and append every
      gap between neighbours that is shorter than an hour. */
  method KeepShortGaps(beats: seq<Heartbeat>) returns (intervals: seq<int>)
    ensures intervals == KeptIntervals(beats)
  {
    intervals := [];
    if |beats| == 0 {
      return;
    }
    var i := 1;
    while i < |beats|
      invariant 1 <= i <= |beats|
      invariant intervals == KeptIntervals(beats[..i])
    {
      var interval := beats[i - 1].timestamp - beats[i].timestamp;
      if interval < OneHour {
        intervals := intervals + [interval];
      }
      KeptIntervalsStep(beats, i);
      i := i + 1;
    }
    assert beats[..i] == beats;
  }

  /** A kept interval is exactly a gap between adjacent beats that is shorter
      than an hour. */
  lemma {:induction false} KeptIntervalsAreShortGaps(beats: seq<Heartbeat>, x: int)
    ensures x in KeptIntervals(beats) <==> x < OneHour && exists i :: 1 <= i < |beats| && x == Gap(beats, i)
  {
    if |beats| > 1 {
      var init := beats[..|beats| - 1];
      KeptIntervalsAreShortGaps(init, x);
      assert forall i :: 1 <= i < |init| ==> Gap(init, i) == Gap(beats, i);
      if x < OneHour && exists i :: 1 <= i < |beats| && x == Gap(beats, i) {
        var i :| 1 <= i < |beats| && x == Gap(beats, i);
        if i < |init| {
          assert Gap(init, i) == x;
        }
      }
    }
  }

  /** On a newest-first list every kept interval is non-negative. */
  lemma KeptIntervalsNonNegative(beats: seq<Heartbeat>)
    requires Sorting.Descending(beats, Timestamp)
    ensures forall j :: 0 <= j < |KeptIntervals(beats)| ==> KeptIntervals(beats)[j] >= 0
  {
    var r := KeptIntervals(beats);
    forall j | 0 <= j < |r|
      ensures r[j] >= 0
    {
      KeptIntervalsAreShortGaps(beats, r[j]);
      var i :| 1 <= i < |beats| && r[j] == Gap(beats, i);
      assert Timestamp(beats[i - 1]) >= Timestamp(beats[i]);
    }
  }

  /** `median(intervals) if intervals else 0`. */
  function MedianInterval(intervals: seq<int>): real
  {
    if |intervals| == 0 then 0.0 else Statistics.Median(intervals)
  }

  /** The median of intervals in [0, 3600) lies in [0, 3600), and splits
      them: at least half are at most it and at least half at least it. */
  lemma MedianIntervalBounds(intervals: seq<int>)
    requires forall j :: 0 <= j < |intervals| ==> 0 <= intervals[j] < OneHour
    ensures 0.0 <= MedianInterval(intervals) < OneHour as real
    ensures |intervals| > 0 ==>
      Statistics.SeqMin(intervals) as real <= MedianInterval(intervals) <= Statistics.SeqMax(intervals) as real &&
      2 * Statistics.CountWhere(intervals, Statistics.AtMost(MedianInterval(intervals))) >= |intervals| &&
      2 * Statistics.CountWhere(intervals, Statistics.AtLeast(MedianInterval(intervals))) >= |intervals|
  {
    if |intervals| > 0 {
      Statistics.MedianBetween(intervals);
      Statistics.MedianSplitsHalves(intervals);
    }
  }

  // ---------------------------------------------------------------------
  // get_service_status as a function of the stored records
  // ---------------------------------------------------------------------

  /** The summary of `serviceKey`'s beats at `now`, or none when it has no
      beats. */
  function Summarize(records: seq<Heartbeat>, serviceKey: string, now: nat): (r: Option<HealthSummary>)
    ensures r.None? <==> ForService(records, serviceKey) == []
  {
    var beats := NewestFirst(records, serviceKey);
    if |beats| == 0 then None
    else
      var last := beats[0].timestamp;
      Some(HealthSummary(serviceKey, last, StateFor(now - last), MedianInterval(KeptIntervals(beats)),
                         beats[0].metadata.GetOr(map[])))
  }

  /** There is no summary exactly when no record belongs to the service. */
  lemma NoSummaryWithoutBeats(records: seq<Heartbeat>, serviceKey: string, now: nat)
    ensures Summarize(records, serviceKey, now).None? <==>
      forall i :: 0 <= i < |records| ==> records[i].serviceKey != serviceKey
  {
    var beats := ForService(records, serviceKey);
    if beats != [] {
      assert beats[0] in beats;
    } else {
      assert forall i :: 0 <= i < |records| ==> records[i] !in beats;
    }
  }

  /** The head of the newest-first list is at least as late as every record
      of the service. */
  lemma NewestIsLatest(records: seq<Heartbeat>, serviceKey: string)
    requires NewestFirst(records, serviceKey) != []
    ensures forall h :: h in records && h.serviceKey == serviceKey ==>
      h.timestamp <= NewestFirst(records, serviceKey)[0].timestamp
  {
    var beats := NewestFirst(records, serviceKey);
    forall h | h in records && h.serviceKey == serviceKey
      ensures h.timestamp <= beats[0].timestamp
    {
      assert h in multiset(beats);
      var j :| 0 <= j < |beats| && beats[j] == h;
      if j > 0 {
        assert Timestamp(beats[0]) >= Timestamp(beats[j]);
      }
    }
  }

  /** The summary's last heartbeat is the latest timestamp among the
      service's records, its state is judged by the time since then, and its
      metadata is that of a record at that time (empty when the record has
      none). */
  lemma SummaryReportsNewest(records: seq<Heartbeat>, serviceKey: string, now: nat)
    requires Summarize(records, serviceKey, now).Some?
    ensures var s := Summarize(records, serviceKey, now).value;
      s.serviceKey == serviceKey &&
      s.state == StateFor(now - s.lastHeartbeat) &&
      (forall h :: h in records && h.serviceKey == serviceKey ==> h.timestamp <= s.lastHeartbeat) &&
      (exists h :: h in records && h.serviceKey == serviceKey && h.timestamp == s.lastHeartbeat &&
         s.metadata == (if h.metadata.Some? then h.metadata.value else map[]))
  {
    var beats := NewestFirst(records, serviceKey);
    assert beats[0] in multiset(ForService(records, serviceKey));
    NewestIsLatest(records, serviceKey);
  }

  /** Fewer gaps are kept than the service has beats; the summary's median
      is 0 when no gap survives the filter, and otherwise the median of the
      kept gaps; either way it lies in [0, 3600). */
  lemma SummaryMedianBounds(records: seq<Heartbeat>, serviceKey: string, now: nat)
    requires Summarize(records, serviceKey, now).Some?
    ensures var s, kept := Summarize(records, serviceKey, now).value, KeptIntervals(NewestFirst(records, serviceKey));
      |kept| < |ForService(records, serviceKey)| &&
      (|kept| == 0 ==> s.medianInterval == 0.0) &&
      (|kept| > 0 ==> s.medianInterval == Statistics.Median(kept)) &&
      0.0 <= s.medianInterval < OneHour as real
  {
    var beats := NewestFirst(records, serviceKey);
    KeptIntervalsNonNegative(beats);
    MedianIntervalBounds(KeptIntervals(beats));
  }

  /** Four beats 60 s apart, the last at `t + 180`, as the store lists them
      newest first. */
  function RegularBeats(key: string, t: nat): seq<Heartbeat>
  {
    [Heartbeat(key, t + 180, None), Heartbeat(key, t + 120, None), Heartbeat(key, t + 60, None), Heartbeat(key, t, None)]
  }

  lemma RegularBeatsSorted(key: string, t: nat)
    ensures NewestFirst(RegularBeats(key, t), key) == RegularBeats(key, t)
  {
    var beats := RegularBeats(key, t);
    ForServiceAll(beats, key);
    Sorting.DescendingFromAdjacent(beats, Timestamp);
    Sorting.SortDescKeepsDescending(beats, Timestamp);
  }

  lemma RegularBeatsGaps(key: string, t: nat)
    ensures |KeptIntervals(RegularBeats(key, t))| == 3
    ensures forall j :: 0 <= j < 3 ==> KeptIntervals(RegularBeats(key, t))[j] == 60
  {
    var beats := RegularBeats(key, t);
    assert KeptIntervals(beats[..2]) == [60];
    assert KeptIntervals(beats[..3]) == [60, 60];
    assert KeptIntervals(beats) == [60, 60, 60];
  }

  /** Beats every 60 s: 20 s after the last one the service is OK, last seen
      then, with median gap 60 s. */
  lemma RegularBeatsScenario(key: string, t: nat)
    ensures Summarize(RegularBeats(key, t), key, t + 200) == Some(HealthSummary(key, t + 180, Ok, 60.0, map[]))
  {
    RegularBeatsSorted(key, t);
    RegularBeatsGaps(key, t);
    Statistics.MedianOfEqual(KeptIntervals(RegularBeats(key, t)), 60);
  }

  // ---------------------------------------------------------------------
  // The heartbeat collection
  // ---------------------------------------------------------------------

  /** The heartbeats collection, held in memory in place of the document
      store. */
  class HeartbeatLog {
    var records: seq<Heartbeat>

    constructor ()
      ensures records == []
    {
      records := [];
    }

    /** `store_heartbeat`: appends exactly one record, with `{}` for absent
        metadata, and leaves the existing ones untouched. */
    method StoreHeartbeat(serviceKey: string, timestamp: nat, metadata: Option<Models.Metadata>)
      modifies this
      ensures records == old(records) + [Heartbeat(serviceKey, timestamp, Some(metadata.GetOr(map[])))]
    {
      records := records + [Heartbeat(serviceKey, timestamp, Some(metadata.GetOr(map[])))];
    }

    /** `get_service_status`: the summary of `serviceKey` at `now`, with the
        gap filter as the source's loop. */
    method GetServiceStatus(serviceKey: string, now: nat) returns (r: Option<HealthSummary>)
      ensures r == Summarize(records, serviceKey, now)
    {
      var serviceHeartbeats := NewestFirst(records, serviceKey);
      if |serviceHeartbeats| == 0 {
        return None;
      }
      var lastHeartbeat := serviceHeartbeats[0].timestamp;
      var timeSinceLast := now - lastHeartbeat;
      var state := StateFor(timeSinceLast);
      var intervals := KeepShortGaps(serviceHeartbeats);
      var medianInterval := MedianInterval(intervals);
      r := Some(HealthSummary(serviceKey, lastHeartbeat, state, medianInterval,
                              serviceHeartbeats[0].metadata.GetOr(map[])));
    }
  }
}
