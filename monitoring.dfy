/** The health classifiers and the per-tick reconciliation step of
    api/monitoring.py. Times are whole seconds; `now` is a parameter. */
module Monitoring {
  import opened Wrappers
  import opened Models
  import Decimal

  const SevenDays: int := 7 * 24 * 3600
  const FifteenMinutes: int := 15 * 60

  /** Python truthiness of an optional integer: present and non-zero. */
  predicate Truthy(x: Option<int>)
  {
    x.Some? && x.value != 0
  }

  /** The order ALIVE < DOWN < DEAD; UNKNOWN sits below and is never
      produced by either classifier. */
  function Severity(s: ServiceStatus): nat
  {
    match s
    case Unknown => 0
    case Alive => 1
    case Down => 2
    case Dead => 3
  }

  // ---------------------------------------------------------------------
  // Reference rule shared by both classifiers
  // ---------------------------------------------------------------------

  /** A grace threshold and a hard ceiling, both in seconds. */
  datatype Thresholds = Thresholds(downAfter: real, deadAfter: real)

  /** DEAD strictly past the ceiling (checked first), otherwise DOWN strictly
      past the grace threshold, otherwise ALIVE. */
  function Classify(elapsed: real, t: Thresholds): ServiceStatus
  {
    if elapsed > t.deadAfter then Dead
    else if elapsed > t.downAfter then Down
    else Alive
  }

  /** Classification only gets worse as time passes. */
  lemma ClassifyMonotone(e1: real, e2: real, t: Thresholds)
    requires e1 <= e2
    ensures Severity(Classify(e1, t)) <= Severity(Classify(e2, t))
  {
  }

  /** The fixed rule used when no cadence is known. */
  const DefaultThresholds := Thresholds(FifteenMinutes as real, SevenDays as real)

  // ---------------------------------------------------------------------
  // compute_status_from_heartbeats
  // ---------------------------------------------------------------------

  function StatusFromHeartbeats(lastHeartbeat: nat, medianInterval: Option<real>, now: nat): (r: ServiceStatus)
    ensures r != Unknown
    ensures r == Dead <==> now - lastHeartbeat > SevenDays
    ensures medianInterval.None? ==>
      (r == Down <==> FifteenMinutes < now - lastHeartbeat <= SevenDays) &&
      (r == Alive <==> now - lastHeartbeat <= FifteenMinutes)
    ensures medianInterval.Some? ==>
      (r == Alive <==> (now - lastHeartbeat) as real <= 2.0 * medianInterval.value && now - lastHeartbeat <= SevenDays)
  {
    var timeSinceUpdate := now - lastHeartbeat;
    if medianInterval.None? then
      if timeSinceUpdate > SevenDays then Dead
      else if timeSinceUpdate > FifteenMinutes then Down
      else Alive
    else if timeSinceUpdate > SevenDays then Dead
    else if timeSinceUpdate as real > 2.0 * medianInterval.value then Down
    else Alive
  }

  /** The thresholds the heartbeat classifier applies. */
  function HeartbeatThresholds(medianInterval: Option<real>): Thresholds
  {
    match medianInterval
    case None => DefaultThresholds
    case Some(m) => Thresholds(2.0 * m, SevenDays as real)
  }

  lemma HeartbeatsFollowReference(lastHeartbeat: nat, medianInterval: Option<real>, now: nat)
    ensures StatusFromHeartbeats(lastHeartbeat, medianInterval, now)
         == Classify((now - lastHeartbeat) as real, HeartbeatThresholds(medianInterval))
  {
  }

  lemma HeartbeatsMonotone(lastHeartbeat: nat, medianInterval: Option<real>, now1: nat, now2: nat)
    requires now1 <= now2
    ensures Severity(StatusFromHeartbeats(lastHeartbeat, medianInterval, now1))
         <= Severity(StatusFromHeartbeats(lastHeartbeat, medianInterval, now2))
  {
    HeartbeatsFollowReference(lastHeartbeat, medianInterval, now1);
    HeartbeatsFollowReference(lastHeartbeat, medianInterval, now2);
    ClassifyMonotone((now1 - lastHeartbeat) as real, (now2 - lastHeartbeat) as real, HeartbeatThresholds(medianInterval));
  }

  /** A zero median is not "no median": any silence below the ceiling is DOWN. */
  lemma ZeroMedianMeansDown(lastHeartbeat: nat, now: nat)
    requires 0 < now - lastHeartbeat <= SevenDays
    ensures StatusFromHeartbeats(lastHeartbeat, Some(0.0), now) == Down
  {
  }

  /** Beats at 0, 60, 120 and 180 s have median gap 60 s: ALIVE at 200 s,
      DOWN at 400 s, DEAD eight days later. */
  lemma RegularBeatsScenario()
    ensures StatusFromHeartbeats(180, Some(60.0), 200) == Alive
    ensures StatusFromHeartbeats(180, Some(60.0), 400) == Down
    ensures StatusFromHeartbeats(180, Some(60.0), 180 + 8 * 24 * 3600) == Dead
  {
  }

  // ---------------------------------------------------------------------
  // compute_status_from_config
  // ---------------------------------------------------------------------

  function StatusFromConfig(service: Service, now: nat): (r: ServiceStatus)
    ensures r != Unknown
    ensures service.updatedAt.None? ==> r == Down
  {
    if service.updatedAt.None? then Down
    else
      var timeSinceUpdate := now - service.updatedAt.value;
      if !Truthy(service.expectedPeriod) then
        if timeSinceUpdate > SevenDays then Dead
        else if timeSinceUpdate > FifteenMinutes then Down
        else Alive
      else
        var expectedPeriod := service.expectedPeriod.value;
        var deadAfter := if Truthy(service.deadAfter) then service.deadAfter.value else expectedPeriod * 7;
        if timeSinceUpdate > deadAfter then Dead
        else if timeSinceUpdate > expectedPeriod * 2 then Down
        else Alive
  }

  /** The thresholds the config classifier applies: twice the expected
      period, and `dead_after` or, when unset or zero, seven periods. */
  function ConfigThresholds(service: Service): (t: Thresholds)
    ensures Truthy(service.expectedPeriod) && !Truthy(service.deadAfter) ==>
      t.deadAfter == 7.0 * service.expectedPeriod.value as real
    ensures Truthy(service.expectedPeriod) && Truthy(service.deadAfter) ==>
      t.deadAfter == service.deadAfter.value as real
    ensures Truthy(service.expectedPeriod) ==> t.downAfter == 2.0 * service.expectedPeriod.value as real
    ensures !Truthy(service.expectedPeriod) ==> t == DefaultThresholds
  {
    if !Truthy(service.expectedPeriod) then DefaultThresholds
    else
      var expectedPeriod := service.expectedPeriod.value;
      var deadAfter := if Truthy(service.deadAfter) then service.deadAfter.value else expectedPeriod * 7;
      Thresholds((expectedPeriod * 2) as real, deadAfter as real)
  }

  lemma ConfigFollowsReference(service: Service, now: nat)
    requires service.updatedAt.Some?
    ensures StatusFromConfig(service, now)
         == Classify((now - service.updatedAt.value) as real, ConfigThresholds(service))
  {
  }

  lemma ConfigMonotone(service: Service, now1: nat, now2: nat)
    requires now1 <= now2
    ensures Severity(StatusFromConfig(service, now1)) <= Severity(StatusFromConfig(service, now2))
  {
    if service.updatedAt.Some? {
      var u := service.updatedAt.value;
      ConfigFollowsReference(service, now1);
      ConfigFollowsReference(service, now2);
      ClassifyMonotone((now1 - u) as real, (now2 - u) as real, ConfigThresholds(service));
    }
  }

  /** DEAD is checked before DOWN: past `dead_after` the service is DEAD even
      when `dead_after` is shorter than the grace period. */
  lemma ConfigDeadWins(service: Service, now: nat)
    requires service.updatedAt.Some? && Truthy(service.expectedPeriod) && Truthy(service.deadAfter)
    requires now - service.updatedAt.value > service.deadAfter.value
    ensures StatusFromConfig(service, now) == Dead
  {
  }

  /** expected_period = 300 and no dead_after: ALIVE at 600 s, DOWN at 650 s
      and still DOWN at exactly 2100 s (the test is strict), DEAD at 2101 s. */
  lemma ConfiguredPeriodScenario(key: string)
    ensures var s := NewService(key, 0).(expectedPeriod := Some(300));
      StatusFromConfig(s, 600) == Alive && StatusFromConfig(s, 650) == Down &&
      StatusFromConfig(s, 2100) == Down && StatusFromConfig(s, 2101) == Dead
  {
  }

  // ---------------------------------------------------------------------
  // Mode selection (check_all_services, lines 111-127)
  // ---------------------------------------------------------------------

  /** One entry of the heartbeat summary the store reports per service. */
  datatype HeartbeatStatus = HeartbeatStatus(lastHeartbeat: nat, medianInterval: Option<real>)

  /** `heartbeat_statuses.get(key)`. */
  function Lookup(statuses: map<string, HeartbeatStatus>, key: string): (r: Option<HeartbeatStatus>)
    ensures r.Some? <==> key in statuses
    ensures r.Some? ==> r.value == statuses[key]
  {
    if key in statuses then Some(statuses[key]) else None
  }

  /** A truthy expected period selects config mode; otherwise a missing
      heartbeat summary gives UNKNOWN and a present one the heartbeat
      classifier. */
  function ComputeStatus(service: Service, heartbeat: Option<HeartbeatStatus>, now: nat): (r: ServiceStatus)
    ensures r == Unknown <==> !Truthy(service.expectedPeriod) && heartbeat.None?
    ensures Truthy(service.expectedPeriod) ==> r == StatusFromConfig(service, now)
    ensures !Truthy(service.expectedPeriod) && heartbeat.Some? ==>
      r == StatusFromHeartbeats(heartbeat.value.lastHeartbeat, heartbeat.value.medianInterval, now)
  {
    if Truthy(service.expectedPeriod) then StatusFromConfig(service, now)
    else if heartbeat.None? then Unknown
    else StatusFromHeartbeats(heartbeat.value.lastHeartbeat, heartbeat.value.medianInterval, now)
  }

  /** Outside config mode the stored status and update time play no part. */
  lemma HeartbeatModeIgnoresRecord(s1: Service, s2: Service, heartbeat: Option<HeartbeatStatus>, now: nat)
    requires s1.expectedPeriod == s2.expectedPeriod && !Truthy(s1.expectedPeriod)
    ensures ComputeStatus(s1, heartbeat, now) == ComputeStatus(s2, heartbeat, now)
  {
  }

  // ---------------------------------------------------------------------
  // Alert messages (check_all_services, lines 136-147)
  // ---------------------------------------------------------------------

  /** The "last seen" value: the summary's last heartbeat, or else the
      service's `updated_at`, which the tick has just set to `now`. */
  function LastSeen(heartbeat: Option<HeartbeatStatus>, now: nat): nat
  {
    if heartbeat.Some? then heartbeat.value.lastHeartbeat else now
  }

  function BackOnlineText(serviceKey: string): string
  {
    "Service " + serviceKey + " is back online!"
  }

  function LostText(serviceKey: string, status: ServiceStatus, lastSeen: nat): string
  {
    "Service " + serviceKey + " is " + status.Value() + ". Last seen: " + Decimal.Format(lastSeen)
  }

  /** The message announcing a change to `status`: none for UNKNOWN. */
  function AlertMessage(serviceKey: string, status: ServiceStatus, lastSeen: nat): (m: Option<string>)
    ensures m.None? <==> status == Unknown
  {
    match status
    case Unknown => None
    case Alive => Some(BackOnlineText(serviceKey))
    case Down => Some(LostText(serviceKey, status, lastSeen))
    case Dead => Some(LostText(serviceKey, status, lastSeen))
  }

  /** What an alert message says, read back from its text. */
  datatype Alert = BackOnline | Lost(status: ServiceStatus, lastSeen: nat)

  const LastSeenLabel := ". Last seen: "

  function ParseAlertMessage(serviceKey: string, m: string): Option<Alert>
  {
    var head := "Service " + serviceKey + " is ";
    var word := |head|;
    var digits := word + 4 + |LastSeenLabel|;
    if m == BackOnlineText(serviceKey) then Some(BackOnline)
    else if |m| > digits && m[..word] == head && m[word + 4..digits] == LastSeenLabel
         && ParseStatus(m[word..word + 4]) in {Some(Down), Some(Dead)}
         && forall i :: digits <= i < |m| ==> Decimal.IsDigit(m[i])
    then Some(Lost(ParseStatus(m[word..word + 4]).value, Decimal.Parse(m[digits..])))
    else None
  }

  /** Where the parts of a DOWN or DEAD message sit in its text. */
  lemma LostTextLayout(serviceKey: string, status: ServiceStatus, lastSeen: nat)
    requires status in {Down, Dead}
    ensures var m, head := LostText(serviceKey, status, lastSeen), "Service " + serviceKey + " is ";
      var word := |head|;
      var digits := word + 4 + |LastSeenLabel|;
      |m| > digits && m != BackOnlineText(serviceKey) &&
      m[..word] == head && m[word..word + 4] == status.Value() &&
      m[word + 4..digits] == LastSeenLabel && m[digits..] == Decimal.Format(lastSeen)
  {
    var head := "Service " + serviceKey + " is ";
    var word := |head|;
    var m := LostText(serviceKey, status, lastSeen);
    assert m == head + status.Value() + LastSeenLabel + Decimal.Format(lastSeen);
    assert m[word] == 'd';
    assert BackOnlineText(serviceKey)[word] == 'b';
  }

  /** Every message names its target state and, for DOWN and DEAD, the last
      seen time: the text can be read back. */
  lemma AlertMessageReadsBack(serviceKey: string, status: ServiceStatus, lastSeen: nat)
    requires status != Unknown
    ensures ParseAlertMessage(serviceKey, AlertMessage(serviceKey, status, lastSeen).value)
         == Some(if status == Alive then BackOnline else Lost(status, lastSeen))
  {
    if status != Alive {
      LostTextLayout(serviceKey, status, lastSeen);
      StatusValueRoundTrip(status);
      Decimal.ParseFormat(lastSeen);
    }
  }

  /** Two changes with the same message have the same target state and, for
      DOWN and DEAD, the same last-seen time. */
  lemma AlertMessageInjective(serviceKey: string, s1: ServiceStatus, t1: nat, s2: ServiceStatus, t2: nat)
    requires s1 != Unknown && s2 != Unknown
    requires AlertMessage(serviceKey, s1, t1) == AlertMessage(serviceKey, s2, t2)
    ensures s1 == s2
    ensures s1 != Alive ==> t1 == t2
  {
    AlertMessageReadsBack(serviceKey, s1, t1);
    AlertMessageReadsBack(serviceKey, s2, t2);
  }

  // ---------------------------------------------------------------------
  // One tick of check_all_services, as functions of the snapshot
  // ---------------------------------------------------------------------

  /** `order` lists every key of `keys` exactly once (dict iteration order). */
  ghost predicate Enumerates(order: seq<string>, keys: set<string>)
  {
    (forall i, j :: 0 <= i < j < |order| ==> order[i] != order[j]) &&
    (forall k :: k in keys <==> k in order)
  }

  /** The status computed for every stored service at `now`. */
  function Verdicts(snapshot: map<string, Service>, statuses: map<string, HeartbeatStatus>, now: nat): map<string, ServiceStatus>
  {
    map k | k in snapshot :: ComputeStatus(snapshot[k], Lookup(statuses, k), now)
  }

  /** The record after reconciling it with `computed`: written only if the
      status differs, then with the new status and update time. */
  function Reconciled(service: Service, computed: ServiceStatus, now: nat): Service
  {
    if computed == service.status then service
    else service.(status := computed, updatedAt := Some(now))
  }

  /** The services whose verdict differs from their stored status. */
  function Changes(snapshot: map<string, Service>, verdicts: map<string, ServiceStatus>): map<string, ServiceStatus>
    requires snapshot.Keys <= verdicts.Keys
  {
    map k | k in snapshot && verdicts[k] != snapshot[k].status :: verdicts[k]
  }

  function ReconcileAll(snapshot: map<string, Service>, verdicts: map<string, ServiceStatus>, now: nat): map<string, Service>
    requires snapshot.Keys <= verdicts.Keys
  {
    map k | k in snapshot :: Reconciled(snapshot[k], verdicts[k], now)
  }

  /** The map a tick returns. */
  function StatusChanges(snapshot: map<string, Service>, statuses: map<string, HeartbeatStatus>, now: nat): map<string, ServiceStatus>
  {
    Changes(snapshot, Verdicts(snapshot, statuses, now))
  }

  /** The registry after a tick. */
  function AfterTick(snapshot: map<string, Service>, statuses: map<string, HeartbeatStatus>, now: nat): map<string, Service>
  {
    ReconcileAll(snapshot, Verdicts(snapshot, statuses, now), now)
  }

  /** The message each service would carry on a change to its verdict. */
  function Messages(snapshot: map<string, Service>, verdicts: map<string, ServiceStatus>,
                    statuses: map<string, HeartbeatStatus>, now: nat): map<string, Option<string>>
    requires snapshot.Keys <= verdicts.Keys
  {
    map k | k in snapshot :: AlertMessage(k, verdicts[k], LastSeen(Lookup(statuses, k), now))
  }

  /** The transition a change of `key` records. */
  function TransitionFor(snapshot: map<string, Service>, verdicts: map<string, ServiceStatus>,
                         messages: map<string, Option<string>>, key: string, now: nat): StateTransition
    requires key in snapshot && key in verdicts && key in messages
  {
    NewTransition(key, snapshot[key].status, verdicts[key], now).(alertMessage := messages[key])
  }

  /** The transitions a tick appends, in iteration order; `recorded` holds
      the keys for which the store writes the record (alerts enabled). */
  function TickTransitions(order: seq<string>, snapshot: map<string, Service>, verdicts: map<string, ServiceStatus>,
                           messages: map<string, Option<string>>, recorded: set<string>, now: nat): seq<StateTransition>
    requires snapshot.Keys <= verdicts.Keys && snapshot.Keys <= messages.Keys
    requires forall i :: 0 <= i < |order| ==> order[i] in snapshot
  {
    if |order| == 0 then []
    else
      var key := order[|order| - 1];
      TickTransitions(order[..|order| - 1], snapshot, verdicts, messages, recorded, now) +
      (if verdicts[key] != snapshot[key].status && key in recorded
       then [TransitionFor(snapshot, verdicts, messages, key, now)] else [])
  }

  /** Extending the iteration by one key appends that key's transition. */
  lemma TickTransitionsStep(order: seq<string>, i: nat, snapshot: map<string, Service>, verdicts: map<string, ServiceStatus>,
                            messages: map<string, Option<string>>, recorded: set<string>, now: nat)
    requires snapshot.Keys <= verdicts.Keys && snapshot.Keys <= messages.Keys
    requires i < |order|
    requires forall j :: 0 <= j < |order| ==> order[j] in snapshot
    ensures TickTransitions(order[..i + 1], snapshot, verdicts, messages, recorded, now)
         == TickTransitions(order[..i], snapshot, verdicts, messages, recorded, now) +
            (if verdicts[order[i]] != snapshot[order[i]].status && order[i] in recorded
             then [TransitionFor(snapshot, verdicts, messages, order[i], now)] else [])
  {
    assert order[..i + 1][..i] == order[..i];
  }

  /** The returned map names exactly the services whose computed status
      differs from the stored one, each with that computed status; every
      record afterwards holds its computed status, the unchanged ones are left
      as they were, and a change touches only the status and the update time. */
  lemma TickChangesExact(snapshot: map<string, Service>, statuses: map<string, HeartbeatStatus>, now: nat)
    ensures var changes, after := StatusChanges(snapshot, statuses, now), AfterTick(snapshot, statuses, now);
      after.Keys == snapshot.Keys && changes.Keys <= snapshot.Keys &&
      (forall k :: k in snapshot ==>
        (k in changes <==> ComputeStatus(snapshot[k], Lookup(statuses, k), now) != snapshot[k].status) &&
        after[k].status == ComputeStatus(snapshot[k], Lookup(statuses, k), now) &&
        (k in changes <==> after[k].status != snapshot[k].status) &&
        (k in changes ==> after[k].status == changes[k] && after[k].updatedAt == Some(now) &&
                          changes[k] == ComputeStatus(snapshot[k], Lookup(statuses, k), now)) &&
        (k !in changes ==> after[k] == snapshot[k]) &&
        after[k] == snapshot[k].(status := after[k].status, updatedAt := after[k].updatedAt))
  {
  }

  function KeysOf(log: seq<StateTransition>): (ks: seq<string>)
    ensures |ks| == |log| && forall i :: 0 <= i < |log| ==> ks[i] == log[i].serviceKey
  {
    if |log| == 0 then [] else KeysOf(log[..|log| - 1]) + [log[|log| - 1].serviceKey]
  }

  /** A tick records one transition for each changed service whose transition
      the store accepts, and nothing else: no key twice, each from the stored
      status to the computed one, not yet alerted, with its message. */
  lemma {:induction false} TickTransitionsExact(order: seq<string>, snapshot: map<string, Service>, verdicts: map<string, ServiceStatus>,
                                                messages: map<string, Option<string>>, recorded: set<string>, now: nat)
    requires snapshot.Keys <= verdicts.Keys && snapshot.Keys <= messages.Keys
    requires forall i, j :: 0 <= i < j < |order| ==> order[i] != order[j]
    requires forall i :: 0 <= i < |order| ==> order[i] in snapshot
    ensures var log := TickTransitions(order, snapshot, verdicts, messages, recorded, now);
      (forall k :: k in KeysOf(log) <==>
        k in order && k in recorded && k in Changes(snapshot, verdicts)) &&
      (forall i, j :: 0 <= i < j < |log| ==> log[i].serviceKey != log[j].serviceKey) &&
      (forall i :: 0 <= i < |log| ==>
        log[i].serviceKey in snapshot && log[i] == TransitionFor(snapshot, verdicts, messages, log[i].serviceKey, now))
  {
    if |order| > 0 {
      var init := order[..|order| - 1];
      TickTransitionsExact(init, snapshot, verdicts, messages, recorded, now);
      var key := order[|order| - 1];
      var prefix := TickTransitions(init, snapshot, verdicts, messages, recorded, now);
      var log := TickTransitions(order, snapshot, verdicts, messages, recorded, now);
      forall k
        ensures k in order <==> k in init || k == key
      {
        InInitOrLast(order, k);
      }
      assert key !in init;
      if verdicts[key] != snapshot[key].status && key in recorded {
        assert log == prefix + [TransitionFor(snapshot, verdicts, messages, key, now)];
        assert KeysOf(log) == KeysOf(prefix) + [key];
      } else {
        assert log == prefix;
      }
    }
  }

  /** The newest transition of `key` in the log. */
  function LastTransition(log: seq<StateTransition>, key: string): (r: Option<StateTransition>)
    ensures r.Some? ==> r.value in log && r.value.serviceKey == key
    ensures r.None? ==> forall i :: 0 <= i < |log| ==> log[i].serviceKey != key
  {
    if |log| == 0 then None
    else if log[|log| - 1].serviceKey == key then Some(log[|log| - 1])
    else LastTransition(log[..|log| - 1], key)
  }

  lemma {:induction false} LastTransitionAppend(log: seq<StateTransition>, more: seq<StateTransition>, key: string)
    ensures LastTransition(log + more, key)
         == if LastTransition(more, key).Some? then LastTransition(more, key) else LastTransition(log, key)
  {
    if |more| == 0 {
      assert log + more == log;
    } else {
      assert (log + more)[..|log + more| - 1] == log + more[..|more| - 1];
      LastTransitionAppend(log, more[..|more| - 1], key);
    }
  }

  /** The newest transition a tick records for `key` is its one transition,
      if it changed and the store accepts it. */
  lemma {:induction false} LastTransitionOfTick(order: seq<string>, snapshot: map<string, Service>, verdicts: map<string, ServiceStatus>,
                                                messages: map<string, Option<string>>, recorded: set<string>, now: nat, key: string)
    requires snapshot.Keys <= verdicts.Keys && snapshot.Keys <= messages.Keys
    requires forall i :: 0 <= i < |order| ==> order[i] in snapshot
    requires key in snapshot
    ensures LastTransition(TickTransitions(order, snapshot, verdicts, messages, recorded, now), key)
         == if key in order && key in recorded && verdicts[key] != snapshot[key].status
            then Some(TransitionFor(snapshot, verdicts, messages, key, now)) else None
  {
    if |order| > 0 {
      var init := order[..|order| - 1];
      var last := order[|order| - 1];
      LastTransitionOfTick(init, snapshot, verdicts, messages, recorded, now, key);
      var prefix := TickTransitions(init, snapshot, verdicts, messages, recorded, now);
      var changes := verdicts[last] != snapshot[last].status && last in recorded;
      var step := if changes then [TransitionFor(snapshot, verdicts, messages, last, now)] else [];
      assert TickTransitions(order, snapshot, verdicts, messages, recorded, now) == prefix + step;
      LastTransitionAppend(prefix, step, key);
      InInitOrLast(order, key);
      if changes {
        assert step[..0] == [];
        assert LastTransition(step, key) == if last == key then Some(step[0]) else None;
      } else {
        assert LastTransition(step, key) == None;
      }
    }
  }

  /** The transitions one tick appends to the log. */
  function TickLog(order: seq<string>, snapshot: map<string, Service>, statuses: map<string, HeartbeatStatus>,
                   recorded: set<string>, now: nat): seq<StateTransition>
    requires forall i :: 0 <= i < |order| ==> order[i] in snapshot
  {
    var verdicts := Verdicts(snapshot, statuses, now);
    TickTransitions(order, snapshot, verdicts, Messages(snapshot, verdicts, statuses, now), recorded, now)
  }

  /** A tick appends one transition for each changed service whose record the
      store writes, and nothing else: no key twice, each from the stored status
      to the computed one, at `now`, not yet alerted, with the alert message
      for the new status. */
  lemma TickLogExact(order: seq<string>, snapshot: map<string, Service>, statuses: map<string, HeartbeatStatus>,
                     recorded: set<string>, now: nat)
    requires Enumerates(order, snapshot.Keys)
    ensures var log, changes := TickLog(order, snapshot, statuses, recorded, now), StatusChanges(snapshot, statuses, now);
      (forall k :: k in KeysOf(log) <==> k in recorded && k in changes) &&
      (forall i, j :: 0 <= i < j < |log| ==> log[i].serviceKey != log[j].serviceKey) &&
      (forall i :: 0 <= i < |log| ==>
        var k := log[i].serviceKey;
        k in changes &&
        log[i] == StateTransition(None, k, snapshot[k].status, changes[k], now, false,
                                  AlertMessage(k, changes[k], LastSeen(Lookup(statuses, k), now))))
  {
    var verdicts := Verdicts(snapshot, statuses, now);
    TickTransitionsExact(order, snapshot, verdicts, Messages(snapshot, verdicts, statuses, now), recorded, now);
  }

  lemma InInitOrLast(order: seq<string>, key: string)
    requires |order| > 0
    ensures key in order <==> key in order[..|order| - 1] || key == order[|order| - 1]
  {
    PrefixGrows(order, |order| - 1);
    assert order[..|order|] == order;
  }

  /** A prefix one longer is the prefix and the next element. */
  lemma PrefixGrows(order: seq<string>, i: nat)
    requires i < |order|
    ensures order[..i + 1] == order[..i] + [order[i]]
    ensures forall k :: k in order[..i + 1] <==> k in order[..i] || k == order[i]
  {
    assert order[..i + 1] == order[..i] + [order[i]];
  }

  /** The log agrees with the registry: each service's newest transition
      ends in its current status. */
  ghost predicate LogTracks(log: seq<StateTransition>, services: map<string, Service>)
  {
    forall k :: k in services && LastTransition(log, k).Some? ==> LastTransition(log, k).value.toState == services[k].status
  }

  /** When every change is recorded, a tick keeps the log in step with the
      registry, and each new transition starts where the service's previous
      one ended (no gaps). */
  lemma TickKeepsLogInStep(order: seq<string>, snapshot: map<string, Service>, statuses: map<string, HeartbeatStatus>,
                           recorded: set<string>, now: nat, log: seq<StateTransition>)
    requires Enumerates(order, snapshot.Keys)
    requires StatusChanges(snapshot, statuses, now).Keys <= recorded
    requires LogTracks(log, snapshot)
    ensures var tick := TickLog(order, snapshot, statuses, recorded, now);
      LogTracks(log + tick, AfterTick(snapshot, statuses, now)) &&
      forall i :: 0 <= i < |tick| && LastTransition(log, tick[i].serviceKey).Some? ==>
        LastTransition(log, tick[i].serviceKey).value.toState == tick[i].fromState
  {
    var verdicts := Verdicts(snapshot, statuses, now);
    var messages := Messages(snapshot, verdicts, statuses, now);
    var tick := TickTransitions(order, snapshot, verdicts, messages, recorded, now);
    var after := AfterTick(snapshot, statuses, now);
    TickTransitionsExact(order, snapshot, verdicts, messages, recorded, now);
    forall k | k in after && LastTransition(log + tick, k).Some?
      ensures LastTransition(log + tick, k).value.toState == after[k].status
    {
      LastTransitionAppend(log, tick, k);
      LastTransitionOfTick(order, snapshot, verdicts, messages, recorded, now, k);
    }
  }

  /** Transitions in the log are in time order. */
  ghost predicate Chronological(log: seq<StateTransition>)
  {
    forall i, j :: 0 <= i < j < |log| ==> log[i].timestamp <= log[j].timestamp
  }

  lemma TickKeepsLogChronological(order: seq<string>, snapshot: map<string, Service>, statuses: map<string, HeartbeatStatus>,
                                  recorded: set<string>, now: nat, log: seq<StateTransition>)
    requires forall i, j :: 0 <= i < j < |order| ==> order[i] != order[j]
    requires forall i :: 0 <= i < |order| ==> order[i] in snapshot
    requires Chronological(log)
    requires forall i :: 0 <= i < |log| ==> log[i].timestamp <= now
    ensures Chronological(log + TickLog(order, snapshot, statuses, recorded, now))
  {
    var verdicts := Verdicts(snapshot, statuses, now);
    TickTransitionsExact(order, snapshot, verdicts, Messages(snapshot, verdicts, statuses, now), recorded, now);
  }

  /** Outside config mode a second tick at the same instant changes nothing:
      re-evaluation is idempotent. */
  lemma SecondTickIsQuiet(snapshot: map<string, Service>, statuses: map<string, HeartbeatStatus>, now: nat)
    requires forall k :: k in snapshot ==> !Truthy(snapshot[k].expectedPeriod)
    ensures StatusChanges(AfterTick(snapshot, statuses, now), statuses, now) == map[]
  {
    var after := AfterTick(snapshot, statuses, now);
    forall k | k in after
      ensures ComputeStatus(after[k], Lookup(statuses, k), now) == after[k].status
    {
      HeartbeatModeIgnoresRecord(after[k], snapshot[k], Lookup(statuses, k), now);
    }
  }

  /** In config mode the elapsed time is measured from `updated_at`, which the
      tick itself overwrites with `now` on a change. So a service with a
      positive period that goes DOWN or DEAD is computed ALIVE if it is
      evaluated again at the same instant. */
  lemma ConfigModeClockRestarts(snapshot: map<string, Service>, statuses: map<string, HeartbeatStatus>, now: nat, key: string)
    requires key in snapshot
    requires Truthy(snapshot[key].expectedPeriod) && snapshot[key].expectedPeriod.value > 0
    requires ConfigThresholds(snapshot[key]).deadAfter >= 0.0
    requires key in StatusChanges(snapshot, statuses, now)
    requires ComputeStatus(snapshot[key], Lookup(statuses, key), now) in {Down, Dead}
    ensures key in AfterTick(snapshot, statuses, now)
    ensures ComputeStatus(AfterTick(snapshot, statuses, now)[key], Lookup(statuses, key), now) == Alive
  {
    var after := AfterTick(snapshot, statuses, now);
    assert ConfigThresholds(after[key]) == ConfigThresholds(snapshot[key]);
    ConfigFollowsReference(after[key], now);
  }

  /** The registry part-way through a tick: the keys in `done` reconciled,
      the others untouched. */
  function PartialTick(snapshot: map<string, Service>, verdicts: map<string, ServiceStatus>, now: nat,
                       done: seq<string>): map<string, Service>
    requires snapshot.Keys <= verdicts.Keys
  {
    map k | k in snapshot :: if k in done then Reconciled(snapshot[k], verdicts[k], now) else snapshot[k]
  }

  /** The changes found part-way through a tick. */
  function PartialChanges(snapshot: map<string, Service>, verdicts: map<string, ServiceStatus>,
                          done: seq<string>): map<string, ServiceStatus>
    requires snapshot.Keys <= verdicts.Keys
  {
    map k | k in snapshot && k in done && verdicts[k] != snapshot[k].status :: verdicts[k]
  }

  /** Reconciling one more key updates the partial registry and changes at
      that key only. */
  lemma TickProgressStep(snapshot: map<string, Service>, verdicts: map<string, ServiceStatus>, now: nat,
                         order: seq<string>, i: nat)
    requires snapshot.Keys <= verdicts.Keys
    requires Enumerates(order, snapshot.Keys) && i < |order|
    ensures order[i] in snapshot
    ensures PartialTick(snapshot, verdicts, now, order[..i])[order[i]] == snapshot[order[i]]
    ensures PartialTick(snapshot, verdicts, now, order[..i + 1])
         == PartialTick(snapshot, verdicts, now, order[..i])[order[i] := Reconciled(snapshot[order[i]], verdicts[order[i]], now)]
    ensures PartialChanges(snapshot, verdicts, order[..i + 1])
         == if verdicts[order[i]] != snapshot[order[i]].status
            then PartialChanges(snapshot, verdicts, order[..i])[order[i] := verdicts[order[i]]]
            else PartialChanges(snapshot, verdicts, order[..i])
  {
    assert order[i] in order;
    PrefixGrows(order, i);
    assert order[i] !in order[..i];
  }

  lemma TickProgressDone(snapshot: map<string, Service>, verdicts: map<string, ServiceStatus>, now: nat, order: seq<string>)
    requires snapshot.Keys <= verdicts.Keys
    requires Enumerates(order, snapshot.Keys)
    ensures PartialTick(snapshot, verdicts, now, order) == ReconcileAll(snapshot, verdicts, now)
    ensures PartialChanges(snapshot, verdicts, order) == Changes(snapshot, verdicts)
  {
  }

  lemma TickProgressStart(snapshot: map<string, Service>, verdicts: map<string, ServiceStatus>, now: nat)
    requires snapshot.Keys <= verdicts.Keys
    ensures PartialTick(snapshot, verdicts, now, []) == snapshot
    ensures PartialChanges(snapshot, verdicts, []) == map[]
  {
  }

  /** One pass of the tick's loop, as `ReconcileService` performs it,
      keeps the loop's account of the registry and of the changes found. */
  lemma TickLoopRegistry(order: seq<string>, i: nat, snapshot: map<string, Service>,
                         verdicts: map<string, ServiceStatus>, statuses: map<string, HeartbeatStatus>, now: nat,
                         services: map<string, Service>, changes: map<string, ServiceStatus>,
                         services': map<string, Service>, changed: Option<ServiceStatus>)
    requires Enumerates(order, snapshot.Keys) && i < |order|
    requires verdicts == Verdicts(snapshot, statuses, now)
    requires services == PartialTick(snapshot, verdicts, now, order[..i])
    requires changes == PartialChanges(snapshot, verdicts, order[..i])
    requires order[i] in services
    requires var service := services[order[i]];
      var computed := ComputeStatus(service, Lookup(statuses, order[i]), now);
      changed == (if computed != service.status then Some(computed) else None) &&
      services' == services[order[i] := Reconciled(service, computed, now)]
    ensures services' == PartialTick(snapshot, verdicts, now, order[..i + 1])
    ensures (if changed.Some? then changes[order[i] := changed.value] else changes)
         == PartialChanges(snapshot, verdicts, order[..i + 1])
  {
    TickProgressStep(snapshot, verdicts, now, order, i);
  }

  /** One pass of the tick's loop, as `ReconcileService` performs it,
      appends to the log the transition the tick function names. */
  lemma TickLoopLog(order: seq<string>, i: nat, snapshot: map<string, Service>,
                    verdicts: map<string, ServiceStatus>, messages: map<string, Option<string>>,
                    statuses: map<string, HeartbeatStatus>, recorded: set<string>, now: nat,
                    log: seq<StateTransition>, services: map<string, Service>,
                    transitions: seq<StateTransition>, transitions': seq<StateTransition>)
    requires Enumerates(order, snapshot.Keys) && i < |order|
    requires verdicts == Verdicts(snapshot, statuses, now)
    requires messages == Messages(snapshot, verdicts, statuses, now)
    requires services == PartialTick(snapshot, verdicts, now, order[..i])
    requires transitions == log + TickTransitions(order[..i], snapshot, verdicts, messages, recorded, now)
    requires order[i] in services
    requires var key, service := order[i], services[order[i]];
      var computed := ComputeStatus(service, Lookup(statuses, key), now);
      transitions' == transitions +
        (if computed != service.status && key in recorded
         then [NewTransition(key, service.status, computed, now)
                 .(alertMessage := AlertMessage(key, computed, LastSeen(Lookup(statuses, key), now)))]
         else [])
    ensures transitions' == log + TickTransitions(order[..i + 1], snapshot, verdicts, messages, recorded, now)
  {
    var key := order[i];
    TickProgressStep(snapshot, verdicts, now, order, i);
    TickTransitionsStep(order, i, snapshot, verdicts, messages, recorded, now);
    assert AlertMessage(key, verdicts[key], LastSeen(Lookup(statuses, key), now)) == messages[key];
    var step := if verdicts[key] != snapshot[key].status && key in recorded
                then [TransitionFor(snapshot, verdicts, messages, key, now)] else [];
    assert transitions' == transitions + step;
    AppendAssociative(log, TickTransitions(order[..i], snapshot, verdicts, messages, recorded, now), step);
  }

  lemma AppendAssociative(a: seq<StateTransition>, b: seq<StateTransition>, c: seq<StateTransition>)
    ensures (a + b) + c == a + (b + c)
  {
  }

  // ---------------------------------------------------------------------
  // The store and check_all_services itself
  // ---------------------------------------------------------------------

  /** The service registry and the transition log, held in memory in place
      of the document store. */
  class ServiceStore {
    var services: map<string, Service>
    var transitions: seq<StateTransition>

    constructor ()
      ensures services == map[] && transitions == []
    {
      services := map[];
      transitions := [];
    }

    /** `record_state_transition`: the store writes a fresh, not yet alerted
        record when `enabled` (alerts on), and otherwise writes nothing. */
    method RecordStateTransition(serviceKey: string, fromState: ServiceStatus, toState: ServiceStatus,
                                 alertMessage: Option<string>, enabled: bool, now: nat)
      returns (t: Option<StateTransition>)
      modifies this
      ensures t.Some? <==> enabled
      ensures t.Some? ==> t.value == NewTransition(serviceKey, fromState, toState, now).(alertMessage := alertMessage)
      ensures services == old(services)
      ensures transitions == old(transitions) +
        (if enabled then [NewTransition(serviceKey, fromState, toState, now).(alertMessage := alertMessage)] else [])
    {
      if enabled {
        var record := NewTransition(serviceKey, fromState, toState, now).(alertMessage := alertMessage);
        transitions := transitions + [record];
        t := Some(record);
      } else {
        t := None;
      }
    }

    /** The body of the tick for one service (lines 107-166): compute the
        status, and on a change write the record, compose the message and
        record the transition when `alertsEnabled`. Returns the new status
        when it changed. */
    method ReconcileService(serviceKey: string, heartbeatStatus: Option<HeartbeatStatus>, alertsEnabled: bool, now: nat)
      returns (changed: Option<ServiceStatus>)
      requires serviceKey in services
      modifies this
      ensures var service := old(services)[serviceKey];
        var computed := ComputeStatus(service, heartbeatStatus, now);
        changed == (if computed != service.status then Some(computed) else None) &&
        services == old(services)[serviceKey := Reconciled(service, computed, now)] &&
        transitions == old(transitions) +
          (if computed != service.status && alertsEnabled
           then [NewTransition(serviceKey, service.status, computed, now)
                   .(alertMessage := AlertMessage(serviceKey, computed, LastSeen(heartbeatStatus, now)))]
           else [])
    {
      var service := services[serviceKey];
      var currentStatus := service.status;
      var computedStatus := ComputeStatus(service, heartbeatStatus, now);
      if computedStatus != currentStatus {
        services := services[serviceKey := service.(status := computedStatus, updatedAt := Some(now))];
        var alertMessage := AlertMessage(serviceKey, computedStatus, LastSeen(heartbeatStatus, now));
        var transition := RecordStateTransition(serviceKey, currentStatus, computedStatus, alertMessage, alertsEnabled, now);
        changed := Some(computedStatus);
      } else {
        changed := None;
      }
    }

    /** One iteration of the tick's loop: reconcile `order[i]`, keeping the
        loop's account of the registry, the changes and the log. */
    method ReconcileNext(order: seq<string>, i: nat, statuses: map<string, HeartbeatStatus>, recorded: set<string>,
                         now: nat, changes: map<string, ServiceStatus>,
                         ghost snapshot: map<string, Service>, ghost verdicts: map<string, ServiceStatus>,
                         ghost messages: map<string, Option<string>>, ghost log: seq<StateTransition>)
      returns (changes': map<string, ServiceStatus>)
      requires Enumerates(order, snapshot.Keys) && i < |order|
      requires verdicts == Verdicts(snapshot, statuses, now)
      requires messages == Messages(snapshot, verdicts, statuses, now)
      requires services == PartialTick(snapshot, verdicts, now, order[..i])
      requires changes == PartialChanges(snapshot, verdicts, order[..i])
      requires transitions == log + TickTransitions(order[..i], snapshot, verdicts, messages, recorded, now)
      modifies this
      ensures services == PartialTick(snapshot, verdicts, now, order[..i + 1])
      ensures changes' == PartialChanges(snapshot, verdicts, order[..i + 1])
      ensures transitions == log + TickTransitions(order[..i + 1], snapshot, verdicts, messages, recorded, now)
    {
      var serviceKey := order[i];
      TickProgressStep(snapshot, verdicts, now, order, i);
      ghost var servicesBefore, transitionsBefore := services, transitions;
      var changed := ReconcileService(serviceKey, Lookup(statuses, serviceKey), serviceKey in recorded, now);
      changes' := changes;
      if changed.Some? {
        changes' := changes[serviceKey := changed.value];
      }
      TickLoopRegistry(order, i, snapshot, verdicts, statuses, now, servicesBefore, changes, services, changed);
      TickLoopLog(order, i, snapshot, verdicts, messages, statuses, recorded, now, log,
                  servicesBefore, transitionsBefore, transitions);
    }

    /** One monitor tick over every stored service, in the order `order`.
        `statuses` is the heartbeat summary per key and `recorded` the keys
        whose transitions the store writes. */
    method CheckAllServices(order: seq<string>, statuses: map<string, HeartbeatStatus>, recorded: set<string>, now: nat)
      returns (changes: map<string, ServiceStatus>)
      requires Enumerates(order, services.Keys)
      modifies this
      ensures changes == StatusChanges(old(services), statuses, now)
      ensures services == AfterTick(old(services), statuses, now)
      ensures transitions == old(transitions) + TickLog(order, old(services), statuses, recorded, now)
    {
      ghost var snapshot := services;
      ghost var verdicts := Verdicts(snapshot, statuses, now);
      ghost var messages := Messages(snapshot, verdicts, statuses, now);
      ghost var log := transitions;
      TickProgressStart(snapshot, verdicts, now);
      changes := map[];
      var i := 0;
      while i < |order|
        invariant 0 <= i <= |order|
        invariant services == PartialTick(snapshot, verdicts, now, order[..i])
        invariant changes == PartialChanges(snapshot, verdicts, order[..i])
        invariant transitions == log + TickTransitions(order[..i], snapshot, verdicts, messages, recorded, now)
      {
        changes := ReconcileNext(order, i, statuses, recorded, now, changes, snapshot, verdicts, messages, log);
        i := i + 1;
      }
      assert order[..|order|] == order;
      TickProgressDone(snapshot, verdicts, now, order);
    }
  }
}
