/** The decision protocol for group join requests: manual and automatic attempts under leases,
    retried completions, recovery of expired leases, external observation and replay.

    The database and the gateway's history form one `State`; every store transaction, gateway
    call and crash is one step, and a run is any sequence of steps, which covers every
    interleaving of the service's goroutines and processes. */
module JoinRequests {
  import opened Wrappers

  type RequestID = nat

  datatype Status = Pending | Processing | Approved | Rejected | ExternalProcessed | Unknown

  datatype Action = Approve | Reject

  datatype Source = Manual | Automatic

  datatype AttemptStatus = Started | Confirmed | Failed | Indefinite

  // What the gateway reports; None is a result that does not validate.
  datatype Outcome = ConfirmedOutcome | FailedOutcome | UnknownOutcome | UnavailableOutcome

  datatype Request = Request(status: Status, revision: nat, group: string, last: Option<nat>, leaseEnds: int)

  // An attempt; its position in the append-only table is its identity.  `payload` stands for
  // the actor, reason, rule version and snapshots that a replay must repeat.
  datatype Decision = Decision(
    request: RequestID, action: Action, source: Source, status: AttemptStatus, key: string, payload: string, code: string)

  datatype Completion = Completion(attempt: AttemptStatus, status: Status, code: string)

  // What the process still owes an attempt: the gateway call, or storing its completion.
  datatype Task = Reserved | Completing(completion: Completion)

  datatype Call = Call(decision: nat, outcome: Option<Outcome>)

  datatype State = State(
    requests: map<RequestID, Request>, decisions: seq<Decision>, tasks: map<nat, Task>, calls: seq<Call>)

  datatype Item = Item(id: RequestID, version: nat)

  datatype BeginMutation = BeginMutation(
    group: string, items: seq<Item>, action: Action, source: Source, key: string, payload: string, leaseEnds: int)

  // `Unavailable` is a reservation that did not reach the service, whether it was stored or not.
  datatype StoreError = NotFound | Conflict | IdempotencyConflict | Unavailable

  datatype Step =
    | Arrive(id: RequestID, group: string, processed: bool)
    | Observe(id: RequestID)
    // `policyAllows` is the outcome of locking the policy for an automatic decision;
    // `delivered` tells whether the reservation reached the service.
    | Begin(mutation: BeginMutation, policyAllows: bool, delivered: bool)
    | Decide(decision: nat, outcome: Option<Outcome>, code: string)
    | Skip(decision: nat, code: string)
    // Storing the completion of a task; `acked` tells whether the service saw it succeed.
    | Complete(decision: nat, acked: bool)
    // Recovering one request; the store's batch is a run of these steps.
    | Recover(id: RequestID, expiredBefore: int)
    | Crash

  const EMPTY := State(map[], [], map[], [])

  // ---------------------------------------------------------------------------------------
  // The service's pure decisions

  function OutcomeStatuses(outcome: Outcome, action: Action): (AttemptStatus, Status) {
    match outcome
    case ConfirmedOutcome => (Confirmed, if action == Approve then Approved else Rejected)
    case UnknownOutcome => (Indefinite, Unknown)
    case FailedOutcome => (Failed, Pending)
    case UnavailableOutcome => (Failed, Pending)
  }

  /** The completion `execute` stores after the gateway answered: an answer that does not
      validate counts as unknown, and an automatic decision never goes back to pending. */
  function CompletionAfter(d: Decision, outcome: Option<Outcome>, code: string): Completion {
    var external := if outcome.Some? then outcome.value else UnknownOutcome;
    var reported := if outcome.Some? then code else "invalid_gateway_result";
    if d.source == Automatic && external != ConfirmedOutcome then Completion(Indefinite, Unknown, reported)
    else
      var (attempt, status) := OutcomeStatuses(external, d.action);
      Completion(attempt, status, reported)
  }

  /** A request seen handled elsewhere is no longer open or unknown; decided ones and those with an
      attempt under way stay as they are. */
  function MergeObservedDecisionStatus(current: Status, checked: bool): (merged: Status)
    ensures checked ==> merged != Pending && merged != Unknown
    ensures merged == current || (checked && merged == ExternalProcessed)
    ensures current == Processing || current == Approved || current == Rejected ==> merged == current
  {
    if checked && (current == Pending || current == Unknown) then ExternalProcessed else current
  }

  // ---------------------------------------------------------------------------------------
  // The store's transactions

  predicate ItemPending(s: State, m: BeginMutation, item: Item) {
    item.id in s.requests &&
    var q := s.requests[item.id];
    q.revision == item.version && q.status == Pending && (m.group != "" ==> q.group == m.group)
  }

  predicate DistinctItems(items: seq<Item>) {
    forall i, j :: 0 <= i < j < |items| ==> items[i].id != items[j].id
  }

  function IDs(items: seq<Item>): set<RequestID> {
    set item | item in items :: item.id
  }

  /** The attempts that an earlier use of the idempotency key left on these requests. */
  function PriorUse(s: State, m: BeginMutation): set<nat> {
    set d | 0 <= d < |s.decisions| && s.decisions[d].key == m.key && s.decisions[d].request in IDs(m.items)
  }

  predicate SameMutation(d: Decision, m: BeginMutation) {
    d.action == m.action && d.source == m.source && d.payload == m.payload
  }

  function BeginOne(s: State, m: BeginMutation, id: RequestID, delivered: bool): State
    requires id in s.requests
  {
    var n := |s.decisions|;
    s.(decisions := s.decisions + [Decision(id, m.action, m.source, Started, m.key, m.payload, "")],
       requests := s.requests[id := s.requests[id].(status := Processing, revision := s.requests[id].revision + 1,
                                                    last := Some(n), leaseEnds := m.leaseEnds)],
       tasks := if delivered then s.tasks[n := Reserved] else s.tasks)
  }

  function BeginAll(s: State, m: BeginMutation, items: seq<Item>, delivered: bool): State
    requires forall item :: item in items ==> item.id in s.requests
    decreases |items|
  {
    if items == [] then s
    else BeginAll(BeginOne(s, m, items[0].id, delivered), m, items[1..], delivered)
  }

  /** BeginDecisions.  Ok(true) is a replay, which changes nothing; an error rolls back. */
  function BeginDecisions(s: State, m: BeginMutation, policyAllows: bool, delivered: bool): (State, Result<bool, StoreError>) {
    if m.source == Automatic && !policyAllows then (s, Err(Conflict))
    else if exists item :: item in m.items && item.id !in s.requests then (s, Err(NotFound))
    else
      var prior := PriorUse(s, m);
      if prior != {} then
        if |prior| == |m.items| && forall item :: item in m.items ==>
             exists d :: d in prior && s.decisions[d].request == item.id && SameMutation(s.decisions[d], m)
        then (s, Ok(true)) else (s, Err(IdempotencyConflict))
      else if exists item :: item in m.items && !ItemPending(s, m, item) then (s, Err(Conflict))
      // The attempts' unique key refuses a request named twice.
      else if !DistinctItems(m.items) then (s, Err(IdempotencyConflict))
      else (BeginAll(s, m, m.items, delivered), Ok(false))
  }

  /** CompleteDecision: finalizes a started attempt together with its request; repeating an
      already stored completion succeeds without effect. */
  function CompleteDecision(s: State, d: nat, c: Completion): (State, bool) {
    if d >= |s.decisions| || s.decisions[d].request !in s.requests then (s, false)
    else
      var decision := s.decisions[d];
      var q := s.requests[decision.request];
      if decision.status != Started then
        (s, decision.status == c.attempt && decision.code == c.code && q.last == Some(d) && q.status == c.status)
      else if q.status != Processing || q.last != Some(d) then (s, false)
      else
        (s.(decisions := s.decisions[d := decision.(status := c.attempt, code := c.code)],
            requests := s.requests[decision.request := q.(status := c.status, revision := q.revision + 1, leaseEnds := 0)]),
         true)
  }

  /** RecoverExpiredDecisions on one request. */
  function RecoverOne(s: State, id: RequestID, expiredBefore: int): State {
    if id in s.requests && s.requests[id].status == Processing && s.requests[id].leaseEnds < expiredBefore &&
       s.requests[id].last.Some? && s.requests[id].last.value < |s.decisions| &&
       s.decisions[s.requests[id].last.value].status == Started
    then CompleteDecision(s, s.requests[id].last.value, Completion(Indefinite, Unknown, "processing_lease_expired")).0
    else s
  }

  // ---------------------------------------------------------------------------------------
  // Steps and runs

  function Do(s: State, step: Step): State {
    match step
    case Arrive(id, group, processed) =>
      if id in s.requests then s
      else s.(requests := s.requests[id := Request(if processed then ExternalProcessed else Pending, 1, group, None, 0)])
    case Observe(id) =>
      if id !in s.requests then s
      else s.(requests := s.requests[id := s.requests[id].(status := MergeObservedDecisionStatus(s.requests[id].status, true))])
    case Begin(m, policyAllows, delivered) => BeginDecisions(s, m, policyAllows, delivered).0
    case Decide(d, outcome, code) =>
      if d !in s.tasks || !s.tasks[d].Reserved? || d >= |s.decisions| then s
      else s.(tasks := s.tasks[d := Completing(CompletionAfter(s.decisions[d], outcome, code))],
              calls := s.calls + [Call(d, outcome)])
    case Skip(d, code) =>
      if d !in s.tasks || !s.tasks[d].Reserved? || d >= |s.decisions| || s.decisions[d].source != Manual then s
      else s.(tasks := s.tasks[d := Completing(Completion(Failed, Pending, code))])
    case Complete(d, acked) =>
      if d !in s.tasks || !s.tasks[d].Completing? then s
      else
        var (after, ok) := CompleteDecision(s, d, s.tasks[d].completion);
        if ok && acked then after.(tasks := after.tasks - {d}) else after
    case Recover(id, expiredBefore) => RecoverOne(s, id, expiredBefore)
    case Crash => s.(tasks := map[])
  }

  function Run(s: State, steps: seq<Step>): State {
    if steps == [] then s else Do(Run(s, steps[..|steps| - 1]), steps[|steps| - 1])
  }

  // ---------------------------------------------------------------------------------------
  // What every step keeps

  /** A request's status and its last attempt tell the same story. */
  predicate Agrees(status: Status, d: Decision) {
    match status
    case Pending => d.status == Failed && d.source == Manual
    case Processing => d.status == Started
    case Approved => d.status == Confirmed && d.action == Approve
    case Rejected => d.status == Confirmed && d.action == Reject
    case Unknown => d.status == Indefinite
    case ExternalProcessed => d.status == Indefinite || (d.status == Failed && d.source == Manual)
  }

  /** A request's attempts are those up to its last one, and all earlier ones were manual and failed. */
  ghost predicate RequestOk(requests: map<RequestID, Request>, decisions: seq<Decision>, id: RequestID)
    requires id in requests
  {
    match requests[id].last
    case None =>
      (requests[id].status == Pending || requests[id].status == ExternalProcessed) &&
      forall d :: 0 <= d < |decisions| ==> decisions[d].request != id
    case Some(k) =>
      k < |decisions| && decisions[k].request == id && Agrees(requests[id].status, decisions[k]) &&
      forall d :: 0 <= d < |decisions| && decisions[d].request == id && d != k ==>
        d < k && decisions[d].status == Failed && decisions[d].source == Manual
  }

  ghost predicate Called(calls: seq<Call>, d: nat) {
    exists i :: 0 <= i < |calls| && calls[i].decision == d
  }

  ghost predicate CalledWith(calls: seq<Call>, d: nat, outcome: Option<Outcome>) {
    exists i :: 0 <= i < |calls| && calls[i].decision == d && calls[i].outcome == outcome
  }

  /** The gateway definitely did not carry out the attempt, as far as it was asked to. */
  ghost predicate NotCarriedOut(calls: seq<Call>, d: nat) {
    forall i :: 0 <= i < |calls| && calls[i].decision == d ==>
      calls[i].outcome == Some(FailedOutcome) || calls[i].outcome == Some(UnavailableOutcome)
  }

  ghost predicate DecisionOk(s: State, d: nat)
    requires d < |s.decisions|
  {
    s.decisions[d].request in s.requests &&
    (s.decisions[d].status == Confirmed ==> CalledWith(s.calls, d, Some(ConfirmedOutcome))) &&
    (s.decisions[d].status == Failed ==> NotCarriedOut(s.calls, d))
  }

  /** A completion waiting to be stored is what the gateway's answer, or a skip, warrants. */
  ghost predicate Warranted(s: State, d: nat, c: Completion)
    requires d < |s.decisions|
  {
    match c.attempt
    case Started => false
    case Confirmed =>
      c.status == (if s.decisions[d].action == Approve then Approved else Rejected) &&
      CalledWith(s.calls, d, Some(ConfirmedOutcome))
    case Failed => c.status == Pending && s.decisions[d].source == Manual && NotCarriedOut(s.calls, d)
    case Indefinite => c.status == Unknown
  }

  ghost predicate TaskOk(s: State, d: nat)
    requires d in s.tasks
  {
    d < |s.decisions| &&
    match s.tasks[d]
    case Reserved => !Called(s.calls, d) && (s.decisions[d].status == Started || s.decisions[d].status == Indefinite)
    case Completing(c) => Warranted(s, d, c)
  }

  ghost predicate CallsOk(s: State) {
    (forall i :: 0 <= i < |s.calls| ==> s.calls[i].decision < |s.decisions|) &&
    (forall i, j :: 0 <= i < j < |s.calls| ==> s.calls[i].decision != s.calls[j].decision)
  }

  ghost predicate Inv(s: State) {
    (forall id :: id in s.requests ==> RequestOk(s.requests, s.decisions, id)) &&
    (forall d :: 0 <= d < |s.decisions| ==> DecisionOk(s, d)) &&
    (forall d :: d in s.tasks ==> TaskOk(s, d)) &&
    CallsOk(s)
  }

  lemma RequestsOnlyKeepsInv(s: State, t: State)
    requires Inv(s) && t == s.(requests := t.requests) && s.requests.Keys <= t.requests.Keys
    requires forall id :: id in t.requests ==> RequestOk(t.requests, t.decisions, id)
    ensures Inv(t)
  {
    forall d | 0 <= d < |t.decisions|
      ensures DecisionOk(t, d)
    {
      assert DecisionOk(s, d);
    }
    forall d | d in t.tasks
      ensures TaskOk(t, d)
    {
      assert TaskOk(s, d);
    }
  }

  lemma ArriveKeepsInv(s: State, id: RequestID, group: string, processed: bool)
    requires Inv(s)
    ensures Inv(Do(s, Arrive(id, group, processed)))
  {
    var t := Do(s, Arrive(id, group, processed));
    forall r | r in t.requests
      ensures RequestOk(t.requests, t.decisions, r)
    {
      if r in s.requests {
        assert RequestOk(s.requests, s.decisions, r);
      } else {
        forall d | 0 <= d < |s.decisions|
          ensures s.decisions[d].request != r
        {
          assert DecisionOk(s, d);
        }
      }
    }
    RequestsOnlyKeepsInv(s, t);
  }

  lemma ObserveKeepsInv(s: State, id: RequestID)
    requires Inv(s)
    ensures Inv(Do(s, Observe(id)))
  {
    var t := Do(s, Observe(id));
    forall r | r in t.requests
      ensures RequestOk(t.requests, t.decisions, r)
    {
      assert RequestOk(s.requests, s.decisions, r);
    }
    RequestsOnlyKeepsInv(s, t);
  }

  /** What a poll of the platform does: an unknown request is filed, open unless already handled; a
      known one that is seen handled is no longer open or unknown, and keeps everything else. */
  lemma ObservationIs(s: State, id: RequestID, group: string, processed: bool)
    ensures var t := Do(s, Arrive(id, group, processed));
            t.decisions == s.decisions && t.calls == s.calls && t.tasks == s.tasks && id in t.requests &&
            (id in s.requests ==> t == s) &&
            (id !in s.requests ==>
              t.requests[id].group == group && t.requests[id].last.None? && t.requests - {id} == s.requests &&
              (t.requests[id].status == Pending <==> !processed) && (t.requests[id].status == ExternalProcessed <==> processed))
    ensures var t := Do(s, Observe(id));
            t.decisions == s.decisions && t.calls == s.calls && t.tasks == s.tasks && t.requests - {id} == s.requests - {id} &&
            (id in t.requests <==> id in s.requests) &&
            (id in s.requests ==>
              t.requests[id] == s.requests[id].(status := t.requests[id].status) &&
              (s.requests[id].status in {Pending, Unknown} ==> t.requests[id].status == ExternalProcessed) &&
              (s.requests[id].status !in {Pending, Unknown} ==> t == s))
  {
    if id in s.requests {
      assert s.requests[id := s.requests[id]] == s.requests;
    }
  }

  lemma BeginOneKeepsInv(s: State, m: BeginMutation, id: RequestID, delivered: bool)
    requires Inv(s) && id in s.requests && s.requests[id].status == Pending
    ensures Inv(BeginOne(s, m, id, delivered))
  {
    var t := BeginOne(s, m, id, delivered);
    assert RequestOk(s.requests, s.decisions, id);
    forall r | r in t.requests
      ensures RequestOk(t.requests, t.decisions, r)
    {
      assert RequestOk(s.requests, s.decisions, r);
    }
    forall d | 0 <= d < |t.decisions|
      ensures DecisionOk(t, d)
    {
      if d < |s.decisions| {
        assert DecisionOk(s, d);
      }
    }
    forall d | d in t.tasks
      ensures TaskOk(t, d)
    {
      if d in s.tasks && d < |s.decisions| {
        assert TaskOk(s, d);
      }
    }
  }

  lemma {:induction false} BeginAllKeepsInv(s: State, m: BeginMutation, items: seq<Item>, delivered: bool)
    requires Inv(s) && DistinctItems(items)
    requires forall item :: item in items ==> item.id in s.requests && s.requests[item.id].status == Pending
    ensures Inv(BeginAll(s, m, items, delivered))
    decreases |items|
  {
    if items != [] {
      BeginOneKeepsInv(s, m, items[0].id, delivered);
      var t := BeginOne(s, m, items[0].id, delivered);
      forall item | item in items[1..]
        ensures item.id in t.requests && t.requests[item.id].status == Pending
      {
        var k :| 0 <= k < |items[1..]| && items[1..][k] == item;
        assert items[k + 1] == item && items[0].id != items[k + 1].id;
      }
      BeginAllKeepsInv(t, m, items[1..], delivered);
    }
  }

  lemma BeginKeepsInv(s: State, m: BeginMutation, policyAllows: bool, delivered: bool)
    requires Inv(s)
    ensures Inv(BeginDecisions(s, m, policyAllows, delivered).0)
  {
    if BeginDecisions(s, m, policyAllows, delivered).1 == Ok(false) {
      assert forall item :: item in m.items ==> ItemPending(s, m, item);
      BeginAllKeepsInv(s, m, m.items, delivered);
    }
  }

  lemma DecideKeepsInv(s: State, k: nat, outcome: Option<Outcome>, code: string)
    requires Inv(s)
    ensures Inv(Do(s, Decide(k, outcome, code)))
  {
    var t := Do(s, Decide(k, outcome, code));
    if t != s {
      assert TaskOk(s, k);
      assert t.calls[|s.calls|] == Call(k, outcome);
      forall d | 0 <= d < |t.decisions|
        ensures DecisionOk(t, d)
      {
        assert DecisionOk(s, d);
        CallsGrow(s.calls, t.calls[|s.calls|], d);
      }
      forall d | d in t.tasks
        ensures TaskOk(t, d)
      {
        if d != k {
          assert TaskOk(s, d);
          CallsGrow(s.calls, t.calls[|s.calls|], d);
        }
      }
    }
  }

  lemma CallsGrow(calls: seq<Call>, call: Call, d: nat)
    ensures CalledWith(calls, d, Some(ConfirmedOutcome)) ==> CalledWith(calls + [call], d, Some(ConfirmedOutcome))
    ensures call.decision != d ==> (NotCarriedOut(calls, d) ==> NotCarriedOut(calls + [call], d))
    ensures call.decision != d ==> (Called(calls + [call], d) ==> Called(calls, d))
  {
    if CalledWith(calls, d, Some(ConfirmedOutcome)) {
      var i :| 0 <= i < |calls| && calls[i].decision == d && calls[i].outcome == Some(ConfirmedOutcome);
      assert (calls + [call])[i] == calls[i];
    }
    if call.decision != d && Called(calls + [call], d) {
      var i :| 0 <= i < |calls + [call]| && (calls + [call])[i].decision == d;
      assert calls[i].decision == d;
    }
  }

  lemma SkipKeepsInv(s: State, k: nat, code: string)
    requires Inv(s)
    ensures Inv(Do(s, Skip(k, code)))
  {
    var t := Do(s, Skip(k, code));
    forall d | 0 <= d < |t.decisions|
      ensures DecisionOk(t, d)
    {
      assert DecisionOk(s, d);
    }
    forall d | d in t.tasks
      ensures TaskOk(t, d)
    {
      assert TaskOk(s, d);
    }
  }

  /** Finalizing an attempt, whoever does it, keeps the invariant if the completion is warranted. */
  lemma CompleteDecisionKeepsInv(s: State, k: nat, c: Completion)
    requires Inv(s) && k < |s.decisions| && Warranted(s, k, c)
    requires k in s.tasks && s.tasks[k].Reserved? ==> c.attempt == Indefinite
    ensures Inv(CompleteDecision(s, k, c).0)
  {
    var t := CompleteDecision(s, k, c).0;
    if t != s {
      var id := s.decisions[k].request;
      assert RequestOk(s.requests, s.decisions, id) && DecisionOk(s, k);
      forall r | r in t.requests
        ensures RequestOk(t.requests, t.decisions, r)
      {
        assert RequestOk(s.requests, s.decisions, r);
      }
      forall d | 0 <= d < |t.decisions|
        ensures DecisionOk(t, d)
      {
        assert DecisionOk(s, d);
      }
      forall d | d in t.tasks
        ensures TaskOk(t, d)
      {
        assert TaskOk(s, d);
      }
    }
  }

  lemma CompleteKeepsInv(s: State, k: nat, acked: bool)
    requires Inv(s)
    ensures Inv(Do(s, Complete(k, acked)))
  {
    if k in s.tasks && s.tasks[k].Completing? {
      assert TaskOk(s, k);
      CompleteDecisionKeepsInv(s, k, s.tasks[k].completion);
      var t := CompleteDecision(s, k, s.tasks[k].completion).0;
      FewerTasksKeepInv(t, t.tasks - {k});
    }
  }

  lemma FewerTasksKeepInv(s: State, tasks: map<nat, Task>)
    requires Inv(s) && forall d :: d in tasks ==> d in s.tasks && tasks[d] == s.tasks[d]
    ensures Inv(s.(tasks := tasks))
  {
    var t := s.(tasks := tasks);
    forall d | 0 <= d < |t.decisions|
      ensures DecisionOk(t, d)
    {
      assert DecisionOk(s, d);
    }
    forall d | d in t.tasks
      ensures TaskOk(t, d)
    {
      assert TaskOk(s, d);
    }
  }

  lemma StepKeepsInv(s: State, step: Step)
    requires Inv(s)
    ensures Inv(Do(s, step))
  {
    hide Inv;
    match step
    case Arrive(id, group, processed) => ArriveKeepsInv(s, id, group, processed);
    case Observe(id) => ObserveKeepsInv(s, id);
    case Begin(m, policyAllows, delivered) => BeginKeepsInv(s, m, policyAllows, delivered);
    case Decide(d, outcome, code) => DecideKeepsInv(s, d, outcome, code);
    case Skip(d, code) => SkipKeepsInv(s, d, code);
    case Complete(d, acked) => CompleteKeepsInv(s, d, acked);
    case Recover(id, expiredBefore) =>
      if RecoverOne(s, id, expiredBefore) != s {
        CompleteDecisionKeepsInv(s, s.requests[id].last.value, Completion(Indefinite, Unknown, "processing_lease_expired"));
      }
    case Crash => FewerTasksKeepInv(s, map[]);
  }

  lemma {:induction false} RunKeepsInv(s: State, steps: seq<Step>)
    requires Inv(s)
    ensures Inv(Run(s, steps))
  {
    if steps != [] {
      RunKeepsInv(s, steps[..|steps| - 1]);
      StepKeepsInv(Run(s, steps[..|steps| - 1]), steps[|steps| - 1]);
    }
  }

  // ---------------------------------------------------------------------------------------
  // What the invariant means

  predicate SameAttempt(d: Decision, e: Decision) {
    d.request == e.request && d.action == e.action && d.source == e.source && d.key == e.key && d.payload == e.payload
  }

  /** Nothing is forgotten; a finished attempt never changes; a request that has left pending and
      processing never comes back, an approved or rejected one never changes, and the revision and
      the group of a request are never taken back. */
  ghost predicate Settles(s: State, t: State) {
    s.requests.Keys <= t.requests.Keys && |s.decisions| <= |t.decisions| && s.calls <= t.calls &&
    (forall d :: 0 <= d < |s.decisions| ==>
      SameAttempt(s.decisions[d], t.decisions[d]) &&
      (s.decisions[d].status != Started ==> t.decisions[d] == s.decisions[d])) &&
    forall id :: id in s.requests ==>
      s.requests[id].revision <= t.requests[id].revision && s.requests[id].group == t.requests[id].group &&
      (s.requests[id].status !in {Pending, Processing} ==> t.requests[id].status !in {Pending, Processing}) &&
      (s.requests[id].status == Approved || s.requests[id].status == Rejected ==>
        t.requests[id].status == s.requests[id].status)
  }

  lemma {:induction false} BeginAllSettles(s: State, m: BeginMutation, items: seq<Item>, delivered: bool)
    requires DistinctItems(items)
    requires forall item :: item in items ==> item.id in s.requests && s.requests[item.id].status == Pending
    ensures Settles(s, BeginAll(s, m, items, delivered))
    decreases |items|
  {
    if items != [] {
      var t := BeginOne(s, m, items[0].id, delivered);
      forall item | item in items[1..]
        ensures item.id in t.requests && t.requests[item.id].status == Pending
      {
        var k :| 0 <= k < |items[1..]| && items[1..][k] == item;
        assert items[k + 1] == item && items[0].id != items[k + 1].id;
      }
      BeginAllSettles(t, m, items[1..], delivered);
      assert Settles(s, t);
      SettlesTransitive(s, t, BeginAll(s, m, items, delivered));
    }
  }

  lemma SettlesTransitive(s: State, t: State, u: State)
    requires Settles(s, t) && Settles(t, u)
    ensures Settles(s, u)
  {
  }

  lemma CompleteSettles(s: State, d: nat, c: Completion)
    ensures Settles(s, CompleteDecision(s, d, c).0)
  {
  }

  lemma StepSettles(s: State, step: Step)
    ensures Settles(s, Do(s, step))
  {
    hide CompleteDecision;
    if step.Complete? && step.decision in s.tasks && s.tasks[step.decision].Completing? {
      CompleteSettles(s, step.decision, s.tasks[step.decision].completion);
    }
    if step.Recover? && step.id in s.requests && s.requests[step.id].last.Some? {
      CompleteSettles(s, s.requests[step.id].last.value, Completion(Indefinite, Unknown, "processing_lease_expired"));
    }
    if step.Begin? && BeginDecisions(s, step.mutation, step.policyAllows, step.delivered).1 == Ok(false) {
      assert forall item :: item in step.mutation.items ==> ItemPending(s, step.mutation, item);
      BeginAllSettles(s, step.mutation, step.mutation.items, step.delivered);
    }
  }

  lemma {:induction false} RunSettles(s: State, steps: seq<Step>)
    ensures Settles(s, Run(s, steps))
  {
    if steps != [] {
      var front := steps[..|steps| - 1];
      RunSettles(s, front);
      StepSettles(Run(s, front), steps[|steps| - 1]);
      SettlesTransitive(s, Run(s, front), Run(s, steps));
    }
  }

  /** A request is processing exactly while one attempt, its last, is started. */
  ghost predicate OneStartedAttempt(s: State, id: RequestID)
    requires id in s.requests
  {
    (s.requests[id].status == Processing <==>
      s.requests[id].last.Some? && s.requests[id].last.value < |s.decisions| &&
      s.decisions[s.requests[id].last.value].status == Started) &&
    forall d :: 0 <= d < |s.decisions| && s.decisions[d].request == id && s.decisions[d].status == Started ==>
      s.requests[id].last == Some(d)
  }

  /** The gateway is called at most once per attempt, and for at most one automatic attempt per request. */
  ghost predicate CallsBounded(s: State) {
    forall i, j :: 0 <= i < j < |s.calls| ==>
      s.calls[i].decision < |s.decisions| && s.calls[j].decision < |s.decisions| &&
      s.calls[i].decision != s.calls[j].decision &&
      var d, e := s.decisions[s.calls[i].decision], s.decisions[s.calls[j].decision];
      !(d.request == e.request && d.source == Automatic && e.source == Automatic)
  }

  /** An approved or rejected request was decided so by a gateway call that was confirmed. */
  ghost predicate DecidedTruly(s: State, id: RequestID)
    requires id in s.requests
  {
    var q := s.requests[id];
    q.status == Approved || q.status == Rejected ==>
      q.last.Some? && q.last.value < |s.decisions| &&
      s.decisions[q.last.value].action == (if q.status == Approved then Approve else Reject) &&
      CalledWith(s.calls, q.last.value, Some(ConfirmedOutcome))
  }

  /** While a request is pending, so that a new attempt may begin, no earlier attempt took effect
      and none can still reach the gateway. */
  ghost predicate PendingIsSafe(s: State, id: RequestID)
    requires id in s.requests
  {
    s.requests[id].status == Pending ==>
      forall d :: 0 <= d < |s.decisions| && s.decisions[d].request == id ==>
        NotCarriedOut(s.calls, d) && !(d in s.tasks && s.tasks[d] == Reserved)
  }

  /** An automatic attempt is its request's last one, and the request never waits for another. */
  ghost predicate OneShot(s: State, d: nat)
    requires d < |s.decisions|
  {
    s.decisions[d].source == Automatic ==>
      s.decisions[d].request in s.requests && s.requests[s.decisions[d].request].last == Some(d) &&
      s.requests[s.decisions[d].request].status != Pending
  }

  ghost predicate Protocol(s: State) {
    CallsBounded(s) && (forall d :: 0 <= d < |s.decisions| ==> OneShot(s, d)) &&
    forall id :: id in s.requests ==> OneStartedAttempt(s, id) && DecidedTruly(s, id) && PendingIsSafe(s, id)
  }

  lemma InvGivesRequestFacts(s: State, id: RequestID)
    requires Inv(s) && id in s.requests
    ensures OneStartedAttempt(s, id) && DecidedTruly(s, id) && PendingIsSafe(s, id)
  {
    assert RequestOk(s.requests, s.decisions, id);
    forall d | 0 <= d < |s.decisions| && s.decisions[d].request == id && s.requests[id].status == Pending
      ensures NotCarriedOut(s.calls, d) && !(d in s.tasks && s.tasks[d] == Reserved)
    {
      assert DecisionOk(s, d);
      if d in s.tasks {
        assert TaskOk(s, d);
      }
    }
    if s.requests[id].last.Some? {
      assert DecisionOk(s, s.requests[id].last.value);
    }
  }

  lemma InvGivesCallsBounded(s: State)
    requires Inv(s)
    ensures CallsBounded(s)
  {
    forall i, j | 0 <= i < j < |s.calls|
      ensures var d, e := s.decisions[s.calls[i].decision], s.decisions[s.calls[j].decision];
              !(d.request == e.request && d.source == Automatic && e.source == Automatic)
    {
      assert DecisionOk(s, s.calls[i].decision);
      assert RequestOk(s.requests, s.decisions, s.decisions[s.calls[i].decision].request);
    }
  }

  /** The protocol's safety, over every run: from the empty store, after any steps the facts above
      hold, and whatever further steps follow, what is settled stays settled. */
  lemma EveryRunIsSafe(before: seq<Step>, after: seq<Step>)
    ensures Protocol(Run(EMPTY, before)) && Protocol(Run(Run(EMPTY, before), after))
    ensures Settles(Run(EMPTY, before), Run(Run(EMPTY, before), after))
  {
    var s := Run(EMPTY, before);
    RunKeepsInv(EMPTY, before);
    RunKeepsInv(s, after);
    RunSettles(s, after);
    InvGivesProtocol(s);
    InvGivesProtocol(Run(s, after));
  }

  lemma InvGivesOneShot(s: State, d: nat)
    requires Inv(s) && d < |s.decisions|
    ensures OneShot(s, d)
  {
    assert DecisionOk(s, d);
    assert RequestOk(s.requests, s.decisions, s.decisions[d].request);
  }

  lemma InvGivesProtocol(s: State)
    requires Inv(s)
    ensures Protocol(s)
  {
    hide Inv, OneShot, OneStartedAttempt, DecidedTruly, PendingIsSafe, CallsBounded;
    InvGivesCallsBounded(s);
    forall d | 0 <= d < |s.decisions|
      ensures OneShot(s, d)
    {
      InvGivesOneShot(s, d);
    }
    forall id | id in s.requests
      ensures OneStartedAttempt(s, id) && DecidedTruly(s, id) && PendingIsSafe(s, id)
    {
      InvGivesRequestFacts(s, id);
    }
  }

  /** An accepted mutation appends one started attempt per item, in order. */
  lemma {:induction false} BeginAllRecords(s: State, m: BeginMutation, items: seq<Item>, delivered: bool)
    requires forall item :: item in items ==> item.id in s.requests
    ensures var t := BeginAll(s, m, items, delivered);
            |t.decisions| == |s.decisions| + |items| && t.decisions[..|s.decisions|] == s.decisions &&
            forall k :: 0 <= k < |items| ==>
              t.decisions[|s.decisions| + k] == Decision(items[k].id, m.action, m.source, Started, m.key, m.payload, "")
    decreases |items|
  {
    if items != [] {
      var first := BeginOne(s, m, items[0].id, delivered);
      BeginAllRecords(first, m, items[1..], delivered);
      var t := BeginAll(s, m, items, delivered);
      assert t.decisions[|s.decisions|] == t.decisions[..|first.decisions|][|s.decisions|];
      assert t.decisions[..|s.decisions|] == t.decisions[..|first.decisions|][..|s.decisions|];
    }
  }

  function BegunRequest(q: Request, m: BeginMutation, d: nat): Request {
    q.(status := Processing, revision := q.revision + 1, last := Some(d), leaseEnds := m.leaseEnds)
  }

  /** The requests named by the items are processing, by attempts numbered from `n` on. */
  ghost predicate Begun(before: map<RequestID, Request>, after: map<RequestID, Request>, n: nat, m: BeginMutation, items: seq<Item>) {
    after.Keys == before.Keys &&
    (forall k :: 0 <= k < |items| ==>
      items[k].id in before && after[items[k].id] == BegunRequest(before[items[k].id], m, n + k)) &&
    forall id :: id in before && (forall k :: 0 <= k < |items| ==> items[k].id != id) ==> after[id] == before[id]
  }

  lemma {:induction false} BeginAllRequests(s: State, m: BeginMutation, items: seq<Item>, delivered: bool)
    requires DistinctItems(items) && forall item :: item in items ==> item.id in s.requests
    ensures Begun(s.requests, BeginAll(s, m, items, delivered).requests, |s.decisions|, m, items)
    decreases |items|
  {
    if items != [] {
      var first, rest := BeginOne(s, m, items[0].id, delivered), items[1..];
      assert first.requests == s.requests[items[0].id := BegunRequest(s.requests[items[0].id], m, |s.decisions|)];
      assert forall k :: 0 <= k < |rest| ==> rest[k] == items[k + 1];
      BeginAllRequests(first, m, rest, delivered);
      OneMoreBegun(s.requests, BeginAll(s, m, items, delivered).requests, |s.decisions|, m, items);
    }
  }

  lemma OneMoreBegun(before: map<RequestID, Request>, after: map<RequestID, Request>, n: nat, m: BeginMutation, items: seq<Item>)
    requires items != [] && DistinctItems(items) && items[0].id in before
    requires Begun(before[items[0].id := BegunRequest(before[items[0].id], m, n)], after, n + 1, m, items[1..])
    ensures Begun(before, after, n, m, items)
  {
    hide BegunRequest;
    assert forall k :: 1 <= k < |items| ==> items[k].id != items[0].id && items[1..][k - 1] == items[k];
  }

  /** Repeating an accepted mutation, at any later time, changes nothing: it is a replay or a conflict. */
  lemma RepeatedBeginIsHarmless(s: State, m: BeginMutation, policyAllows: bool, delivered: bool, steps: seq<Step>,
                                allowsNow: bool, deliversNow: bool)
    requires m.items != [] && BeginDecisions(s, m, policyAllows, delivered).1 == Ok(false)
    ensures var t := Run(BeginDecisions(s, m, policyAllows, delivered).0, steps);
            BeginDecisions(t, m, allowsNow, deliversNow).0 == t
  {
    var began := BeginDecisions(s, m, policyAllows, delivered).0;
    var t := Run(began, steps);
    var n := |s.decisions|;
    assert forall item :: item in m.items ==> ItemPending(s, m, item);
    BeginAllRecords(s, m, m.items, delivered);
    RunSettles(began, steps);
    assert t.decisions[n].key == m.key && t.decisions[n].request == m.items[0].id;
    assert m.items[0] in m.items && m.items[0].id in IDs(m.items);
    assert n in PriorUse(t, m);
  }

  /** An attempt skipped instead of sent is never sent later. */
  lemma {:induction false} SkippedIsNeverSent(s: State, d: nat, code: string, steps: seq<Step>)
    requires Inv(s) && d in s.tasks && s.tasks[d] == Reserved && s.decisions[d].source == Manual
    ensures !Called(Run(Do(s, Skip(d, code)), steps).calls, d)
  {
    var t := Do(s, Skip(d, code));
    SkipKeepsInv(s, d, code);
    assert TaskOk(s, d);
    NeverSent(t, d, [], steps);
  }

  lemma SkippedIsOutOfReach(s: State, d: nat, code: string, steps: seq<Step>)
    requires s == Run(EMPTY, steps) && d in s.tasks && s.tasks[d] == Reserved && d < |s.decisions|
    requires s.decisions[d].source == Manual
    ensures OutOfReach(Do(s, Skip(d, code)), d)
  {
    RunKeepsInv(EMPTY, steps);
    assert TaskOk(s, d);
  }

  ghost predicate OutOfReach(s: State, d: nat) {
    d < |s.decisions| && !Called(s.calls, d) && !(d in s.tasks && s.tasks[d] == Reserved)
  }

  lemma {:induction false} NeverSent(s: State, d: nat, before: seq<Step>, steps: seq<Step>)
    requires before <= steps && OutOfReach(Run(s, before), d)
    ensures OutOfReach(Run(s, steps), d)
    decreases |steps|
  {
    if before != steps {
      NeverSent(s, d, before, steps[..|steps| - 1]);
      StepStaysOutOfReach(Run(s, steps[..|steps| - 1]), d, steps[|steps| - 1]);
    } else {
      assert before == steps;
    }
  }

  lemma StepStaysOutOfReach(s: State, d: nat, step: Step)
    requires OutOfReach(s, d)
    ensures OutOfReach(Do(s, step), d)
  {
    StepSettles(s, step);
    match step
    case Begin(m, policyAllows, delivered) =>
      if BeginDecisions(s, m, policyAllows, delivered).1 == Ok(false) {
        BeginAllReservesNew(s, m, m.items, delivered);
      }
    case Decide(k, outcome, _) => CallsGrow(s.calls, Call(k, outcome), d);
    case _ =>
  }

  /** Reservations are only for new attempts, and nothing is sent. */
  lemma {:induction false} BeginAllReservesNew(s: State, m: BeginMutation, items: seq<Item>, delivered: bool)
    requires forall item :: item in items ==> item.id in s.requests
    ensures var t := BeginAll(s, m, items, delivered);
            t.calls == s.calls &&
            (forall d :: d in s.tasks && d < |s.decisions| ==> d in t.tasks && t.tasks[d] == s.tasks[d]) &&
            (forall d :: d in t.tasks && d < |s.decisions| ==> d in s.tasks) &&
            forall d :: |s.decisions| <= d < |t.decisions| && delivered ==> d in t.tasks && t.tasks[d] == Reserved
    decreases |items|
  {
    if items != [] {
      BeginAllReservesNew(BeginOne(s, m, items[0].id, delivered), m, items[1..], delivered);
    }
  }

  // ---------------------------------------------------------------------------------------
  // The service

  datatype ExecuteError = ExternalFailure | DependencyUnavailable | PersistenceFailed | ReplayConflict | InvalidData

  /** What `execute` and `replayResult` return: the stored result, and an error beside it or instead of it. */
  datatype Executed = Executed(stored: Option<Completion>, error: Option<ExecuteError>)

  datatype ItemOutcome = ItemConfirmed | ItemFailed | ItemUnknown

  datatype BulkItem = BulkItem(id: RequestID, decision: nat, attempt: AttemptStatus, outcome: ItemOutcome, code: string)

  datatype BulkResult = BulkResult(items: seq<BulkItem>, confirmed: nat, failed: nat, unknown: nat)

  datatype DecideError = StoreRefused(error: StoreError) | Unfinished(reason: ExecuteError)

  // How a call to store a completion ended for its caller.
  datatype Fate = Acked | Lost | AckLost

  /** What the gateway and the store do to one item, and whether the caller had gone before it. */
  datatype ItemFate = ItemFate(outcome: Option<Outcome>, code: string, stored: Fate, cancelled: bool)

  function ValueOrDefault(value: string, fallback: string): string {
    if value == "" then fallback else value
  }

  function BulkItemFromResult(id: RequestID, decision: nat, r: Executed): BulkItem {
    var attempt := if r.stored.Some? then r.stored.value.attempt else Started;
    var code := if r.stored.Some? then r.stored.value.code else "";
    match r.error
    case Some(DependencyUnavailable) => BulkItem(id, decision, attempt, ItemFailed, "dependency_unavailable")
    case Some(ExternalFailure) => BulkItem(id, decision, attempt, ItemFailed, ValueOrDefault(code, "upstream_failure"))
    case Some(_) => BulkItem(id, decision, attempt, ItemFailed, "persistence_unavailable")
    case None =>
      if attempt == Indefinite then BulkItem(id, decision, attempt, ItemUnknown, ValueOrDefault(code, "outcome_unknown"))
      else BulkItem(id, decision, attempt, ItemConfirmed, "")
  }

  /** What `execute` returns once its completion is stored. */
  function ExecutedAfter(c: Completion, outcome: Option<Outcome>): Executed {
    Executed(Some(c),
             if outcome == Some(FailedOutcome) then Some(ExternalFailure)
             else if outcome == Some(UnavailableOutcome) then Some(DependencyUnavailable)
             else None)
  }

  /** A stored attempt, replayed. */
  function ReplayResult(q: Request, d: Decision): Executed {
    if d.status == Started || q.status == Processing then Executed(None, Some(ReplayConflict))
    else Executed(Some(Completion(d.status, q.status, d.code)), if d.status == Failed then Some(ExternalFailure) else None)
  }

  function CountOf(items: seq<BulkItem>, outcome: ItemOutcome): nat {
    if items == [] then 0
    else CountOf(items[..|items| - 1], outcome) + if items[|items| - 1].outcome == outcome then 1 else 0
  }

  /** The counts of a result are those of its items, and every item is counted. */
  predicate Tallied(r: BulkResult) {
    r.confirmed == CountOf(r.items, ItemConfirmed) && r.failed == CountOf(r.items, ItemFailed) &&
    r.unknown == CountOf(r.items, ItemUnknown) && r.confirmed + r.failed + r.unknown == |r.items|
  }

  function Append(r: BulkResult, item: BulkItem): BulkResult {
    match item.outcome
    case ItemConfirmed => r.(items := r.items + [item], confirmed := r.confirmed + 1)
    case ItemUnknown => r.(items := r.items + [item], unknown := r.unknown + 1)
    case ItemFailed => r.(items := r.items + [item], failed := r.failed + 1)
  }

  lemma AppendTallies(r: BulkResult, item: BulkItem)
    requires Tallied(r)
    ensures Tallied(Append(r, item))
  {
    var items := r.items + [item];
    assert items[..|items| - 1] == r.items;
  }

  /** What an item says about its attempt is stored, for good: confirmed and unknown attempts are
      reported as such, and a failed item is one whose attempt failed or whose completion is not
      known to be stored. */
  ghost predicate Reported(s: State, item: BulkItem) {
    item.decision < |s.decisions| && s.decisions[item.decision].request == item.id &&
    (item.attempt != Started ==> s.decisions[item.decision].status == item.attempt) &&
    match item.outcome
    case ItemConfirmed => item.attempt == Confirmed
    case ItemUnknown => item.attempt == Indefinite
    case ItemFailed => item.attempt == Started || item.attempt == Failed
  }

  /** Steps of other goroutines: they leave alone what this one holds. */
  predicate Foreign(step: Step, mine: set<nat>) {
    match step
    case Decide(d, _, _) => d !in mine
    case Skip(d, _) => d !in mine
    case Complete(d, _) => d !in mine
    case Crash => false
    case _ => true
  }

  ghost predicate Holds(s: State, t: State, mine: set<nat>) {
    |s.decisions| <= |t.decisions| &&
    forall d :: d in mine && d in s.tasks && d < |s.decisions| ==> d in t.tasks && t.tasks[d] == s.tasks[d]
  }

  lemma ForeignHolds(s: State, step: Step, mine: set<nat>)
    requires Foreign(step, mine)
    ensures Holds(s, Do(s, step), mine)
  {
    StepSettles(s, step);
    if step.Begin? && BeginDecisions(s, step.mutation, step.policyAllows, step.delivered).1 == Ok(false) {
      BeginAllReservesNew(s, step.mutation, step.mutation.items, step.delivered);
    }
  }

  lemma OwnStepHolds(s: State, step: Step, d: nat, mine: set<nat>)
    requires step.Decide? || step.Skip? || step.Complete?
    requires step.decision == d && d !in mine
    ensures Holds(s, Do(s, step), mine)
  {
    StepSettles(s, step);
  }

  lemma HoldsTransitive(s: State, t: State, u: State, mine: set<nat>)
    requires Holds(s, t, mine) && Holds(t, u, mine)
    ensures Holds(s, u, mine)
  {
  }

  /** The attempt and its request are stored as the completion says. */
  ghost predicate StoredAs(s: State, d: nat, c: Completion) {
    d < |s.decisions| && s.decisions[d].status == c.attempt && s.decisions[d].code == c.code &&
    s.decisions[d].request in s.requests && s.requests[s.decisions[d].request].status == c.status
  }

  lemma CompletionIsFinal(s: State, d: nat, c: Completion)
    ensures var (t, ok) := CompleteDecision(s, d, c);
            (if ok then StoredAs(t, d, c) else t == s) && t.tasks == s.tasks &&
            (ok && s.decisions[d].status == Started ==>
              var id := s.decisions[d].request;
              id in s.requests && t.requests == s.requests[id := s.requests[id].(
                status := c.status, revision := s.requests[id].revision + 1, leaseEnds := 0)])
  {
  }

  /** The first completion of an attempt counts: repeating it succeeds, any other is refused, and
      neither changes anything. */
  lemma FirstCompletionCounts(s: State, d: nat, c: Completion, again: Completion)
    requires d < |s.decisions| && s.decisions[d].status == Started && CompleteDecision(s, d, c).1 && c.attempt != Started
    ensures var t := CompleteDecision(s, d, c).0; CompleteDecision(t, d, again) == (t, again == c)
  {
  }

  /** A started attempt can always be completed: storing fails only for one that was finalized otherwise. */
  lemma StartedIsCompletable(s: State, d: nat, c: Completion)
    requires Inv(s) && d < |s.decisions| && s.decisions[d].status == Started
    ensures CompleteDecision(s, d, c).1
  {
    assert DecisionOk(s, d);
    assert RequestOk(s.requests, s.decisions, s.decisions[d].request);
  }

  lemma HoldsFewer(s: State, t: State, mine: set<nat>, fewer: set<nat>)
    requires Holds(s, t, mine) && fewer <= mine
    ensures Holds(s, t, fewer)
  {
  }

  predicate Refused(outcome: Option<Outcome>) {
    outcome == Some(FailedOutcome) || outcome == Some(UnavailableOutcome)
  }

  /** What an answer of the gateway leads to: a confirmed one approves or rejects, a manual one that
      was refused goes back to pending, and everything else is unknown. */
  predicate LeadsTo(d: Decision, outcome: Option<Outcome>, code: string, c: Completion) {
    (outcome == Some(ConfirmedOutcome) ==>
      c.attempt == Confirmed && c.status == if d.action == Approve then Approved else Rejected) &&
    (Refused(outcome) && d.source == Manual ==> c.attempt == Failed && c.status == Pending) &&
    (outcome != Some(ConfirmedOutcome) && !(Refused(outcome) && d.source == Manual) ==>
      c.attempt == Indefinite && c.status == Unknown) &&
    c.code == if outcome.Some? then code else "invalid_gateway_result"
  }

  lemma CompletionFollowsAnswer(d: Decision, outcome: Option<Outcome>, code: string)
    ensures LeadsTo(d, outcome, code, CompletionAfter(d, outcome, code))
  {
  }

  /** The error that goes with a stored result. */
  predicate ErrorTells(outcome: Option<Outcome>, error: Option<ExecuteError>) {
    (outcome == Some(FailedOutcome) ==> error == Some(ExternalFailure)) &&
    (outcome == Some(UnavailableOutcome) ==> error == Some(DependencyUnavailable)) &&
    (!Refused(outcome) ==> error == None)
  }

  /** The gateway was asked once about the attempt and its answer decided what is stored, or is
      still to be stored; an acknowledged storing fails only if the attempt was finalized otherwise. */
  ghost predicate Executes(s: State, d: nat, fate: ItemFate, r: Executed) {
    d < |s.decisions| && CalledWith(s.calls, d, fate.outcome) &&
    if r.stored.Some? then
      fate.stored == Acked && LeadsTo(s.decisions[d], fate.outcome, fate.code, r.stored.value) &&
      StoredAs(s, d, r.stored.value) && ErrorTells(fate.outcome, r.error)
    else
      r.error == Some(PersistenceFailed) && d in s.tasks && s.tasks[d].Completing? &&
      LeadsTo(s.decisions[d], fate.outcome, fate.code, s.tasks[d].completion) &&
      (fate.stored == Acked ==> s.decisions[d].status != Started)
  }

  /** A replayed attempt answers from the store: it is refused while it is running, and otherwise
      reported as stored, with an error exactly if it failed. */
  predicate ReplayTells(q: Request, d: Decision, r: Executed) {
    if d.status == Started || q.status == Processing then r == Executed(None, Some(ReplayConflict))
    else
      r.stored == Some(Completion(d.status, q.status, d.code)) &&
      (d.status == Failed ==> r.error == Some(ExternalFailure)) && (d.status != Failed ==> r.error == None)
  }

  lemma SentStaysSent(s: State, d: nat, fate: ItemFate, t: State)
    requires d in s.tasks && s.tasks[d].Reserved? && d < |s.decisions|
    requires Settles(Do(s, Decide(d, fate.outcome, fate.code)), t)
    ensures d < |t.decisions| && CalledWith(t.calls, d, fate.outcome)
    ensures LeadsTo(t.decisions[d], fate.outcome, fate.code, CompletionAfter(s.decisions[d], fate.outcome, fate.code))
  {
    assert t.calls[|s.calls|] == Call(d, fate.outcome);
    CompletionFollowsAnswer(s.decisions[d], fate.outcome, fate.code);
  }

  lemma AttemptKeepsIdentity(s: State, t: State, d: nat)
    requires Settles(s, t) && d < |s.decisions|
    ensures d < |t.decisions| && SameAttempt(s.decisions[d], t.decisions[d])
  {
  }

  /** `d` is this mutation's attempt on the request: a replay answers from what is stored and
      changes nothing; otherwise it is new, and it was executed. */
  ghost predicate DecidedBy(s: State, t: State, m: BeginMutation, id: RequestID, d: nat, fate: ItemFate, r: Executed) {
    d < |t.decisions| && t.decisions[d].request == id && t.decisions[d].key == m.key && SameMutation(t.decisions[d], m) &&
    if d < |s.decisions| then s == t && id in s.requests && ReplayTells(s.requests[id], s.decisions[d], r)
    else Executes(t, d, fate, r)
  }

  /** What an accepted mutation leaves: new attempts for exactly its items, all pending before, and
      their reservations if they reached the service. */
  lemma BeginResult(s: State, m: BeginMutation, policyAllows: bool, delivered: bool)
    ensures var (t, r) := BeginDecisions(s, m, policyAllows, delivered);
            (r == Ok(false) ==>
              |t.decisions| == |s.decisions| + |m.items| &&
              (forall k :: 0 <= k < |m.items| ==>
                var d := |s.decisions| + k;
                ItemPending(s, m, m.items[k]) &&
                t.decisions[d] == Decision(m.items[k].id, m.action, m.source, Started, m.key, m.payload, "") &&
                (delivered ==> d in t.tasks && t.tasks[d] == Reserved))) &&
            (r != Ok(false) ==> t == s)
  {
    var (t, r) := BeginDecisions(s, m, policyAllows, delivered);
    if r == Ok(false) {
      assert forall item :: item in m.items ==> ItemPending(s, m, item);
      BeginAllRecords(s, m, m.items, delivered);
      BeginAllReservesNew(s, m, m.items, delivered);
    }
  }

  /** And what it does to the requests: those named are processing under a new revision, until the
      lease ends; no other changes. */
  lemma BeginRequests(s: State, m: BeginMutation, policyAllows: bool, delivered: bool)
    requires BeginDecisions(s, m, policyAllows, delivered).1 == Ok(false)
    ensures Begun(s.requests, BeginDecisions(s, m, policyAllows, delivered).0.requests, |s.decisions|, m, m.items)
    ensures forall k :: 0 <= k < |m.items| ==> s.requests[m.items[k].id].revision == m.items[k].version
  {
    assert forall k :: 0 <= k < |m.items| ==> m.items[k] in m.items;
    assert forall k :: 0 <= k < |m.items| ==> ItemPending(s, m, m.items[k]);
    BeginAllRequests(s, m, m.items, delivered);
  }

  /** A new mutation is accepted exactly when each request named in it exists, is pending, has the
      given version and the given group, if one is given; none is named twice; the idempotency key
      was not used on any of them; and, for an automatic one, the policy allows it. */
  lemma BeginAcceptedIff(s: State, m: BeginMutation, policyAllows: bool, delivered: bool)
    ensures BeginDecisions(s, m, policyAllows, delivered).1 == Ok(false) <==>
            (m.source == Automatic ==> policyAllows) &&
            (forall k :: 0 <= k < |m.items| ==>
              m.items[k].id in s.requests && s.requests[m.items[k].id].status == Pending &&
              s.requests[m.items[k].id].revision == m.items[k].version &&
              (m.group == "" || s.requests[m.items[k].id].group == m.group)) &&
            (forall j, k :: 0 <= j < k < |m.items| ==> m.items[j].id != m.items[k].id) &&
            (forall d, k :: 0 <= d < |s.decisions| && 0 <= k < |m.items| && s.decisions[d].key == m.key ==>
              s.decisions[d].request != m.items[k].id)
  {
    PriorUseIff(s, m);
    if forall item :: item in m.items ==> item.id in s.requests && ItemPending(s, m, item) {
      assert forall k :: 0 <= k < |m.items| ==> m.items[k] in m.items;
    }
  }

  /** A new mutation is refused as unknown, as outdated or as a reuse of its key, in this order. */
  lemma BeginRefusedIff(s: State, m: BeginMutation, policyAllows: bool, delivered: bool)
    ensures var r := BeginDecisions(s, m, policyAllows, delivered).1;
            var refused := m.source == Automatic && !policyAllows;
            var unknown := exists k :: 0 <= k < |m.items| && m.items[k].id !in s.requests;
            var used := PriorUse(s, m) != {};
            (r == Err(NotFound) <==> !refused && unknown) &&
            (r == Err(Conflict) <==> refused || (!unknown && !used && exists k :: 0 <= k < |m.items| && !ItemPending(s, m, m.items[k]))) &&
            (r == Err(IdempotencyConflict) ==> !refused && !unknown && (used || !DistinctItems(m.items)))
  {
    assert forall k :: 0 <= k < |m.items| ==> m.items[k] in m.items;
  }

  /** A key is used at most once on each request. */
  ghost predicate KeysOnce(decisions: seq<Decision>) {
    forall d, e :: 0 <= d < e < |decisions| && decisions[d].request == decisions[e].request ==> decisions[d].key != decisions[e].key
  }

  lemma StepKeepsKeysOnce(s: State, step: Step)
    requires KeysOnce(s.decisions)
    ensures KeysOnce(Do(s, step).decisions)
  {
    hide CompleteDecision, BeginDecisions;
    StepSettles(s, step);
    if step.Complete? && step.decision in s.tasks && s.tasks[step.decision].Completing? {
      AttemptsStay(s, step.decision, s.tasks[step.decision].completion);
    }
    if step.Recover? && step.id in s.requests && s.requests[step.id].last.Some? {
      AttemptsStay(s, s.requests[step.id].last.value, Completion(Indefinite, Unknown, "processing_lease_expired"));
    }
    if step.Begin? {
      BeginKeepsKeysOnce(s, step.mutation, step.policyAllows, step.delivered);
    }
  }

  lemma AttemptsStay(s: State, d: nat, c: Completion)
    ensures |CompleteDecision(s, d, c).0.decisions| == |s.decisions|
  {
  }

  lemma BeginKeepsKeysOnce(s: State, m: BeginMutation, policyAllows: bool, delivered: bool)
    requires KeysOnce(s.decisions)
    ensures KeysOnce(BeginDecisions(s, m, policyAllows, delivered).0.decisions)
  {
    var (t, r) := BeginDecisions(s, m, policyAllows, delivered);
    if r == Ok(false) {
      BeginAcceptedIff(s, m, policyAllows, delivered);
      BeginAllRecords(s, m, m.items, delivered);
      var n := |s.decisions|;
      assert forall d :: 0 <= d < n ==> t.decisions[d] == t.decisions[..n][d];
      forall d | n <= d < |t.decisions|
        ensures t.decisions[d].key == m.key && t.decisions[d].request == m.items[d - n].id
      {
        var k := d - n;
        assert t.decisions[|s.decisions| + k] == Decision(m.items[k].id, m.action, m.source, Started, m.key, m.payload, "");
      }
    }
  }

  lemma {:induction false} RunKeepsKeysOnce(steps: seq<Step>)
    ensures KeysOnce(Run(EMPTY, steps).decisions)
  {
    if steps != [] {
      RunKeepsKeysOnce(steps[..|steps| - 1]);
      StepKeepsKeysOnce(Run(EMPTY, steps[..|steps| - 1]), steps[|steps| - 1]);
    }
  }

  /** The request was begun under the mutation's key, by a mutation with the same content. */
  ghost predicate BegunBy(s: State, m: BeginMutation, id: RequestID) {
    exists d :: 0 <= d < |s.decisions| && s.decisions[d].request == id && s.decisions[d].key == m.key &&
      s.decisions[d].action == m.action && s.decisions[d].source == m.source && s.decisions[d].payload == m.payload
  }

  /** A mutation is taken for a repetition exactly if each request named in it, none of them twice,
      was begun by this very mutation before. */
  lemma ReplayIff(s: State, m: BeginMutation, policyAllows: bool, delivered: bool)
    requires KeysOnce(s.decisions) && forall d :: 0 <= d < |s.decisions| ==> s.decisions[d].request in s.requests
    ensures BeginDecisions(s, m, policyAllows, delivered).1 == Ok(true) <==>
            (m.source == Automatic ==> policyAllows) && m.items != [] && DistinctItems(m.items) &&
            forall item :: item in m.items ==> BegunBy(s, m, item.id)
  {
    if BeginDecisions(s, m, policyAllows, delivered).1 == Ok(true) {
      forall item | item in m.items
        ensures BegunBy(s, m, item.id)
      {
        var d :| d in PriorUse(s, m) && s.decisions[d].request == item.id && SameMutation(s.decisions[d], m);
        assert s.decisions[d].request == item.id;
      }
      BegunCount(s, m);
    } else if m.items != [] && DistinctItems(m.items) && forall item :: item in m.items ==> BegunBy(s, m, item.id) {
      BegunCount(s, m);
      forall item | item in m.items
        ensures item.id in s.requests
        ensures exists d :: d in PriorUse(s, m) && s.decisions[d].request == item.id && SameMutation(s.decisions[d], m)
      {
        BegunEarlier(s, m, item);
      }
    }
  }

  lemma BegunEarlier(s: State, m: BeginMutation, item: Item)
    requires item in m.items && forall d :: 0 <= d < |s.decisions| ==> s.decisions[d].request in s.requests
    requires forall item :: item in m.items ==> BegunBy(s, m, item.id)
    ensures item.id in s.requests
    ensures exists d :: d in PriorUse(s, m) && s.decisions[d].request == item.id && SameMutation(s.decisions[d], m)
  {
    assert BegunBy(s, m, item.id);
    var d :| 0 <= d < |s.decisions| && s.decisions[d].request == item.id && s.decisions[d].key == m.key &&
      s.decisions[d].action == m.action && s.decisions[d].source == m.source && s.decisions[d].payload == m.payload;
    assert d in PriorUse(s, m);
  }

  lemma BegunCount(s: State, m: BeginMutation)
    requires KeysOnce(s.decisions) && forall d :: 0 <= d < |s.decisions| ==> s.decisions[d].request in s.requests
    requires forall item :: item in m.items ==> BegunBy(s, m, item.id)
    ensures PriorUse(s, m) != {} <==> m.items != []
    ensures |PriorUse(s, m)| == |m.items| <==> DistinctItems(m.items)
  {
    IDsCount(m.items);
    forall id | id in IDs(m.items)
      ensures exists d :: d in PriorUse(s, m) && s.decisions[d].request == id
    {
      var item :| item in m.items && item.id == id;
      BegunEarlier(s, m, item);
    }
    UsesCount(s.decisions, PriorUse(s, m), IDs(m.items));
  }

  lemma {:induction false} IDsCount(items: seq<Item>)
    ensures |IDs(items)| <= |items| && (|IDs(items)| == |items| <==> DistinctItems(items))
    ensures items != [] <==> IDs(items) != {}
  {
    if items != [] {
      var front, last := items[..|items| - 1], items[|items| - 1];
      IDsCount(front);
      assert items == front + [last];
      assert IDs(items) == IDs(front) + {last.id};
      assert last.id in IDs(front) <==> exists k :: 0 <= k < |front| && items[k].id == last.id;
    }
  }

  // As many attempts under one key as requests that they are for.
  lemma {:induction false} UsesCount(decisions: seq<Decision>, uses: set<nat>, ids: set<RequestID>)
    requires forall d :: d in uses ==> d < |decisions| && decisions[d].request in ids
    requires forall d, e :: d in uses && e in uses && decisions[d].request == decisions[e].request ==> d == e
    requires forall id :: id in ids ==> exists d :: d in uses && decisions[d].request == id
    ensures |uses| == |ids|
    decreases |ids|
  {
    if ids == {} {
      assert uses == {};
    } else {
      var id :| id in ids;
      var d :| d in uses && decisions[d].request == id;
      UsesCount(decisions, uses - {d}, ids - {id});
    }
  }

  lemma PriorUseIff(s: State, m: BeginMutation)
    ensures PriorUse(s, m) == {} <==>
            forall d, k :: 0 <= d < |s.decisions| && 0 <= k < |m.items| && s.decisions[d].key == m.key ==>
              s.decisions[d].request != m.items[k].id
  {
    if d, k :| 0 <= d < |s.decisions| && 0 <= k < |m.items| && s.decisions[d].key == m.key && s.decisions[d].request == m.items[k].id {
      assert m.items[k] in m.items && m.items[k].id in IDs(m.items);
      assert d in PriorUse(s, m);
    }
    if d :| d in PriorUse(s, m) {
      var item :| item in m.items && item.id == s.decisions[d].request;
      var k :| 0 <= k < |m.items| && m.items[k] == item;
      assert s.decisions[d].request == m.items[k].id;
    }
  }

  /** Recovery frees exactly the requests whose lease has run out: the request and its attempt
      become unknown, and nothing else changes. */
  lemma RecoveryFreesExpired(s: State, id: RequestID, expiredBefore: int)
    requires Inv(s)
    ensures var t := Do(s, Recover(id, expiredBefore));
            if id in s.requests && s.requests[id].status == Processing && s.requests[id].leaseEnds < expiredBefore then
              s.requests[id].last.Some? && s.requests[id].last.value < |s.decisions| &&
              t.requests == s.requests[id := t.requests[id]] && t.requests[id].status == Unknown &&
              t.decisions == s.decisions[s.requests[id].last.value :=
                s.decisions[s.requests[id].last.value].(status := Indefinite, code := "processing_lease_expired")]
            else t == s
  {
    if id in s.requests && s.requests[id].status == Processing {
      assert RequestOk(s.requests, s.decisions, id);
    }
  }

  /** One item of a bulk result: it tells what is stored about this mutation's attempt on its request.
      A replayed item answers from the store; a new one was sent exactly when the caller had not gone,
      and is otherwise out of reach for ever. */
  ghost predicate ReportsOn(s: State, t: State, m: BeginMutation, id: RequestID, fate: ItemFate, item: BulkItem) {
    item.id == id && Reported(t, item) && t.decisions[item.decision].key == m.key &&
    SameMutation(t.decisions[item.decision], m) &&
    if item.decision < |s.decisions| then
      s.decisions[item.decision] == t.decisions[item.decision] && item.attempt == s.decisions[item.decision].status != Started
    else
      StoringTells(t, fate, item) &&
      if fate.cancelled then item.outcome == ItemFailed && OutOfReach(t, item.decision)
      else CalledWith(t.calls, item.decision, fate.outcome) && AnswerTells(t, fate, item)
  }

  /** Whether an item's completion is known to be stored: only an acknowledged storing makes it
      known, and makes it so unless the attempt was finalized otherwise. */
  ghost predicate StoringTells(s: State, fate: ItemFate, item: BulkItem)
    requires item.decision < |s.decisions|
  {
    (item.attempt != Started ==> fate.stored == Acked) &&
    (item.attempt == Started ==> item.outcome == ItemFailed && item.code == "persistence_unavailable") &&
    (item.attempt == Started && fate.stored == Acked ==> s.decisions[item.decision].status != Started)
  }

  /** A sent item whose completion is known to be stored is confirmed exactly if the gateway
      confirmed it, failed exactly if it was refused, and unknown otherwise; a confirmed one has its
      request approved or rejected. */
  ghost predicate AnswerTells(s: State, fate: ItemFate, item: BulkItem)
    requires item.decision < |s.decisions|
  {
    var d := s.decisions[item.decision];
    (item.attempt != Started ==>
      (item.outcome == ItemConfirmed <==> fate.outcome == Some(ConfirmedOutcome)) &&
      (item.outcome == ItemFailed <==> Refused(fate.outcome)) &&
      item.code == ItemCode(fate)) &&
    (item.outcome == ItemConfirmed ==>
      d.request in s.requests && s.requests[d.request].status == if d.action == Approve then Approved else Rejected)
  }

  function ItemCode(fate: ItemFate): string {
    match fate.outcome
    case None => "invalid_gateway_result"
    case Some(ConfirmedOutcome) => ""
    case Some(UnavailableOutcome) => "dependency_unavailable"
    case Some(FailedOutcome) => if fate.code != "" then fate.code else "upstream_failure"
    case Some(UnknownOutcome) => if fate.code != "" then fate.code else "outcome_unknown"
  }

  ghost predicate AllReport(s: State, t: State, m: BeginMutation, fates: seq<ItemFate>, items: seq<BulkItem>) {
    |items| <= |m.items| && |items| <= |fates| &&
    forall k :: 0 <= k < |items| ==> ReportsOn(s, t, m, m.items[k].id, fates[k], items[k])
  }

  lemma ReportsPersist(s: State, before: seq<Step>, after: seq<Step>, m: BeginMutation, fates: seq<ItemFate>, items: seq<BulkItem>)
    requires before <= after && AllReport(s, Run(EMPTY, before), m, fates, items)
    requires Settles(s, Run(EMPTY, before)) && Settles(Run(EMPTY, before), Run(EMPTY, after))
    ensures AllReport(s, Run(EMPTY, after), m, fates, items)
  {
    hide Run, OutOfReach;
    var t, u := Run(EMPTY, before), Run(EMPTY, after);
    forall k | 0 <= k < |items|
      ensures ReportsOn(s, u, m, m.items[k].id, fates[k], items[k])
    {
      var d := items[k].decision;
      assert ReportsOn(s, t, m, m.items[k].id, fates[k], items[k]);
      if OutOfReach(t, d) {
        NeverSent(EMPTY, d, before, after);
      }
    }
  }

  lemma NothingToReport(s: State, t: State, m: BeginMutation, fates: seq<ItemFate>)
    ensures AllReport(s, t, m, fates, [])
  {
  }

  lemma OneMoreReports(s: State, t: State, m: BeginMutation, fates: seq<ItemFate>, items: seq<BulkItem>, item: BulkItem)
    requires AllReport(s, t, m, fates, items) && |items| < |m.items| && |items| < |fates|
    requires ReportsOn(s, t, m, m.items[|items|].id, fates[|items|], item)
    ensures AllReport(s, t, m, fates, items + [item])
  {
  }

  function Slots(low: nat, high: nat): (slots: set<nat>)
    ensures forall d :: d in slots <==> low <= d < high
    decreases high - low
  {
    if low >= high then {} else {low} + Slots(low + 1, high)
  }

  /** From item `i` on, the reservations of a bulk decision wait untouched. */
  ghost predicate Awaiting(s: State, m: BeginMutation, base: nat, i: nat) {
    base + |m.items| <= |s.decisions| &&
    forall d :: base + i <= d < base + |m.items| ==>
      d in s.tasks && s.tasks[d] == Reserved && s.decisions[d].request == m.items[d - base].id &&
      s.decisions[d].key == m.key && SameMutation(s.decisions[d], m)
  }

  lemma AwaitingAfterBegin(s: State, m: BeginMutation)
    requires BeginDecisions(s, m, true, true).1 == Ok(false)
    ensures Awaiting(BeginDecisions(s, m, true, true).0, m, |s.decisions|, 0)
  {
    BeginResult(s, m, true, true);
    var t, base := BeginDecisions(s, m, true, true).0, |s.decisions|;
    forall d | base <= d < base + |m.items|
      ensures d in t.tasks && t.tasks[d] == Reserved && t.decisions[d].request == m.items[d - base].id &&
              t.decisions[d].key == m.key && SameMutation(t.decisions[d], m)
    {
      var k := d - base;
      assert t.decisions[base + k].request == m.items[k].id;
    }
  }

  lemma AwaitingNext(s: State, m: BeginMutation, base: nat, i: nat)
    requires Awaiting(s, m, base, i) && i < |m.items|
    ensures base + i in s.tasks && s.tasks[base + i] == Reserved && base + i < |s.decisions|
    ensures s.decisions[base + i].request == m.items[i].id && SameMutation(s.decisions[base + i], m)
  {
  }

  lemma AwaitingRest(s: State, t: State, m: BeginMutation, base: nat, i: nat, mine: set<nat>)
    requires Awaiting(s, m, base, i) && i < |m.items| && Settles(s, t)
    requires mine == Slots(base + i, base + |m.items|) && Holds(s, t, mine - {base + i})
    ensures Awaiting(t, m, base, i + 1)
  {
  }

  lemma ExecutedItemReported(s: State, d: nat, fate: ItemFate, r: Executed)
    requires d < |s.decisions| && s.decisions[d].source == Manual && Executes(s, d, fate, r)
    ensures var item := BulkItemFromResult(s.decisions[d].request, d, r);
            Reported(s, item) && CalledWith(s.calls, d, fate.outcome) && StoringTells(s, fate, item) && AnswerTells(s, fate, item)
  {
  }

  lemma SkippedItemTells(s: State, fate: ItemFate, item: BulkItem)
    requires item.decision < |s.decisions| && item.outcome == ItemFailed
    requires item.attempt != Started ==> fate.stored == Acked
    requires item.attempt == Started ==> item.code == "persistence_unavailable"
    requires item.attempt == Started && fate.stored == Acked ==> s.decisions[item.decision].status != Started
    ensures StoringTells(s, fate, item)
  {
  }

  lemma ReplayedItemReports(s: State, m: BeginMutation, id: RequestID, d: nat, fate: ItemFate)
    requires id in s.requests && d in PriorUse(s, m) && s.decisions[d].request == id && SameMutation(s.decisions[d], m)
    requires ReplayResult(s.requests[id], s.decisions[d]).error != Some(ReplayConflict)
    ensures ReportsOn(s, s, m, id, fate, BulkItemFromResult(id, d, ReplayResult(s.requests[id], s.decisions[d])))
  {
  }

  lemma NewItemReports(s: State, before: State, t: State, m: BeginMutation, base: nat, i: nat, fate: ItemFate, item: BulkItem)
    requires |s.decisions| == base && i < |m.items| && Awaiting(before, m, base, i) && Settles(before, t)
    requires item.id == m.items[i].id && item.decision == base + i && Reported(t, item)
    requires StoringTells(t, fate, item)
    requires if fate.cancelled then item.outcome == ItemFailed && OutOfReach(t, base + i)
             else CalledWith(t.calls, base + i, fate.outcome) && AnswerTells(t, fate, item)
    ensures ReportsOn(s, t, m, m.items[i].id, fate, item)
  {
  }

  lemma ItemNames(id: RequestID, d: nat, r: Executed)
    ensures var item := BulkItemFromResult(id, d, r); item.id == id && item.decision == d
  {
  }

  lemma EmptyIsTallied()
    ensures Tallied(BulkResult([], 0, 0, 0))
  {
  }

  lemma AppendAppends(r: BulkResult, item: BulkItem)
    ensures Append(r, item).items == r.items + [item]
  {
  }

  // A candidate of the automatic worker: the mutation it would ask for, if its review allows one.
  datatype Candidate = Candidate(
    mutation: BeginMutation, eligible: bool, policyAllows: bool, delivered: bool, fate: ItemFate)

  predicate AutomaticMutation(m: BeginMutation) {
    m.source == Automatic && |m.items| == 1
  }

  ghost predicate Sent(s: State, d: nat) {
    d < |s.decisions| && s.decisions[d].source == Automatic && Called(s.calls, d)
  }

  lemma SentPersists(s: State, t: State, sent: seq<nat>)
    requires Settles(s, t) && forall k :: 0 <= k < |sent| ==> Sent(s, sent[k])
    ensures forall k :: 0 <= k < |sent| ==> Sent(t, sent[k]) && sent[k] < |s.decisions|
  {
    forall k | 0 <= k < |sent|
      ensures Sent(t, sent[k])
    {
      var i :| 0 <= i < |s.calls| && s.calls[i].decision == sent[k];
      assert t.calls[i].decision == sent[k];
    }
  }

  lemma ExecutedIsCalled(s: State, d: nat, fate: ItemFate, r: Executed)
    requires Executes(s, d, fate, r)
    ensures Called(s.calls, d)
  {
  }

  lemma SettlesItself(s: State)
    ensures Settles(s, s)
  {
  }

  lemma GrowsBySettling(s: State, t: State)
    requires Settles(s, t)
    ensures |s.decisions| <= |t.decisions|
  {
  }

  class Service {
    var world: State
    ghost var steps: seq<Step>

    constructor ()
      ensures Valid() && steps == []
    {
      world, steps := EMPTY, [];
    }

    ghost predicate Valid()
      reads this
    {
      world == Run(EMPTY, steps)
    }

    method Perform(step: Step)
      requires Valid()
      modifies this
      ensures Valid() && steps == old(steps) + [step]
      ensures world == Do(old(world), step) && Settles(old(world), world) && Inv(world)
    {
      StepSettles(world, step);
      world, steps := Do(world, step), steps + [step];
      assert steps[..|steps| - 1] == old(steps);
      RunKeepsInv(EMPTY, steps);
    }

    /** Anything the other goroutines and processes may do between two steps of this one. */
    method Interfere(mine: set<nat>)
      requires Valid()
      modifies this
      ensures Valid() && old(steps) <= steps
      ensures Settles(old(world), world) && Holds(old(world), world, mine)
    {
      var others: seq<Step> := *;
      SettlesItself(world);
      for i := 0 to |others|
        invariant Valid() && old(steps) <= steps
        invariant Settles(old(world), world) && Holds(old(world), world, mine)
      {
        hide Settles, Inv, Do, Holds, Run;
        if Foreign(others[i], mine) {
          ForeignHolds(world, others[i], mine);
          ghost var s, t := world, Do(world, others[i]);
          Perform(others[i]);
          SettlesTransitive(old(world), s, t);
          HoldsTransitive(old(world), s, t, mine);
        }
      }
    }

    /** Tries once to store a completion; when the service does not see it succeed, the completion
        stays behind for the retry worker. */
    method StoreCompletion(d: nat, c: Completion, stored: Fate, mine: set<nat>) returns (ok: bool)
      requires Valid() && d in mine && d < |world.decisions| && d in world.tasks && world.tasks[d] == Completing(c)
      modifies this
      ensures Valid() && old(steps) <= steps
      ensures Settles(old(world), world) && Holds(old(world), world, mine - {d})
      ensures if ok then StoredAs(world, d, c) else d in world.tasks && world.tasks[d] == Completing(c)
      ensures ok ==> stored == Acked
      ensures !ok && stored == Acked ==> d < |world.decisions| && world.decisions[d].status != Started
    {
      hide Settles, Inv, Run, CompleteDecision;
      Interfere(mine);
      AttemptKeepsIdentity(old(world), world, d);
      ok := false;
      HoldsFewer(old(world), world, mine, mine - {d});
      if stored != Lost {
        ghost var s, t := world, Do(world, Complete(d, stored == Acked));
        ok := CompleteDecision(world, d, c).1 && stored == Acked;
        CompletionIsFinal(world, d, c);
        RunKeepsInv(EMPTY, steps);
        if world.decisions[d].status == Started {
          StartedIsCompletable(world, d, c);
        }
        OwnStepHolds(s, Complete(d, stored == Acked), d, mine - {d});
        Perform(Complete(d, stored == Acked));
        SettlesTransitive(old(world), s, t);
        HoldsTransitive(old(world), s, t, mine - {d});
      }
    }

    method Execute(d: nat, fate: ItemFate, mine: set<nat>) returns (r: Executed)
      requires Valid() && d in mine && d < |world.decisions| && d in world.tasks && world.tasks[d] == Reserved
      modifies this
      ensures Valid() && old(steps) <= steps
      ensures Settles(old(world), world) && Holds(old(world), world, mine - {d})
      ensures Executes(world, d, fate, r)
    {
      hide Settles, Inv, Run, CompleteDecision, CompletionAfter, LeadsTo, StoredAs;
      Interfere(mine);
      ghost var ready, first := world, Do(world, Step.Decide(d, fate.outcome, fate.code));
      HoldsFewer(old(world), world, mine, mine - {d});
      OwnStepHolds(world, Step.Decide(d, fate.outcome, fate.code), d, mine - {d});
      var c := CompletionAfter(world.decisions[d], fate.outcome, fate.code);
      Perform(Step.Decide(d, fate.outcome, fate.code));
      assert world == first;
      var ok := StoreCompletion(d, c, fate.stored, mine);
      SettlesTransitive(ready, first, world);
      HoldsTransitive(ready, first, world, mine - {d});
      SentStaysSent(ready, d, fate, world);
      SettlesTransitive(old(world), ready, world);
      HoldsTransitive(old(world), ready, world, mine - {d});
      r := if ok then ExecutedAfter(c, fate.outcome) else Executed(None, Some(PersistenceFailed));
    }

    method CompleteWithoutExternal(id: RequestID, d: nat, code: string, stored: Fate, mine: set<nat>) returns (item: BulkItem)
      requires Valid() && d in mine && d < |world.decisions| && d in world.tasks && world.tasks[d] == Reserved
      requires world.decisions[d].source == Manual && world.decisions[d].request == id
      modifies this
      ensures Valid() && old(steps) <= steps
      ensures Settles(old(world), world) && Holds(old(world), world, mine - {d})
      ensures item.id == id && item.decision == d && item.outcome == ItemFailed && Reported(world, item)
      ensures OutOfReach(world, d) && (item.attempt == Failed || item.attempt == Started)
      ensures item.attempt == Failed ==> stored == Acked && item.code == code
      ensures item.attempt == Started ==> item.code == "persistence_unavailable"
      ensures item.attempt == Started && stored == Acked ==> world.decisions[d].status != Started
    {
      hide Settles, Inv, Run, CompleteDecision;
      Interfere(mine);
      AttemptKeepsIdentity(old(world), world, d);
      HoldsFewer(old(world), world, mine, mine - {d});
      ghost var ready, first := world, Do(world, Skip(d, code));
      OwnStepHolds(world, Skip(d, code), d, mine - {d});
      var c := Completion(Failed, Pending, code);
      SkippedIsOutOfReach(world, d, code, steps);
      Perform(Skip(d, code));
      assert world == first;
      ghost var skipped := steps;
      var ok := StoreCompletion(d, c, stored, mine);
      NeverSent(EMPTY, d, skipped, steps);
      SettlesTransitive(ready, first, world);
      HoldsTransitive(ready, first, world, mine - {d});
      SettlesTransitive(old(world), ready, world);
      HoldsTransitive(old(world), ready, world, mine - {d});
      AttemptKeepsIdentity(old(world), world, d);
      item := if ok then BulkItem(id, d, Failed, ItemFailed, code) else BulkItem(id, d, Started, ItemFailed, "persistence_unavailable");
    }

    /** A single manual decision: refused without effect, replayed without effect, or executed. */
    method Decide(id: RequestID, version: nat, m: BeginMutation, delivered: bool, fate: ItemFate)
      returns (r: Result<Executed, StoreError>)
      requires Valid() && m.items == [Item(id, version)] && m.source == Manual
      modifies this
      ensures Valid() && old(steps) <= steps && Settles(old(world), world)
      ensures r.Err? && r.error != Unavailable ==> world == old(world)
      ensures r.Ok? ==> exists d :: DecidedBy(old(world), world, m, id, d, fate, r.value)
    {
      hide Settles, Inv, Run, CompleteDecision, Executes, CalledWith, CompletionAfter;
      var began := BeginDecisions(world, m, true, delivered).1;
      var n := |world.decisions|;
      BeginResult(world, m, true, delivered);
      Perform(Begin(m, true, delivered));
      ghost var first := world;
      match began {
        case Err(e) => r := Err(e);
        case Ok(true) =>
          assert m.items[0] in m.items && m.items[0].id == id;
          var d :| d in PriorUse(world, m) && world.decisions[d].request == id && SameMutation(world.decisions[d], m);
          r := Ok(ReplayResult(world.requests[id], world.decisions[d]));
          assert DecidedBy(old(world), world, m, id, d, fate, r.value);
        case Ok(false) =>
          if delivered {
            assert first.decisions[n + 0].request == m.items[0].id;
            var executed := Execute(n, fate, {n});
            SettlesTransitive(old(world), first, world);
            AttemptKeepsIdentity(first, world, n);
            r := Ok(executed);
            assert DecidedBy(old(world), world, m, id, n, fate, executed);
          } else {
            r := Err(Unavailable);
          }
      }
    }

    /** One item of a replayed bulk decision; None while its attempt is still running. */
    method ReplayItem(m: BeginMutation, i: nat, ghost fate: ItemFate) returns (item: Option<BulkItem>)
      requires i < |m.items| && BeginDecisions(world, m, true, true).1 == Ok(true)
      ensures item.Some? ==> ReportsOn(world, world, m, m.items[i].id, fate, item.value)
    {
      hide ReportsOn;
      var id := m.items[i].id;
      assert m.items[i] in m.items;
      var d :| d in PriorUse(world, m) && world.decisions[d].request == id && SameMutation(world.decisions[d], m);
      var replayed := ReplayResult(world.requests[id], world.decisions[d]);
      if replayed.error == Some(ReplayConflict) {
        return None;
      }
      ReplayedItemReports(world, m, id, d, fate);
      item := Some(BulkItemFromResult(id, d, replayed));
    }

    /** One item of a new bulk decision: sent, or skipped when the caller has gone. */
    method DecideReserved(m: BeginMutation, base: nat, i: nat, fate: ItemFate) returns (item: BulkItem)
      requires Valid() && m.source == Manual && i < |m.items| && Awaiting(world, m, base, i)
      modifies this
      ensures Valid() && old(steps) <= steps && Settles(old(world), world)
      ensures Awaiting(world, m, base, i + 1)
      ensures item.id == m.items[i].id && item.decision == base + i && Reported(world, item)
      ensures StoringTells(world, fate, item)
      ensures if fate.cancelled then item.outcome == ItemFailed && OutOfReach(world, base + i)
              else CalledWith(world.calls, base + i, fate.outcome) && AnswerTells(world, fate, item)
    {
      hide Settles, Inv, Run, CompleteDecision, Executes, CalledWith, CompletionAfter, Awaiting, Reported, OutOfReach, AnswerTells, StoringTells;
      var mine := Slots(base + i, base + |m.items|);
      ghost var before := world;
      AwaitingNext(world, m, base, i);
      if fate.cancelled {
        item := CompleteWithoutExternal(m.items[i].id, base + i, "request_canceled", fate.stored, mine);
        SkippedItemTells(world, fate, item);
      } else {
        var executed := Execute(base + i, fate, mine);
        item := BulkItemFromResult(m.items[i].id, base + i, executed);
        AttemptKeepsIdentity(before, world, base + i);
        ExecutedItemReported(world, base + i, fate, executed);
        ItemNames(m.items[i].id, base + i, executed);
      }
      AwaitingRest(before, world, m, base, i, mine);
    }

    /** A bulk decision: one reservation for all requests, then one item after the other. */
    method BulkDecide(m: BeginMutation, delivered: bool, fates: seq<ItemFate>) returns (r: Result<BulkResult, DecideError>)
      requires Valid() && m.source == Manual && DistinctItems(m.items) && |fates| == |m.items|
      modifies this
      ensures Valid() && old(steps) <= steps && Settles(old(world), world)
      ensures r.Err? && r.error != StoreRefused(Unavailable) ==> world == old(world)
      ensures r.Ok? ==> |r.value.items| == |m.items| && Tallied(r.value)
      ensures r.Ok? ==> AllReport(old(world), world, m, fates, r.value.items)
    {
      hide Settles, Inv, Run, CompleteDecision, Executes, CalledWith, CompletionAfter, Tallied, AllReport, ReportsOn, Awaiting, Append;
      var began := BeginDecisions(world, m, true, delivered).1;
      var base := |world.decisions|;
      BeginResult(world, m, true, delivered);
      if began == Ok(false) && delivered {
        AwaitingAfterBegin(world, m);
      }
      Perform(Begin(m, true, delivered));
      if began.Err? {
        return Err(StoreRefused(began.error));
      }
      if began == Ok(false) && !delivered {
        return Err(StoreRefused(Unavailable));
      }
      var replay := began.value;
      var result := BulkResult([], 0, 0, 0);
      EmptyIsTallied();
      NothingToReport(old(world), world, m, fates);
      for i := 0 to |m.items|
        invariant Valid() && old(steps) <= steps && Settles(old(world), world)
        invariant |result.items| == i && Tallied(result)
        invariant replay ==> world == old(world)
        invariant !replay ==> Awaiting(world, m, base, i)
        invariant AllReport(old(world), world, m, fates, result.items)
      {
        var item: BulkItem;
        ghost var before, at := world, steps;
        if replay {
          var replayed := ReplayItem(m, i, fates[i]);
          if replayed.None? {
            return Err(Unfinished(ReplayConflict));
          }
          item := replayed.value;
        } else {
          item := DecideReserved(m, base, i, fates[i]);
          SettlesTransitive(old(world), before, world);
          NewItemReports(old(world), before, world, m, base, i, fates[i], item);
        }
        ReportsPersist(old(world), at, steps, m, fates, result.items);
        OneMoreReports(old(world), world, m, fates, result.items, item);
        AppendTallies(result, item);
        AppendAppends(result, item);
        result := Append(result, item);
      }
      r := Ok(result);
    }

    /** One pass of the automatic worker over its candidates, until the worker is stopped; returns
        the attempts it sent. */
    method ProcessAutoApprovals(candidates: seq<Candidate>, stop: nat) returns (sent: seq<nat>)
      requires Valid() && forall k :: 0 <= k < |candidates| ==> AutomaticMutation(candidates[k].mutation)
      modifies this
      ensures Valid() && old(steps) <= steps && Settles(old(world), world)
      ensures forall k :: 0 <= k < |sent| ==> Sent(world, sent[k]) && OneShot(world, sent[k])
      ensures forall j, k :: 0 <= j < k < |sent| ==> sent[j] < sent[k]
    {
      hide Settles, Inv, Run, CompleteDecision, Executes, CalledWith, CompletionAfter, Sent, OneShot;
      sent := [];
      SettlesItself(world);
      for i := 0 to |candidates|
        invariant Valid() && old(steps) <= steps && Settles(old(world), world)
        invariant forall k :: 0 <= k < |sent| ==> Sent(world, sent[k]) && sent[k] < |world.decisions|
        invariant forall j, k :: 0 <= j < k < |sent| ==> sent[j] < sent[k]
      {
        if i == stop {
          break;
        }
        ghost var before := world;
        var n := DecideAutomatically(candidates[i]);
        SettlesTransitive(old(world), before, world);
        SentPersists(before, world, sent);
        GrowsBySettling(before, world);
        sent := if n.Some? then sent + [n.value] else sent;
      }
      RunKeepsInv(EMPTY, steps);
      forall k | 0 <= k < |sent|
        ensures OneShot(world, sent[k])
      {
        InvGivesOneShot(world, sent[k]);
      }
    }

    method DecideAutomatically(c: Candidate) returns (sent: Option<nat>)
      requires Valid() && AutomaticMutation(c.mutation)
      modifies this
      ensures Valid() && old(steps) <= steps && Settles(old(world), world)
      ensures sent.Some? ==> |old(world).decisions| <= sent.value < |world.decisions| && Sent(world, sent.value)
    {
      hide Settles, Inv, Run, CompleteDecision, Executes, CalledWith, CompletionAfter;
      Interfere({});
      ghost var before := world;
      GrowsBySettling(old(world), world);
      sent := None;
      if c.eligible {
        var began := BeginDecisions(world, c.mutation, c.policyAllows, c.delivered).1;
        var n := |world.decisions|;
        BeginResult(world, c.mutation, c.policyAllows, c.delivered);
        Perform(Begin(c.mutation, c.policyAllows, c.delivered));
        ghost var first := world;
        SettlesTransitive(old(world), before, world);
        if began == Ok(false) && c.delivered {
          assert first.decisions[n + 0].request == c.mutation.items[0].id;
          var executed := Execute(n, c.fate, {n});
          SettlesTransitive(old(world), first, world);
          AttemptKeepsIdentity(first, world, n);
          ExecutedIsCalled(world, n, c.fate, executed);
          sent := Some(n);
        }
      }
    }
  }
}
