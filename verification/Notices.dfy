/** Publishing a notice to many groups: a feeder hands target indices to a pool of workers, which
    look up the bot's role and publish; the caller may cancel at any time.  One run is any
    interleaving of the steps below. */
module Notices {
  import opened Wrappers
  import opened Text

  const MAX_TARGETS := 50
  const MAX_INT64 := 9223372036854775807

  datatype Role = Owner | Admin | Member | UnknownRole

  datatype Target = Target(groupID: string, name: string)

  datatype ItemStatus = Succeeded | Denied | Failed | Unknown

  datatype Item = Item(target: Target, role: Role, status: ItemStatus, code: string)

  type FailureCode = code: string | code != "" witness "upstream_error"

  // What an error matches, in the order in which it is asked; one error may match several.  An
  // operation error carries its code.
  datatype GatewayError = GatewayError(unavailable: bool, canceled: bool, deadline: bool, operation: Option<FailureCode>)

  // ctx.Err() of a context that was canceled or has run out of time.
  const CANCEL_ERROR := GatewayError(false, true, false, None)
  const DEADLINE_ERROR := GatewayError(false, false, true, None)

  predicate IndefiniteCode(code: FailureCode) {
    code == "timeout" || code == "disconnected" || code == "transport_error" || code == "invalid_response" || code == "upstream_error"
  }

  /** Only a failure while sending can leave the outcome unknown. */
  function FailureItem(target: Target, role: Role, err: GatewayError, sending: bool): (item: Item)
    ensures item.target == target && item.role == role && item.code != ""
    ensures item.status == Failed || item.status == Unknown
    ensures item.status == Unknown <==>
            sending && !err.unavailable &&
            (err.canceled || err.deadline || (err.operation.Some? && err.operation.value in
              {"timeout", "disconnected", "transport_error", "invalid_response", "upstream_error"}))
    ensures err.unavailable ==> item.code == "dependency_unavailable"
    ensures !err.unavailable && err.canceled ==> item.code == "request_canceled"
    ensures !err.unavailable && !err.canceled && err.deadline ==> item.code == "upstream_timeout"
    ensures !err.unavailable && !err.canceled && !err.deadline && err.operation.Some? ==> item.code == err.operation.value
    ensures !err.unavailable && !err.canceled && !err.deadline && err.operation.None? ==>
              item.code == if sending then "napcat_request_failed" else "role_lookup_failed"
  {
    if err.unavailable then Item(target, role, Failed, "dependency_unavailable")
    else if err.canceled then Item(target, role, if sending then Unknown else Failed, "request_canceled")
    else if err.deadline then Item(target, role, if sending then Unknown else Failed, "upstream_timeout")
    else
      match err.operation
      case Some(code) => Item(target, role, if sending && IndefiniteCode(code) then Unknown else Failed, code)
      case None => Item(target, role, Failed, if sending then "napcat_request_failed" else "role_lookup_failed")
  }

  predicate ValidGroupID(id: string) {
    0 < |id| <= 32 && AllDigits(id) && exists k :: 0 <= k < |id| && id[k] != '0'
  }

  // strconv.ParseInt and the sign check.
  predicate Addressable(id: string) {
    var digits := if id != "" && id[0] == '+' then id[1..] else id;
    AllDigits(digits) && 0 < DecimalValue(digits) <= MAX_INT64
  }

  /** A valid group id is a positive number of up to 32 digits; it can be addressed exactly if the
      number fits 64 bits, however many zeros lead it. */
  lemma ValidGroupIDIff(id: string)
    ensures ValidGroupID(id) <==> |id| <= 32 && AllDigits(id) && DecimalValue(id) > 0
    ensures ValidGroupID(id) ==> (Addressable(id) <==> DecimalValue(id) <= MAX_INT64)
  {
    if AllDigits(id) {
      PositiveIff(id);
    }
    assert id != "" && id[0] == '+' ==> !IsDigit(id[0]);
  }

  // ---------------------------------------------------------------------------------------
  // The pool

  datatype Worker = Idle | Looking(index: nat) | Sending(index: nat, role: Role) | Exited

  /** What happened outside the pool, by target: how many targets were fed, what the gateway said
      about the bot's role, what it said to each notice, the notices in the order of sending, and
      why the feeder stopped early. */
  datatype Run = Run(
    fed: nat, lookups: map<nat, Result<Role, GatewayError>>, replies: map<nat, Option<GatewayError>>, sent: seq<nat>,
    stopped: Option<GatewayError>)

  // `closed` tells whether the feeder has closed the channel.
  datatype Pool = Pool(items: seq<Option<Item>>, closed: bool, workers: seq<Worker>, run: Run)

  datatype Step =
    | Feed(w: nat)
    | Close
    | Cancel(deadline: bool)
    | LookUp(w: nat, found: Result<Role, GatewayError>)
    | Send(w: nat, failed: Option<GatewayError>)
    | Exit(w: nat)

  const NEW_RUN := Run(0, map[], map[], [], None)

  function NewPool(targets: seq<Target>, workers: nat): Pool {
    Pool(seq(|targets|, k => None), false, seq(if workers < |targets| then workers else |targets|, k => Idle), NEW_RUN)
  }

  predicate Enabled(targets: seq<Target>, p: Pool, step: Step)
    requires |p.items| == |targets|
  {
    match step
    case Feed(w) => !p.closed && p.run.fed < |targets| && w < |p.workers| && p.workers[w] == Idle
    case Close => !p.closed && p.run.fed == |targets|
    case Cancel(_) => !p.closed && p.run.fed < |targets|
    case LookUp(w, _) => w < |p.workers| && p.workers[w].Looking? && p.workers[w].index < |targets|
    case Send(w, _) => w < |p.workers| && p.workers[w].Sending? && p.workers[w].index < |targets|
    case Exit(w) => p.closed && w < |p.workers| && p.workers[w] == Idle
  }

  function Store(p: Pool, w: nat, i: nat, item: Item, run: Run): Pool
    requires w < |p.workers| && i < |p.items|
  {
    p.(items := p.items[i := Some(item)], workers := p.workers[w := Idle], run := run)
  }

  function Do(targets: seq<Target>, p: Pool, step: Step): (q: Pool)
    requires |p.items| == |targets| && Enabled(targets, p, step)
    ensures |q.items| == |targets|
  {
    match step
    case Feed(w) => p.(run := p.run.(fed := p.run.fed + 1), workers := p.workers[w := Looking(p.run.fed)])
    case Close => p.(closed := true)
    case Cancel(deadline) =>
      p.(closed := true, run := p.run.(stopped := Some(if deadline then DEADLINE_ERROR else CANCEL_ERROR)))
    case LookUp(w, found) =>
      var i := p.workers[w].index;
      var target := targets[i];
      var run := p.run.(lookups := p.run.lookups[i := found]);
      if !Addressable(target.groupID) then Store(p, w, i, Item(target, UnknownRole, Failed, "invalid_group_id"), p.run)
      else if found.Err? then Store(p, w, i, FailureItem(target, UnknownRole, found.error, false), run)
      else if found.value != Owner && found.value != Admin then
        Store(p, w, i, Item(target, found.value, Denied, "bot_not_group_admin"), run)
      else p.(workers := p.workers[w := Sending(i, found.value)], run := run)
    case Send(w, failed) =>
      var i, role := p.workers[w].index, p.workers[w].role;
      var run := p.run.(sent := p.run.sent + [i], replies := p.run.replies[i := failed]);
      Store(p, w, i, if failed.Some? then FailureItem(targets[i], role, failed.value, true) else Item(targets[i], role, Succeeded, ""), run)
    case Exit(w) => p.(workers := p.workers[w := Exited])
  }

  predicate Finished(p: Pool) {
    p.closed && forall w :: 0 <= w < |p.workers| ==> p.workers[w] == Exited
  }

  // ---------------------------------------------------------------------------------------
  // What every step keeps

  predicate Holds(worker: Worker, i: nat) {
    (worker.Looking? || worker.Sending?) && worker.index == i
  }

  ghost predicate Held(p: Pool, i: nat) {
    exists w :: 0 <= w < |p.workers| && Holds(p.workers[w], i)
  }

  predicate MayPublish(role: Role) {
    role == Owner || role == Admin
  }

  /** The item of a target that was fed, from what the gateway said: the role is asked if the group
      id is a number, the notice is sent exactly if the bot is owner or admin, and the item tells
      how it ended. */
  predicate Processed(target: Target, item: Item, run: Run, i: nat) {
    item.target == target &&
    (i in run.lookups <==> Addressable(target.groupID)) &&
    (i in run.replies <==> i in run.lookups && run.lookups[i].Ok? && MayPublish(run.lookups[i].value)) &&
    (i in run.sent <==> i in run.replies) &&
    if i !in run.lookups then item.role == UnknownRole && item.status == Failed && item.code == "invalid_group_id"
    else
      match run.lookups[i]
      case Err(error) => item == FailureItem(target, UnknownRole, error, false)
      case Ok(role) =>
        item.role == role &&
        if i !in run.replies then item.status == Denied && item.code == "bot_not_group_admin"
        else if run.replies[i].None? then item.status == Succeeded && item.code == ""
        else item == FailureItem(target, role, run.replies[i].value, true)
  }

  ghost predicate IndexOk(targets: seq<Target>, p: Pool, i: nat)
    requires |p.items| == |targets| && i < |targets|
  {
    if p.items[i].Some? then i < p.run.fed && !Held(p, i) && Processed(targets[i], p.items[i].value, p.run, i)
    else i !in p.run.sent && i !in p.run.replies && (i < p.run.fed <==> Held(p, i)) && (i in p.run.lookups ==> i < p.run.fed)
  }

  predicate WorkerOk(targets: seq<Target>, p: Pool, worker: Worker) {
    match worker
    case Idle => true
    case Looking(i) => i < |targets| && i !in p.run.lookups
    case Sending(i, role) =>
      i < |targets| && MayPublish(role) && Addressable(targets[i].groupID) && i in p.run.lookups && p.run.lookups[i] == Ok(role)
    case Exited => p.closed
  }

  ghost predicate Inv(targets: seq<Target>, p: Pool) {
    |p.items| == |targets| && p.run.fed <= |targets| &&
    (p.closed && p.run.fed < |targets| ==> p.run.stopped.Some?) &&
    (forall i :: 0 <= i < |targets| ==> IndexOk(targets, p, i)) &&
    SentOnce(p.run.sent, |targets|) &&
    (forall w :: 0 <= w < |p.workers| ==> WorkerOk(targets, p, p.workers[w])) &&
    forall v, w, i :: 0 <= v < w < |p.workers| && 0 <= i < |targets| && Holds(p.workers[v], i) ==> !Holds(p.workers[w], i)
  }

  predicate SentOnce(sent: seq<nat>, n: nat) {
    (forall k :: 0 <= k < |sent| ==> sent[k] < n) && forall j, k :: 0 <= j < k < |sent| ==> sent[j] != sent[k]
  }

  lemma NewPoolOk(targets: seq<Target>, workers: nat)
    ensures Inv(targets, NewPool(targets, workers))
  {
  }

  /** Moving one worker between idle and holding some index affects who holds what at that index only. */
  lemma HeldAfter(p: Pool, q: Pool, w: nat, i: nat)
    requires w < |p.workers| == |q.workers| && q.workers == p.workers[w := q.workers[w]]
    requires Holds(p.workers[w], i) == Holds(q.workers[w], i)
    ensures Held(p, i) == Held(q, i)
  {
    if Held(p, i) {
      var v :| 0 <= v < |p.workers| && Holds(p.workers[v], i);
      assert Holds(q.workers[v], i);
    }
    if Held(q, i) {
      var v :| 0 <= v < |q.workers| && Holds(q.workers[v], i);
      assert Holds(p.workers[v], i);
    }
  }

  lemma FeedKeepsInv(targets: seq<Target>, p: Pool, w: nat)
    requires Inv(targets, p) && Enabled(targets, p, Feed(w))
    ensures Inv(targets, Do(targets, p, Feed(w)))
  {
    hide Addressable, SentOnce;
    var q := Do(targets, p, Feed(w));
    assert Holds(q.workers[w], p.run.fed);
    assert IndexOk(targets, p, p.run.fed);
    forall i | 0 <= i < |targets|
      ensures IndexOk(targets, q, i)
    {
      assert IndexOk(targets, p, i);
      if i != p.run.fed {
        HeldAfter(p, q, w, i);
      }
    }
  }

  /** The run agrees with another one about every target but one. */
  predicate SameElsewhere(run: Run, next: Run, i: nat, n: nat) {
    next.fed == run.fed && next.stopped == run.stopped &&
    forall j :: 0 <= j < n && j != i ==>
      (j in next.sent <==> j in run.sent) &&
      (j in next.lookups <==> j in run.lookups) && (j in run.lookups ==> next.lookups[j] == run.lookups[j]) &&
      (j in next.replies <==> j in run.replies) && (j in run.replies ==> next.replies[j] == run.replies[j])
  }

  /** A worker that finishes its target stores the item. */
  lemma StoreKeepsInv(targets: seq<Target>, p: Pool, w: nat, item: Item, run: Run)
    requires Inv(targets, p) && w < |p.workers| && (p.workers[w].Looking? || p.workers[w].Sending?)
    requires p.workers[w].index < |targets|
    requires SameElsewhere(p.run, run, p.workers[w].index, |targets|) && SentOnce(run.sent, |targets|)
    requires Processed(targets[p.workers[w].index], item, run, p.workers[w].index)
    ensures Inv(targets, Store(p, w, p.workers[w].index, item, run))
  {
    hide Addressable, SentOnce;
    var i := p.workers[w].index;
    var q := Store(p, w, i, item, run);
    assert Holds(p.workers[w], i);
    assert IndexOk(targets, p, i);
    forall j | 0 <= j < |targets|
      ensures IndexOk(targets, q, j)
    {
      assert IndexOk(targets, p, j);
      if j != i {
        HeldAfter(p, q, w, j);
      } else {
        assert !Held(q, i);
      }
    }
    forall v | 0 <= v < |q.workers|
      ensures WorkerOk(targets, q, q.workers[v])
    {
      assert v != w ==> !Holds(p.workers[v], i);
    }
  }

  /** A worker that learns that it may publish goes on with the same target. */
  lemma PermittedKeepsInv(targets: seq<Target>, p: Pool, w: nat, role: Role)
    requires Inv(targets, p) && w < |p.workers| && p.workers[w].Looking? && p.workers[w].index < |targets|
    requires MayPublish(role) && Addressable(targets[p.workers[w].index].groupID)
    ensures var i := p.workers[w].index;
            Inv(targets, p.(workers := p.workers[w := Sending(i, role)], run := p.run.(lookups := p.run.lookups[i := Ok(role)])))
  {
    hide Addressable, SentOnce;
    var i := p.workers[w].index;
    var q := p.(workers := p.workers[w := Sending(i, role)], run := p.run.(lookups := p.run.lookups[i := Ok(role)]));
    assert Holds(p.workers[w], i);
    forall j | 0 <= j < |targets|
      ensures IndexOk(targets, q, j)
    {
      assert IndexOk(targets, p, j);
      HeldAfter(p, q, w, j);
    }
    forall v | 0 <= v < |q.workers|
      ensures WorkerOk(targets, q, q.workers[v])
    {
      assert v != w ==> !Holds(p.workers[v], i);
    }
  }

  lemma ExitKeepsInv(targets: seq<Target>, p: Pool, w: nat)
    requires Inv(targets, p) && Enabled(targets, p, Exit(w))
    ensures Inv(targets, p.(workers := p.workers[w := Exited]))
  {
    hide Addressable, Processed, SentOnce;
    var q := p.(workers := p.workers[w := Exited]);
    forall i | 0 <= i < |targets|
      ensures IndexOk(targets, q, i)
    {
      assert IndexOk(targets, p, i);
      HeldAfter(p, q, w, i);
    }
  }

  lemma StepKeepsInv(targets: seq<Target>, p: Pool, step: Step)
    requires Inv(targets, p) && Enabled(targets, p, step)
    ensures Inv(targets, Do(targets, p, step))
  {
    match step
    case Feed(w) => FeedKeepsInv(targets, p, w);
    case Close => CloseKeepsInv(targets, p, p.run.stopped);
    case Cancel(deadline) => CloseKeepsInv(targets, p, Some(if deadline then DEADLINE_ERROR else CANCEL_ERROR));
    case LookUp(w, found) => LookUpKeepsInv(targets, p, w, found);
    case Send(w, failed) => SendKeepsInv(targets, p, w, failed);
    case Exit(w) => ExitKeepsInv(targets, p, w);
  }

  lemma LookUpKeepsInv(targets: seq<Target>, p: Pool, w: nat, found: Result<Role, GatewayError>)
    requires Inv(targets, p) && Enabled(targets, p, LookUp(w, found))
    ensures Inv(targets, Do(targets, p, LookUp(w, found)))
  {
    hide Addressable, SentOnce, FailureItem;
    var i := p.workers[w].index;
    var q := Do(targets, p, LookUp(w, found));
    assert Holds(p.workers[w], i) && WorkerOk(targets, p, p.workers[w]);
    assert IndexOk(targets, p, i);
    if q.workers[w] == Idle {
      assert q.run.lookups == if Addressable(targets[i].groupID) then p.run.lookups[i := found] else p.run.lookups;
      StoreKeepsInv(targets, p, w, q.items[i].value, q.run);
    } else {
      PermittedKeepsInv(targets, p, w, found.value);
    }
  }

  lemma SendKeepsInv(targets: seq<Target>, p: Pool, w: nat, failed: Option<GatewayError>)
    requires Inv(targets, p) && Enabled(targets, p, Send(w, failed))
    ensures Inv(targets, Do(targets, p, Send(w, failed)))
  {
    hide Addressable, FailureItem;
    var i := p.workers[w].index;
    var q := Do(targets, p, Send(w, failed));
    assert Holds(p.workers[w], i) && WorkerOk(targets, p, p.workers[w]);
    assert IndexOk(targets, p, i);
    assert q.run.sent[|p.run.sent|] == i;
    StoreKeepsInv(targets, p, w, q.items[i].value, q.run);
  }

  lemma CloseKeepsInv(targets: seq<Target>, p: Pool, stopped: Option<GatewayError>)
    requires Inv(targets, p) && (p.run.fed < |targets| ==> stopped.Some?)
    ensures Inv(targets, p.(closed := true, run := p.run.(stopped := stopped)))
  {
    hide Addressable, SentOnce;
    var q := p.(closed := true, run := p.run.(stopped := stopped));
    forall i | 0 <= i < |targets|
      ensures IndexOk(targets, q, i)
    {
      assert IndexOk(targets, p, i);
      assert Held(p, i) == Held(q, i) by {
        assert p.workers == q.workers;
      }
    }
  }

  // ---------------------------------------------------------------------------------------
  // Every run ends

  function WorkerRank(worker: Worker): nat {
    match worker
    case Exited => 0
    case Idle => 1
    case Sending(_, _) => 2
    case Looking(_) => 3
  }

  function WorkersRank(workers: seq<Worker>): nat {
    if workers == [] then 0 else WorkerRank(workers[0]) + WorkersRank(workers[1..])
  }

  function Rank(p: Pool): nat
    requires p.run.fed <= |p.items|
  {
    3 * (|p.items| - p.run.fed) + (if p.closed then 0 else 1) + WorkersRank(p.workers)
  }

  lemma {:induction false} WorkersRankAfter(workers: seq<Worker>, w: nat, worker: Worker)
    requires w < |workers|
    ensures WorkersRank(workers[w := worker]) == WorkersRank(workers) - WorkerRank(workers[w]) + WorkerRank(worker)
  {
    if w > 0 {
      WorkersRankAfter(workers[1..], w - 1, worker);
      assert workers[w := worker][1..] == workers[1..][w - 1 := worker];
    }
  }

  lemma StepMakesProgress(targets: seq<Target>, p: Pool, step: Step)
    requires Inv(targets, p) && Enabled(targets, p, step)
    ensures Do(targets, p, step).run.fed <= |targets| && Rank(Do(targets, p, step)) < Rank(p)
  {
    hide FailureItem, Addressable, IndexOk, WorkerOk, SentOnce;
    if !step.Close? && !step.Cancel? {
      var w := step.w;
      WorkersRankAfter(p.workers, w, Do(targets, p, step).workers[w]);
    }
  }

  /** No run gets stuck, even without a cancellation: until the pool has finished some step is possible. */
  lemma SomeStepIsPossible(targets: seq<Target>, p: Pool)
    requires Inv(targets, p) && !Finished(p) && (|targets| > 0 ==> |p.workers| > 0)
    ensures exists step: Step :: !step.Cancel? && Enabled(targets, p, step)
  {
    if w :| 0 <= w < |p.workers| && p.workers[w] != Exited {
      var step :=
        if p.workers[w].Looking? then LookUp(w, Ok(Owner))
        else if p.workers[w].Sending? then Send(w, None)
        else if p.closed then Exit(w)
        else if p.run.fed < |targets| then Feed(w)
        else Close;
      assert Enabled(targets, p, step);
    } else {
      assert |p.workers| > 0 ==> p.workers[0] == Exited;
      assert Enabled(targets, p, Close);
    }
  }

  // ---------------------------------------------------------------------------------------
  // The outcome

  /** One item per target, in order.  The targets that were fed were processed; if any were not,
      the feeder was stopped and their items say why.  No target was sent to twice. */
  ghost predicate Settled(targets: seq<Target>, items: seq<Item>, run: Run) {
    |items| == |targets| && run.fed <= |targets| && (run.fed < |targets| ==> run.stopped.Some?) &&
    (forall i :: 0 <= i < run.fed ==> Processed(targets[i], items[i], run, i)) &&
    (forall i :: run.fed <= i < |targets| ==> Skipped(targets[i], items[i], run, i)) &&
    SentOnce(run.sent, |targets|)
  }

  predicate Skipped(target: Target, item: Item, run: Run, i: nat)
    requires run.stopped.Some?
  {
    item == FailureItem(target, UnknownRole, run.stopped.value, false) &&
    i !in run.lookups && i !in run.replies && i !in run.sent
  }

  /** What the items tell: a target was sent to exactly if its role is owner or admin; it succeeded
      exactly if the gateway took the notice, and it is unknown only if the gateway's answer leaves that open. */
  lemma SettledItems(targets: seq<Target>, items: seq<Item>, run: Run, i: nat)
    requires Settled(targets, items, run) && i < |targets|
    ensures items[i].target == targets[i] && (i in run.sent <==> MayPublish(items[i].role))
    ensures items[i].status == Succeeded <==> i in run.replies && run.replies[i].None?
    ensures items[i].status == Succeeded <==> items[i].code == ""
    ensures items[i].status == Denied <==> i in run.lookups && run.lookups[i].Ok? && !MayPublish(run.lookups[i].value)
    ensures items[i].status == Unknown ==> i in run.sent && run.replies[i].Some?
    ensures run.stopped.None? ==> (i in run.lookups <==> Addressable(targets[i].groupID))
  {
    hide Addressable, SentOnce;
    if i < run.fed {
      assert Processed(targets[i], items[i], run, i);
    } else {
      assert Skipped(targets[i], items[i], run, i);
    }
  }

  /** What the feeder does when the pool has finished: targets that were never fed have failed. */
  method CollectItems(targets: seq<Target>, p: Pool) returns (items: seq<Item>)
    requires Inv(targets, p) && Finished(p)
    ensures Settled(targets, items, p.run)
  {
    hide Addressable, SentOnce, Processed, FailureItem;
    items := [];
    for i := 0 to |targets|
      invariant |items| == i
      invariant forall j :: 0 <= j < i && j < p.run.fed ==> Processed(targets[j], items[j], p.run, j)
      invariant forall j :: p.run.fed <= j < i ==> Skipped(targets[j], items[j], p.run, j)
    {
      FinishedIndex(targets, p, i);
      items := items +
        [if p.items[i].Some? then p.items[i].value else FailureItem(targets[i], UnknownRole, p.run.stopped.value, false)];
    }
  }

  lemma FinishedIndex(targets: seq<Target>, p: Pool, i: nat)
    requires Inv(targets, p) && Finished(p) && i < |targets|
    ensures p.items[i].Some? <==> i < p.run.fed
    ensures if i < p.run.fed then Processed(targets[i], p.items[i].value, p.run, i)
            else i !in p.run.lookups && i !in p.run.replies && i !in p.run.sent && p.run.stopped.Some?
  {
    hide Processed, SentOnce;
    assert IndexOk(targets, p, i);
  }

  // GetLoginUserID fails: no target is reached.
  method FailAll(targets: seq<Target>, err: GatewayError) returns (items: seq<Item>)
    ensures Settled(targets, items, NEW_RUN.(stopped := Some(err)))
  {
    items := [];
    for i := 0 to |targets|
      invariant |items| == i
      invariant forall j :: 0 <= j < i ==> items[j] == FailureItem(targets[j], UnknownRole, err, false)
    {
      items := items + [FailureItem(targets[i], UnknownRole, err, false)];
    }
  }

  /** publishNoticeItems, for any schedule of the feeder, the workers and the cancellation, and any
      answers of the gateway; the run ends. */
  method PublishNoticeItems(targets: seq<Target>, workers: nat, login: Option<GatewayError>)
    returns (items: seq<Item>, run: Run)
    requires workers > 0
    ensures Settled(targets, items, run)
    ensures login.Some? ==> run == NEW_RUN.(stopped := login)
  {
    if login.Some? {
      items := FailAll(targets, login.value);
      return items, NEW_RUN.(stopped := login);
    }
    hide Inv, Do, Enabled, Finished;
    var p := NewPool(targets, workers);
    NewPoolOk(targets, workers);
    while !Finished(p)
      invariant Inv(targets, p) && |p.items| == |targets| && p.run.fed <= |targets|
      invariant |targets| > 0 ==> |p.workers| > 0
      decreases Rank(p)
    {
      SomeStepIsPossible(targets, p);
      var step: Step :| Enabled(targets, p, step);
      StepKeepsInv(targets, p, step);
      StepMakesProgress(targets, p, step);
      WorkersStay(targets, p, step);
      p := Do(targets, p, step);
    }
    items := CollectItems(targets, p);
    run := p.run;
  }

  lemma WorkersStay(targets: seq<Target>, p: Pool, step: Step)
    requires |p.items| == |targets| && Enabled(targets, p, step)
    ensures |Do(targets, p, step).workers| == |p.workers|
  {
  }

  // ---------------------------------------------------------------------------------------
  // The summary

  datatype PublishStatus = AllSucceeded | Partial | AllFailed | AnyUnknown

  datatype PublishResult = PublishResult(
    id: string, status: PublishStatus, requested: nat, published: nat, denied: nat, failed: nat, unknown: nat, items: seq<Item>)

  function CountOf(items: seq<Item>, status: ItemStatus): nat {
    if items == [] then 0
    else CountOf(items[..|items| - 1], status) + if items[|items| - 1].status == status then 1 else 0
  }

  lemma {:induction false} CountsAddUp(items: seq<Item>)
    ensures CountOf(items, Succeeded) + CountOf(items, Denied) + CountOf(items, Failed) + CountOf(items, Unknown) == |items|
  {
    if items != [] {
      CountsAddUp(items[..|items| - 1]);
    }
  }

  lemma {:induction false} CountPositiveIff(items: seq<Item>, status: ItemStatus)
    ensures CountOf(items, status) > 0 <==> exists i :: 0 <= i < |items| && items[i].status == status
    ensures CountOf(items, status) == |items| <==> forall i :: 0 <= i < |items| ==> items[i].status == status
    ensures CountOf(items, status) <= |items|
  {
    if items != [] {
      var front := items[..|items| - 1];
      CountPositiveIff(front, status);
      assert forall i :: 0 <= i < |front| ==> front[i] == items[i];
      if CountOf(front, status) > 0 {
        var i :| 0 <= i < |front| && front[i].status == status;
        assert items[i].status == status;
      }
    }
  }

  /** The status in terms of the items. */
  predicate Summarizes(status: PublishStatus, items: seq<Item>) {
    match status
    case AllSucceeded => forall i :: 0 <= i < |items| ==> items[i].status == Succeeded
    case Partial =>
      (exists i :: 0 <= i < |items| && items[i].status == Succeeded) && exists i :: 0 <= i < |items| && items[i].status != Succeeded
    case AnyUnknown =>
      |items| > 0 && (forall i :: 0 <= i < |items| ==> items[i].status != Succeeded) &&
      exists i :: 0 <= i < |items| && items[i].status == Unknown
    case AllFailed =>
      |items| > 0 && forall i :: 0 <= i < |items| ==> items[i].status == Failed || items[i].status == Denied
  }

  method SummarizeNoticeResult(id: string, items: seq<Item>) returns (r: PublishResult)
    ensures r.id == id && r.items == items && r.requested == |items|
    ensures r.published == CountOf(items, Succeeded) && r.denied == CountOf(items, Denied)
    ensures r.failed == CountOf(items, Failed) && r.unknown == CountOf(items, Unknown)
    ensures Summarizes(r.status, items)
  {
    r := PublishResult(id, AllFailed, |items|, 0, 0, 0, 0, items);
    for i := 0 to |items|
      invariant r == PublishResult(id, AllFailed, |items|, CountOf(items[..i], Succeeded), CountOf(items[..i], Denied),
                                   CountOf(items[..i], Failed), CountOf(items[..i], Unknown), items)
    {
      assert items[..i + 1][..i] == items[..i];
      match items[i].status {
        case Succeeded => r := r.(published := r.published + 1);
        case Denied => r := r.(denied := r.denied + 1);
        case Failed => r := r.(failed := r.failed + 1);
        case Unknown => r := r.(unknown := r.unknown + 1);
      }
    }
    assert items[..|items|] == items;
    CountPositiveIff(items, Succeeded);
    CountPositiveIff(items, Unknown);
    r := r.(status := if r.published == r.requested then AllSucceeded
                      else if r.published > 0 then Partial
                      else if r.unknown > 0 then AnyUnknown
                      else AllFailed);
  }

  predicate ValidItem(item: Item) {
    ValidGroupID(item.target.groupID) && |item.target.name| <= 100 && (item.status == Succeeded <==> item.code == "")
  }

  predicate DistinctGroups(items: seq<Item>) {
    forall i, j :: 0 <= i < j < |items| ==> items[i].target.groupID != items[j].target.groupID
  }

  /** validNoticeResult; a completion time is always set. */
  predicate ValidNoticeResult(r: PublishResult) {
    r.id != "" && r.requested > 0 && r.requested == |r.items| &&
    r.requested == r.published + r.denied + r.failed + r.unknown &&
    (forall i :: 0 <= i < |r.items| ==> ValidItem(r.items[i])) && DistinctGroups(r.items)
  }

  // Targets that passed validNoticeInput and were resolved to known groups.
  predicate ValidTargets(targets: seq<Target>) {
    0 < |targets| <= MAX_TARGETS &&
    (forall i :: 0 <= i < |targets| ==> ValidGroupID(targets[i].groupID) && |targets[i].name| <= 100) &&
    forall i, j :: 0 <= i < j < |targets| ==> targets[i].groupID != targets[j].groupID
  }

  /** What is stored always passes the check that it must pass when it is read back. */
  lemma SettledResultIsValid(targets: seq<Target>, r: PublishResult, run: Run)
    requires ValidTargets(targets) && Settled(targets, r.items, run) && r.id != "" && r.requested == |r.items|
    requires r.published == CountOf(r.items, Succeeded) && r.denied == CountOf(r.items, Denied)
    requires r.failed == CountOf(r.items, Failed) && r.unknown == CountOf(r.items, Unknown)
    ensures ValidNoticeResult(r)
  {
    hide Processed, Skipped, ValidGroupID;
    CountsAddUp(r.items);
    forall i | 0 <= i < |r.items|
      ensures ValidItem(r.items[i]) && r.items[i].target == targets[i]
    {
      SettledItems(targets, r.items, run, i);
    }
  }

  method PublishNotices(id: string, targets: seq<Target>, workers: nat, login: Option<GatewayError>)
    returns (r: PublishResult, run: Run)
    requires id != "" && ValidTargets(targets) && workers > 0
    ensures ValidNoticeResult(r) && Settled(targets, r.items, run) && Summarizes(r.status, r.items)
    ensures login.Some? ==> run == NEW_RUN.(stopped := login)
  {
    var items;
    items, run := PublishNoticeItems(targets, workers, login);
    r := SummarizeNoticeResult(id, items);
    SettledResultIsValid(targets, r, run);
  }

  method ValidNoticeInput(groupIDs: seq<string>, content: string) returns (valid: bool)
    ensures valid <==> 0 < |groupIDs| <= MAX_TARGETS && content != "" && |content| <= 5000 &&
                       (forall i :: 0 <= i < |groupIDs| ==> ValidGroupID(groupIDs[i])) &&
                       forall i, j :: 0 <= i < j < |groupIDs| ==> groupIDs[i] != groupIDs[j]
  {
    if |groupIDs| == 0 || |groupIDs| > MAX_TARGETS || content == "" || |content| > 5000 {
      return false;
    }
    var seen: set<string> := {};
    for k := 0 to |groupIDs|
      invariant seen == set i | 0 <= i < k :: groupIDs[i]
      invariant forall i :: 0 <= i < k ==> ValidGroupID(groupIDs[i])
      invariant forall i, j :: 0 <= i < j < k ==> groupIDs[i] != groupIDs[j]
    {
      if !ValidGroupID(groupIDs[k]) {
        return false;
      }
      if groupIDs[k] in seen {
        return false;
      }
      seen := seen + {groupIDs[k]};
    }
    valid := true;
  }
}
