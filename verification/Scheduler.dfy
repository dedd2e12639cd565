/** The scheduled-job runtime: a tick loop with an in-memory table of unfinished business over
    a store whose calls may fail before or after taking effect, and process restarts.

    A day is an integer and a clock time is minutes of that day. */
module Scheduler {
  import opened Wrappers

  datatype JobType = Daily | Once | OtherType(name: string)

  // `at` is None for an empty or unreadable HH:MM; dates are days in the scheduler's time zone.
  datatype Job = Job(
    id: nat, kind: JobType, at: Option<nat>, runDate: Option<int>, enabled: bool, lastRunDay: Option<int>)

  datatype Moment = Moment(day: int, minute: nat)

  datatype RunResult = Success | Failed | Unknown

  // A row of the run table; its position is its identity.  `key` stands for its random
  // identifier, which orders rows that started at the same time.
  datatype RunRow = RunRow(
    job: nat, day: int, startedAt: int, key: nat, result: RunResult, completed: bool, duration: nat, code: string)

  datatype Reservation = Reservation(run: nat, result: RunResult, isNew: bool)

  datatype Completion = Completion(run: nat, result: RunResult, duration: nat, code: string)

  datatype Pending = Pending(day: int, completion: Option<Completion>, markRan: bool)

  // What happened to a store call: it took effect and returned, it failed without effect, or
  // it took effect but the caller saw an error.
  datatype Fate = Acked | Lost | AckLost

  // What became of a send: a nil error, an error from the gateway, or an interruption of the
  // tick (a recovered panic, or a crash when `Restart` follows) around it.
  datatype SendFate =
    | Returned(error: Option<SendError>)
    | StoppedBefore | StoppedDuring | StoppedAfter(error: Option<SendError>)

  datatype SendError = Cancelled | DeadlineExceeded | Coded(code: string) | Uncoded

  datatype Faults = Faults(begin: Fate, send: SendFate, complete: Fate, mark: Fate)

  // What the runtime finds at one tick: the active jobs, unless listing fails, and the time.
  datatype Tick = Tick(listing: Option<seq<Job>>, now: Moment, attempts: seq<Attempt>)

  // What the environment does to one listed job: an edit of all jobs before it, the times and the
  // random key of its run, and what becomes of every call.
  datatype Attempt = Attempt(edited: Option<map<nat, Job>>, chosen: int, took: int, key: nat, faults: Faults)

  // A message handed to the gateway for one job and day; history only.
  datatype Sent = Sent(job: nat, day: int, run: nat, outcome: RunResult)

  predicate TimeReached(now: Moment, at: Option<nat>) {
    at.Some? && now.minute >= at.value
  }

  predicate AlreadyRanToday(job: Job, now: Moment) {
    job.lastRunDay == Some(now.day)
  }

  predicate IsDue(job: Job, now: Moment) {
    job.enabled &&
    match job.kind
    case Once => job.runDate == Some(now.day) && !AlreadyRanToday(job, now) && TimeReached(now, job.at)
    case Daily => !AlreadyRanToday(job, now) && TimeReached(now, job.at)
    case OtherType(_) => false
  }

  /** When a job is due, in its fields: it is enabled, its time of day is readable and reached, it was
      not yet run on this day, and it runs daily or once on this very day. */
  predicate DueToday(job: Job, now: Moment) {
    var timely := job.at.Some? && job.at.value <= now.minute;
    var unmarked := job.lastRunDay.None? || job.lastRunDay.value != now.day;
    job.enabled && timely && unmarked && (job.kind == Daily || (job.kind == Once && job.runDate.Some? && job.runDate.value == now.day))
  }

  lemma IsDueIff(job: Job, now: Moment)
    ensures IsDue(job, now) <==> DueToday(job, now)
  {
  }

  /** Once due on a day a job stays due for the rest of that day until it is marked, and never after. */
  lemma DueUntilMarked(job: Job, now: Moment, later: Moment)
    requires IsDue(job, now) && later.day == now.day && later.minute >= now.minute
    ensures IsDue(job, later)
    ensures !IsDue(job.(lastRunDay := Some(now.day)), later)
    ensures job.kind == Once ==> job.runDate == Some(now.day)
  {
  }

  /** Only errors that rule out a delivery count as failed; an interrupted send is unknown. */
  function ClassifyScheduledSend(error: Option<SendError>): (r: (RunResult, string))
    ensures r.0 == Success <==> error == None
    ensures r.0 == Success <==> r.1 == ""
    ensures error == Some(Cancelled) || error == Some(DeadlineExceeded) || error == Some(Uncoded) ==> r.0 == Unknown
    ensures r.0 == Failed <==>
      error == Some(Coded("unavailable")) || error == Some(Coded("upstream_rejected")) || error == Some(Coded("invalid_response"))
    ensures r.1 == "dependency_unavailable" <==> error == Some(Coded("unavailable"))
    ensures r.1 == "send_rejected" <==> r.0 == Failed && error != Some(Coded("unavailable"))
    ensures r.1 == "send_outcome_unknown" <==> r.0 == Unknown
  {
    match error
    case None => (Success, "")
    case Some(Coded("unavailable")) => (Failed, "dependency_unavailable")
    case Some(Coded("upstream_rejected")) => (Failed, "send_rejected")
    case Some(Coded("invalid_response")) => (Failed, "send_rejected")
    case Some(_) => (Unknown, "send_outcome_unknown")
  }

  // ---------------------------------------------------------------------------------------
  // The run table

  function NonNegative(duration: int): (d: nat)
    ensures d >= duration && (d > 0 ==> d == duration)
  {
    if duration < 0 then 0 else duration
  }

  predicate Later(a: RunRow, b: RunRow) {
    a.startedAt > b.startedAt || (a.startedAt == b.startedAt && a.key > b.key)
  }

  predicate SameOccurrence(a: RunRow, b: RunRow) {
    a.job == b.job && a.day == b.day
  }

  /** The latest run of an occurrence: ORDER BY started_at DESC, run_id DESC. */
  function Latest(runs: seq<RunRow>, job: nat, day: int): (found: Option<nat>)
    ensures found.Some? ==> found.value < |runs| && runs[found.value].job == job && runs[found.value].day == day
  {
    if runs == [] then None
    else
      var n := |runs| - 1;
      var before := Latest(runs[..n], job, day);
      if runs[n].job == job && runs[n].day == day && (before.None? || Later(runs[n], runs[before.value]))
      then Some(n) else before
  }

  lemma {:induction false} LatestIsGreatest(runs: seq<RunRow>, job: nat, day: int, i: nat)
    requires i < |runs| && runs[i].job == job && runs[i].day == day
    ensures Latest(runs, job, day).Some? && !Later(runs[i], runs[Latest(runs, job, day).value])
  {
    var n := |runs| - 1;
    if i < n {
      LatestIsGreatest(runs[..n], job, day, i);
    }
  }

  /** An unfinished run ends as unknown; it lasted from its start until now, if that is later. */
  function Interrupt(row: RunRow, at: int): (after: RunRow)
    ensures row.completed ==> after == row
    ensures !row.completed ==>
              after == row.(result := Unknown, completed := true, code := "process_interrupted", duration := after.duration) &&
              row.startedAt + after.duration >= at && (after.duration > 0 ==> row.startedAt + after.duration == at)
  {
    if row.completed then row
    else row.(result := Unknown, completed := true, code := "process_interrupted", duration := NonNegative(at - row.startedAt))
  }

  /** BeginScheduledJobRun on the run table: an occurrence gets a new run if it has none or its
      latest one failed; an unfinished latest run becomes unknown. */
  function BeginRun(runs: seq<RunRow>, job: nat, day: int, startedAt: int, key: nat): (seq<RunRow>, Reservation) {
    var latest := Latest(runs, job, day);
    var seen := if latest.Some? then runs[latest.value := Interrupt(runs[latest.value], startedAt)] else runs;
    if latest.Some? && seen[latest.value].result != Failed
    then (seen, Reservation(latest.value, seen[latest.value].result, false))
    else (seen + [RunRow(job, day, startedAt, key, Unknown, false, 0, "")], Reservation(|seen|, Unknown, true))
  }

  /** CompleteScheduledJobRun: finishes an unfinished run; repeating a completion is harmless. */
  function CompleteRun(runs: seq<RunRow>, c: Completion): (seq<RunRow>, bool) {
    if c.run >= |runs| then (runs, false)
    else
      var row := runs[c.run];
      if row.completed then (runs, row.result == c.result && row.duration == c.duration && row.code == c.code)
      else (runs[c.run := row.(result := c.result, completed := true, duration := c.duration, code := c.code)], true)
  }

  /** The first completion of a run counts: repeating it is confirmed, any other is refused, and
      neither changes anything. */
  lemma FirstCompletionCounts(runs: seq<RunRow>, c: Completion, again: Completion)
    requires c.run < |runs| && !runs[c.run].completed && again.run == c.run
    ensures var (after, ok) := CompleteRun(runs, c); ok && CompleteRun(after, again) == (after, again == c)
  {
  }

  /** RecoverInterruptedScheduledJobRuns */
  function RecoverRuns(runs: seq<RunRow>, at: int): (recovered: seq<RunRow>)
    ensures |recovered| == |runs|
    ensures forall i :: 0 <= i < |runs| ==> recovered[i] == Interrupt(runs[i], at)
  {
    seq(|runs|, i requires 0 <= i < |runs| => Interrupt(runs[i], at))
  }

  // ---------------------------------------------------------------------------------------
  // Safety

  /** What the history must satisfy: of the messages sent for one job and day, every one but
      the last definitely failed, so nothing is sent after a success or an unknown outcome. */
  ghost predicate AtMostOnce(sent: seq<Sent>) {
    forall a, b :: 0 <= a < b < |sent| && sent[a].job == sent[b].job && sent[a].day == sent[b].day ==>
      sent[a].outcome == Failed
  }

  /** Every run of an occurrence but the newest one has failed. */
  ghost predicate Chained(runs: seq<RunRow>) {
    forall i, j :: 0 <= i < j < |runs| && SameOccurrence(runs[i], runs[j]) ==>
      runs[i].completed && runs[i].result == Failed
  }

  /** The runs of each occurrence were begun at increasing times; different jobs and days are free. */
  ghost predicate StartsIncrease(runs: seq<RunRow>) {
    forall i, j :: 0 <= i < j < |runs| && SameOccurrence(runs[i], runs[j]) ==> runs[i].startedAt < runs[j].startedAt
  }

  // The time is later than all earlier attempts at the occurrence.
  predicate StartsLater(runs: seq<RunRow>, job: nat, day: int, startedAt: int) {
    forall i :: 0 <= i < |runs| && runs[i].job == job && runs[i].day == day ==> runs[i].startedAt < startedAt
  }

  /** Any time later than all earlier attempts at the occurrence: the chosen one if it is. */
  function StartAfter(runs: seq<RunRow>, job: nat, day: int, chosen: int): (at: int)
    ensures StartsLater(runs, job, day, at) && at >= chosen
    ensures StartsLater(runs, job, day, chosen) ==> at == chosen
  {
    if runs == [] then chosen
    else
      var at, row := StartAfter(runs[..|runs| - 1], job, day, chosen), runs[|runs| - 1];
      if row.job == job && row.day == day && row.startedAt >= at then row.startedAt + 1 else at
  }

  /** Each message belongs to its own run, and a run is only recorded as failed if its message failed. */
  ghost predicate Matched(runs: seq<RunRow>, sent: seq<Sent>) {
    (forall a :: 0 <= a < |sent| ==>
      sent[a].run < |runs| && runs[sent[a].run].job == sent[a].job && runs[sent[a].run].day == sent[a].day &&
      (runs[sent[a].run].completed && runs[sent[a].run].result == Failed ==> sent[a].outcome == Failed)) &&
    (forall a, b :: 0 <= a < b < |sent| ==> sent[a].run < sent[b].run)
  }

  ghost predicate Safe(runs: seq<RunRow>, sent: seq<Sent>) {
    Chained(runs) && StartsIncrease(runs) && Matched(runs, sent)
  }

  /** A completion not yet known to be stored tells the truth about its run's message. */
  ghost predicate Truthful(c: Completion, job: nat, runs: seq<RunRow>, sent: seq<Sent>) {
    c.run < |runs| && runs[c.run].job == job &&
    (c.result == Failed ==> forall a :: 0 <= a < |sent| && sent[a].run == c.run ==> sent[a].outcome == Failed)
  }

  ghost predicate PendingTruthful(pending: map<nat, Pending>, runs: seq<RunRow>, sent: seq<Sent>) {
    forall job :: job in pending && pending[job].completion.Some? ==>
      Truthful(pending[job].completion.value, job, runs, sent)
  }

  /** Each run was announced at most once by this process, only once complete, and not while its
      completion is still pending. */
  ghost predicate AnnouncedOnce(announced: seq<nat>, pending: map<nat, Pending>, runs: seq<RunRow>) {
    (forall a, b :: 0 <= a < b < |announced| ==> announced[a] != announced[b]) &&
    (forall a :: 0 <= a < |announced| ==> announced[a] < |runs| && runs[announced[a]].completed) &&
    (forall job :: job in pending && pending[job].completion.Some? ==>
      pending[job].completion.value.run !in announced)
  }

  /** Everything that holds between two calls of the runtime. */
  ghost predicate Sound(runs: seq<RunRow>, sent: seq<Sent>, pending: map<nat, Pending>, announced: seq<nat>) {
    Safe(runs, sent) && PendingTruthful(pending, runs, sent) && AnnouncedOnce(announced, pending, runs)
  }

  lemma SafeSendsAtMostOnce(runs: seq<RunRow>, sent: seq<Sent>)
    requires Safe(runs, sent)
    ensures AtMostOnce(sent)
  {
    forall a, b | 0 <= a < b < |sent| && sent[a].job == sent[b].job && sent[a].day == sent[b].day
      ensures sent[a].outcome == Failed
    {
      assert SameOccurrence(runs[sent[a].run], runs[sent[b].run]);
    }
  }

  /** When start times increase, the latest run of an occurrence is the one begun last. */
  lemma LatestIsNewest(runs: seq<RunRow>, job: nat, day: int, i: nat)
    requires StartsIncrease(runs) && i < |runs| && runs[i].job == job && runs[i].day == day
    ensures Latest(runs, job, day).Some? && i <= Latest(runs, job, day).value
  {
    LatestIsGreatest(runs, job, day, i);
  }

  /** A store that starts every run later than all earlier ones keeps the table safe. */
  lemma BeginKeepsSafe(runs: seq<RunRow>, sent: seq<Sent>, job: nat, day: int, startedAt: int, key: nat)
    requires Safe(runs, sent) && StartsLater(runs, job, day, startedAt)
    ensures Safe(BeginRun(runs, job, day, startedAt, key).0, sent)
  {
    var latest := Latest(runs, job, day);
    var after := BeginRun(runs, job, day, startedAt, key).0;
    forall i, j | 0 <= i < j < |after| && SameOccurrence(after[i], after[j])
      ensures after[i].completed && after[i].result == Failed
    {
      assert runs[i].job == after[i].job && runs[i].day == after[i].day;
      if j < |runs| {
        assert SameOccurrence(runs[i], runs[j]);
      } else {
        LatestIsNewest(runs, job, day, i);
        if i < latest.value {
          assert SameOccurrence(runs[i], runs[latest.value]);
        }
      }
    }
  }

  predicate AllFailed(runs: seq<RunRow>, job: nat, day: int) {
    forall i :: 0 <= i < |runs| && runs[i].job == job && runs[i].day == day ==> runs[i].completed && runs[i].result == Failed
  }

  /** What beginning an occurrence does: a new run exactly if all its runs so far have failed, with
      no other row changed; otherwise its last run, which becomes unknown if it was unfinished. */
  lemma BeginsIffAllFailed(runs: seq<RunRow>, job: nat, day: int, startedAt: int, key: nat)
    requires Chained(runs) && StartsIncrease(runs)
    ensures var (after, r) := BeginRun(runs, job, day, startedAt, key);
            if AllFailed(runs, job, day) then
              after == runs + [RunRow(job, day, startedAt, key, Unknown, false, 0, "")] && r == Reservation(|runs|, Unknown, true)
            else
              !r.isNew && r.run < |runs| && runs[r.run].job == job && runs[r.run].day == day && r.result != Failed &&
              (forall i :: r.run < i < |runs| ==> !SameOccurrence(runs[i], runs[r.run])) &&
              after == runs[r.run := Interrupt(runs[r.run], startedAt)] && r.result == after[r.run].result
  {
    var latest := Latest(runs, job, day);
    forall i | 0 <= i < |runs| && runs[i].job == job && runs[i].day == day
      ensures latest.Some? && i <= latest.value
      ensures i < latest.value ==> runs[i].completed && runs[i].result == Failed
    {
      LatestIsNewest(runs, job, day, i);
      if i < latest.value {
        assert SameOccurrence(runs[i], runs[latest.value]);
      }
    }
    if latest.Some? && AllFailed(runs, job, day) {
      assert runs[latest.value := runs[latest.value]] == runs;
    }
  }

  /** Only the job's own occurrences changed. */
  ghost predicate OthersSame(runs: seq<RunRow>, after: seq<RunRow>, job: nat) {
    |runs| <= |after| &&
    (forall i :: 0 <= i < |runs| ==> after[i].job == runs[i].job && (runs[i].job != job ==> after[i] == runs[i])) &&
    forall i :: |runs| <= i < |after| ==> after[i].job == job
  }

  lemma OthersSameItself(runs: seq<RunRow>, job: nat)
    ensures OthersSame(runs, runs, job)
  {
  }

  /** From job `i` of the listing on, the store knows the jobs and their runs are as at the start of the tick. */
  ghost predicate StillSmooth(jobs: seq<Job>, i: nat, now: Moment, start: seq<RunRow>, runs: seq<RunRow>, storeJobs: map<nat, Job>) {
    forall k :: i <= k < |jobs| ==>
      jobs[k].id in storeJobs && storeJobs[jobs[k].id].enabled &&
      (AllFailed(runs, jobs[k].id, now.day) <==> AllFailed(start, jobs[k].id, now.day))
  }

  lemma SmoothNow(jobs: seq<Job>, i: nat, now: Moment, start: seq<RunRow>, runs: seq<RunRow>, storeJobs: map<nat, Job>)
    requires StillSmooth(jobs, i, now, start, runs, storeJobs) && i < |jobs|
    ensures jobs[i].id in storeJobs && storeJobs[jobs[i].id].enabled
    ensures AllFailed(runs, jobs[i].id, now.day) <==> AllFailed(start, jobs[i].id, now.day)
  {
  }

  lemma SmoothNext(jobs: seq<Job>, i: nat, now: Moment, start: seq<RunRow>, runs: seq<RunRow>, after: seq<RunRow>,
                   storeJobs: map<nat, Job>, jobsAfter: map<nat, Job>)
    requires StillSmooth(jobs, i, now, start, runs, storeJobs) && i < |jobs| && OthersSame(runs, after, jobs[i].id)
    requires forall j, k :: 0 <= j < k < |jobs| ==> jobs[j].id != jobs[k].id
    requires forall id :: id != jobs[i].id && id in storeJobs ==> id in jobsAfter && jobsAfter[id] == storeJobs[id]
    ensures StillSmooth(jobs, i + 1, now, start, after, jobsAfter)
  {
    hide AllFailed, OthersSame;
    forall k | i + 1 <= k < |jobs|
      ensures jobs[k].id in jobsAfter && jobsAfter[jobs[k].id].enabled
      ensures AllFailed(after, jobs[k].id, now.day) <==> AllFailed(start, jobs[k].id, now.day)
    {
      OthersStayFailed(runs, after, jobs[i].id, jobs[k].id, now.day);
    }
  }

  function JobsOf(sent: seq<Sent>): (jobs: seq<nat>)
    ensures |jobs| == |sent| && forall k :: 0 <= k < |sent| ==> jobs[k] == sent[k].job
  {
    seq(|sent|, k requires 0 <= k < |sent| => sent[k].job)
  }

  /** Of the first `n` listed jobs, those that are due and whose runs of the day have all failed. */
  function DueJobs(jobs: seq<Job>, now: Moment, runs: seq<RunRow>, n: nat): seq<nat>
    requires n <= |jobs|
  {
    if n == 0 then []
    else
      DueJobs(jobs, now, runs, n - 1) +
      if DueToday(jobs[n - 1], now) && AllFailed(runs, jobs[n - 1].id, now.day) then [jobs[n - 1].id] else []
  }

  lemma JobsOfNext(first: seq<Sent>, before: seq<Sent>, after: seq<Sent>)
    requires first <= before <= after && |after| <= |before| + 1
    ensures JobsOf(after[|first|..]) ==
            JobsOf(before[|first|..]) + if |after| > |before| then [after[|before|].job] else []
  {
  }

  lemma OthersStayFailed(runs: seq<RunRow>, after: seq<RunRow>, job: nat, other: nat, day: int)
    requires OthersSame(runs, after, job) && other != job
    ensures AllFailed(after, other, day) <==> AllFailed(runs, other, day)
  {
    forall i | 0 <= i < |runs| && AllFailed(after, other, day) && runs[i].job == other && runs[i].day == day
      ensures runs[i].completed && runs[i].result == Failed
    {
      assert after[i] == runs[i];
    }
  }

  /** Without that assumption the store can send again after a delivery.  When the newest run of
      an occurrence is not a failure, the next one is new exactly if an earlier run carries a
      later start time, that is, the clock went back between two attempts. */
  lemma ResendsAfterDeliveryIff(runs: seq<RunRow>, job: nat, day: int, startedAt: int, key: nat, newest: nat)
    requires Chained(runs) && forall i, j :: 0 <= i < j < |runs| ==> runs[i].key != runs[j].key
    requires newest < |runs| && runs[newest].job == job && runs[newest].day == day
    requires forall i :: newest < i < |runs| ==> !SameOccurrence(runs[i], runs[newest])
    requires !(runs[newest].completed && runs[newest].result == Failed)
    ensures BeginRun(runs, job, day, startedAt, key).1.isNew <==>
            exists i :: 0 <= i < newest && SameOccurrence(runs[i], runs[newest]) && Later(runs[i], runs[newest])
  {
    LatestIsGreatest(runs, job, day, newest);
    var latest := Latest(runs, job, day).value;
    forall i | 0 <= i < newest && SameOccurrence(runs[i], runs[newest]) && Later(runs[i], runs[newest])
      ensures latest != newest
    {
      LatestIsGreatest(runs, job, day, i);
    }
    if latest != newest {
      assert SameOccurrence(runs[latest], runs[newest]);
      assert runs[latest].key != runs[newest].key;
    }
  }

  /** A failed attempt at time 10 and a delivered one at time 5 lead to a third message. */
  lemma BackwardClockExample()
    ensures var runs := [RunRow(1, 0, 10, 7, Failed, true, 0, "send_rejected"), RunRow(1, 0, 5, 8, Success, true, 0, "")];
            Chained(runs) && BeginRun(runs, 1, 0, 20, 9).1.isNew
  {
    var a, b := RunRow(1, 0, 10, 7, Failed, true, 0, "send_rejected"), RunRow(1, 0, 5, 8, Success, true, 0, "");
    assert [a, b][..1] == [a] && [a][..0] == [];
    assert Latest([a], 1, 0) == Some(0);
  }

  lemma CompleteKeepsSafe(runs: seq<RunRow>, sent: seq<Sent>, c: Completion, job: nat)
    requires Safe(runs, sent) && Truthful(c, job, runs, sent)
    ensures Safe(CompleteRun(runs, c).0, sent)
  {
    var after := CompleteRun(runs, c).0;
    forall i, j | 0 <= i < j < |after| && SameOccurrence(after[i], after[j])
      ensures after[i].completed && after[i].result == Failed
    {
      assert SameOccurrence(runs[i], runs[j]);
    }
  }

  lemma RecoverKeepsSafe(runs: seq<RunRow>, sent: seq<Sent>, at: int)
    requires Safe(runs, sent)
    ensures Safe(RecoverRuns(runs, at), sent)
  {
    var after := RecoverRuns(runs, at);
    forall i, j | 0 <= i < j < |after| && SameOccurrence(after[i], after[j])
      ensures after[i].completed && after[i].result == Failed
    {
      assert SameOccurrence(runs[i], runs[j]);
    }
  }

  /** Sending for a run just begun, the newest of the table. */
  lemma SendKeepsSafe(runs: seq<RunRow>, sent: seq<Sent>, message: Sent)
    requires Safe(runs, sent) && message.run == |runs| - 1
    requires forall a :: 0 <= a < |sent| ==> sent[a].run < |runs| - 1
    requires runs[message.run].job == message.job && runs[message.run].day == message.day && !runs[message.run].completed
    ensures Safe(runs, sent + [message])
  {
  }

  /** Storing a pending completion. */
  lemma CompleteKeepsSound(runs: seq<RunRow>, sent: seq<Sent>, pending: map<nat, Pending>, announced: seq<nat>,
                           job: nat)
    requires Sound(runs, sent, pending, announced) && job in pending && pending[job].completion.Some?
    ensures var (after, ok) := CompleteRun(runs, pending[job].completion.value);
            Sound(after, sent, pending, announced) &&
            (ok ==> Sound(after, sent, pending[job := pending[job].(completion := None)],
                          announced + [pending[job].completion.value.run]))
  {
    CompleteKeepsSafe(runs, sent, pending[job].completion.value, job);
  }

  lemma ForgetKeepsSound(runs: seq<RunRow>, sent: seq<Sent>, pending: map<nat, Pending>, announced: seq<nat>,
                         job: nat)
    requires Sound(runs, sent, pending, announced)
    ensures Sound(runs, sent, pending - {job}, announced)
  {
  }

  /** Beginning a run changes only unfinished or new rows, so pending business stays truthful. */
  lemma BeginKeepsSound(runs: seq<RunRow>, sent: seq<Sent>, pending: map<nat, Pending>, announced: seq<nat>,
                        job: nat, day: int, startedAt: int, key: nat)
    requires Sound(runs, sent, pending, announced) && StartsLater(runs, job, day, startedAt)
    ensures Sound(BeginRun(runs, job, day, startedAt, key).0, sent, pending, announced)
  {
    BeginKeepsSafe(runs, sent, job, day, startedAt, key);
  }

  /** Remembering a run begun and, if a message was sent, how that ended. */
  lemma RememberKeepsSound(runs: seq<RunRow>, sent: seq<Sent>, pending: map<nat, Pending>, announced: seq<nat>,
                           job: nat, p: Pending)
    requires Sound(runs, sent, pending, announced)
    requires p.completion.Some? ==> Truthful(p.completion.value, job, runs, sent) && !runs[p.completion.value.run].completed
    ensures Sound(runs, sent, pending[job := p], announced)
  {
  }

  /** Sending for a run just begun. */
  lemma SendKeepsSound(runs: seq<RunRow>, sent: seq<Sent>, pending: map<nat, Pending>, announced: seq<nat>,
                       message: Sent)
    requires Sound(runs, sent, pending, announced) && message.run == |runs| - 1
    requires forall a :: 0 <= a < |sent| ==> sent[a].run < |runs| - 1
    requires forall id :: id in pending && pending[id].completion.Some? ==> pending[id].completion.value.run < |runs| - 1
    requires runs[message.run].job == message.job && runs[message.run].day == message.day && !runs[message.run].completed
    ensures Sound(runs, sent + [message], pending, announced)
  {
    SendKeepsSafe(runs, sent, message);
  }

  lemma SoundSendsAtMostOnce(runs: seq<RunRow>, sent: seq<Sent>, pending: map<nat, Pending>, announced: seq<nat>)
    requires Sound(runs, sent, pending, announced)
    ensures AtMostOnce(sent)
  {
    SafeSendsAtMostOnce(runs, sent);
  }

  lemma SoundAnnouncesOnce(runs: seq<RunRow>, sent: seq<Sent>, pending: map<nat, Pending>, announced: seq<nat>)
    requires Sound(runs, sent, pending, announced)
    ensures forall a, b :: 0 <= a < b < |announced| ==> announced[a] != announced[b]
    ensures forall a :: 0 <= a < |announced| ==> announced[a] < |runs| && runs[announced[a]].completed
  {
  }

  lemma RunsAreChained(runs: seq<RunRow>, sent: seq<Sent>, pending: map<nat, Pending>, announced: seq<nat>)
    requires Sound(runs, sent, pending, announced)
    ensures Chained(runs) && StartsIncrease(runs)
  {
  }

  lemma SoundRunsExist(runs: seq<RunRow>, sent: seq<Sent>, pending: map<nat, Pending>, announced: seq<nat>)
    requires Sound(runs, sent, pending, announced)
    ensures forall a :: 0 <= a < |sent| ==> sent[a].run < |runs|
    ensures forall id :: id in pending && pending[id].completion.Some? ==> pending[id].completion.value.run < |runs|
  {
  }

  lemma BeginAppends(runs: seq<RunRow>, job: nat, day: int, startedAt: int, key: nat)
    ensures var (after, reservation) := BeginRun(runs, job, day, startedAt, key);
            reservation.isNew ==>
              |after| == |runs| + 1 && reservation.run == |runs| &&
              after[|runs|] == RunRow(job, day, startedAt, key, Unknown, false, 0, "")
    ensures Latest(runs, job, day).None? ==>
              BeginRun(runs, job, day, startedAt, key) ==
              (runs + [RunRow(job, day, startedAt, key, Unknown, false, 0, "")], Reservation(|runs|, Unknown, true))
  {
  }

  lemma CompleteNewestRun(runs: seq<RunRow>, c: Completion)
    requires c.run == |runs| - 1 && !runs[c.run].completed
    ensures CompleteRun(runs, c) ==
            (runs[..c.run] + [runs[c.run].(result := c.result, completed := true, duration := c.duration, code := c.code)], true)
  {
    var row := runs[c.run].(result := c.result, completed := true, duration := c.duration, code := c.code);
    assert runs[c.run := row] == runs[..c.run] + [row];
  }

  predicate Healthy(faults: Faults) {
    faults.begin == faults.complete == faults.mark == Acked && faults.send.Returned?
  }

  // ---------------------------------------------------------------------------------------
  // The store

  class Store {
    var jobs: map<nat, Job>
    var runs: seq<RunRow>

    constructor (jobs: map<nat, Job>)
      ensures this.jobs == jobs && runs == []
    {
      this.jobs, runs := jobs, [];
    }

    /** None is an error; whether the call took effect all the same depends on its fate. */
    method BeginScheduledJobRun(job: nat, day: int, startedAt: int, key: nat, fate: Fate) returns (r: Option<Reservation>)
      modifies this`runs
      ensures var (after, reservation) := BeginRun(old(runs), job, day, startedAt, key);
              if fate == Lost || job !in jobs || !jobs[job].enabled then runs == old(runs) && r == None
              else runs == after && r == if fate == Acked then Some(reservation) else None
    {
      if fate == Lost || job !in jobs || !jobs[job].enabled {
        return None;
      }
      var (after, reservation) := BeginRun(runs, job, day, startedAt, key);
      runs := after;
      return if fate == Acked then Some(reservation) else None;
    }

    method CompleteScheduledJobRun(c: Completion, fate: Fate) returns (ok: bool)
      modifies this`runs
      ensures runs == if fate == Lost then old(runs) else CompleteRun(old(runs), c).0
      ensures ok <==> fate == Acked && CompleteRun(old(runs), c).1
    {
      if fate == Lost {
        return false;
      }
      var (after, done) := CompleteRun(runs, c);
      runs := after;
      return done && fate == Acked;
    }

    method MarkScheduledJobRan(id: nat, day: int, disable: bool, fate: Fate) returns (ok: bool)
      modifies this`jobs
      ensures jobs == if fate != Lost && id in old(jobs)
                      then old(jobs)[id := old(jobs)[id].(lastRunDay := Some(day), enabled := old(jobs)[id].enabled && !disable)]
                      else old(jobs)
      ensures ok <==> fate == Acked
    {
      if fate != Lost && id in jobs {
        jobs := jobs[id := jobs[id].(lastRunDay := Some(day), enabled := jobs[id].enabled && !disable)];
      }
      return fate == Acked;
    }

    /** Anybody may edit, create, disable or delete jobs at any time. */
    method EditJobs(edited: map<nat, Job>)
      modifies this`jobs
      ensures jobs == edited
    {
      jobs := edited;
    }
  }

  // ---------------------------------------------------------------------------------------
  // The runtime

  class Runtime {
    const store: Store
    const canSend: bool
    var pending: map<nat, Pending>
    ghost var sent: seq<Sent>       // every message ever handed to the gateway, over all processes
    ghost var announced: seq<nat>   // the runs whose completion this process published

    constructor (store: Store, canSend: bool)
      requires store.runs == []
      ensures Valid() && this.store == store && this.canSend == canSend && pending == map[] && sent == []
    {
      this.store, this.canSend, pending, sent, announced := store, canSend, map[], [], [];
    }

    ghost predicate Valid()
      reads this, store
    {
      Sound(store.runs, sent, pending, announced)
    }

    /** Retries whatever a job still owes the store: its completion, then its mark. */
    method FinishPending(job: Job, complete: Fate, mark: Fate)
      requires Valid()
      modifies this`pending, this`announced, store`runs, store`jobs
      ensures Valid() && sent == old(sent) && old(announced) <= announced
      ensures forall id :: id != job.id ==> (id in pending <==> id in old(pending)) && (id in pending ==> pending[id] == old(pending)[id])
      ensures job.id !in old(pending) ==> store.runs == old(store.runs) && pending == old(pending) && store.jobs == old(store.jobs)
      ensures job.id in old(pending) && complete == mark == Acked &&
              (old(pending)[job.id].completion.Some? ==> CompleteRun(old(store.runs), old(pending)[job.id].completion.value).1) ==>
                var p := old(pending)[job.id];
                pending == old(pending) - {job.id} &&
                store.runs == (if p.completion.Some? then CompleteRun(old(store.runs), p.completion.value).0 else old(store.runs)) &&
                announced == old(announced) + (if p.completion.Some? then [p.completion.value.run] else []) &&
                (p.markRan && job.id in old(store.jobs) ==>
                  job.id in store.jobs && store.jobs[job.id].lastRunDay == Some(p.day) &&
                  (job.kind == Once ==> !store.jobs[job.id].enabled)) &&
                (!p.markRan ==> store.jobs == old(store.jobs))
      ensures forall id :: id != job.id && id in old(store.jobs) ==> id in store.jobs && store.jobs[id] == old(store.jobs)[id]
    {
      hide Sound, CompleteRun;
      if job.id !in pending {
        return;
      }
      var p := pending[job.id];
      if p.completion.Some? {
        CompleteKeepsSound(store.runs, sent, pending, announced, job.id);
        var ok := store.CompleteScheduledJobRun(p.completion.value, complete);
        if !ok {
          return;
        }
        announced := announced + [p.completion.value.run];
        pending := pending[job.id := p.(completion := None)];
      }
      ForgetKeepsSound(store.runs, sent, pending, announced, job.id);
      if !p.markRan {
        pending := pending - {job.id};
        return;
      }
      var ok := store.MarkScheduledJobRan(job.id, p.day, job.kind == Once, mark);
      if !ok {
        return;
      }
      pending := pending - {job.id};
    }

    /** A tick in which every call succeeds, nobody edits jobs, nothing is pending, and the store
        knows every listed job, each listed once. */
    ghost predicate Smooth(jobs: seq<Job>, attempts: seq<Attempt>, pending: map<nat, Pending>, storeJobs: map<nat, Job>) {
      canSend && pending == map[] && |jobs| <= |attempts| &&
      (forall k :: 0 <= k < |jobs| ==> attempts[k].edited.None? && Healthy(attempts[k].faults)) &&
      (forall j, k :: 0 <= j < k < |jobs| ==> jobs[j].id != jobs[k].id) &&
      forall k :: 0 <= k < |jobs| ==> jobs[k].id in storeJobs && storeJobs[jobs[k].id].enabled
    }

    /** A due job that the store knows, with no pending business, where every call succeeds. */
    ghost predicate SmoothlyDue(job: Job, now: Moment, pending: map<nat, Pending>, jobs: map<nat, Job>, faults: Faults) {
      DueToday(job, now) && canSend && Healthy(faults) && job.id !in pending && job.id in jobs && jobs[job.id].enabled
    }

    /** What one tick does about one listed job.  `finished` is false if the tick was interrupted. */
    method TickJob(job: Job, now: Moment, startedAt: int, completedAt: int, key: nat, faults: Faults) returns (finished: bool)
      requires Valid() && StartsLater(store.runs, job.id, now.day, startedAt)
      modifies this, store
      ensures Valid() && AtMostOnce(sent) && old(announced) <= announced
      ensures sent == old(sent) ||
              (DueToday(job, now) && job.id !in old(pending) && exists run, outcome ::
                sent == old(sent) + [Sent(job.id, now.day, run, outcome)])
      ensures forall id :: id != job.id ==> (id in pending <==> id in old(pending)) && (id in pending ==> pending[id] == old(pending)[id])
      // Without pending business and without faults:
      ensures !DueToday(job, now) && job.id !in old(pending) ==>
                finished && sent == old(sent) && store.runs == old(store.runs) && store.jobs == old(store.jobs) && pending == old(pending)
      ensures SmoothlyDue(job, now, old(pending), old(store.jobs), faults) && AllFailed(old(store.runs), job.id, now.day) ==>
                var (outcome, code) := ClassifyScheduledSend(faults.send.error);
                var run := |old(store.runs)|;
                finished && sent == old(sent) + [Sent(job.id, now.day, run, outcome)] &&
                announced == old(announced) + [run] &&
                store.runs == old(store.runs) + [RunRow(job.id, now.day, startedAt, key, outcome, true,
                                                        NonNegative(completedAt - startedAt), code)] &&
                (outcome == Failed ==> store.jobs == old(store.jobs)) &&
                (outcome != Failed ==> job.id in store.jobs && store.jobs[job.id].lastRunDay == Some(now.day))
      ensures SmoothlyDue(job, now, old(pending), old(store.jobs), faults) && !AllFailed(old(store.runs), job.id, now.day) ==>
                finished && sent == old(sent) && job.id in store.jobs && store.jobs[job.id].lastRunDay == Some(now.day)
      ensures SmoothlyDue(job, now, old(pending), old(store.jobs), faults) ==>
                job.id !in pending && OthersSame(old(store.runs), store.runs, job.id)
      ensures forall id :: id != job.id && id in old(store.jobs) ==> id in store.jobs && store.jobs[id] == old(store.jobs)[id]
    {
      hide Sound, CompleteRun, BeginRun, AtMostOnce, IsDue, DueToday, ClassifyScheduledSend, AllFailed, Chained, StartsIncrease;
      SoundSendsAtMostOnce(store.runs, sent, pending, announced);
      if job.id in pending {
        FinishPending(job, faults.complete, faults.mark);
        return true;
      }
      IsDueIff(job, now);
      if !IsDue(job, now) {
        return true;
      }
      RunsAreChained(store.runs, sent, pending, announced);
      BeginsIffAllFailed(store.runs, job.id, now.day, startedAt, key);
      BeginKeepsSound(store.runs, sent, pending, announced, job.id, now.day, startedAt, key);
      BeginAppends(store.runs, job.id, now.day, startedAt, key);
      SoundRunsExist(store.runs, sent, pending, announced);
      var reservation := store.BeginScheduledJobRun(job.id, now.day, startedAt, key, faults.begin);
      if reservation.None? {
        return true;
      }
      if !reservation.value.isNew {
        if reservation.value.result != Failed {
          RememberKeepsSound(store.runs, sent, pending, announced, job.id, Pending(now.day, None, true));
          pending := pending[job.id := Pending(now.day, None, true)];
          FinishPending(job, faults.complete, faults.mark);
        }
        return true;
      }
      finished := SendRun(job, now, reservation.value.run, NonNegative(completedAt - startedAt), faults);
    }

    /** Sends the message of a run just begun, and finishes the run unless interrupted. */
    method SendRun(job: Job, now: Moment, run: nat, duration: nat, faults: Faults) returns (finished: bool)
      requires Valid() && run == |store.runs| - 1 && !store.runs[run].completed && job.id !in pending
      requires store.runs[run].job == job.id && store.runs[run].day == now.day
      requires forall a :: 0 <= a < |sent| ==> sent[a].run < run
      requires forall id :: id in pending && pending[id].completion.Some? ==> pending[id].completion.value.run < run
      modifies this, store
      ensures Valid() && AtMostOnce(sent) && old(announced) <= announced
      ensures sent == old(sent) || exists outcome :: sent == old(sent) + [Sent(job.id, now.day, run, outcome)]
      ensures forall id :: id != job.id ==> (id in pending <==> id in old(pending)) && (id in pending ==> pending[id] == old(pending)[id])
      ensures Healthy(faults) && canSend ==>
                var (outcome, code) := ClassifyScheduledSend(faults.send.error);
                var row := old(store.runs)[run].(result := outcome, completed := true, duration := duration, code := code);
                finished && sent == old(sent) + [Sent(job.id, now.day, run, outcome)] &&
                announced == old(announced) + [run] && job.id !in pending && store.runs == old(store.runs)[..run] + [row] &&
                (outcome == Failed ==> store.jobs == old(store.jobs)) &&
                (outcome != Failed && job.id in old(store.jobs) ==>
                  job.id in store.jobs && store.jobs[job.id].lastRunDay == Some(now.day))
      ensures !canSend && faults.complete == faults.mark == Acked ==>
                var row := old(store.runs)[run].(
                  result := Failed, completed := true, duration := duration, code := "dependency_unavailable");
                finished && sent == old(sent) && store.jobs == old(store.jobs) && job.id !in pending &&
                announced == old(announced) + [run] && store.runs == old(store.runs)[..run] + [row]
      ensures forall id :: id != job.id && id in old(store.jobs) ==> id in store.jobs && store.jobs[id] == old(store.jobs)[id]
    {
      hide Sound, CompleteRun, AtMostOnce, ClassifyScheduledSend;
      if !canSend {
        SoundSendsAtMostOnce(store.runs, sent, pending, announced);
        var c := Completion(run, Failed, duration, "dependency_unavailable");
        CompleteNewestRun(store.runs, c);
        RememberKeepsSound(store.runs, sent, pending, announced, job.id, Pending(now.day, Some(c), false));
        pending := pending[job.id := Pending(now.day, Some(c), false)];
        FinishPending(job, faults.complete, faults.mark);
        return true;
      }
      if faults.send.StoppedBefore? {
        SoundSendsAtMostOnce(store.runs, sent, pending, announced);
        return false;
      }
      var (outcome, code) := if faults.send.StoppedDuring? then (Unknown, "") else ClassifyScheduledSend(faults.send.error);
      ghost var message := Sent(job.id, now.day, run, outcome);
      SendKeepsSound(store.runs, sent, pending, announced, message);
      sent := sent + [message];
      SoundSendsAtMostOnce(store.runs, sent, pending, announced);
      if faults.send.StoppedDuring? || faults.send.StoppedAfter? {
        return false;
      }
      var c := Completion(run, outcome, duration, code);
      CompleteNewestRun(store.runs, c);
      RememberKeepsSound(store.runs, sent, pending, announced, job.id, Pending(now.day, Some(c), outcome != Failed));
      pending := pending[job.id := Pending(now.day, Some(c), outcome != Failed)];
      FinishPending(job, faults.complete, faults.mark);
      return true;
    }

    /** One listed job in its turn: others may edit the jobs first, and the clock moves on. */
    method AttemptJob(job: Job, now: Moment, attempt: Attempt) returns (finished: bool)
      requires Valid()
      modifies this, store
      ensures Valid() && AtMostOnce(sent) && old(announced) <= announced
      ensures old(sent) <= sent && |sent| <= |old(sent)| + 1 && (|sent| > |old(sent)| ==> sent[|old(sent)|].day == now.day)
      ensures attempt.edited.None? && Healthy(attempt.faults) && canSend && old(pending) == map[] &&
              job.id in old(store.jobs) && old(store.jobs)[job.id].enabled ==>
                finished && pending == map[] && OthersSame(old(store.runs), store.runs, job.id) &&
                (forall id :: id != job.id && id in old(store.jobs) ==> id in store.jobs && store.jobs[id] == old(store.jobs)[id]) &&
                (|sent| > |old(sent)| <==> DueToday(job, now) && AllFailed(old(store.runs), job.id, now.day)) &&
                (|sent| > |old(sent)| ==> sent[|old(sent)|].job == job.id)
    {
      hide Sound, AtMostOnce, DueToday, AllFailed, OthersSame, ClassifyScheduledSend;
      if attempt.edited.Some? {
        store.EditJobs(attempt.edited.value);
      }
      OthersSameItself(store.runs, job.id);
      var startedAt := StartAfter(store.runs, job.id, now.day, attempt.chosen);
      finished := TickJob(job, now, startedAt, startedAt + attempt.took, attempt.key, attempt.faults);
    }

    /** One tick over the listed jobs, against a store and a gateway that may misbehave at every
        call and a clock that only has to move on between the attempts at one occurrence.  `listing`
        is None if listing failed.  A smooth tick sends for exactly the due jobs whose runs of the
        day have all failed, in the order of the listing. */
    method RunOnce(listing: Option<seq<Job>>, now: Moment, attempts: seq<Attempt>)
      requires Valid() && (listing.Some? ==> |listing.value| <= |attempts|)
      modifies this, store
      ensures Valid() && AtMostOnce(sent) && old(sent) <= sent && old(announced) <= announced
      ensures forall a :: |old(sent)| <= a < |sent| ==> sent[a].day == now.day
      ensures listing.Some? && Smooth(listing.value, attempts, old(pending), old(store.jobs)) ==>
                pending == map[] && JobsOf(sent[|old(sent)|..]) == DueJobs(listing.value, now, old(store.runs), |listing.value|)
    {
      SoundSendsAtMostOnce(store.runs, sent, pending, announced);
      if listing.None? {
        return;
      }
      var jobs := listing.value;
      ghost var smooth := Smooth(jobs, attempts, pending, store.jobs);
      assert JobsOf(sent[|old(sent)|..]) == [];
      for i := 0 to |jobs|
        invariant Valid() && AtMostOnce(sent) && old(sent) <= sent && old(announced) <= announced
        invariant forall a :: |old(sent)| <= a < |sent| ==> sent[a].day == now.day
        invariant smooth ==> pending == map[] && StillSmooth(jobs, i, now, old(store.runs), store.runs, store.jobs)
        invariant smooth ==> JobsOf(sent[|old(sent)|..]) == DueJobs(jobs, now, old(store.runs), i)
      {
        hide Sound, AtMostOnce, DueToday, AllFailed, JobsOf, StillSmooth, OthersSame;
        ghost var runsBefore, sentBefore, jobsBefore := store.runs, sent, store.jobs;
        if smooth {
          SmoothNow(jobs, i, now, old(store.runs), store.runs, store.jobs);
        }
        var finished := AttemptJob(jobs[i], now, attempts[i]);
        if smooth {
          SmoothNext(jobs, i, now, old(store.runs), runsBefore, store.runs, jobsBefore, store.jobs);
          JobsOfNext(old(sent), sentBefore, sent);
        }
        if !finished {
          return;
        }
      }
    }

    /** The life of one process: startup recovery, then any ticks, under any faults.  No run is
        announced twice in it, only completed runs are, and over all processes nothing is sent after
        a success or an unknown outcome. */
    method Run(startedAt: int, ticks: seq<Tick>)
      requires Valid()
      requires forall i :: 0 <= i < |ticks| && ticks[i].listing.Some? ==> |ticks[i].listing.value| <= |ticks[i].attempts|
      modifies this, store
      ensures Valid() && AtMostOnce(sent) && old(sent) <= sent
      ensures forall a, b :: 0 <= a < b < |announced| ==> announced[a] != announced[b]
      ensures forall a :: 0 <= a < |announced| ==> announced[a] < |store.runs| && store.runs[announced[a]].completed
    {
      hide Sound, AtMostOnce;
      Restart();
      RecoverInterruptedRuns(startedAt);
      SoundSendsAtMostOnce(store.runs, sent, pending, announced);
      for i := 0 to |ticks|
        invariant Valid() && AtMostOnce(sent) && old(sent) <= sent
      {
        RunOnce(ticks[i].listing, ticks[i].now, ticks[i].attempts);
      }
      SoundAnnouncesOnce(store.runs, sent, pending, announced);
    }

    /** A new process: the table of unfinished business and the announcements are gone. */
    method Restart()
      requires Valid()
      modifies this`pending, this`announced
      ensures Valid() && pending == map[] && announced == []
    {
      pending, announced := map[], [];
    }

    /** The recovery of interrupted runs at startup. */
    method RecoverInterruptedRuns(at: int)
      requires Valid()
      modifies store`runs
      ensures Valid() && store.runs == RecoverRuns(old(store.runs), at)
    {
      RecoverKeepsSafe(store.runs, sent, at);
      store.runs := RecoverRuns(store.runs, at);
    }
  }
}
