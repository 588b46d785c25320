// Proactive jobs: durable rows, the transitions on them, and a runner that may call the paid
// model only behind a durable mark, with crashes and administrator actions at any step.
module Proactive {

  type Id = nat

  datatype Status = Pending | Running | Completed | Dead | Cancelled

  datatype Option<+T> = None | Some(value: T)

  /** Seconds between occurrences: at least an hour. */
  type Step = n: nat | n >= 3600 witness 3600

  datatype Row = Row(due: int, recurrence: Option<Step>, status: Status, attempts: nat, marked: bool, created: int)

  type Rows = map<Id, Row>

  /** A job as the runner holds it: a copy taken when it was claimed. */
  datatype Job = Job(id: Id, due: int, recurrence: Option<Step>, attempts: nat)

  const RETRY := 300
  const DEFERRAL := 1800

  // ----- the next occurrence -----------------------------------------------------

  function NextDue(due: int, step: Step, now: int): (next: int)
    ensures next >= due && next > now
    decreases if due <= now then now - due + 1 else 0
  {
    if due <= now then NextDue(due + step, step, now) else due
  }

  /** The smallest grid point from the old due time that is later than now. */
  lemma {:induction false} NextDueIsLeastGridPoint(due: int, step: Step, now: int) returns (k: nat)
    ensures NextDue(due, step, now) == due + k * step > now
    ensures forall j: nat :: due + j * step > now ==> j >= k
    decreases if due <= now then now - due + 1 else 0
  {
    if due <= now {
      var k0 := NextDueIsLeastGridPoint(due + step, step, now);
      k := k0 + 1;
      assert due + k * step == due + step + k0 * step;
      forall j: nat | due + j * step > now ensures j >= k {
        if j > 0 {
          var i: nat := j - 1;
          assert due + step + i * step == due + j * step;
        }
      }
    } else {
      k := 0;
    }
  }

  /** The first of the times due, due + step, due + 2 * step, ... that is later than now. */
  ghost predicate NextOnGrid(due: int, step: Step, now: int, next: int) {
    && next > now && (next == due || (next > due && next - step <= now))
    && exists k: nat :: next == due + k * step
  }

  lemma NextDueIsOnGrid(due: int, step: Step, now: int)
    ensures NextOnGrid(due, step, now, NextDue(due, step, now))
  {
    var k := NextDueIsLeastGridPoint(due, step, now);
    var next := NextDue(due, step, now);
    if k > 0 {
      var j: nat := k - 1;
      assert j * step == k * step - step;
      assert !(due + j * step > now);
    } else {
      assert k * step == 0;
    }
  }

  // ----- transitions ----------------------------------------------------------------

  function Recovered(row: Row): Row {
    if row.status == Running then row.(status := if row.marked then Dead else Pending) else row
  }

  function Recover(rows: Rows): Rows {
    map id | id in rows :: Recovered(rows[id])
  }

  /** A new job is pending, unattempted and unmarked, and its id is not taken. */
  function Added(rows: Rows, id: Id, row: Row): (Rows, bool) {
    if row.status == Pending && row.attempts == 0 && id !in rows
    then (rows[id := row.(marked := false)], true)
    else (rows, false)
  }

  predicate Claimable(rows: Rows, id: Id, now: int) {
    id in rows && rows[id].status == Pending && rows[id].due <= now
  }

  predicate NoLater(a: Row, b: Row) {
    a.due < b.due || (a.due == b.due && a.created <= b.created)
  }

  /** The earliest due time first, then the earliest creation. */
  ghost predicate First(rows: Rows, id: Id, now: int) {
    Claimable(rows, id, now) && forall x :: Claimable(rows, x, now) ==> NoLater(rows[id], rows[x])
  }

  function Claimed(rows: Rows, id: Id): Rows
    requires id in rows
  {
    rows[id := rows[id].(status := Running, attempts := rows[id].attempts + 1)]
  }

  function JobOf(rows: Rows, id: Id): Job
    requires id in rows
  {
    Job(id, rows[id].due, rows[id].recurrence, rows[id].attempts)
  }

  predicate IsRunning(rows: Rows, id: Id) { id in rows && rows[id].status == Running }

  /** Marking twice in one claim succeeds both times. */
  function Marked(rows: Rows, id: Id): (Rows, bool) {
    if IsRunning(rows, id) then (rows[id := rows[id].(marked := true)], true) else (rows, false)
  }

  /** A transition applies to exactly one running row, or it is an error and changes nothing. */
  function Transition(rows: Rows, id: Id, status: Status, due: int): (Rows, bool) {
    if IsRunning(rows, id)
    then (rows[id := rows[id].(status := status, due := due, marked := false)], true)
    else (rows, false)
  }

  function Complete(rows: Rows, job: Job, now: int): (Rows, bool) {
    match job.recurrence
    case None => Transition(rows, job.id, Completed, job.due)
    case Some(step) => Transition(rows, job.id, Pending, NextDue(job.due, step, now))
  }

  /** Once the provider may have been called a failure is final. */
  function Fail(rows: Rows, job: Job, maxAttempts: nat, now: int): (Rows, bool) {
    if !IsRunning(rows, job.id) then (rows, false)
    else
      var status := if rows[job.id].marked || job.attempts >= maxAttempts then Dead else Pending;
      Transition(rows, job.id, status, now + RETRY)
  }

  function Cancel(rows: Rows, id: Id): (Rows, bool) {
    if id in rows && (rows[id].status == Pending || rows[id].status == Running)
    then (rows[id := rows[id].(status := Cancelled)], true)
    else (rows, false)
  }

  // ----- the store ----------------------------------------------------------------------

  class ProactiveJobStore {
    var rows: Rows

    constructor (saved: Rows)
      ensures rows == saved
    {
      rows := saved;
    }

    /** Start-up recovery: first the marked jobs are given up, then the others are made pending. */
    method Initialize()
      modifies this
      ensures rows == Recover(old(rows)) && rows.Keys == old(rows).Keys
      ensures forall id :: id in rows ==>
                rows[id] == if old(rows)[id].status != Running then old(rows)[id]
                            else old(rows)[id].(status := if old(rows)[id].marked then Dead else Pending)
    {
      rows := map id | id in rows :: if rows[id].status == Running && rows[id].marked
                                     then rows[id].(status := Dead) else rows[id];
      rows := map id | id in rows :: if rows[id].status == Running && !rows[id].marked
                                     then rows[id].(status := Pending) else rows[id];
    }

    method AddJob(id: Id, row: Row) returns (ok: bool)
      modifies this
      ensures (rows, ok) == Added(old(rows), id, row)
      ensures ok <==> id !in old(rows) && row.status == Pending && row.attempts == 0
      ensures rows == if ok then old(rows)[id := Row(row.due, row.recurrence, Pending, 0, false, row.created)]
                      else old(rows)
    {
      ok := row.status == Pending && row.attempts == 0 && id !in rows;
      if ok { rows := rows[id := row.(marked := false)]; }
    }

    method ClaimDue(now: int) returns (job: Option<Job>)
      modifies this
      ensures job.None? ==> rows == old(rows) && forall x :: !Claimable(rows, x, now)
      ensures job.None? <==> forall x :: x in old(rows) ==> old(rows)[x].status != Pending || now < old(rows)[x].due
      ensures job.Some? ==>
                var id := job.value.id;
                && id in old(rows) && old(rows)[id].status == Pending && old(rows)[id].due <= now
                && rows == old(rows)[id := old(rows)[id].(status := Running, attempts := old(rows)[id].attempts + 1)]
                && forall x :: x in old(rows) && old(rows)[x].status == Pending && old(rows)[x].due <= now ==>
                     || old(rows)[id].due < old(rows)[x].due
                     || (old(rows)[id].due == old(rows)[x].due && old(rows)[id].created <= old(rows)[x].created)
      ensures job.Some? ==>
                var id := job.value.id;
                First(old(rows), id, now) && rows == Claimed(old(rows), id) && job.value == JobOf(rows, id)
    {
      var todo, best: Option<Id> := rows.Keys, None;
      while todo != {}
        invariant todo <= rows.Keys && unchanged(this)
        invariant best.Some? ==> Claimable(rows, best.value, now)
        invariant forall x :: Claimable(rows, x, now) && x !in todo ==>
                    best.Some? && NoLater(rows[best.value], rows[x])
      {
        var id :| id in todo;
        todo := todo - {id};
        if Claimable(rows, id, now) && (best.None? || !NoLater(rows[best.value], rows[id])) {
          best := Some(id);
        }
      }
      assert forall x :: x in rows && rows[x].status == Pending && rows[x].due <= now ==> Claimable(rows, x, now);
      if best.None? { return None; }
      rows := rows[best.value := rows[best.value].(status := Running, attempts := rows[best.value].attempts + 1)];
      return Some(JobOf(rows, best.value));
    }

    method MarkModelStarted(id: Id) returns (ok: bool)
      modifies this
      ensures (rows, ok) == Marked(old(rows), id)
    {
      if id in rows && rows[id].status == Running && !rows[id].marked {
        rows := rows[id := rows[id].(marked := true)];
        return true;
      }
      assert IsRunning(rows, id) ==> rows[id := rows[id].(marked := true)] == rows;
      return id in rows && rows[id].status == Running && rows[id].marked;
    }

    method Move(id: Id, status: Status, due: int) returns (ok: bool)
      modifies this
      ensures (rows, ok) == Transition(old(rows), id, status, due)
    {
      ok := id in rows && rows[id].status == Running;
      if ok { rows := rows[id := rows[id].(status := status, due := due, marked := false)]; }
    }

    method CompleteJob(job: Job, now: int) returns (ok: bool)
      modifies this
      ensures (rows, ok) == Complete(old(rows), job, now)
    {
      var status, due := Completed, job.due;
      if job.recurrence.Some? {
        var step := job.recurrence.value;
        while due <= now
          invariant NextDue(due, step, now) == NextDue(job.due, step, now)
          decreases now - due
        {
          due := due + step;
        }
        status := Pending;
      }
      ok := Move(job.id, status, due);
    }

    method FailJob(job: Job, maxAttempts: nat, now: int) returns (ok: bool)
      modifies this
      ensures (rows, ok) == Fail(old(rows), job, maxAttempts, now)
    {
      if job.id !in rows || rows[job.id].status != Running { return false; }
      var status := if rows[job.id].marked || job.attempts >= maxAttempts then Dead else Pending;
      ok := Move(job.id, status, now + RETRY);
    }

    method DeferJob(id: Id, delay: nat, now: int) returns (ok: bool)
      requires delay >= 1
      modifies this
      ensures (rows, ok) == Transition(old(rows), id, Pending, now + delay)
    {
      ok := Move(id, Pending, now + delay);
    }

    method CancelJob(id: Id) returns (ok: bool)
      modifies this
      ensures (rows, ok) == Cancel(old(rows), id)
      ensures ok <==> id in old(rows) && !Closed(old(rows)[id])
      ensures rows == if ok then old(rows)[id := old(rows)[id].(status := Cancelled)] else old(rows)
    {
      ok := id in rows && (rows[id].status == Pending || rows[id].status == Running);
      if ok { rows := rows[id := rows[id].(status := Cancelled)]; }
    }
  }

  // ----- the runner among crashes and administrator actions ------------------------------

  /** Where the one runner loop is with its job. */
  datatype Runner =
    | Resting
    | Checking(job: Job)
    | Cleared(job: Job)     // the mark was reported durable, the model call is next
    | Called(job: Job)

  datatype Call = Call(id: Id, due: int)

  datatype System = System(rows: Rows, runner: Runner, clock: int, calls: seq<Call>)

  datatype Action =
    | Tick(seconds: nat)
    | AdminAdd(id: Id, row: Row)
    | AdminCancel(id: Id)
    | Claim(id: Id)
    | PutOff
    | Mark
    | CallModel
    | Finish
    | GiveUp(maxAttempts: nat)
    | Abandon
    | Crash

  function Next(s: System, a: Action): System {
    match a
    case Tick(seconds) => s.(clock := s.clock + seconds)
    case AdminAdd(id, row) => s.(rows := Added(s.rows, id, row).0)
    case AdminCancel(id) => s.(rows := Cancel(s.rows, id).0)
    case Claim(id) =>
      if s.runner == Resting && Claimable(s.rows, id, s.clock)
      then var rows := Claimed(s.rows, id); s.(rows := rows, runner := Checking(JobOf(rows, id)))
      else s
    case PutOff =>
      if s.runner.Checking?
      then s.(rows := Transition(s.rows, s.runner.job.id, Pending, s.clock + DEFERRAL).0, runner := Resting) else s
    case Mark =>
      if s.runner.Checking? then
        var (rows, ok) := Marked(s.rows, s.runner.job.id);
        if ok then s.(rows := rows, runner := Cleared(s.runner.job))
        else s.(rows := Fail(s.rows, s.runner.job, 1, s.clock).0, runner := Resting)
      else s
    case CallModel =>
      if s.runner.Cleared?
      then s.(calls := s.calls + [Call(s.runner.job.id, s.runner.job.due)], runner := Called(s.runner.job)) else s
    case Finish =>
      if s.runner.Called? then
        var (rows, ok) := Complete(s.rows, s.runner.job, s.clock);
        s.(rows := if ok then rows else Fail(s.rows, s.runner.job, 3, s.clock).0, runner := Resting)
      else s
    case GiveUp(maxAttempts) =>
      if s.runner.Resting? then s
      else s.(rows := Fail(s.rows, s.runner.job, maxAttempts, s.clock).0, runner := Resting)
    case Abandon => s.(runner := Resting)
    case Crash => s.(rows := Recover(s.rows), runner := Resting)
  }

  function Run(clock: int, actions: seq<Action>): System {
    if actions == [] then System(map[], Resting, clock, [])
    else Next(Run(clock, actions[..|actions| - 1]), actions[|actions| - 1])
  }

  // ----- the invariant -----------------------------------------------------------------------

  /** This occurrence of the job is over: it can never be claimed at this due time again. */
  predicate Spent(row: Row, due: int) {
    row.due > due || row.status == Completed || row.status == Dead || row.status == Cancelled
    || (row.status == Running && row.marked)
  }

  ghost predicate HoldsJob(s: System) {
    !s.runner.Resting? ==>
      var job := s.runner.job;
      && job.id in s.rows && job.due <= s.clock
      && var row := s.rows[job.id];
         && (row.status == Running || row.status == Cancelled)
         && row.due == job.due && row.recurrence == job.recurrence && row.attempts == job.attempts
         && (row.marked <==> !s.runner.Checking?)
  }

  ghost predicate CallsSpent(s: System) {
    forall i :: 0 <= i < |s.calls| ==>
      && s.calls[i].id in s.rows && Spent(s.rows[s.calls[i].id], s.calls[i].due)
      && (!s.runner.Resting? && s.runner.job.id == s.calls[i].id ==>
            if s.runner.Called? then s.calls[i].due <= s.runner.job.due else s.calls[i].due < s.runner.job.due)
  }

  ghost predicate CallsDistinct(s: System) {
    forall i, j :: 0 <= i < j < |s.calls| ==> s.calls[i] != s.calls[j]
  }

  ghost predicate PendingUnmarked(rows: Rows) {
    forall id :: id in rows && rows[id].status == Pending ==> !rows[id].marked
  }

  ghost predicate Inv(s: System) {
    PendingUnmarked(s.rows) && HoldsJob(s) && CallsSpent(s) && CallsDistinct(s)
  }

  lemma RestingStepKeepsInv(s: System, a: Action)
    requires Inv(s) && (a.Tick? || a.AdminAdd? || a.AdminCancel? || a.Claim? || a.Abandon? || a.Crash?)
    ensures Inv(Next(s, a))
  {
  }

  lemma RunnerStepKeepsInv(s: System, a: Action)
    requires Inv(s) && (a.PutOff? || a.Mark? || a.CallModel? || a.GiveUp?)
    ensures Inv(Next(s, a))
  {
  }

  lemma FinishKeepsInv(s: System)
    requires Inv(s)
    ensures Inv(Next(s, Finish))
  {
  }

  lemma {:induction false} RunsKeepInv(clock: int, actions: seq<Action>)
    ensures Inv(Run(clock, actions))
  {
    if actions != [] {
      var before, a := Run(clock, actions[..|actions| - 1]), actions[|actions| - 1];
      RunsKeepInv(clock, actions[..|actions| - 1]);
      match a
      case Finish => FinishKeepsInv(before);
      case PutOff => RunnerStepKeepsInv(before, a);
      case Mark => RunnerStepKeepsInv(before, a);
      case CallModel => RunnerStepKeepsInv(before, a);
      case GiveUp(_) => RunnerStepKeepsInv(before, a);
      case _ => RestingStepKeepsInv(before, a);
    }
  }

  // ----- the no-retry boundary ------------------------------------------------------------------

  /** A claim starts without a mark, so a mark found later was set in that claim. */
  lemma ClaimsStartUnmarked(clock: int, actions: seq<Action>, id: Id)
    requires Claimable(Run(clock, actions).rows, id, Run(clock, actions).clock)
    ensures var s := Next(Run(clock, actions).(runner := Resting), Claim(id));
            s.runner.Checking? && IsRunning(s.rows, id) && !s.rows[id].marked
  {
    RunsKeepInv(clock, actions);
  }

  /** At every model call the durable row of the job carries the mark of its present claim. */
  lemma CallsAreMarked(clock: int, actions: seq<Action>)
    requires Run(clock, actions).runner.Cleared?
    ensures var s := Run(clock, actions); var job := s.runner.job;
            && job.id in s.rows && s.rows[job.id].marked && s.rows[job.id].attempts == job.attempts
            && (s.rows[job.id].status == Running || s.rows[job.id].status == Cancelled)
  {
    RunsKeepInv(clock, actions);
  }

  /** No occurrence of a job is ever sent to the model twice, whatever crashes and failures occur. */
  lemma NeverCalledTwice(clock: int, actions: seq<Action>)
    ensures CallsDistinct(Run(clock, actions))
  {
    RunsKeepInv(clock, actions);
  }

  /** What may become of a marked running row in one step. */
  ghost predicate AfterMark(row: Row, later: Row, finished: bool, now: int) {
    || later == row
    || later.status == Completed || later.status == Dead || later.status == Cancelled
    || (finished && later.status == Pending && row.recurrence.Some?
        && later.due == NextDue(row.due, row.recurrence.value, now))
  }

  /**
   * After the mark a job can only become completed, dead or cancelled, or pending again by
   * completing, with its next due time the smallest grid point later than now.
   */
  lemma MarkIsNoRetryBoundary(clock: int, actions: seq<Action>, a: Action, id: Id)
    requires IsRunning(Run(clock, actions).rows, id) && Run(clock, actions).rows[id].marked
    ensures var s := Run(clock, actions); var t := Next(s, a);
            && id in t.rows
            && AfterMark(s.rows[id], t.rows[id], a.Finish? && s.runner.Called? && s.runner.job.id == id, s.clock)
  {
    RunsKeepInv(clock, actions);
  }

  /** One step keeps an occurrence that is over from coming back, and no entry disappears. */
  lemma SpentStays(s: System, a: Action, id: Id, due: int)
    requires Inv(s) && id in s.rows && Spent(s.rows[id], due) && s.rows[id].due >= due
    ensures id in Next(s, a).rows && Spent(Next(s, a).rows[id], due) && Next(s, a).rows[id].due >= due
  {
  }

  /**
   * Once marked, an occurrence is never claimed again in any continuation, whatever crashes,
   * failures and restarts it holds: the row stays marked, ends, or moves to a later due time.
   */
  lemma {:induction false} MarkedIsNeverRetried(clock: int, actions: seq<Action>, more: seq<Action>, id: Id)
    requires IsRunning(Run(clock, actions).rows, id) && Run(clock, actions).rows[id].marked
    ensures var s, t := Run(clock, actions), Run(clock, actions + more);
            && id in t.rows && Spent(t.rows[id], s.rows[id].due) && t.rows[id].due >= s.rows[id].due
            && (Claimable(t.rows, id, t.clock) ==> t.rows[id].due > s.rows[id].due)
  {
    hide Next, Inv;
    if more == [] {
      assert actions + more == actions;
    } else {
      var all := actions + more;
      assert all[..|all| - 1] == actions + more[..|more| - 1] && all[|all| - 1] == more[|more| - 1];
      MarkedIsNeverRetried(clock, actions, more[..|more| - 1], id);
      RunsKeepInv(clock, actions + more[..|more| - 1]);
      SpentStays(Run(clock, actions + more[..|more| - 1]), more[|more| - 1], id, Run(clock, actions).rows[id].due);
    }
  }

  predicate Closed(row: Row) { row.status == Completed || row.status == Dead || row.status == Cancelled }

  /** How often a job was sent to the model. */
  function Sent(calls: seq<Call>, id: Id): nat {
    if calls == [] then 0
    else Sent(calls[..|calls| - 1], id) + if calls[|calls| - 1].id == id then 1 else 0
  }

  /** The runner has marked this job and is about to call the model for it. */
  predicate AboutToCall(s: System, id: Id) { s.runner.Cleared? && s.runner.job.id == id }

  lemma SentAppends(calls: seq<Call>, call: Call, id: Id)
    ensures Sent(calls + [call], id) == Sent(calls, id) + if call.id == id then 1 else 0
  {
    assert (calls + [call])[..|calls|] == calls;
  }

  /** One step changes nothing of a closed job, except for a call that was already under way. */
  lemma ClosedStepKeeps(s: System, a: Action, id: Id)
    requires Inv(s) && id in s.rows && Closed(s.rows[id])
    ensures var t := Next(s, a);
            && id in t.rows && t.rows[id] == s.rows[id]
            && (AboutToCall(t, id) ==> AboutToCall(s, id) && Sent(t.calls, id) == Sent(s.calls, id))
            && Sent(t.calls, id) == Sent(s.calls, id) + (if AboutToCall(s, id) && a.CallModel? then 1 else 0)
  {
    if a.CallModel? && s.runner.Cleared? {
      SentAppends(s.calls, Call(s.runner.job.id, s.runner.job.due), id);
    }
  }

  /**
   * A completed, dead or cancelled job never changes again in any continuation.  It is never
   * sent to the model again either, unless it was cancelled after the mark and before the call:
   * then that one call may still be made.
   */
  lemma {:induction false} ClosedIsForEver(clock: int, actions: seq<Action>, more: seq<Action>, id: Id)
    requires id in Run(clock, actions).rows && Closed(Run(clock, actions).rows[id])
    ensures var s, t := Run(clock, actions), Run(clock, actions + more);
            && id in t.rows && t.rows[id] == s.rows[id]
            && Sent(s.calls, id) <= Sent(t.calls, id) <= Sent(s.calls, id) + (if AboutToCall(s, id) then 1 else 0)
            && (AboutToCall(t, id) ==> AboutToCall(s, id) && Sent(t.calls, id) == Sent(s.calls, id))
  {
    hide Next, Inv, AboutToCall, Closed, Sent;
    if more == [] {
      assert actions + more == actions;
    } else {
      var all := actions + more;
      assert all[..|all| - 1] == actions + more[..|more| - 1] && all[|all| - 1] == more[|more| - 1];
      ClosedIsForEver(clock, actions, more[..|more| - 1], id);
      RunsKeepInv(clock, actions + more[..|more| - 1]);
      ClosedStepKeeps(Run(clock, actions + more[..|more| - 1]), more[|more| - 1], id);
    }
  }

  /** A job without recurrence that was sent is over, or marked in the claim it was sent in. */
  ghost predicate SentOnce(s: System, id: Id) {
    && (id !in s.rows ==> Sent(s.calls, id) == 0)
    && (id in s.rows && s.rows[id].recurrence.None? ==>
          && Sent(s.calls, id) <= 1 && (AboutToCall(s, id) ==> Sent(s.calls, id) == 0)
          && (Sent(s.calls, id) == 1 ==> Closed(s.rows[id]) || (IsRunning(s.rows, id) && s.rows[id].marked)))
  }

  lemma StepKeepsSentOnce(s: System, a: Action, id: Id)
    requires Inv(s) && SentOnce(s, id)
    ensures SentOnce(Next(s, a), id)
  {
    hide Sent;
    if a.CallModel? && s.runner.Cleared? {
      SentAppends(s.calls, Call(s.runner.job.id, s.runner.job.due), id);
    }
  }

  /**
   * A job without recurrence is sent to the model at most once over every run, even if it was
   * put off, failed before its mark, or found again after a crash at another due time.
   */
  lemma {:induction false} OneShotIsSentOnce(clock: int, actions: seq<Action>, id: Id)
    ensures SentOnce(Run(clock, actions), id)
    ensures var s := Run(clock, actions);
            id in s.rows && s.rows[id].recurrence.None? ==> Sent(s.calls, id) <= 1
  {
    hide Next, Inv;
    if actions != [] {
      var before := actions[..|actions| - 1];
      OneShotIsSentOnce(clock, before, id);
      RunsKeepInv(clock, before);
      StepKeepsSentOnce(Run(clock, before), actions[|actions| - 1], id);
    }
  }

  lemma RunMore(clock: int, actions: seq<Action>, a: Action)
    ensures Run(clock, actions + [a]) == Next(Run(clock, actions), a)
  {
    assert (actions + [a])[..|actions|] == actions;
  }

  const SOON := Row(0, None, Pending, 0, false, 0)
  const CANCELLING := [AdminAdd(0, SOON), Claim(0), Mark, AdminCancel(0)]

  lemma CancellingEnds()
    ensures Run(0, CANCELLING) == System(map[0 := SOON.(status := Cancelled, attempts := 1, marked := true)],
                                         Cleared(Job(0, 0, None, 1)), 0, [])
  {
    hide Run;
    var added, claim := [AdminAdd(0, SOON)], [AdminAdd(0, SOON), Claim(0)];
    assert [] + [AdminAdd(0, SOON)] == added && added + [Claim(0)] == claim;
    assert claim + [Mark] + [AdminCancel(0)] == CANCELLING;
    RunNothing();
    RunMore(0, [], AdminAdd(0, SOON));
    RunMore(0, added, Claim(0));
    assert Run(0, claim).rows == map[0 := SOON.(status := Running, attempts := 1)];
    RunMore(0, claim, Mark);
    RunMore(0, claim + [Mark], AdminCancel(0));
  }

  lemma RunNothing()
    ensures Run(0, []) == System(map[], Resting, 0, [])
  {
  }

  /** That call does happen: a job cancelled between its mark and its call is sent all the same. */
  lemma CancelledIsStillSent()
    ensures exists actions, id ::
              && id in Run(0, actions).rows && Run(0, actions).rows[id].status == Cancelled
              && Sent(Run(0, actions).calls, id) < Sent(Run(0, actions + [CallModel]).calls, id)
  {
    hide Run;
    CancellingEnds();
    RunMore(0, CANCELLING, CallModel);
    SentAppends([], Call(0, 0), 0);
    assert Run(0, CANCELLING + [CallModel]).calls == [] + [Call(0, 0)];
    assert 0 in Run(0, CANCELLING).rows;
  }

  // ----- the steps of one occurrence, one by one ---------------------------------------------------

  function Moved(s: System, id: Id, status: Status, due: int, marked: bool): Rows
    requires id in s.rows
  {
    s.rows[id := Row(due, s.rows[id].recurrence, status, s.rows[id].attempts + 1, marked, s.rows[id].created)]
  }

  /**
   * From a due job on: before the mark it can be put off for half an hour, retried in five
   * minutes while attempts are left, and found again after a crash; from the mark on only its
   * end or its next occurrence follows, and the model is called once.
   */
  lemma LifeOfAnOccurrence(s: System, id: Id, maxAttempts: nat)
    requires s.runner == Resting && Claimable(s.rows, id, s.clock) && !s.rows[id].marked
    ensures var row := s.rows[id]; var taken := Next(s, Claim(id)); var marked := Next(taken, Mark);
            && taken.rows == Moved(s, id, Running, row.due, false) && taken.calls == s.calls
            && Next(taken, PutOff).rows == Moved(s, id, Pending, s.clock + 1800, false)
            && Next(taken, GiveUp(maxAttempts)).rows
               == Moved(s, id, if row.attempts + 1 < maxAttempts then Pending else Dead, s.clock + 300, false)
            && Next(taken, Crash).rows[id] == Moved(s, id, Pending, row.due, false)[id]
            && marked.rows == Moved(s, id, Running, row.due, true) && marked.calls == s.calls
            && Next(marked, Crash).rows[id] == Moved(s, id, Dead, row.due, true)[id]
    ensures var row := s.rows[id]; var called := Next(Next(Next(s, Claim(id)), Mark), CallModel);
            && called.rows == Moved(s, id, Running, row.due, true) && called.calls == s.calls + [Call(id, row.due)]
            && Next(called, GiveUp(maxAttempts)).rows == Moved(s, id, Dead, s.clock + 300, false)
            && Next(called, Crash).rows[id] == Moved(s, id, Dead, row.due, true)[id]
            && Next(called, Finish).calls == called.calls && Next(called, Finish).runner == Resting
            && match row.recurrence
               case None => Next(called, Finish).rows == Moved(s, id, Completed, row.due, false)
               case Some(step) =>
                 exists next :: NextOnGrid(row.due, step, s.clock, next)
                                && Next(called, Finish).rows == Moved(s, id, Pending, next, false)
  {
    var row := s.rows[id];
    var called := Next(Next(Next(s, Claim(id)), Mark), CallModel);
    if row.recurrence.Some? {
      NextDueIsOnGrid(row.due, row.recurrence.value, s.clock);
      assert Next(called, Finish).rows
             == Moved(s, id, Pending, NextDue(row.due, row.recurrence.value, s.clock), false);
    }
  }

  // ----- one pass of the loop ----------------------------------------------------------------------

  /** What the checks before the mark decide. */
  datatype Verdict = Go | Later | Refuse

  /** What the model call leads to: a usable reply, a provider failure, or any other failure. */
  datatype Reply = Text | ProviderFailed | Other

  lemma MarkedFromPending(row: Row, later: Row, finished: bool, now: int)
    requires row.status == Pending && later.status != Running
    requires AfterMark(row.(status := Running, attempts := row.attempts + 1), later, finished, now)
    ensures AfterMark(row, later, finished, now)
  {
  }

  class ProactiveRunner {
    const store: ProactiveJobStore

    constructor (store: ProactiveJobStore)
      ensures this.store == store
    {
      this.store := store;
    }

    function Attempted(row: Row): Row {
      row.(attempts := row.attempts + 1)
    }

    /**
     * Exactly how a pass ends for the job it took: put off for half an hour, given up, or marked
     * and sent; and unless it was cancelled its row says how that ended.
     */
    ghost predicate Passed(row: Row, later: Row, now: int, verdict: Verdict, reply: Reply, finishedAt: int,
                           cancelEarly: bool, cancelLate: bool, sent: bool)
    {
      && later.attempts == row.attempts && later.recurrence == row.recurrence && later.created == row.created
      && sent == (verdict == Go && !cancelEarly)
      && if cancelEarly then later.status == Cancelled && later.due == row.due && !later.marked
         else if verdict == Later then later.status == Pending && later.due == now + 1800 && !later.marked
         else if verdict == Refuse then later.status == Dead && later.due == now + 300 && !later.marked
         else if cancelLate then later.status == Cancelled && later.due == row.due && later.marked
         else if reply != Text then later.status == Dead && later.due == finishedAt + 300 && !later.marked
         else if row.recurrence.None? then later.status == Completed && later.due == row.due && !later.marked
         else later.status == Pending && !later.marked
              && NextOnGrid(row.due, row.recurrence.value, finishedAt, later.due)
    }

    /**
     * One job is taken through claim, checks, mark, call and outcome, and the result says what
     * was called.  An administrator may cancel the job before the mark or during the call.
     */
    method RunOnce(now: int, verdict: Verdict, reply: Reply, finishedAt: int, cancelEarly: bool, cancelLate: bool)
      returns (handled: bool, called: Option<Call>)
      requires PendingUnmarked(store.rows) && now <= finishedAt
      modifies store
      ensures PendingUnmarked(store.rows)
      ensures !handled ==> called.None? && store.rows == old(store.rows)
      ensures handled <==> exists x :: Claimable(old(store.rows), x, now)
      ensures handled ==> store.rows.Keys == old(store.rows).Keys
                          && exists id ::
                               && First(old(store.rows), id, now)
                               && Passed(Attempted(old(store.rows)[id]), store.rows[id], now, verdict, reply,
                                         finishedAt, cancelEarly, cancelLate, called.Some?)
                               && (called.Some? ==> called.value == Call(id, old(store.rows)[id].due))
                               && forall x :: x in store.rows && x != id ==> store.rows[x] == old(store.rows)[x]
      ensures called.Some? ==>
                var id := called.value.id;
                && verdict == Go && !cancelEarly && First(old(store.rows), id, now)
                && called.value.due == old(store.rows)[id].due
                && id in store.rows
                && AfterMark(old(store.rows)[id], store.rows[id], reply == Text, finishedAt)
                && store.rows[id] != old(store.rows)[id]
                && store.rows.Keys == old(store.rows).Keys
                && forall x :: x in store.rows && x != id ==> store.rows[x] == old(store.rows)[x]
    {
      var claimed := store.ClaimDue(now);
      if claimed.None? { return false, None; }
      hide Passed, AfterMark;
      var job := claimed.value;
      ghost var row := old(store.rows)[job.id];
      called := RunJob(job, now, verdict, reply, finishedAt, cancelEarly, cancelLate);
      if called.Some? { MarkedFromPending(row, store.rows[job.id], reply == Text, finishedAt); }
      return true, called;
    }

    /** What follows the claim. */
    method RunJob(job: Job, now: int, verdict: Verdict, reply: Reply, finishedAt: int, cancelEarly: bool,
                  cancelLate: bool)
      returns (called: Option<Call>)
      requires IsRunning(store.rows, job.id) && !store.rows[job.id].marked && job == JobOf(store.rows, job.id)
      requires job.attempts >= 1 && PendingUnmarked(store.rows)
      modifies store
      ensures PendingUnmarked(store.rows) && store.rows.Keys == old(store.rows).Keys
      ensures forall x :: x in store.rows && x != job.id ==> store.rows[x] == old(store.rows)[x]
      ensures Passed(old(store.rows)[job.id], store.rows[job.id], now, verdict, reply, finishedAt,
                     cancelEarly, cancelLate, called.Some?)
      ensures called.Some? ==> called.value == Call(job.id, job.due) && !IsRunning(store.rows, job.id)
      ensures called.Some? ==> AfterMark(old(store.rows)[job.id], store.rows[job.id], reply == Text, finishedAt)
    {
      var ok;
      if cancelEarly { ok := store.CancelJob(job.id); }
      match verdict {
        case Later =>
          ok := store.DeferJob(job.id, DEFERRAL, now);
          return None;
        case Refuse =>
          ok := store.FailJob(job, 1, now);
          return None;
        case Go =>
      }
      ok := store.MarkModelStarted(job.id);
      if !ok {
        ok := store.FailJob(job, 1, now);
        return None;
      }
      called := Some(Call(job.id, job.due));
      if cancelLate { ok := store.CancelJob(job.id); }
      if job.recurrence.Some? { NextDueIsOnGrid(job.due, job.recurrence.value, finishedAt); }
      match reply {
        case Text => ok := store.CompleteJob(job, finishedAt);
        case ProviderFailed => ok := store.FailJob(job, 1, finishedAt);
        case Other => ok := store.FailJob(job, 3, finishedAt);
      }
    }
  }
}
