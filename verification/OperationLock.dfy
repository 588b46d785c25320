// The operation lock and the idle event that keep message processing, polling, sending,
// resuming and health probes apart, although processing does not hold the lock while it runs.
module OperationLock {

  datatype Op = Process | Poll | Deliver | Resume | Health | Pause

  /** Where a task is inside one operation of the connector. */
  datatype Local =
    | Out
    | AtGate(op: Op)         // waits for the idle event
    | WantsLock(op: Op)
    | Holding(op: Op)        // has the lock, has not looked at the idle event yet
    | Cleared(op: Op)        // has the lock, has seen the idle event set
    | InTransport(op: Op)    // the transport call is running, the lock is held
    | After(op: Op)          // the call is over, the lock is still held
    | Processing             // the processing section, the lock is not held

  type Task = nat

  datatype System = System(tasks: map<Task, Local>, lock: set<Task>, idle: bool, closed: bool)

  datatype Step =
    | Start(task: Task, op: Op)
    | PassGate(task: Task)
    | Acquire(task: Task)
    | Look(task: Task)
    | Call(task: Task)
    | Return(task: Task)
    | Release(task: Task)
    | EndSection(task: Task)
    | Cancel(task: Task)
    | Close

  function At(s: System, t: Task): Local {
    if t in s.tasks then s.tasks[t] else Out
  }

  function Move(s: System, t: Task, l: Local): System {
    s.(tasks := s.tasks[t := l])
  }

  /** Polling and sending wait for the idle event before they ask for the lock. */
  predicate Gated(op: Op) { op == Poll || op == Deliver }

  predicate HoldsLock(l: Local) {
    l.Holding? || l.Cleared? || l.InTransport? || l.After?
  }

  /** The idle event is read under the lock; processing clears it there and lets go. */
  function Looked(s: System, t: Task, op: Op): System {
    match op
    case Process => Move(s.(idle := false, lock := s.lock - {t}), t, Processing)
    case Pause => Move(s, t, After(Pause))
    case Deliver =>
      if s.idle then Move(s, t, Cleared(op)) else Move(s.(lock := s.lock - {t}), t, AtGate(Deliver))
    case _ =>
      if s.idle then Move(s, t, Cleared(op)) else Move(s.(lock := s.lock - {t}), t, Out)
  }

  function Next(s: System, step: Step): System {
    match step
    case Start(t, op) =>
      if At(s, t) == Out && !(op == Poll && s.closed)
      then Move(s, t, if Gated(op) then AtGate(op) else WantsLock(op)) else s
    case PassGate(t) =>
      if At(s, t).AtGate? && s.idle then Move(s, t, WantsLock(At(s, t).op)) else s
    case Acquire(t) =>
      if At(s, t).WantsLock? && s.lock == {} then Move(s.(lock := {t}), t, Holding(At(s, t).op)) else s
    case Look(t) => if At(s, t).Holding? then Looked(s, t, At(s, t).op) else s
    case Call(t) => if At(s, t).Cleared? then Move(s, t, InTransport(At(s, t).op)) else s
    case Return(t) => if At(s, t).InTransport? then Move(s, t, After(At(s, t).op)) else s
    case Release(t) =>
      if At(s, t).Cleared? || At(s, t).After? then Move(s.(lock := s.lock - {t}), t, Out) else s
    case EndSection(t) => if At(s, t) == Processing then Move(s.(idle := true), t, Out) else s
    case Cancel(t) =>
      if At(s, t) == Processing then Move(s.(idle := true), t, Out)
      else Move(s.(lock := s.lock - {t}), t, Out)
    case Close => s.(closed := true, idle := true)
  }

  function Run(steps: seq<Step>): System {
    if steps == [] then System(map[], {}, true, false) else Next(Run(steps[..|steps| - 1]), steps[|steps| - 1])
  }

  // ----- the lock ---------------------------------------------------------------

  ghost predicate LockOk(s: System) {
    && (forall t :: HoldsLock(At(s, t)) <==> t in s.lock)
    && (forall a, b :: a in s.lock && b in s.lock ==> a == b)
    && (forall t :: At(s, t).AtGate? ==> Gated(At(s, t).op))
    && (forall t :: HoldsLock(At(s, t)) ==> (At(s, t).Cleared? || At(s, t).InTransport? ==> At(s, t).op != Process))
  }

  lemma LookKeepsLock(s: System, t: Task)
    requires LockOk(s) && At(s, t).Holding?
    ensures LockOk(Looked(s, t, At(s, t).op))
  {
    var n := Looked(s, t, At(s, t).op);
    forall x | x != t ensures At(n, x) == At(s, x) {}
    assert s.lock - {t} == {};
  }

  lemma NextKeepsLock(s: System, step: Step)
    requires LockOk(s)
    ensures LockOk(Next(s, step))
  {
    if step.Look? {
      if At(s, step.task).Holding? { LookKeepsLock(s, step.task); }
    } else {
      hide Looked;
      var n := Next(s, step);
      forall x | step.Close? || x != step.task ensures At(n, x) == At(s, x) {}
    }
  }

  lemma {:induction false} RunsKeepLock(steps: seq<Step>)
    ensures LockOk(Run(steps))
  {
    if steps != [] {
      RunsKeepLock(steps[..|steps| - 1]);
      NextKeepsLock(Run(steps[..|steps| - 1]), steps[|steps| - 1]);
    }
  }

  /** Whatever happens, close and overlapping processing included, no two transport calls overlap. */
  lemma TransportCallsNeverOverlap(steps: seq<Step>, a: Task, b: Task)
    requires At(Run(steps), a).InTransport? && At(Run(steps), b).InTransport?
    ensures a == b
  {
    RunsKeepLock(steps);
  }

  // ----- processing ----------------------------------------------------------------

  ghost predicate OneSection(s: System) {
    forall a, b :: At(s, a).Processing? && At(s, b).Processing? ==> a == b
  }

  /** At every point of the run at most one processing section is running. */
  ghost predicate SectionsApart(steps: seq<Step>) {
    forall i :: 0 <= i <= |steps| ==> OneSection(Run(steps[..i]))
  }

  /** The processing section or a transport call: poll, deliver, resume baseline, health. */
  predicate Busy(l: Local) { l.Processing? || l.InTransport? }

  ghost predicate OneBusy(s: System) {
    forall a, b :: Busy(At(s, a)) && Busy(At(s, b)) ==> a == b
  }

  /** At every point of the run at most one section or transport call is running. */
  ghost predicate NeverOverlap(steps: seq<Step>) {
    forall i :: 0 <= i <= |steps| ==> OneBusy(Run(steps[..i]))
  }

  ghost predicate NoSection(s: System) { forall t :: !At(s, t).Processing? }

  /** The connector is closed, if at all, while no processing section runs. */
  ghost predicate ClosedOutside(steps: seq<Step>) {
    forall i :: 0 <= i < |steps| && steps[i] == Close ==> NoSection(Run(steps[..i]))
  }

  /** The event says idle exactly when no section runs, and the holder's reading of it stays true. */
  ghost predicate IdleOk(s: System) {
    && (s.idle <==> NoSection(s))
    && (forall t :: At(s, t).Cleared? || At(s, t).InTransport? ==> s.idle)
  }

  lemma NextKeepsIdle(s: System, step: Step)
    requires LockOk(s) && IdleOk(s) && OneSection(s) && OneSection(Next(s, step))
    requires step == Close ==> NoSection(s)
    ensures IdleOk(Next(s, step))
  {
    var n := Next(s, step);
    if step == Close {
      assert forall x :: At(n, x) == At(s, x);
    } else {
      var t := step.task;
      forall x | x != t ensures At(n, x) == At(s, x) {}
      assert HoldsLock(At(s, t)) <==> t in s.lock;
      if At(n, t).Processing? {
        forall x | At(n, x).Cleared? || At(n, x).InTransport? ensures n.idle { assert HoldsLock(At(n, x)); }
      }
    }
  }

  lemma ApartBefore(steps: seq<Step>)
    requires steps != [] && SectionsApart(steps) && ClosedOutside(steps)
    ensures var before := steps[..|steps| - 1];
            && SectionsApart(before) && ClosedOutside(before)
            && OneSection(Run(before)) && OneSection(Run(steps))
            && (steps[|steps| - 1] == Close ==> NoSection(Run(before)))
  {
    hide Run, OneSection, NoSection;
    var before := steps[..|steps| - 1];
    forall i | 0 <= i <= |before| ensures before[..i] == steps[..i] {}
    assert before[..|before|] == before && steps[..|steps|] == steps;
    forall i | 0 <= i <= |before| ensures OneSection(Run(before[..i])) { assert before[..i] == steps[..i]; }
    forall i | 0 <= i < |before| && before[i] == Close ensures NoSection(Run(before[..i])) {
      assert before[..i] == steps[..i] && before[i] == steps[i];
    }
    assert OneSection(Run(steps[..|steps| - 1])) && OneSection(Run(steps[..|steps|]));
  }

  lemma {:induction false} RunsKeepIdle(steps: seq<Step>)
    requires SectionsApart(steps) && ClosedOutside(steps)
    ensures LockOk(Run(steps)) && IdleOk(Run(steps)) && OneSection(Run(steps))
  {
    hide SectionsApart, ClosedOutside, LockOk, IdleOk, OneSection, Next;
    if steps == [] {
      StartIsIdle();
    } else {
      var before, last := steps[..|steps| - 1], steps[|steps| - 1];
      ApartBefore(steps);
      RunsKeepIdle(before);
      NextKeepsLock(Run(before), last);
      NextKeepsIdle(Run(before), last);
    }
  }

  lemma StartIsIdle()
    ensures LockOk(Run([])) && IdleOk(Run([])) && OneSection(Run([]))
  {
  }

  /**
   * For every interleaving that keeps the processing sections apart and does not close during
   * one, no two of processing section, poll, deliver, resume baseline and health are active
   * together.  Operations may wait for the lock beside each other.
   */
  lemma NothingOverlaps(steps: seq<Step>, a: Task, b: Task)
    requires SectionsApart(steps) && ClosedOutside(steps)
    requires Busy(At(Run(steps), a)) && Busy(At(Run(steps), b))
    ensures a == b
  {
    RunsKeepIdle(steps);
  }

  lemma PrefixStaysApart(steps: seq<Step>, i: nat)
    requires i <= |steps| && SectionsApart(steps) && ClosedOutside(steps)
    ensures SectionsApart(steps[..i]) && ClosedOutside(steps[..i])
  {
    hide Run, OneSection, NoSection;
    var front := steps[..i];
    forall j | 0 <= j <= i ensures OneSection(Run(front[..j])) { assert front[..j] == steps[..j]; }
    forall j | 0 <= j < i && front[j] == Close ensures NoSection(Run(front[..j])) {
      assert front[..j] == steps[..j] && front[j] == steps[j];
    }
  }

  /**
   * The lock and the event do their work exactly when the sections are kept apart: over every
   * run that is not closed during a section, nothing ever overlaps if and only if no two
   * processing sections do.
   */
  lemma NeverOverlapIff(steps: seq<Step>)
    requires ClosedOutside(steps)
    ensures NeverOverlap(steps) <==> SectionsApart(steps)
  {
    if SectionsApart(steps) {
      forall i | 0 <= i <= |steps| ensures OneBusy(Run(steps[..i])) {
        PrefixStaysApart(steps, i);
        hide SectionsApart, ClosedOutside;
        forall a, b | Busy(At(Run(steps[..i]), a)) && Busy(At(Run(steps[..i]), b)) ensures a == b {
          NothingOverlaps(steps[..i], a, b);
        }
      }
    } else {
      var i :| 0 <= i <= |steps| && !OneSection(Run(steps[..i]));
      assert !OneBusy(Run(steps[..i]));
    }
  }

  /** The idle event is always restored: it is clear only while a section runs. */
  lemma IdleIsRestored(steps: seq<Step>)
    requires SectionsApart(steps) && ClosedOutside(steps)
    ensures Run(steps).idle <==> forall t :: !At(Run(steps), t).Processing?
  {
    RunsKeepIdle(steps);
  }

  // ----- neither condition can be dropped -----------------------------------------------

  ghost predicate Overlap(s: System, a: Task, b: Task) {
    a != b && Busy(At(s, a)) && Busy(At(s, b))
  }

  lemma RunOne(steps: seq<Step>, step: Step)
    ensures Run(steps + [step]) == Next(Run(steps), step)
  {
    assert (steps + [step])[..|steps|] == steps;
  }

  /** Runs to the state in which one task has entered its processing section. */
  lemma EnterSection(steps: seq<Step>, t: Task) returns (more: seq<Step>)
    requires At(Run(steps), t) == Out && Run(steps).lock == {}
    ensures Run(more) == Move(Run(steps).(idle := false), t, Processing)
    ensures Close !in steps ==> Close !in more
  {
    RunOne(steps, Start(t, Process));
    more := steps + [Start(t, Process)];
    RunOne(more, Acquire(t));
    more := more + [Acquire(t)];
    RunOne(more, Look(t));
    more := more + [Look(t)];
    assert Run(more).tasks == Run(steps).tasks[t := Processing];
  }

  /** With the idle event set and the lock free, a task at the gate reaches the transport. */
  lemma EnterTransport(steps: seq<Step>, t: Task, op: Op) returns (more: seq<Step>)
    requires Gated(op) && At(Run(steps), t) == AtGate(op) && Run(steps).lock == {} && Run(steps).idle
    ensures Run(more).tasks == Run(steps).tasks[t := InTransport(op)]
    ensures Close !in steps ==> Close !in more
  {
    RunOne(steps, PassGate(t));
    more := steps + [PassGate(t)];
    RunOne(more, Acquire(t));
    more := more + [Acquire(t)];
    RunOne(more, Look(t));
    more := more + [Look(t)];
    RunOne(more, Call(t));
    more := more + [Call(t)];
  }

  /** Asked for while a section runs: a delivery goes back to wait, anything else but a pause leaves. */
  lemma BusyTurnsAway(s: System, t: Task, op: Op)
    requires At(s, t) == Holding(op) && s.lock == {t} && !s.idle && op != Process
    ensures var n := Next(s, Look(t));
            && !n.idle && n.closed == s.closed && (forall x :: x != t ==> At(n, x) == At(s, x))
            && At(n, t) == (match op case Deliver => AtGate(Deliver) case Pause => After(Pause) case _ => Out)
            && n.lock == (if op == Pause then {t} else {})
            && (op == Deliver ==> Next(n, PassGate(t)) == n)
  {
    assert {t} - {t} == {};
  }

  /** With no section and a free lock every operation gets through its transport call and lets go. */
  lemma IdleServes(s: System, t: Task, op: Op)
    requires At(s, t) == Out && s.lock == {} && s.idle && (op == Poll ==> !s.closed)
    requires op == Poll || op == Deliver || op == Resume || op == Health
    ensures var asked := Next(Next(s, Start(t, op)), PassGate(t));
            var seen := Next(Next(asked, Acquire(t)), Look(t));
            var calling := Next(seen, Call(t));
            var done := Next(Next(calling, Return(t)), Release(t));
            && calling == System(s.tasks[t := InTransport(op)], {t}, true, s.closed)
            && done == System(s.tasks[t := Out], {}, true, s.closed)
            && Next(Next(asked, Acquire(t)), Cancel(t)) == System(s.tasks[t := Out], {}, true, s.closed)
  {
    var asked := Next(Next(s, Start(t, op)), PassGate(t));
    Asks(s, t, op);
    LooksAndCalls(asked, t, op);
    hide Next;
    var calling := Next(Next(Next(asked, Acquire(t)), Look(t)), Call(t));
    assert s.tasks[t := WantsLock(op)][t := InTransport(op)] == s.tasks[t := InTransport(op)];
    assert s.tasks[t := WantsLock(op)][t := Out] == s.tasks[t := Out];
    LetsGo(calling, t, op);
    assert s.tasks[t := InTransport(op)][t := Out] == s.tasks[t := Out];
  }

  lemma Asks(s: System, t: Task, op: Op)
    requires At(s, t) == Out && s.idle && (op == Poll ==> !s.closed)
    ensures Next(Next(s, Start(t, op)), PassGate(t)) == s.(tasks := s.tasks[t := WantsLock(op)])
  {
    assert s.tasks[t := AtGate(op)][t := WantsLock(op)] == s.tasks[t := WantsLock(op)];
  }

  lemma LooksAndCalls(s: System, t: Task, op: Op)
    requires At(s, t) == WantsLock(op) && s.lock == {} && s.idle && op != Process && op != Pause
    ensures var held := Next(s, Acquire(t));
            && Next(Next(held, Look(t)), Call(t)) == System(s.tasks[t := InTransport(op)], {t}, true, s.closed)
            && Next(held, Cancel(t)) == System(s.tasks[t := Out], {}, true, s.closed)
  {
    assert {t} - {t} == {};
    assert s.tasks[t := Holding(op)][t := Cleared(op)] == s.tasks[t := Cleared(op)];
    assert s.tasks[t := Cleared(op)][t := InTransport(op)] == s.tasks[t := InTransport(op)];
    assert s.tasks[t := Holding(op)][t := Out] == s.tasks[t := Out];
  }

  lemma LetsGo(s: System, t: Task, op: Op)
    requires At(s, t) == InTransport(op) && s.lock == {t}
    ensures Next(Next(s, Return(t)), Release(t)) == System(s.tasks[t := Out], {}, s.idle, s.closed)
  {
    assert {t} - {t} == {};
    assert s.tasks[t := After(op)][t := Out] == s.tasks[t := Out];
  }

  /** A section runs without the lock, and however it ends the event is set again. */
  lemma SectionComesAndGoes(s: System, t: Task)
    requires At(s, t) == Out && s.lock == {}
    ensures var inside := Next(Next(Next(s, Start(t, Process)), Acquire(t)), Look(t));
            && inside == System(s.tasks[t := Processing], {}, false, s.closed)
            && Next(inside, EndSection(t)) == Next(inside, Cancel(t)) == System(s.tasks[t := Out], {}, true, s.closed)
  {
    assert {t} - {t} == {};
    var held := Next(Next(s, Start(t, Process)), Acquire(t));
    assert held == System(s.tasks[t := Holding(Process)], {t}, s.idle, s.closed);
  }

  /** Two overlapping sections: the first to end sets the event while the second still runs. */
  lemma TwoSectionsOverlapWithPolling() returns (steps: seq<Step>)
    ensures Overlap(Run(steps), 1, 2) && At(Run(steps), 2) == InTransport(Poll)
    ensures Close !in steps
  {
    steps := EnterSection([], 0);
    steps := EnterSection(steps, 1);
    RunOne(steps, EndSection(0));
    steps := steps + [EndSection(0)];
    RunOne(steps, Start(2, Poll));
    steps := steps + [Start(2, Poll)];
    var before := Run(steps);
    steps := EnterTransport(steps, 2, Poll);
    assert At(before, 1) == Processing;
  }

  /** Close sets the event too, so a delivery already waiting starts beside the running section. */
  lemma CloseLetsDeliveryOverlap() returns (steps: seq<Step>)
    ensures Overlap(Run(steps), 0, 1) && At(Run(steps), 1) == InTransport(Deliver)
  {
    steps := EnterSection([], 0);
    RunOne(steps, Start(1, Deliver));
    steps := steps + [Start(1, Deliver)];
    RunOne(steps, Close);
    steps := steps + [Close];
    var before := Run(steps);
    steps := EnterTransport(steps, 1, Deliver);
    assert At(before, 0) == Processing;
  }

  // ----- closing --------------------------------------------------------------------------

  /** Whatever happens after a close at this point, nothing overlaps as long as the sections do not. */
  ghost predicate SafeToClose(steps: seq<Step>) {
    forall more :: Close !in more && SectionsApart(steps + [Close] + more) ==> NeverOverlap(steps + [Close] + more)
  }

  lemma StepKeepsOne(s: System, step: Step)
    requires OneSection(s) && (step != Close ==> !At(Next(s, step), step.task).Processing?)
    ensures OneSection(Next(s, step))
  {
    var n := Next(s, step);
    forall x | step == Close || x != step.task ensures At(n, x) == At(s, x) {}
  }

  lemma ApartMore(steps: seq<Step>, step: Step)
    requires SectionsApart(steps)
    requires step != Close ==> !At(Next(Run(steps), step), step.task).Processing?
    ensures SectionsApart(steps + [step])
  {
    hide OneSection, Run, Next;
    RunOne(steps, step);
    var all := steps + [step];
    assert steps[..|steps|] == steps && OneSection(Run(steps[..|steps|]));
    StepKeepsOne(Run(steps), step);
    forall i | 0 <= i <= |all| ensures OneSection(Run(all[..i])) {
      assert if i <= |steps| then all[..i] == steps[..i] else all[..i] == all;
    }
  }

  /** One more step of a task that is not in its section. */
  lemma Extend(steps: seq<Step>, more: seq<Step>, step: Step)
    requires step != Close && Close !in more && SectionsApart(steps + [Close] + more)
    requires !At(Next(Run(steps + [Close] + more), step), step.task).Processing?
    ensures Close !in more + [step] && SectionsApart(steps + [Close] + (more + [step]))
    ensures Run(steps + [Close] + (more + [step])) == Next(Run(steps + [Close] + more), step)
  {
    hide SectionsApart, Next;
    ApartMore(steps + [Close] + more, step);
    RunOne(steps + [Close] + more, step);
    assert steps + [Close] + (more + [step]) == steps + [Close] + more + [step];
  }

  lemma {:induction false} FreshTask(tasks: set<Task>) returns (t: Task)
    ensures forall x :: x in tasks ==> x < t
  {
    if tasks == {} {
      t := 0;
    } else {
      var x :| x in tasks;
      var u := FreshTask(tasks - {x});
      t := if x < u then u else x + 1;
      forall y | y in tasks ensures y < t { assert y == x || y in tasks - {x}; }
    }
  }

  /** A close during a section, and the lock let go. */
  lemma CloseAndUnlock(steps: seq<Step>) returns (more: seq<Step>)
    requires SectionsApart(steps) && LockOk(Run(steps))
    ensures Close !in more && SectionsApart(steps + [Close] + more)
    ensures var s := Run(steps + [Close] + more);
            s.lock == {} && s.idle && forall t :: At(Run(steps), t).Processing? ==> At(s, t).Processing?
  {
    var s := Run(steps);
    ApartMore(steps, Close);
    RunOne(steps, Close);
    more := [];
    assert steps + [Close] + more == steps + [Close];
    if s.lock != {} {
      var h :| h in s.lock;
      assert HoldsLock(At(s, h)) && s.lock - {h} == {};
      Extend(steps, more, Cancel(h));
      more := more + [Cancel(h)];
    }
  }

  /** From there a new delivery reaches the transport beside the section. */
  lemma DeliverBeside(steps: seq<Step>, more: seq<Step>, t: Task) returns (all: seq<Step>)
    requires Close !in more && SectionsApart(steps + [Close] + more)
    requires var s := Run(steps + [Close] + more); t !in s.tasks && s.lock == {} && s.idle
    ensures Close !in all && SectionsApart(steps + [Close] + all)
    ensures Run(steps + [Close] + all).tasks == Run(steps + [Close] + more).tasks[t := InTransport(Deliver)]
  {
    hide SectionsApart, Run;
    Extend(steps, more, Start(t, Deliver));
    all := more + [Start(t, Deliver)];
    Extend(steps, all, PassGate(t));
    all := all + [PassGate(t)];
    Extend(steps, all, Acquire(t));
    all := all + [Acquire(t)];
    Extend(steps, all, Look(t));
    all := all + [Look(t)];
    Extend(steps, all, Call(t));
    all := all + [Call(t)];
  }

  /** Closing is safe exactly while no section runs; during one, a delivery can always slip in beside it. */
  lemma SafeToCloseIff(steps: seq<Step>)
    requires SectionsApart(steps) && ClosedOutside(steps)
    ensures SafeToClose(steps) <==> NoSection(Run(steps))
  {
    if NoSection(Run(steps)) {
      forall more | Close !in more && SectionsApart(steps + [Close] + more)
        ensures NeverOverlap(steps + [Close] + more)
      {
        ClosedThere(steps, more);
        NeverOverlapIff(steps + [Close] + more);
      }
    } else {
      RunsKeepIdle(steps);
      var a :| At(Run(steps), a).Processing?;
      var more := CloseAndUnlock(steps);
      var s := Run(steps + [Close] + more);
      var t := FreshTask(s.tasks.Keys);
      var all := DeliverBeside(steps, more, t);
      BothBusy(steps + [Close] + all, a, t);
    }
  }

  lemma BothBusy(steps: seq<Step>, a: Task, t: Task)
    requires a != t && At(Run(steps), a).Processing? && At(Run(steps), t).InTransport?
    ensures !NeverOverlap(steps)
  {
    assert steps[..|steps|] == steps;
    assert !OneBusy(Run(steps[..|steps|]));
  }

  lemma ClosedThere(steps: seq<Step>, more: seq<Step>)
    requires ClosedOutside(steps) && NoSection(Run(steps)) && Close !in more
    ensures ClosedOutside(steps + [Close] + more)
  {
    hide NoSection, Run;
    var all := steps + [Close] + more;
    forall i | |steps| < i < |all| ensures all[i] != Close { assert all[i] in more; }
    forall i | 0 <= i < |all| && all[i] == Close ensures NoSection(Run(all[..i])) {
      assert if i < |steps| then all[..i] == steps[..i] && all[i] == steps[i] else all[..i] == steps;
    }
  }
}
