// What the proxies make of every answer, stated on the steps and runs of the protocol alone: how
// a reservation is closed, when the worker is given up, and that a healthy call goes through.
module WorkerOutcomes {
  import opened Budget
  import opened WorkerProtocol

  // ----- how a result closes its reservation -----------------------------------------

  ghost predicate AwaitsResult(s: System) {
    s.holder == AwaitResult && s.ops != [] && s.replies != [] && s.replies[0].request == Commit(|s.ops| - 1)
  }

  /** The newest reservation is being closed in this way, and the worker is given up after it or not. */
  ghost predicate ClosesBy(t: System, closure: Closure, giveUp: bool) {
    && t.ops != [] && t.holder == Closing(giveUp)
    && |t.ops| - 1 in t.tasks && t.tasks[|t.ops| - 1] == closure
  }

  /** Some token was reported, and for a vision call the usage is trusted inside what was reserved. */
  ghost predicate Meterable(backend: Backend, u: Usage) {
    && u.prompt + u.completion > 0
    && (backend == Vision ==> u.semantic && u.prompt <= u.estimate && u.completion <= u.maximumOutput)
  }

  /**
   * A valid result frees the reservation exactly if no provider call was started, meters it
   * exactly if one was and its usage can be metered, and charges it in full otherwise.
   */
  lemma ValidResultCloses(backend: Backend, steps: seq<Step>, usage: Usage)
    requires AwaitsResult(Run(Start(backend), steps))
    requires Run(Start(backend), steps).replies[0].body.Outcome?
    ensures var s, t := Run(Start(backend), steps), Run(Start(backend), steps + [Receive(true, usage)]);
            var body := s.replies[0].body;
            && (!body.started ==> ClosesBy(t, Freed, body.mustClose))
            && (body.started && Meterable(backend, usage) ==> ClosesBy(t, Metered, body.mustClose))
            && (body.started && !Meterable(backend, usage) ==> ClosesBy(t, Full, body.mustClose))
  {
    hide Next, Run;
    RunOne(Start(backend), steps, Receive(true, usage));
    BackendStays(Start(backend), steps);
    ResultStep(Run(Start(backend), steps), true, usage);
  }

  /** What the step that takes a result decides. */
  lemma ResultStep(s: System, valid: bool, usage: Usage)
    requires AwaitsResult(s)
    ensures var t := Next(s, Receive(valid, usage));
            match s.replies[0].body
            case Failure(code, started) =>
              ClosesBy(t, if started then Full else Freed,
                       s.backend == Vision || code == InvalidRequest || code == Internal)
            case Outcome(started, mustClose) =>
              if !valid then ClosesBy(t, Full, true)
              else if !started then ClosesBy(t, Freed, mustClose)
              else ClosesBy(t, if Meterable(s.backend, usage) then Metered else Full, mustClose)
            case _ => ClosesBy(t, Full, true)
  {
  }

  /** An error frees it if no call was started; anything else unclear charges it all and gives the worker up. */
  lemma OtherResultCloses(backend: Backend, steps: seq<Step>, valid: bool, usage: Usage)
    requires AwaitsResult(Run(Start(backend), steps))
    ensures var s, t := Run(Start(backend), steps), Run(Start(backend), steps + [Receive(valid, usage)]);
            match s.replies[0].body
            case Failure(code, started) =>
              ClosesBy(t, if started then Full else Freed,
                       backend == Vision || code == InvalidRequest || code == Internal)
            case Outcome(_, _) => !valid ==> ClosesBy(t, Full, true)
            case _ => ClosesBy(t, Full, true)
  {
    hide Next, Run, ClosesBy;
    RunOne(Start(backend), steps, Receive(valid, usage));
    BackendStays(Start(backend), steps);
    ResultStep(Run(Start(backend), steps), valid, usage);
  }

  /** A lost connection after the commit was sent charges in full and gives the worker up. */
  lemma LostResultCloses(backend: Backend, steps: seq<Step>)
    requires Run(Start(backend), steps).holder == AwaitResult && Run(Start(backend), steps).ops != []
    ensures var t := Run(Start(backend), steps + [RpcFails]); ClosesBy(t, Full, true) && t.poisoned
  {
    hide Run, Next;
    RunOne(Start(backend), steps, RpcFails);
    LostStep(Run(Start(backend), steps));
  }

  lemma LostStep(s: System)
    requires s.holder == AwaitResult && s.ops != []
    ensures ClosesBy(Next(s, RpcFails), Full, true) && Next(s, RpcFails).poisoned
  {
  }

  /** So does a worker seen to be gone before the commit could be sent. */
  lemma GoneWorkerCloses(backend: Backend, steps: seq<Step>)
    requires Run(Start(backend), steps).holder == Reserving && Run(Start(backend), steps).ops != []
    requires Run(Start(backend), steps).worker == Exited
    ensures var t := Run(Start(backend), steps + [ReserveReturns(true, true)]); ClosesBy(t, Full, true) && t.poisoned
  {
    hide Run;
    RunOne(Start(backend), steps, ReserveReturns(true, true));
  }

  lemma RunOne(s: System, steps: seq<Step>, step: Step)
    ensures Run(s, steps + [step]) == Next(Run(s, steps), step)
  {
    hide Next;
    assert (steps + [step])[..|steps|] == steps;
  }

  lemma {:induction false} BackendStays(s: System, steps: seq<Step>)
    ensures Run(s, steps).backend == s.backend
  {
    hide Next;
    if steps != [] {
      BackendStays(s, steps[..|steps| - 1]);
      StepKeepsBackend(Run(s, steps[..|steps| - 1]), steps[|steps| - 1]);
    }
  }

  lemma StepKeepsBackend(s: System, step: Step)
    ensures Next(s, step).backend == s.backend
  {
  }

  /** A closing that was decided is still to be made, or was made just so. */
  ghost predicate Decided(s: System, k: nat, closure: Closure) {
    && k < |s.ops|
    && if k in s.tasks then s.tasks[k] == closure && s.ops[k].closures == [] else s.ops[k].closures == [closure]
  }

  lemma StepKeepsDecided(s: System, step: Step, k: nat, closure: Closure)
    requires Inv(s) && Decided(s, k, closure)
    ensures Decided(Next(s, step), k, closure)
  {
    hide MayPost, SaysNotStarted, NoImages, Quiet;
    if k < |s.ops| - 1 { assert Finished(s.ops[k]); }
  }

  /** What is decided is done: in every continuation the reservation is closed in that way and no other. */
  lemma {:induction false} DecidedClosureIsMade(
    backend: Backend, steps: seq<Step>, more: seq<Step>, closure: Closure, giveUp: bool)
    requires ClosesBy(Run(Start(backend), steps), closure, giveUp)
    ensures Decided(Run(Start(backend), steps + more), |Run(Start(backend), steps).ops| - 1, closure)
  {
    hide Next, Decided, Inv;
    var k := |Run(Start(backend), steps).ops| - 1;
    if more == [] {
      assert steps + more == steps;
      RunsKeepInv(backend, steps);
      JustDecided(Run(Start(backend), steps), closure, giveUp);
    } else {
      var before, last := more[..|more| - 1], more[|more| - 1];
      assert steps + more == steps + before + [last];
      DecidedClosureIsMade(backend, steps, before, closure, giveUp);
      RunsKeepInv(backend, steps + before);
      RunOne(Start(backend), steps + before, last);
      StepKeepsDecided(Run(Start(backend), steps + before), last, k, closure);
    }
  }

  lemma JustDecided(s: System, closure: Closure, giveUp: bool)
    requires Inv(s) && ClosesBy(s, closure, giveUp)
    ensures Decided(s, |s.ops| - 1, closure)
  {
  }

  /** A metered call is never free of charge unless its tokens are. */
  lemma MeteredChargeIsPositive(p: Price, backend: Backend, u: Usage)
    requires p.Valid() && p.input > 0.0 && p.output > 0.0 && Meterable(backend, u)
    ensures p.Cost(Tokens(u.prompt, u.completion, 0)).Ok? && p.Cost(Tokens(u.prompt, u.completion, 0)).value > 0.0
  {
    var prompts, completions := u.prompt as real * p.input, u.completion as real * p.output;
    assert prompts >= 0.0 && completions >= 0.0 && (u.prompt > 0 ==> prompts > 0.0);
    assert u.completion > 0 ==> completions > 0.0;
    assert (prompts + completions) / MILLION > 0.0;
    assert (u.prompt - 0) as real * p.input == prompts && 0 as real * p.CachedRate() == 0.0;
  }

  // ----- the other answers ---------------------------------------------------------------

  /** A prepared image is reserved for; a refusal frees the lock, and a fatal or unclear one gives the worker up. */
  lemma PreparedDecides(backend: Backend, steps: seq<Step>, valid: bool, usage: Usage)
    requires var s := Run(Start(backend), steps);
             s.holder == AwaitPrepared && s.ops != [] && s.replies != [] && s.replies[0].request == Analyze(|s.ops| - 1)
    ensures var s, t := Run(Start(backend), steps), Run(Start(backend), steps + [Receive(valid, usage)]);
            && t.ops == s.ops && t.tasks == s.tasks
            && match s.replies[0].body
               case Prepared => if valid then t.holder == Reserving && t.poisoned == s.poisoned
                                else t.holder == Free && t.poisoned
               case Failure(code, _) =>
                 t.holder == Free && t.poisoned == (s.poisoned || code == InvalidRequest || code == Internal)
               case _ => t.holder == Free && t.poisoned
  {
    RunOne(Start(backend), steps, Receive(valid, usage));
  }

  /** Reserving sends the commit, and a refused budget ends the call; the vision worker holds an image then and goes. */
  lemma ReserveDecides(backend: Backend, steps: seq<Step>, ok: bool)
    requires Run(Start(backend), steps).holder == Reserving && Run(Start(backend), steps).ops != []
    ensures var s, t := Run(Start(backend), steps), Run(Start(backend), steps + [ReserveReturns(ok, false)]);
            var k := |s.ops| - 1;
            if ok then t.holder == AwaitResult && t.ops == s.ops[k := s.ops[k].(reserved := true)]
                       && t.requests == s.requests + [Commit(k)] && t.poisoned == s.poisoned
            else t.holder == Free && t.ops == s.ops && t.requests == s.requests
                 && t.poisoned == (s.poisoned || backend == Vision)
  {
    hide Next, Run;
    RunOne(Start(backend), steps, ReserveReturns(ok, false));
    BackendStays(Start(backend), steps);
    ReserveStep(Run(Start(backend), steps), ok);
  }

  lemma ReserveStep(s: System, ok: bool)
    requires s.holder == Reserving && s.ops != []
    ensures var t, k := Next(s, ReserveReturns(ok, false)), |s.ops| - 1;
            if ok then t == s.(ops := s.ops[k := s.ops[k].(reserved := true)], holder := AwaitResult,
                               requests := s.requests + [Commit(k)])
            else t == s.(holder := Free, poisoned := s.poisoned || s.backend == Vision)
  {
  }

  // ----- a call that goes through -----------------------------------------------------------

  ghost predicate Resting(s: System) {
    && s.holder == Free && !s.poisoned && s.worker == Running(None, None)
    && s.requests == [] && s.replies == [] && s.tasks == map[]
  }

  /** The newest operation is about to reserve; a vision worker holds its image. */
  function AtReserve(s: System): System {
    s.(ops := s.ops + [FRESH], holder := Reserving,
       worker := Running(if s.backend == Vision then Some(|s.ops|) else None, None))
  }

  function Opening(backend: Backend, usage: Usage): seq<Step> {
    if backend == Vision then [Begin, WorkerReads(Prepared), Receive(true, usage)] else [Begin]
  }

  lemma BeginStep(s: System)
    requires Resting(s)
    ensures Next(s, Begin)
            == s.(ops := s.ops + [FRESH], holder := if s.backend == Vision then AwaitPrepared else Reserving,
                  requests := if s.backend == Vision then [Analyze(|s.ops|)] else [])
  {
  }

  lemma PrepareSteps(s: System, usage: Usage)
    requires s.holder == AwaitPrepared && s.ops != [] && s.worker == Running(None, None)
    requires s.requests == [Analyze(|s.ops| - 1)] && s.replies == []
    ensures Next(Next(s, WorkerReads(Prepared)), Receive(true, usage))
            == s.(holder := Reserving, requests := [], worker := Running(Some(|s.ops| - 1), None))
  {
    var t := Next(s, WorkerReads(Prepared));
    assert t == s.(requests := [], replies := [Reply(Analyze(|s.ops| - 1), Prepared)],
                   worker := Running(Some(|s.ops| - 1), None));
    assert t.replies[1..] == [];
  }

  lemma OpeningReserves(s: System, usage: Usage)
    requires Resting(s)
    ensures Run(s, Opening(s.backend, usage)) == AtReserve(s)
  {
    hide Next;
    BeginStep(s);
    var t := Next(s, Begin);
    assert [Begin][..0] == [] && Run(s, [Begin]) == t;
    if s.backend == Vision {
      PrepareSteps(t, usage);
      RunOne(s, [Begin], WorkerReads(Prepared));
      RunOne(s, [Begin] + [WorkerReads(Prepared)], Receive(true, usage));
      assert [Begin] + [WorkerReads(Prepared)] + [Receive(true, usage)] == Opening(Vision, usage);
    }
  }

  function Ending(k: nat, usage: Usage): seq<Step> {
    [ReserveReturns(true, false), WorkerReads(Prepared), WorkerPosts, WorkerAnswers(Outcome(true, false)),
     Receive(true, usage), TaskRuns(k, false), Resume]
  }

  lemma SendSteps(r: System, k: nat)
    requires r.holder == Reserving && |r.ops| == k + 1 && r.requests == [] && r.ops[k] == FRESH
    requires r.worker == Running(if r.backend == Vision then Some(k) else None, None)
    ensures Next(Next(Next(r, ReserveReturns(true, false)), WorkerReads(Prepared)), WorkerPosts)
            == r.(ops := r.ops[k := Record(true, [], 1)], holder := AwaitResult,
                  worker := Running(None, Some(Work(k, true))))
  {
    ReserveStep(r, true);
    var r1 := Next(r, ReserveReturns(true, false));
    assert r1.requests == [Commit(k)] && r1.requests[1..] == [];
    var r2 := Next(r1, WorkerReads(Prepared));
    assert r2 == r1.(requests := [], worker := Running(None, Some(Work(k, false))));
    assert r2.ops[k := r2.ops[k].(calls := r2.ops[k].calls + 1)] == r.ops[k := Record(true, [], 1)];
  }

  lemma SentIsPosted(s: System, r: System, usage: Usage)
    requires Resting(s) && r == AtReserve(s)
    ensures Run(r, Ending(|s.ops|, usage)[..3])
            == r.(ops := s.ops + [Record(true, [], 1)], holder := AwaitResult,
                  worker := Running(None, Some(Work(|s.ops|, true))))
  {
    hide Next;
    var k: nat := |s.ops|;
    SendSteps(r, k);
    var (a, b, c) := (ReserveReturns(true, false), WorkerReads(Prepared), WorkerPosts);
    RunOne(r, [], a);
    RunOne(r, [a], b);
    RunOne(r, [a, b], c);
    assert [] + [a] == [a] && [a] + [b] == [a, b] && [a, b] + [c] == [a, b, c] && Ending(k, usage)[..3] == [a, b, c];
    assert r.ops[k := Record(true, [], 1)] == s.ops + [Record(true, [], 1)];
  }

  lemma AnswerSteps(p: System, k: nat, usage: Usage)
    requires p.holder == AwaitResult && |p.ops| == k + 1 && p.requests == [] && p.replies == [] && p.tasks == map[]
    requires p.worker == Running(None, Some(Work(k, true))) && Meterable(p.backend, usage)
    ensures Next(Next(p, WorkerAnswers(Outcome(true, false))), Receive(true, usage))
            == p.(worker := Running(None, None), holder := Closing(false), tasks := map[k := Metered])
  {
    var t := Next(p, WorkerAnswers(Outcome(true, false)));
    assert t == p.(replies := [Reply(Commit(k), Outcome(true, false))], worker := Running(None, None));
    assert t.replies[1..] == [];
  }

  lemma CloseSteps(p: System, k: nat)
    requires p.holder == Closing(false) && |p.ops| == k + 1 && p.tasks == map[k := Metered] && !p.poisoned
    ensures Next(Next(p, TaskRuns(k, false)), Resume)
            == p.(ops := p.ops[k := p.ops[k].(closures := p.ops[k].closures + [Metered])],
                  tasks := map[], holder := Free)
  {
    assert p.tasks - {k} == map[];
  }

  lemma PostedEnds(s: System, p: System, usage: Usage)
    requires Resting(s) && Meterable(s.backend, usage)
    requires p == AtReserve(s).(ops := s.ops + [Record(true, [], 1)], holder := AwaitResult,
                                worker := Running(None, Some(Work(|s.ops|, true))))
    ensures Run(p, Ending(|s.ops|, usage)[3..]) == s.(ops := s.ops + [Record(true, [Metered], 1)])
  {
    hide Next, Meterable, Run;
    var k: nat := |s.ops|;
    AnswerSteps(p, k, usage);
    var q := p.(worker := Running(None, None), holder := Closing(false), tasks := map[k := Metered]);
    CloseSteps(q, k);
    assert q.ops[k] == Record(true, [], 1) && [] + [Metered] == [Metered];
    assert q.ops[k := q.ops[k].(closures := q.ops[k].closures + [Metered])] == s.ops + [Record(true, [Metered], 1)];
    var e := [WorkerAnswers(Outcome(true, false)), Receive(true, usage), TaskRuns(k, false), Resume];
    assert Ending(k, usage)[3..] == e;
    RunFour(p, e[0], e[1], e[2], e[3]);
    assert e == [e[0], e[1], e[2], e[3]];
  }

  lemma RunFour(p: System, a: Step, b: Step, c: Step, d: Step)
    ensures Run(p, [a, b, c, d]) == Next(Next(Next(Next(p, a), b), c), d)
  {
    hide Next;
    RunOne(p, [], a);
    RunOne(p, [a], b);
    RunOne(p, [a, b], c);
    RunOne(p, [a, b, c], d);
    assert [] + [a] == [a] && [a] + [b] == [a, b] && [a, b] + [c] == [a, b, c] && [a, b, c] + [d] == [a, b, c, d];
  }

  /**
   * From a free and healthy proxy with a running worker a call goes through: one provider call,
   * closed as metered, and the proxy free and healthy again.
   */
  lemma CallGoesThrough(backend: Backend, steps: seq<Step>, usage: Usage) returns (more: seq<Step>)
    requires var s := Run(Start(backend), steps); s.holder == Free && !s.poisoned && s.worker.Running?
    requires Meterable(backend, usage)
    ensures var s, t := Run(Start(backend), steps), Run(Start(backend), steps + more);
            t == s.(ops := s.ops + [Record(true, [Metered], 1)])
  {
    hide Next;
    QuietWheneverFree(backend, steps);
    BackendStays(Start(backend), steps);
    var s := Run(Start(backend), steps);
    var opening, ending := Opening(backend, usage), Ending(|s.ops|, usage);
    OpeningReserves(s, usage);
    SentIsPosted(s, AtReserve(s), usage);
    var posted := AtReserve(s).(ops := s.ops + [Record(true, [], 1)], holder := AwaitResult,
                                worker := Running(None, Some(Work(|s.ops|, true))));
    PostedEnds(s, posted, usage);
    RunFrom(s, opening, ending[..3]);
    RunFrom(s, opening + ending[..3], ending[3..]);
    more := opening + ending[..3] + ending[3..];
    RunFrom(Start(backend), steps, more);
  }

  lemma {:induction false} RunFrom(s: System, steps: seq<Step>, more: seq<Step>)
    ensures Run(s, steps + more) == Run(Run(s, steps), more)
  {
    hide Next;
    if more == [] {
      assert steps + more == steps;
    } else {
      var before, last := more[..|more| - 1], more[|more| - 1];
      RunFrom(s, steps, before);
      assert steps + more == steps + before + [last];
      RunOne(s, steps + before, last);
    }
  }
}
