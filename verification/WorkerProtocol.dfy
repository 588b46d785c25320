// A paid call through an isolated worker: proxy, pipe, worker and budget as one stepped
// protocol.  Every await is a point where a timeout, a cancellation, a crash or a remote error
// can fall; the steps below interleave freely.  The vision backend prepares an image, reserves
// spend and then commits; the text backend reserves and then sends its one request.
module WorkerProtocol {
  import opened Budget

  /** How a reservation is closed. */
  datatype Closure = Freed | Metered | Full

  datatype Backend = Vision | Text

  /** Commit is the request that may reach the provider; a query asks for a balance or for models. */
  datatype Request = Analyze(op: nat) | Commit(op: nat) | Query | Shutdown

  datatype Code =
    | InvalidRequest | ImageRejected | ProviderFailure | Internal
    | CredentialUnavailable | ProviderTransport | ProviderProtocol | Unsupported

  datatype Body =
    | Prepared
    | Outcome(started: bool, mustClose: bool)
    | Failure(code: Code, started: bool)
    | Answer
    | Stopped

  datatype Reply = Reply(request: Request, body: Body)

  // ----- which closure a result asks for ------------------------------------

  /** What a result reports, and the bounds its reservation was made for. */
  datatype Usage = Usage(semantic: bool, prompt: nat, completion: nat, estimate: nat, maximumOutput: nat)

  /** The vision proxy trusts usage only inside what was reserved; the text proxy checks presence alone. */
  function ClosureFor(backend: Backend, started: bool, u: Usage): Closure {
    if !started then Freed
    else if u.prompt == 0 && u.completion == 0 then Full
    else if backend.Vision? && (!u.semantic || u.prompt > u.estimate || u.completion > u.maximumOutput) then Full
    else Metered
  }

  /** The charge of a metered usage stays within its reservation. */
  predicate WithinReservation(p: Price, u: Usage) {
    p.Cost(Tokens(u.prompt, u.completion, 0)).value <= p.Cost(Tokens(u.estimate, u.maximumOutput, 0)).value
  }

  /** A vision settlement never charges more than it reserved, whatever the prices are. */
  lemma VisionChargeWithinReservation(p: Price, started: bool, u: Usage)
    requires p.Valid() && ClosureFor(Vision, started, u) == Metered
    ensures WithinReservation(p, u)
  {
    MulMonotone(u.prompt as real, u.estimate as real, p.input, p.input);
    MulMonotone(u.completion as real, u.maximumOutput as real, p.output, p.output);
    DivideMonotone(u.prompt as real * p.input + 0.0 * p.CachedRate() + u.completion as real * p.output,
                   u.estimate as real * p.input + 0.0 * p.CachedRate() + u.maximumOutput as real * p.output);
  }

  /** A text settlement is bounded by its reservation for every reported usage only if tokens are free. */
  lemma TextChargeWithinReservationIff(p: Price)
    requires p.Valid()
    ensures (forall u: Usage :: ClosureFor(Text, true, u) == Metered ==> WithinReservation(p, u))
            <==> p.input == 0.0 && p.output == 0.0
  {
    if p.input > 0.0 {
      var u := Usage(true, 1, 0, 0, 0);
      assert ClosureFor(Text, true, u) == Metered && !WithinReservation(p, u);
    } else if p.output > 0.0 {
      var u := Usage(true, 0, 1, 0, 0);
      assert ClosureFor(Text, true, u) == Metered && !WithinReservation(p, u);
    }
  }

  // ----- the worker -----------------------------------------------------------

  /** An image whose commit is being carried out; posted once the provider request is on the wire. */
  datatype Work = Work(op: nat, posted: bool)

  datatype Worker = Exited | Running(pending: Option<nat>, work: Option<Work>)

  /** The replies a worker may give to an analyze request; a second pending image is refused. */
  predicate MayAnswerAnalyze(pending: Option<nat>, body: Body) {
    match body
    case Prepared => pending.None?
    case Failure(code, started) =>
      !started && (code == InvalidRequest || (pending.None? && (code == ImageRejected || code == Internal)))
    case _ => false
  }

  /** A call that posted never denies it; a call that did not post may still be reported as started. */
  predicate MayAnswerCommit(backend: Backend, posted: bool, body: Body) {
    match body
    case Outcome(started, mustClose) => started == posted && (backend.Text? ==> posted && !mustClose)
    case Failure(code, started) =>
      if backend.Vision? then code == ProviderFailure && started
      else if code == CredentialUnavailable || code == Unsupported || code == InvalidRequest
      then !started && !posted
      else started && (code == ProviderTransport || code == ProviderProtocol || code == Internal)
    case _ => false
  }

  /** The vision worker leaves after any failure it reports for a commit; the text worker stays. */
  function LastReply(backend: Backend, body: Body): bool {
    backend.Vision? && (body.Failure? || (body.Outcome? && body.mustClose))
  }

  /** How the one provider request of a call ends. */
  datatype Post = ConnectFailed | TransportFailed | HttpError | Unreadable | Usable | Unexpected

  /** What a text request meets in the worker and its gateway, in order. */
  datatype Meets = Meets(
    payloadValid: bool, wellFormed: bool, fitsContext: bool, secretFound: bool, reserved: bool,
    encodes: bool, post: Post, answerValid: bool)

  /** Only a refused payload or a missing credential is reported as not started, and neither posted. */
  method ServeGenerate(m: Meets) returns (body: Body, posts: nat)
    ensures posts <= 1 && MayAnswerCommit(Text, posts == 1, body)
    ensures posts == 1 <==> m.payloadValid && m.wellFormed && m.fitsContext && m.secretFound && m.reserved
                            && m.encodes && m.post != ConnectFailed
    ensures body.Outcome? <==> posts == 1 && m.post == Usable && m.answerValid
    ensures body == Failure(InvalidRequest, false) <==> !m.payloadValid
    ensures body == Failure(CredentialUnavailable, false)
            <==> m.payloadValid && m.wellFormed && m.fitsContext && !m.secretFound
    ensures posts == 1 ==>
              (body == Failure(ProviderTransport, true) <==> m.post == TransportFailed || m.post == HttpError)
              && (body == Failure(Internal, true) <==> m.post == Unexpected)
    ensures posts == 0 && m.payloadValid && m.wellFormed && m.fitsContext && m.secretFound ==>
              body == Failure(if !m.reserved then Internal else if !m.encodes then ProviderProtocol
                              else ProviderTransport, true)
  {
    posts := 0;
    if !m.payloadValid { return Failure(InvalidRequest, false), posts; }
    if !m.wellFormed || !m.fitsContext { return Failure(ProviderProtocol, true), posts; }
    if !m.secretFound { return Failure(CredentialUnavailable, false), posts; }
    if !m.reserved { return Failure(Internal, true), posts; }
    if !m.encodes { return Failure(ProviderProtocol, true), posts; }
    if m.post == ConnectFailed { return Failure(ProviderTransport, true), posts; }
    posts := posts + 1;
    match m.post
    case TransportFailed => body := Failure(ProviderTransport, true);
    case HttpError => body := Failure(ProviderTransport, true);
    case Unreadable => body := Failure(ProviderProtocol, true);
    case Unexpected => body := Failure(Internal, true);
    case _ => body := if m.answerValid then Outcome(true, false) else Failure(ProviderProtocol, true);
  }

  /** A vision commit falls back without a call when it may, and closes the worker on any provider failure. */
  method ServeCommit(secretFound: bool, reserved: bool, post: Post) returns (body: Body, posts: nat)
    ensures posts <= 1 && MayAnswerCommit(Vision, posts == 1, body)
    ensures posts == 1 <==> secretFound && reserved && post != ConnectFailed
    ensures LastReply(Vision, body) <==> secretFound && reserved && post != Usable
    ensures body == Failure(ProviderFailure, true) <==> posts == 1 && post == Unexpected
    ensures body.Outcome? ==>
              body.started == (posts == 1) && (body.mustClose <==> secretFound && reserved && post != Usable)
  {
    posts := 0;
    if !secretFound || !reserved { return Outcome(false, false), posts; }
    if post == ConnectFailed { return Outcome(false, true), posts; }
    posts := posts + 1;
    match post
    case Usable => body := Outcome(true, false);
    case Unexpected => body := Failure(ProviderFailure, true);
    case _ => body := Outcome(true, true);
  }

  /** The single-client service: one pending image, dropped by the commit that takes it. */
  class VisionWorkerService {
    var pending: Option<nat>
    var running: bool

    constructor ()
      ensures pending == None && running
    {
      pending, running := None, true;
    }

    /** Preparing may be refused; what was pending before stays pending. */
    method AnalyzeImage(op: nat, prepares: bool, code: Code) returns (body: Body)
      requires code == ImageRejected || code == InvalidRequest || code == Internal
      modifies this`pending
      ensures MayAnswerAnalyze(old(pending), body)
      ensures pending == if body == Prepared then Some(op) else old(pending)
      ensures prepares && old(pending).None? <==> body == Prepared
    {
      if pending.Some? { return Failure(InvalidRequest, false); }
      if !prepares { return Failure(code, false); }
      pending := Some(op);
      return Prepared;
    }

    /** At most one provider request per commit, and only for the image that is pending. */
    method CommitImage(op: nat, provider: Body, posts: bool) returns (body: Body, posted: nat)
      requires MayAnswerCommit(Vision, posts, provider)
      modifies this
      ensures pending == None
      ensures posted == if old(pending) == Some(op) && posts then 1 else 0
      ensures old(pending) == Some(op) ==> body == provider && running == (old(running) && !LastReply(Vision, body))
      ensures old(pending) != Some(op) ==> body == Failure(InvalidRequest, false) && !running
    {
      var taken := pending;
      pending := None;
      if taken != Some(op) {
        running := false;
        return Failure(InvalidRequest, false), 0;
      }
      running := running && !LastReply(Vision, provider);
      return provider, if posts then 1 else 0;
    }
  }

  // ----- the whole system -----------------------------------------------------

  /** What the holder of the request lock is waiting for. */
  datatype Holder =
    | Free
    | AwaitPrepared
    | Reserving
    | AwaitResult
    | AwaitAnswer(catalogue: bool)
    | Closing(poisonAfter: bool)
    | AwaitStopped

  /** The history of one operation: was spend reserved, how was it closed, how many provider calls. */
  datatype Record = Record(reserved: bool, closures: seq<Closure>, calls: nat)

  /** Operations run one at a time under the lock, so the newest record belongs to the holder. */
  datatype System = System(
    backend: Backend,
    ops: seq<Record>,
    holder: Holder,
    poisoned: bool,
    requests: seq<Request>,
    replies: seq<Reply>,
    worker: Worker,
    tasks: map<nat, Closure>)

  datatype Step =
    | Begin
    | BeginRefused
    | Receive(valid: bool, usage: Usage)
    | BeginQuery(catalogue: bool)
    | RpcFails
    | ReserveReturns(ok: bool, exitNoticed: bool)
    | TaskRuns(op: nat, raises: bool)
    | Resume
    | CancelWhileClosing(again: bool)
    | BeginShutdown
    | EndShutdown
    | WorkerReads(body: Body)
    | WorkerPosts
    | WorkerAnswers(body: Body)
    | WorkerExits

  const FRESH := Record(false, [], 0)

  function Newest(s: System): int { |s.ops| - 1 }

  /** The lock is released with the worker marked unusable; the mark comes before the release. */
  function Poisoned(s: System): System { s.(poisoned := true, holder := Free) }

  /** A shielded task closes the newest reservation; the holder waits for it. */
  function StartClosing(s: System, closure: Closure, poisonAfter: bool): System
    requires s.ops != []
  {
    s.(holder := Closing(poisonAfter), tasks := s.tasks[Newest(s) := closure])
  }

  function Send(s: System, r: Request): System { s.(requests := s.requests + [r]) }

  /** A vision call first has its image prepared; a text call goes straight to the reservation. */
  function BeginCall(s: System): System {
    var next := s.(ops := s.ops + [FRESH]);
    if s.backend.Text? then next.(holder := Reserving)
    else Send(next.(holder := AwaitPrepared), Analyze(Newest(next)))
  }

  function Fatal(code: Code): bool { code == InvalidRequest || code == Internal }

  function ReceivePrepared(s: System, reply: Reply, valid: bool): System {
    if reply.request != Analyze(if s.ops == [] then 0 else Newest(s)) then Poisoned(s)
    else
      match reply.body
      case Failure(code, _) =>
        if Fatal(code) then Poisoned(s) else s.(holder := Free)
      case Prepared => if valid then s.(holder := Reserving) else Poisoned(s)
      case _ => Poisoned(s)
  }

  /** A result or an error decides how the reservation is closed; anything unclear charges it all. */
  function ReceiveResult(s: System, reply: Reply, valid: bool, usage: Usage): System
    requires s.ops != []
  {
    if reply.request != Commit(Newest(s)) then StartClosing(s, Full, true)
    else
      match reply.body
      case Failure(code, started) =>
        StartClosing(s, if started then Full else Freed, s.backend.Vision? || Fatal(code))
      case Outcome(started, mustClose) =>
        if !valid then StartClosing(s, Full, true)
        else StartClosing(s, ClosureFor(s.backend, started, usage), mustClose)
      case _ => StartClosing(s, Full, true)
  }

  /** Of the two queries only the catalogue check poisons on a fatal error it is told of. */
  function ReceiveAnswer(s: System, reply: Reply, catalogue: bool, valid: bool): System {
    if reply.request != Query then Poisoned(s)
    else
      match reply.body
      case Answer => if valid then s.(holder := Free) else Poisoned(s)
      case Failure(code, _) => if catalogue && Fatal(code) then Poisoned(s) else s.(holder := Free)
      case _ => Poisoned(s)
  }

  /** After a reservation is taken the commit is sent, unless the worker is seen to have exited. */
  function ReserveAndCommit(s: System, exitNoticed: bool): System
    requires s.ops != []
  {
    var taken := s.(ops := s.ops[Newest(s) := s.ops[Newest(s)].(reserved := true)]);
    if exitNoticed then StartClosing(taken, Full, true).(poisoned := true)
    else Send(taken.(holder := AwaitResult), Commit(Newest(s)))
  }

  function RunTask(s: System, op: nat, raises: bool): System
    requires op in s.tasks && op < |s.ops|
  {
    s.(ops := s.ops[op := s.ops[op].(closures := s.ops[op].closures + [s.tasks[op]])],
       tasks := s.tasks - {op}, poisoned := s.poisoned || raises)
  }

  function ReadRequest(s: System, body: Body): System
    requires s.worker.Running? && s.worker.work.None? && s.requests != []
  {
    var rest := s.(requests := s.requests[1..]);
    match s.requests[0]
    case Analyze(op) =>
      if !MayAnswerAnalyze(s.worker.pending, body) then s
      else rest.(replies := s.replies + [Reply(Analyze(op), body)],
                 worker := if body == Prepared then Running(Some(op), None) else s.worker)
    case Commit(op) =>
      if s.backend.Text? || s.worker.pending == Some(op) then rest.(worker := Running(None, Some(Work(op, false))))
      else rest.(replies := s.replies + [Reply(Commit(op), Failure(InvalidRequest, false))], worker := Exited)
    case Query =>
      if !body.Answer? && !body.Failure? then s
      else rest.(replies := s.replies + [Reply(Query, body)])
    case Shutdown =>
      rest.(replies := s.replies + [Reply(Shutdown, Stopped)], worker := Exited)
  }

  function PostToProvider(s: System): System
    requires s.worker.Running? && s.worker.work.Some? && s.worker.work.value.op < |s.ops|
  {
    var op := s.worker.work.value.op;
    s.(ops := s.ops[op := s.ops[op].(calls := s.ops[op].calls + 1)],
       worker := s.worker.(work := Some(Work(op, true))))
  }

  function AnswerCommit(s: System, body: Body): System
    requires s.worker.Running? && s.worker.work.Some?
  {
    s.(replies := s.replies + [Reply(Commit(s.worker.work.value.op), body)],
       worker := if LastReply(s.backend, body) then Exited else Running(s.worker.pending, None))
  }

  function Next(s: System, step: Step): System {
    match step
    case Begin =>
      if s.holder == Free && !s.poisoned then BeginCall(s) else s
    case BeginRefused =>
      if s.holder == Free && (s.poisoned || s.worker.Exited?) then s.(poisoned := true) else s
    case Receive(valid, usage) =>
      if s.replies == [] then s
      else
        var rest := s.(replies := s.replies[1..]);
        if s.holder == AwaitPrepared then ReceivePrepared(rest, s.replies[0], valid)
        else if s.holder == AwaitResult && s.ops != [] then ReceiveResult(rest, s.replies[0], valid, usage)
        else if s.holder.AwaitAnswer? then ReceiveAnswer(rest, s.replies[0], s.holder.catalogue, valid)
        else s
    case BeginQuery(catalogue) =>
      if s.backend.Text? && s.holder == Free && !s.poisoned
      then Send(s.(holder := AwaitAnswer(catalogue)), Query) else s
    case RpcFails =>
      if s.holder == AwaitPrepared || s.holder.AwaitAnswer? then Poisoned(s)
      else if s.holder == AwaitResult && s.ops != [] then StartClosing(s, Full, true).(poisoned := true)
      else s
    case ReserveReturns(ok, exitNoticed) =>
      if s.holder != Reserving || s.ops == [] then s
      else if ok then ReserveAndCommit(s, exitNoticed && s.worker.Exited?)
      else if s.backend.Text? then s.(holder := Free)
      else Poisoned(s)
    case TaskRuns(op, raises) => if op in s.tasks && op < |s.ops| then RunTask(s, op, raises) else s
    case Resume =>
      if s.holder.Closing? && Newest(s) !in s.tasks
      then s.(poisoned := s.poisoned || s.holder.poisonAfter, holder := Free) else s
    case CancelWhileClosing(again) =>
      if !s.holder.Closing? then s
      else if again then Poisoned(s) else s.(poisoned := true)
    case BeginShutdown =>
      if s.holder == Free && !s.poisoned then Send(s.(holder := AwaitStopped), Shutdown) else s
    case EndShutdown => if s.holder == AwaitStopped then Poisoned(s) else s
    case WorkerReads(body) =>
      if s.worker.Running? && s.worker.work.None? && s.requests != [] then ReadRequest(s, body) else s
    case WorkerPosts =>
      if s.worker.Running? && s.worker.work.Some? && !s.worker.work.value.posted
         && s.worker.work.value.op < |s.ops|
      then PostToProvider(s) else s
    case WorkerAnswers(body) =>
      if s.worker.Running? && s.worker.work.Some? && MayAnswerCommit(s.backend, s.worker.work.value.posted, body)
      then AnswerCommit(s, body) else s
    case WorkerExits => s.(worker := Exited)
  }

  function Run(s: System, steps: seq<Step>): System {
    if steps == [] then s else Next(Run(s, steps[..|steps| - 1]), steps[|steps| - 1])
  }

  /** A proxy and a worker just after the initial handshake. */
  function Start(backend: Backend): System {
    System(backend, [], Free, false, [], [], Running(None, None), map[])
  }

  // ----- the invariant --------------------------------------------------------

  ghost predicate RecordOk(r: Record) {
    && r.calls <= 1 && |r.closures| <= 1
    && ((r.calls == 1 || r.closures != []) ==> r.reserved)
    && (Freed in r.closures ==> r.calls == 0)
  }

  ghost predicate Finished(r: Record) {
    RecordOk(r) && (r.reserved ==> |r.closures| == 1)
  }

  function Working(w: Worker): nat {
    if w.Running? && w.work.Some? then 1 else 0
  }

  function Waiting(w: Worker): bool { w.Running? && w.pending.Some? }

  /** At most one message or job is anywhere between the proxy and the worker. */
  function Load(s: System): nat { |s.requests| + |s.replies| + Working(s.worker) }

  /** A provider request can still be posted. */
  ghost predicate MayPost(s: System) {
    || (exists r :: r in s.requests && r.Commit?)
    || (s.worker.Running? && s.worker.work.Some? && !s.worker.work.value.posted)
  }

  /** A reply in the pipe that says no provider call was started. */
  ghost predicate SaysNotStarted(reply: Reply) {
    reply.request.Commit? && (reply.body.Outcome? || reply.body.Failure?) && !reply.body.started
  }

  /** Everything in flight belongs to the newest operation. */
  ghost predicate OnlyNewest(s: System) {
    && (forall r :: r in s.requests && (r.Analyze? || r.Commit?) ==> r.op == Newest(s))
    && (forall m :: m in s.replies && (m.request.Analyze? || m.request.Commit?) ==> m.request.op == Newest(s))
    && (s.worker.Running? && s.worker.work.Some? ==> s.worker.work.value.op == Newest(s))
    && (s.worker.Running? && s.worker.pending.Some? ==> s.worker.pending.value == Newest(s))
    && (forall k :: k in s.tasks ==> k == Newest(s))
  }

  /** What is promised of the newest record while it may still change. */
  ghost predicate NewestOk(s: System) {
    s.ops != [] ==>
      var r := s.ops[Newest(s)];
      && RecordOk(r)
      && (Newest(s) in s.tasks ==> r.reserved && r.closures == [])
      && (MayPost(s) ==> r.reserved && r.calls == 0)
      && ((exists m :: m in s.replies && SaysNotStarted(m)) ==> r.calls == 0)
      && (Freed in r.closures || (Newest(s) in s.tasks && s.tasks[Newest(s)] == Freed)
          ==> r.calls == 0 && !MayPost(s))
  }

  /** Nothing in flight: every reply was consumed, no image waits, no closing task runs. */
  ghost predicate Quiet(s: System) {
    && Load(s) == 0 && !Waiting(s.worker) && s.tasks == map[]
    && (s.ops != [] ==> Finished(s.ops[Newest(s)]))
  }

  ghost predicate NoImages(s: System) {
    !Waiting(s.worker) && s.holder != AwaitPrepared && forall r :: r in s.requests ==> !r.Analyze?
  }

  ghost predicate HolderOk(s: System) {
    match s.holder
    case Free =>
      && (!s.poisoned ==> Quiet(s))
      && (s.ops != [] && s.ops[Newest(s)].reserved ==> |s.ops[Newest(s)].closures| == 1 || Newest(s) in s.tasks)
    case AwaitPrepared =>
      && !s.poisoned && s.ops != [] && s.ops[Newest(s)] == FRESH && s.tasks == map[]
      && Working(s.worker) == 0
      && (forall r :: r in s.requests ==> r.Analyze?)
      && (forall m :: m in s.replies ==> m.request.Analyze?)
      && (s.requests != [] ==> !Waiting(s.worker))
      && (forall m :: m in s.replies && m.body != Prepared ==> !Waiting(s.worker))
    case Reserving =>
      && !s.poisoned && s.ops != [] && s.ops[Newest(s)] == FRESH && s.tasks == map[] && Load(s) == 0
    case AwaitResult =>
      && !s.poisoned && s.ops != [] && s.tasks == map[]
      && s.ops[Newest(s)].reserved && s.ops[Newest(s)].closures == []
      && (forall r :: r in s.requests ==> r.Commit?)
      && (forall m :: m in s.replies ==> m.request.Commit?)
      && (s.requests == [] ==> !Waiting(s.worker))
    case AwaitAnswer(_) =>
      && !s.poisoned && s.tasks == map[] && !Waiting(s.worker) && Working(s.worker) == 0
      && (s.ops != [] ==> Finished(s.ops[Newest(s)]))
      && (forall r :: r in s.requests ==> r == Query)
      && (forall m :: m in s.replies ==> m.request == Query)
    case Closing(poisonAfter) =>
      && s.ops != [] && s.ops[Newest(s)].reserved
      && (Newest(s) in s.tasks || |s.ops[Newest(s)].closures| == 1)
      && (!poisonAfter && !s.poisoned ==> Load(s) == 0 && !Waiting(s.worker))
    case AwaitStopped =>
      s.tasks == map[] && (s.ops != [] ==> Finished(s.ops[Newest(s)]))
  }

  ghost predicate Inv(s: System) {
    && (forall k :: 0 <= k < |s.ops| - 1 ==> Finished(s.ops[k]))
    && Load(s) <= 1
    && (s.backend.Text? ==> NoImages(s))
    && OnlyNewest(s) && NewestOk(s) && HolderOk(s)
  }

  // ----- every step keeps the invariant -----------------------------------------

  lemma BeginKeepsInv(s: System)
    requires Inv(s) && s.holder == Free && !s.poisoned
    ensures Inv(BeginCall(s))
  {
    var t := BeginCall(s);
    assert s.requests == [] && s.replies == [];
    assert t.backend.Vision? ==> t.requests == [Analyze(Newest(t))];
    forall k | 0 <= k < |t.ops| - 1 ensures Finished(t.ops[k]) {
      assert t.ops[k] == s.ops[k];
    }
  }

  lemma ReceivePreparedKeepsInv(s: System, valid: bool)
    requires Inv(s) && s.replies != [] && s.holder == AwaitPrepared
    ensures Inv(ReceivePrepared(s.(replies := s.replies[1..]), s.replies[0], valid))
  {
    var reply := s.replies[0];
    assert reply in s.replies && s.replies == [reply] && s.requests == [] && s.replies[1..] == [];
  }

  /** Closing may start once the reply is consumed; freeing needs that nothing was called. */
  lemma ConsumeAndClose(s: System, closure: Closure, poisonAfter: bool)
    requires Inv(s) && s.replies != [] && s.holder == AwaitResult
    requires closure == Freed ==> s.ops[Newest(s)].calls == 0
    ensures Inv(StartClosing(s.(replies := s.replies[1..]), closure, poisonAfter))
  {
    assert s.requests == [] && |s.replies| == 1 && s.replies[1..] == [];
    assert !MayPost(s);
  }

  lemma ReceiveResultKeepsInv(s: System, valid: bool, usage: Usage)
    requires Inv(s) && s.replies != [] && s.holder == AwaitResult
    ensures Inv(ReceiveResult(s.(replies := s.replies[1..]), s.replies[0], valid, usage))
  {
    var reply := s.replies[0];
    assert reply in s.replies;
    assert SaysNotStarted(reply) ==> s.ops[Newest(s)].calls == 0;
    var t := ReceiveResult(s.(replies := s.replies[1..]), reply, valid, usage);
    ConsumeAndClose(s, t.tasks[Newest(s)], t.holder.poisonAfter);
  }

  lemma ReceiveAnswerKeepsInv(s: System, valid: bool)
    requires Inv(s) && s.replies != [] && s.holder.AwaitAnswer?
    ensures Inv(ReceiveAnswer(s.(replies := s.replies[1..]), s.replies[0], s.holder.catalogue, valid))
  {
    assert s.replies[0] in s.replies && s.requests == [] && s.replies == [s.replies[0]] && s.replies[1..] == [];
  }

  /** Giving up the lock with the worker poisoned is safe unless spend is reserved and nobody closes it. */
  lemma PoisonKeepsInv(s: System)
    requires Inv(s)
    requires s.ops != [] && s.ops[Newest(s)].reserved ==> |s.ops[Newest(s)].closures| == 1 || Newest(s) in s.tasks
    ensures Inv(Poisoned(s))
  {
    assert MayPost(Poisoned(s)) == MayPost(s);
  }

  lemma FailedResultKeepsInv(s: System)
    requires Inv(s) && s.holder == AwaitResult
    ensures Inv(StartClosing(s, Full, true).(poisoned := true))
  {
    assert MayPost(StartClosing(s, Full, true).(poisoned := true)) == MayPost(s);
  }

  lemma RpcFailsKeepsInv(s: System)
    requires Inv(s)
    ensures Inv(Next(s, RpcFails))
  {
    if s.holder == AwaitResult { FailedResultKeepsInv(s); }
    else if s.holder == AwaitPrepared || s.holder.AwaitAnswer? { PoisonKeepsInv(s); }
  }

  lemma ReserveKeepsInv(s: System, ok: bool, exitNoticed: bool)
    requires Inv(s)
    ensures Inv(Next(s, ReserveReturns(ok, exitNoticed)))
  {
    var t := Next(s, ReserveReturns(ok, exitNoticed));
    if s.holder == Reserving && ok {
      assert s.requests == [] && s.replies == [];
      assert t.ops[Newest(t)] == Record(true, [], 0);
      assert t.requests == [] || t.requests == [Commit(Newest(t))];
    }
  }

  lemma TaskKeepsInv(s: System, op: nat, raises: bool)
    requires Inv(s) && op in s.tasks && op < |s.ops|
    ensures Inv(RunTask(s, op, raises))
  {
    var t := RunTask(s, op, raises);
    assert op == Newest(s);
    assert t.ops[op].closures == [s.tasks[op]];
    assert MayPost(t) == MayPost(s);
  }

  lemma ClosingStepKeepsInv(s: System, step: Step)
    requires Inv(s) && s.holder.Closing? && (step.Resume? || step.CancelWhileClosing?)
    ensures Inv(Next(s, step))
  {
    PoisonKeepsInv(s);
    assert MayPost(s.(poisoned := true)) == MayPost(s) == MayPost(s.(holder := Free));
  }

  lemma LockStepKeepsInv(s: System, step: Step)
    requires Inv(s) && (step.BeginRefused? || step.EndShutdown?)
    ensures Inv(Next(s, step))
  {
    if s.holder == AwaitStopped { PoisonKeepsInv(s); }
    assert MayPost(s.(poisoned := true)) == MayPost(s);
  }

  lemma BeginOtherKeepsInv(s: System, holder: Holder, r: Request)
    requires Inv(s) && s.holder == Free && !s.poisoned
    requires (holder == AwaitStopped && r == Shutdown) || (holder.AwaitAnswer? && r == Query)
    ensures Inv(Send(s.(holder := holder), r))
  {
    assert s.requests == [] && s.replies == [] && s.requests + [r] == [r];
  }

  lemma ReadAnalyzeKeepsInv(s: System, body: Body)
    requires Inv(s) && s.worker.Running? && s.worker.work.None? && s.requests != [] && s.requests[0].Analyze?
    ensures Inv(ReadRequest(s, body))
  {
    var t := ReadRequest(s, body);
    var request := s.requests[0];
    assert request in s.requests && s.requests == [request] && s.replies == [] && s.requests[1..] == [];
    if MayAnswerAnalyze(s.worker.pending, body) {
      assert t.replies == [Reply(request, body)] && t.requests == [];
      assert !MayPost(t);
    }
  }

  lemma ReadCommitKeepsInv(s: System, body: Body)
    requires Inv(s) && s.worker.Running? && s.worker.work.None? && s.requests != [] && s.requests[0].Commit?
    ensures Inv(ReadRequest(s, body))
  {
    var t := ReadRequest(s, body);
    var request := s.requests[0];
    assert request in s.requests && s.requests == [request] && s.replies == [] && s.requests[1..] == [];
    assert MayPost(s);
    assert t.replies == [] || t.replies == [Reply(request, Failure(InvalidRequest, false))];
  }

  lemma ReadOtherKeepsInv(s: System, body: Body)
    requires Inv(s) && s.worker.Running? && s.worker.work.None? && s.requests != []
    requires s.requests[0].Shutdown? || s.requests[0].Query?
    ensures Inv(ReadRequest(s, body))
  {
    var t := ReadRequest(s, body);
    var request := s.requests[0];
    assert request in s.requests && s.requests == [request] && s.replies == [] && s.requests[1..] == [];
    assert t != s ==> t.replies == [t.replies[0]] && t.replies[0].request == request && !MayPost(t);
  }

  lemma PostKeepsInv(s: System)
    requires Inv(s) && s.worker.Running? && s.worker.work.Some? && !s.worker.work.value.posted
    requires s.worker.work.value.op < |s.ops|
    ensures Inv(PostToProvider(s))
  {
    assert MayPost(s);
    assert s.requests == [] && s.replies == [];
  }

  lemma AnswerKeepsInv(s: System, body: Body)
    requires Inv(s) && s.worker.Running? && s.worker.work.Some?
    requires MayAnswerCommit(s.backend, s.worker.work.value.posted, body)
    ensures Inv(AnswerCommit(s, body))
  {
    assert s.requests == [] && s.replies == [];
    var t := AnswerCommit(s, body);
    assert t.replies == [t.replies[0]];
    assert !s.worker.work.value.posted ==> MayPost(s);
  }

  lemma ExitKeepsInv(s: System)
    requires Inv(s)
    ensures Inv(Next(s, WorkerExits))
  {
  }

  lemma NextKeepsInv(s: System, step: Step)
    requires Inv(s)
    ensures Inv(Next(s, step))
  {
    hide Inv, Poisoned, BeginCall, RunTask, ReadRequest, PostToProvider, AnswerCommit;
    hide ReceivePrepared, ReceiveResult, ReceiveAnswer;
    match step
    case Begin => if s.holder == Free && !s.poisoned { BeginKeepsInv(s); }
    case Receive(valid, usage) =>
      if s.replies != [] && s.holder == AwaitPrepared { ReceivePreparedKeepsInv(s, valid); }
      if s.replies != [] && s.holder == AwaitResult { ReceiveResultKeepsInv(s, valid, usage); }
      if s.replies != [] && s.holder.AwaitAnswer? { ReceiveAnswerKeepsInv(s, valid); }
    case RpcFails => RpcFailsKeepsInv(s);
    case ReserveReturns(ok, exitNoticed) => ReserveKeepsInv(s, ok, exitNoticed);
    case TaskRuns(op, raises) => if op in s.tasks && op < |s.ops| { TaskKeepsInv(s, op, raises); }
    case BeginShutdown =>
      if s.holder == Free && !s.poisoned { BeginOtherKeepsInv(s, AwaitStopped, Shutdown); }
    case BeginQuery(catalogue) =>
      if s.holder == Free && !s.poisoned { BeginOtherKeepsInv(s, AwaitAnswer(catalogue), Query); }
    case WorkerReads(body) =>
      if s.worker.Running? && s.worker.work.None? && s.requests != [] {
        match s.requests[0]
        case Analyze(_) => ReadAnalyzeKeepsInv(s, body);
        case Commit(_) => ReadCommitKeepsInv(s, body);
        case _ => ReadOtherKeepsInv(s, body);
      }
    case WorkerPosts =>
      if s.worker.Running? && s.worker.work.Some? && !s.worker.work.value.posted
         && s.worker.work.value.op < |s.ops| { PostKeepsInv(s); }
    case WorkerAnswers(body) =>
      if s.worker.Running? && s.worker.work.Some? && MayAnswerCommit(s.backend, s.worker.work.value.posted, body) {
        AnswerKeepsInv(s, body);
      }
    case WorkerExits => ExitKeepsInv(s);
    case Resume => if s.holder.Closing? { ClosingStepKeepsInv(s, step); }
    case CancelWhileClosing(_) => if s.holder.Closing? { ClosingStepKeepsInv(s, step); }
    case _ => LockStepKeepsInv(s, step);
  }

  lemma {:induction false} RunsKeepInv(backend: Backend, steps: seq<Step>)
    ensures Inv(Run(Start(backend), steps))
  {
    if steps == [] {
    } else {
      RunsKeepInv(backend, steps[..|steps| - 1]);
      NextKeepsInv(Run(Start(backend), steps[..|steps| - 1]), steps[|steps| - 1]);
    }
  }

  // ----- what every run promises ---------------------------------------------------

  /** The operation still holds the lock, or its closing task was detached and has not run yet. */
  predicate InProgress(s: System, k: int) {
    k in s.tasks || (k == Newest(s) && (s.holder == AwaitResult || s.holder.Closing?))
  }

  /**
   * Under every interleaving, each reservation is closed at most once, and exactly once as
   * soon as its operation is no longer in progress; it is freed only if no provider call was
   * made; and an operation makes at most one provider call, only after its spend is reserved.
   */
  lemma EachReservationClosedOnce(backend: Backend, steps: seq<Step>, k: nat)
    requires k < |Run(Start(backend), steps).ops|
    ensures var s := Run(Start(backend), steps); var r := s.ops[k];
            && |r.closures| <= 1
            && (r.reserved && !InProgress(s, k) ==> |r.closures| == 1)
            && (Freed in r.closures ==> r.calls == 0)
            && r.calls <= 1
            && (r.calls == 1 ==> r.reserved)
  {
    hide Next;
    RunsKeepInv(backend, steps);
    ClosedOnce(Run(Start(backend), steps), k);
  }

  lemma ClosedOnce(s: System, k: nat)
    requires Inv(s) && k < |s.ops|
    ensures RecordOk(s.ops[k]) && (s.ops[k].reserved && !InProgress(s, k) ==> |s.ops[k].closures| == 1)
  {
    if k < |s.ops| - 1 { assert Finished(s.ops[k]); }
  }

  /** Freed stays call-free: no continuation of the run ever reaches the provider for it. */
  lemma NeverCalledAfterFreed(backend: Backend, steps: seq<Step>, more: seq<Step>, k: nat)
    requires k < |Run(Start(backend), steps).ops| && Freed in Run(Start(backend), steps).ops[k].closures
    ensures k < |Run(Start(backend), steps + more).ops| && Run(Start(backend), steps + more).ops[k].calls == 0
  {
    RecordsOnlyGrow(backend, steps, more, k);
    EachReservationClosedOnce(backend, steps + more, k);
  }

  lemma NextKeepsClosures(s: System, step: Step, k: nat)
    requires k < |s.ops|
    ensures k < |Next(s, step).ops| && s.ops[k].closures <= Next(s, step).ops[k].closures
  {
  }

  lemma {:induction false} RecordsOnlyGrow(backend: Backend, steps: seq<Step>, more: seq<Step>, k: nat)
    requires k < |Run(Start(backend), steps).ops|
    ensures k < |Run(Start(backend), steps + more).ops|
    ensures Run(Start(backend), steps).ops[k].closures <= Run(Start(backend), steps + more).ops[k].closures
  {
    hide Next;
    if more == [] {
      assert steps + more == steps;
    } else {
      var before := more[..|more| - 1];
      RecordsOnlyGrow(backend, steps, before, k);
      var all := steps + more;
      assert all[..|all| - 1] == steps + before && all[|all| - 1] == more[|more| - 1];
      NextKeepsClosures(Run(Start(backend), steps + before), more[|more| - 1], k);
    }
  }

  /**
   * Whenever the lock is free and the worker not poisoned, every request was read, every
   * reply consumed, the worker holds no image, and every reservation is closed.
   */
  lemma QuietWheneverFree(backend: Backend, steps: seq<Step>)
    requires Run(Start(backend), steps).holder == Free && !Run(Start(backend), steps).poisoned
    ensures var s := Run(Start(backend), steps);
            && s.requests == [] && s.replies == [] && s.tasks == map[]
            && (s.worker.Running? ==> s.worker == Running(None, None))
            && forall k :: 0 <= k < |s.ops| ==> Finished(s.ops[k])
  {
    hide Next;
    RunsKeepInv(backend, steps);
  }

  /** The correlation and response-type checks never fail against this worker. */
  lemma RepliesAlwaysCorrelate(backend: Backend, steps: seq<Step>)
    requires var s := Run(Start(backend), steps);
             s.replies != [] && (s.holder == AwaitPrepared || s.holder == AwaitResult || s.holder.AwaitAnswer?)
    ensures var s := Run(Start(backend), steps);
            if s.holder.AwaitAnswer? then s.replies[0].request == Query
            else && s.ops != []
                 && s.replies[0].request == if s.holder == AwaitPrepared then Analyze(Newest(s)) else Commit(Newest(s))
  {
    hide Next;
    RunsKeepInv(backend, steps);
    var s := Run(Start(backend), steps);
    assert s.replies[0] in s.replies;
  }
}
