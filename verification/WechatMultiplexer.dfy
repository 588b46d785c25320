// Several conversations read in one cycle: a single snapshot answers for all of them, each
// target keeps its own anchors, and one target's trouble must not touch another's messages.
module WechatMultiplexer {
  import opened WechatHistory
  import P = WechatPolling

  type Ref = nat

  datatype Reason =
    | AnchorLost | TableError | RowRefused | PageInvalid | SnapshotUnavailable | FatalIdentity | AllTargetsPaused

  /** How a row is taken: a fatal refusal concerns the account, any other one only its target. */
  datatype Verdict = Skip | Emit(event: string) | Refuse(fatal: bool)

  type Classifier = (Ref, Row) -> Verdict

  datatype Child = Child(anchors: Option<set<int>>, pause: Option<Reason>)

  type Children = map<Ref, Child>

  /** What the snapshot service says about one target; the rows may fail the checks of a page. */
  datatype Reply = Served(history: seq<Row>) | NoTable | Unfit | Garbled

  // ----- taking the rows of one target ------------------------------------------

  /** How far the rows, oldest first, were taken, what they gave, and what stopped them. */
  datatype Taken = Taken(events: seq<string>, count: nat, refusal: Option<bool>)

  function EventOf(v: Verdict): seq<string> {
    if v.Emit? then [v.event] else []
  }

  function TakeRows(classify: Classifier, ref: Ref, rows: seq<Row>): (t: Taken)
    ensures t.count <= |rows| && (t.refusal.None? <==> t.count == |rows|)
  {
    if rows == [] then Taken([], 0, None)
    else
      var n := |rows| - 1;
      var before := TakeRows(classify, ref, rows[..n]);
      if before.refusal.Some? then before
      else
        var v := classify(ref, rows[n]);
        if v.Refuse? then Taken(before.events, n, Some(v.fatal))
        else Taken(before.events + EventOf(v), n + 1, None)
  }

  /** The events of rows none of which is refused. */
  function Events(classify: Classifier, ref: Ref, rows: seq<Row>): seq<string> {
    if rows == [] then []
    else Events(classify, ref, rows[..|rows| - 1]) + EventOf(classify(ref, rows[|rows| - 1]))
  }

  /** The positions `at` are, in order, those of exactly the rows that give an event, each with its event. */
  ghost predicate EventsAt(classify: Classifier, ref: Ref, rows: seq<Row>, at: seq<nat>, events: seq<string>) {
    && |at| == |events|
    && (forall i :: 0 <= i < |at| ==> at[i] < |rows| && classify(ref, rows[at[i]]) == Emit(events[i]))
    && (forall i, j :: 0 <= i < j < |at| ==> at[i] < at[j])
    && (forall k :: 0 <= k < |rows| && classify(ref, rows[k]).Emit? ==> k in at)
  }

  ghost predicate Gives(classify: Classifier, ref: Ref, rows: seq<Row>, events: seq<string>) {
    exists at: seq<nat> :: EventsAt(classify, ref, rows, at, events)
  }

  lemma {:induction false} EventsGive(classify: Classifier, ref: Ref, rows: seq<Row>)
    ensures Gives(classify, ref, rows, Events(classify, ref, rows))
  {
    if rows == [] {
      assert EventsAt(classify, ref, rows, [], []);
    } else {
      var before, last := rows[..|rows| - 1], rows[|rows| - 1];
      EventsGive(classify, ref, before);
      var at: seq<nat> :| EventsAt(classify, ref, before, at, Events(classify, ref, before));
      OneMoreRow(classify, ref, before, at, Events(classify, ref, before), last);
      assert rows == before + [last];
    }
  }

  lemma OneMoreRow(classify: Classifier, ref: Ref, rows: seq<Row>, at: seq<nat>, events: seq<string>, last: Row)
    requires EventsAt(classify, ref, rows, at, events)
    ensures Gives(classify, ref, rows + [last], events + EventOf(classify(ref, last)))
  {
    var more := at + [|rows|];
    if classify(ref, last).Emit? {
      assert more[|at|] == |rows|;
      forall k | 0 <= k < |rows| && classify(ref, rows[k]).Emit? ensures k in more {
        var i :| 0 <= i < |at| && at[i] == k;
        assert more[i] == k;
      }
      assert EventsAt(classify, ref, rows + [last], more, events + [classify(ref, last).event]);
    } else {
      assert events + [] == events;
      assert EventsAt(classify, ref, rows + [last], at, events);
    }
  }

  /** Row k is the first that is refused, the rows given oldest first. */
  ghost predicate FirstRefused(classify: Classifier, ref: Ref, rows: seq<Row>, k: nat, fatal: bool) {
    && k < |rows| && classify(ref, rows[k]) == Refuse(fatal)
    && forall i :: 0 <= i < k ==> !classify(ref, rows[i]).Refuse?
  }

  lemma {:induction false} StopsAtRefused(classify: Classifier, ref: Ref, rows: seq<Row>)
    ensures var t := TakeRows(classify, ref, rows);
            && (t.refusal.Some? ==> FirstRefused(classify, ref, rows, t.count, t.refusal.value))
            && (t.refusal.None? ==> forall i :: 0 <= i < |rows| ==> !classify(ref, rows[i]).Refuse?)
  {
    if rows != [] {
      StopsAtRefused(classify, ref, rows[..|rows| - 1]);
    }
  }

  /** The rows are taken up to the first that is refused. */
  lemma TakesUpToRefused(classify: Classifier, ref: Ref, rows: seq<Row>)
    ensures var t := TakeRows(classify, ref, rows);
            && Gives(classify, ref, rows[..t.count], t.events)
            && (t.refusal.Some? ==> FirstRefused(classify, ref, rows, t.count, t.refusal.value))
            && (t.refusal.None? ==> forall i :: 0 <= i < |rows| ==> !classify(ref, rows[i]).Refuse?)
  {
    hide Gives, TakeRows, Events, FirstRefused;
    TakenIsPrefix(classify, ref, rows);
    EventsGive(classify, ref, rows[..TakeRows(classify, ref, rows).count]);
    StopsAtRefused(classify, ref, rows);
  }

  lemma {:induction false} TakenIsPrefix(classify: Classifier, ref: Ref, rows: seq<Row>)
    ensures var t := TakeRows(classify, ref, rows);
            t.events == Events(classify, ref, rows[..t.count])
  {
    if rows != [] {
      var n := |rows| - 1;
      TakenIsPrefix(classify, ref, rows[..n]);
      var t := TakeRows(classify, ref, rows);
      if t.count <= n { assert rows[..n][..t.count] == rows[..t.count]; }
      else { assert rows[..t.count] == rows && rows[..n][..n] == rows[..n]; }
    }
  }

  lemma {:induction false} EventsAppend(classify: Classifier, ref: Ref, a: seq<Row>, b: seq<Row>)
    ensures Events(classify, ref, a + b) == Events(classify, ref, a) + Events(classify, ref, b)
  {
    if b == [] {
      assert a + b == a;
    } else {
      var n := |b| - 1;
      EventsAppend(classify, ref, a, b[..n]);
      assert (a + b)[..|a + b| - 1] == a + b[..n] && (a + b)[|a + b| - 1] == b[n];
      var front, back, last := Events(classify, ref, a), Events(classify, ref, b[..n]), EventOf(classify(ref, b[n]));
      hide *;
      assert (front + back) + last == front + (back + last);
    }
  }

  // ----- one cycle ------------------------------------------------------------------

  /** Anchors are committed together at the end, so an abort commits none. */
  datatype Cycle = Cycle(
    children: Children, events: map<Ref, seq<string>>, staged: map<Ref, set<int>>, abort: Option<Reason>)

  function Known(c: Child): set<int> {
    if c.anchors.Some? then c.anchors.value else {}
  }

  function Pause(cycle: Cycle, ref: Ref, reason: Reason): Cycle
    requires ref in cycle.children
  {
    cycle.(children := cycle.children[ref := cycle.children[ref].(pause := Some(reason))])
  }

  /** One target's part: its rows are all taken and its anchors staged, or it is paused. */
  function TakeTarget(classify: Classifier, cycle: Cycle, ref: Ref, history: seq<Row>): Cycle
    requires ref in cycle.children
  {
    match OneShot(history, Known(cycle.children[ref]))
    case None => Pause(cycle, ref, AnchorLost)
    case Some(rows) =>
      var t := TakeRows(classify, ref, P.Reversed(rows));
      if t.refusal == Some(true) then cycle.(abort := Some(FatalIdentity))
      else
        var more := cycle.(events := cycle.events[ref := t.events]);
        if t.refusal.Some? then Pause(more, ref, RowRefused)
        else more.(staged := cycle.staged[ref := Ids(Newest(history))])
  }

  function CycleStep(classify: Classifier, cycle: Cycle, ref: Ref, reply: Reply): Cycle
    requires ref in cycle.children
  {
    if cycle.abort.Some? then cycle
    else
      match reply
      case Garbled => cycle.(abort := Some(SnapshotUnavailable))
      case Unfit => cycle.(abort := Some(PageInvalid))
      case NoTable => Pause(cycle, ref, TableError)
      case Served(history) => TakeTarget(classify, cycle, ref, history)
  }

  predicate Answered(children: Children, refs: seq<Ref>, replies: map<Ref, Reply>) {
    forall i :: 0 <= i < |refs| ==> refs[i] in children && refs[i] in replies
  }

  function CycleOver(classify: Classifier, children: Children, refs: seq<Ref>, replies: map<Ref, Reply>): (c: Cycle)
    requires Answered(children, refs, replies)
    ensures c.children.Keys == children.Keys && c.staged.Keys <= children.Keys
  {
    if refs == [] then Cycle(children, map[], map[], None)
    else
      var n := |refs| - 1;
      CycleStep(classify, CycleOver(classify, children, refs[..n], replies), refs[n], replies[refs[n]])
  }

  function Commit(children: Children, staged: map<Ref, set<int>>): Children {
    map ref | ref in children ::
      if ref in staged then children[ref].(anchors := Some(staged[ref])) else children[ref]
  }

  predicate AllPaused(children: Children) {
    forall ref | ref in children :: children[ref].pause.Some?
  }

  /** The state after a poll, what it raised, and the events it returned for each target. */
  datatype Polled = Polled(
    children: Children, paused: Option<Reason>, raised: Option<Reason>, events: map<Ref, seq<string>>)

  /** A page that fails its checks ends the cycle but pauses only the child's own connector. */
  function PausedBy(raised: Option<Reason>): Option<Reason> {
    if raised == Some(PageInvalid) then None else raised
  }

  function PollOnce(classify: Classifier, children: Children, refs: seq<Ref>, replies: map<Ref, Reply>): Polled
    requires Answered(children, refs, replies)
  {
    var c := CycleOver(classify, children, refs, replies);
    if c.abort.Some? then Polled(c.children, PausedBy(c.abort), c.abort, map[])
    else
      var committed := Commit(c.children, c.staged);
      if AllPaused(committed) then Polled(committed, Some(AllTargetsPaused), Some(AllTargetsPaused), map[])
      else Polled(committed, None, None, c.events)
  }

  // ----- the multiplexer ---------------------------------------------------------------

  predicate DistinctRefs(refs: seq<Ref>) {
    forall i, j :: 0 <= i < j < |refs| ==> refs[i] != refs[j]
  }

  /** The targets that are not paused, in the order given. */
  function Healthy(children: Children, order: seq<Ref>): seq<Ref> {
    if order == [] then []
    else
      var n := |order| - 1;
      Healthy(children, order[..n])
      + if order[n] in children && children[order[n]].pause.None? then [order[n]] else []
  }

  method PickHealthy(children: Children, order: seq<Ref>) returns (due: seq<Ref>)
    ensures due == Healthy(children, order)
  {
    due := [];
    for i := 0 to |order|
      invariant due == Healthy(children, order[..i])
    {
      assert order[..i + 1][..i] == order[..i];
      if order[i] in children && children[order[i]].pause.None? { due := due + [order[i]]; }
    }
    assert order[..|order|] == order;
  }

  lemma {:induction false} HealthyIsSome(children: Children, order: seq<Ref>)
    ensures var h := Healthy(children, order);
            && (forall ref :: ref in h <==> ref in order && ref in children && children[ref].pause.None?)
            && (DistinctRefs(order) ==> DistinctRefs(h))
  {
    if order != [] {
      var n := |order| - 1;
      HealthyIsSome(children, order[..n]);
      assert order == order[..n] + [order[n]];
    }
  }

  /** The places of the part in the order, each behind the last. */
  ghost predicate Places(part: seq<Ref>, order: seq<Ref>, at: seq<nat>) {
    && |at| == |part|
    && (forall i :: 0 <= i < |at| ==> at[i] < |order| && part[i] == order[at[i]])
    && (forall i, j :: 0 <= i < j < |at| ==> at[i] < at[j])
  }

  lemma {:induction false} HealthyInOrder(children: Children, order: seq<Ref>) returns (at: seq<nat>)
    ensures Places(Healthy(children, order), order, at)
  {
    at := [];
    if order != [] {
      var n := |order| - 1;
      at := HealthyInOrder(children, order[..n]);
      assert order == order[..n] + [order[n]];
      if order[n] in children && children[order[n]].pause.None? { at := at + [n]; }
    }
  }

  lemma RotatedIsSame(refs: seq<Ref>, start: nat)
    requires start <= |refs|
    ensures forall ref :: ref in refs[start..] + refs[..start] <==> ref in refs
    ensures DistinctRefs(refs) ==> DistinctRefs(refs[start..] + refs[..start])
  {
    assert refs == refs[..start] + refs[start..];
    var order := refs[start..] + refs[..start];
    var n := |refs| - start;
    forall i | 0 <= i < |order| ensures order[i] == refs[if i < n then i + start else i - n] {}
  }

  class ConversationMultiplexer {
    const classify: Classifier
    const refs: seq<Ref>
    var children: Children
    var paused: Option<Reason>
    var rotation: nat

    constructor (classify: Classifier, refs: seq<Ref>)
      requires refs != []
      ensures this.classify == classify && this.refs == refs && paused == None && rotation == 0
      ensures children == map ref | ref in refs :: Child(None, None)
    {
      this.classify, this.refs := classify, refs;
      children, paused, rotation := map ref | ref in refs :: Child(None, None), None, 0;
    }

    predicate Ready()
      reads this
    {
      refs != [] && rotation < |refs| && forall i :: 0 <= i < |refs| ==> refs[i] in children
    }

    /** The targets of this cycle: those not paused, each once, in order from the rotating start. */
    method DueTargets() returns (due: seq<Ref>)
      requires Ready()
      modifies this`rotation
      ensures Ready() && rotation == (old(rotation) + 1) % |refs|
      ensures due == Healthy(children, refs[old(rotation)..] + refs[..old(rotation)])
      ensures forall ref :: ref in due <==> ref in refs && children[ref].pause.None?
      ensures forall i :: 0 <= i < |due| ==> due[i] in children
      ensures DistinctRefs(refs) ==> DistinctRefs(due)
      ensures exists at: seq<nat> :: Places(due, refs[old(rotation)..] + refs[..old(rotation)], at)
    {
      hide Healthy, DistinctRefs, Places;
      var order := refs[rotation..] + refs[..rotation];
      RotatedIsSame(refs, rotation);
      HealthyIsSome(children, order);
      due := PickHealthy(children, order);
      ghost var at := HealthyInOrder(children, order);
      rotation := (rotation + 1) % |refs|;
    }

    method RunCycle(due: seq<Ref>, replies: map<Ref, Reply>) returns (c: Cycle)
      requires Answered(children, due, replies)
      ensures c == CycleOver(classify, children, due, replies)
    {
      c := Cycle(children, map[], map[], None);
      for i := 0 to |due|
        invariant c == CycleOver(classify, children, due[..i], replies)
      {
        assert due[..i + 1][..i] == due[..i];
        c := CycleStep(classify, c, due[i], replies[due[i]]);
      }
      assert due[..|due|] == due;
    }

    /** One poll over the due targets; a paused multiplexer returns nothing and changes nothing. */
    method Poll(due: seq<Ref>, replies: map<Ref, Reply>)
      returns (events: map<Ref, seq<string>>, raised: Option<Reason>)
      requires Answered(children, due, replies)
      modifies this
      ensures old(paused).Some? ==>
                events == map[] && raised == old(paused) == paused && children == old(children)
      ensures old(paused).None? ==>
                Polled(children, paused, raised, events) == PollOnce(classify, old(children), due, replies)
      ensures rotation == old(rotation)
    {
      if paused.Some? { return map[], paused; }
      var c := RunCycle(due, replies);
      children := c.children;
      if c.abort.Some? {
        paused := PausedBy(c.abort);
        return map[], c.abort;
      }
      children := Commit(children, c.staged);
      if AllPaused(children) {
        paused := Some(AllTargetsPaused);
        return map[], paused;
      }
      return c.events, None;
    }
  }

  // ----- targets do not disturb each other -------------------------------------------------

  lemma StepLeavesOthers(classify: Classifier, cycle: Cycle, ref: Ref, reply: Reply, other: Ref)
    requires ref in cycle.children && other in cycle.children && other != ref
    ensures var c := CycleStep(classify, cycle, ref, reply);
            && other in c.children && c.children[other] == cycle.children[other]
            && (other in c.events <==> other in cycle.events)
            && (other in c.events ==> c.events[other] == cycle.events[other])
            && (other in c.staged <==> other in cycle.staged)
            && (other in c.staged ==> c.staged[other] == cycle.staged[other])
            && (c.abort.None? ==> cycle.abort.None?)
  {
    hide OneShot, TakeRows;
  }

  lemma {:induction false} CycleLeavesOthers(
    classify: Classifier, children: Children, refs: seq<Ref>, replies: map<Ref, Reply>, ref: Ref)
    requires Answered(children, refs, replies) && ref !in refs && ref in children
    ensures var c := CycleOver(classify, children, refs, replies);
            c.children[ref] == children[ref] && ref !in c.events && ref !in c.staged
  {
    hide CycleStep;
    if refs != [] {
      var n := |refs| - 1;
      CycleLeavesOthers(classify, children, refs[..n], replies, ref);
      StepLeavesOthers(classify, CycleOver(classify, children, refs[..n], replies), refs[n], replies[refs[n]], ref);
    }
  }

  /** What a lone target would get from its reply. */
  function Alone(classify: Classifier, child: Child, ref: Ref, reply: Reply): Cycle {
    CycleStep(classify, Cycle(map[ref := child], map[], map[], None), ref, reply)
  }

  ghost predicate SameShare(c: Cycle, lone: Cycle, ref: Ref) {
    && lone.abort.None? && ref in c.children && ref in lone.children && c.children[ref] == lone.children[ref]
    && (ref in c.events <==> ref in lone.events) && (ref in c.events ==> c.events[ref] == lone.events[ref])
    && (ref in c.staged <==> ref in lone.staged) && (ref in c.staged ==> c.staged[ref] == lone.staged[ref])
  }

  lemma StepIsAlone(classify: Classifier, cycle: Cycle, ref: Ref, reply: Reply)
    requires ref in cycle.children && ref !in cycle.events && ref !in cycle.staged
    requires CycleStep(classify, cycle, ref, reply).abort.None?
    ensures SameShare(CycleStep(classify, cycle, ref, reply), Alone(classify, cycle.children[ref], ref, reply), ref)
  {
    hide OneShot, TakeRows;
  }

  /**
   * Isolation: in a cycle that is not aborted each target fares exactly as it would alone, so
   * neither its events nor its anchors nor its pause depend on any other target.
   */
  lemma {:induction false} TargetsAreIsolated(
    classify: Classifier, children: Children, refs: seq<Ref>, replies: map<Ref, Reply>, k: nat)
    requires Answered(children, refs, replies) && k < |refs|
    requires forall i, j :: 0 <= i < j < |refs| ==> refs[i] != refs[j]
    requires CycleOver(classify, children, refs, replies).abort.None?
    ensures SameShare(CycleOver(classify, children, refs, replies),
                      Alone(classify, children[refs[k]], refs[k], replies[refs[k]]), refs[k])
  {
    hide CycleStep, Alone;
    var n := |refs| - 1;
    var before := CycleOver(classify, children, refs[..n], replies);
    if k < n {
      StepLeavesOthers(classify, before, refs[n], replies[refs[n]], refs[k]);
      TargetsAreIsolated(classify, children, refs[..n], replies, k);
    } else {
      CycleLeavesOthers(classify, children, refs[..n], replies, refs[n]);
      StepIsAlone(classify, before, refs[n], replies[refs[n]]);
    }
  }

  // ----- the one-shot slice against arrivals -------------------------------------------------

  predicate InReach(arrived: seq<Row>, known: seq<Row>) {
    |arrived| < if known == [] then PAGE_SIZE else WINDOW
  }

  /** From the newest page of an earlier history the slice selects exactly the arrivals since. */
  lemma OneShotSelectsArrivals(arrived: seq<Row>, known: seq<Row>)
    requires DistinctIds(arrived + known)
    ensures OneShot(arrived + known, Ids(Newest(known)))
            == if InReach(arrived, known) then Some(arrived) else None
  {
    var history, anchors := arrived + known, Ids(Newest(known));
    if known == [] {
      assert history == arrived && anchors == {};
      EmptyAnchorsSlice(history);
    } else {
      var end := |arrived| + |Newest(known)|;
      assert Newest(known)[0] in Newest(known) && Newest(known)[0].localId in anchors;
      forall i | 0 <= i < |history| ensures history[i].localId in anchors <==> |arrived| <= i < end {
        if |arrived| <= i < end { assert history[i] == Newest(known)[i - |arrived|]; }
        if history[i].localId in anchors {
          var r :| r in Newest(known) && r.localId == history[i].localId;
          var j :| 0 <= j < |Newest(known)| && Newest(known)[j] == r;
          assert history[|arrived| + j] == r;
        }
      }
      ContiguousAnchorsAgree(history, anchors, |arrived|, end);
      assert history[..|arrived|] == arrived;
    }
  }

  lemma EmptyAnchorsSlice(history: seq<Row>)
    ensures OneShot(history, {}) == if |history| < PAGE_SIZE then Some(history) else None
  {
    var rows := Slice(history, 0, WINDOW);
    OverlapEndUnique(rows, {}, 0);
    NotInAll(rows, {});
  }

  // ----- runs --------------------------------------------------------------------------------

  /** Since a target's baseline: the history then, and the rows taken, oldest first. */
  datatype Track = Track(base: seq<Row>, taken: seq<Row>)

  datatype System = System(
    children: Children, paused: Option<Reason>, histories: map<Ref, seq<Row>>,
    tracks: map<Ref, Track>, logs: map<Ref, seq<string>>)

  datatype Step =
    | Arrive(ref: Ref, rows: seq<Row>)
    | Poll(refs: seq<Ref>, faults: map<Ref, Reply>)
    | Baseline(ref: Ref)

  function RepliesFor(s: System, refs: seq<Ref>, faults: map<Ref, Reply>): map<Ref, Reply>
    requires forall i :: 0 <= i < |refs| ==> refs[i] in s.histories
  {
    map ref | ref in refs ::
      if ref in faults && !faults[ref].Served? then faults[ref] else Served(s.histories[ref])
  }

  predicate Tracked(s: System, ref: Ref) {
    ref in s.children && ref in s.histories && ref in s.tracks
  }

  predicate Pollable(s: System, refs: seq<Ref>) {
    && s.paused.None?
    && (forall i :: 0 <= i < |refs| ==> Tracked(s, refs[i]) && s.children[refs[i]].pause.None?)
    && forall i, j :: 0 <= i < j < |refs| ==> refs[i] != refs[j]
  }

  /** A target's track after a reading whose events were, or were not, returned. */
  function TrackAfter(classify: Classifier, ref: Ref, child: Child, t: Track, history: seq<Row>, read: bool): Track {
    var rows := OneShot(history, Known(child));
    if !read || rows.None? then t
    else
      var oldest := P.Reversed(rows.value);
      Track(t.base, t.taken + oldest[..TakeRows(classify, ref, oldest).count])
  }

  function LogAfter(log: seq<string>, returned: map<Ref, seq<string>>, ref: Ref): seq<string> {
    log + if ref in returned then returned[ref] else []
  }

  function Next(classify: Classifier, s: System, step: Step): System {
    match step
    case Arrive(ref, rows) =>
      if ref in s.histories && DistinctIds(rows + s.histories[ref])
      then s.(histories := s.histories[ref := rows + s.histories[ref]]) else s
    case Baseline(ref) =>
      if ref in s.children && ref in s.histories then
        s.(children := s.children[ref := Child(Some(Ids(Newest(s.histories[ref]))), None)], paused := None,
           tracks := s.tracks[ref := Track(s.histories[ref], [])], logs := s.logs[ref := []])
      else s
    case Poll(refs, faults) =>
      if !Pollable(s, refs) then s
      else
        var p := PollOnce(classify, s.children, refs, RepliesFor(s, refs, faults));
        System(p.children, p.paused, s.histories,
               map ref | ref in s.tracks ::
                 if Tracked(s, ref)
                 then TrackAfter(classify, ref, s.children[ref], s.tracks[ref], s.histories[ref], ref in p.events)
                 else s.tracks[ref],
               map ref | ref in s.logs :: LogAfter(s.logs[ref], p.events, ref))
  }

  function Run(classify: Classifier, s: System, steps: seq<Step>): System {
    if steps == [] then s else Next(classify, Run(classify, s, steps[..|steps| - 1]), steps[|steps| - 1])
  }

  /** The state the constructor leaves: every target known and unpaused, nothing read yet. */
  ghost predicate Fresh(s: System) {
    && s.tracks == map[] && s.logs == map[] && s.paused == None
    && s.children.Keys == s.histories.Keys
    && (forall ref :: ref in s.children ==> s.children[ref] == Child(None, None))
    && (forall ref :: ref in s.histories ==> DistinctIds(s.histories[ref]))
  }

  function SeenHistory(t: Track): seq<Row> { P.Reversed(t.taken) + t.base }

  /** The log of a target is the events of exactly the rows taken, the oldest arrivals in order. */
  ghost predicate TrackOk(classify: Classifier, s: System, ref: Ref)
    requires ref in s.tracks
  {
    && ref in s.children && ref in s.histories && ref in s.logs
    && Fits(classify, ref, s.children[ref], s.tracks[ref], s.logs[ref], s.histories[ref])
  }

  ghost predicate Fits(classify: Classifier, ref: Ref, child: Child, track: Track, log: seq<string>,
                       history: seq<Row>)
  {
    && GrowsTo(SeenHistory(track), history)
    && log == Events(classify, ref, track.taken)
    && (child.pause.None? ==> Known(child) == Ids(Newest(SeenHistory(track))))
  }

  ghost predicate Inv(classify: Classifier, s: System) {
    && s.children.Keys == s.histories.Keys && s.tracks.Keys == s.logs.Keys
    && (forall ref :: ref in s.histories ==> DistinctIds(s.histories[ref]))
    && (forall ref :: ref in s.tracks ==> TrackOk(classify, s, ref))
  }

  lemma ArriveKeepsInv(classify: Classifier, s: System, ref: Ref, rows: seq<Row>)
    requires Inv(classify, s)
    ensures Inv(classify, Next(classify, s, Arrive(ref, rows)))
  {
    hide Events, Newest, Ids, DistinctIds, SeenHistory;
    var t := Next(classify, s, Arrive(ref, rows));
    forall x | x in t.tracks ensures TrackOk(classify, t, x) {
      assert TrackOk(classify, s, x);
      if x == ref { GrowsByFront(SeenHistory(s.tracks[x]), s.histories[x], t.histories[x]); }
    }
  }

  lemma GrowsByFront(seen: seq<Row>, before: seq<Row>, after: seq<Row>)
    requires GrowsTo(seen, before) && (after == before || exists rows :: after == rows + before)
    ensures GrowsTo(seen, after)
  {
    if after != before {
      var rows :| after == rows + before;
      assert after[|after| - |before|..] == before;
      GrowsTransitive(seen, before, after);
    }
  }

  lemma BaselineFits(classify: Classifier, ref: Ref, history: seq<Row>)
    ensures Fits(classify, ref, Child(Some(Ids(Newest(history))), None), Track(history, []), [], history)
  {
    assert SeenHistory(Track(history, [])) == history;
  }

  lemma BaselineKeepsInv(classify: Classifier, s: System, ref: Ref)
    requires Inv(classify, s)
    ensures Inv(classify, Next(classify, s, Baseline(ref)))
  {
    hide Newest, Ids, DistinctIds, Fits;
    var t := Next(classify, s, Baseline(ref));
    if ref in s.children { BaselineFits(classify, ref, s.histories[ref]); }
    forall x | x in t.tracks ensures TrackOk(classify, t, x) {
      assert x in s.tracks ==> TrackOk(classify, s, x);
    }
  }

  /** What a served target's reading does to its track: all arrivals, or a prefix of them and a pause. */
  lemma ReadingExtends(classify: Classifier, ref: Ref, base: seq<Row>, taken: seq<Row>, history: seq<Row>, n: nat)
    requires DistinctIds(history) && GrowsTo(P.Reversed(taken) + base, history)
    requires var arrived := history[..|history| - |P.Reversed(taken) + base|]; n <= |P.Reversed(arrived)|
    ensures var arrived := history[..|history| - |P.Reversed(taken) + base|];
            var more := taken + P.Reversed(arrived)[..n];
            && GrowsTo(P.Reversed(more) + base, history)
            && (n == |P.Reversed(arrived)| ==> P.Reversed(more) + base == history)
  {
    var seen := P.Reversed(taken) + base;
    var arrived := history[..|history| - |seen|];
    var oldest := P.Reversed(arrived);
    var front, back := oldest[n..], oldest[..n];
    assert oldest == back + front;
    P.ReversedConcat(back, front);
    P.ReversedTwice(arrived);
    P.ReversedConcat(taken, back);
    assert arrived == P.Reversed(front) + P.Reversed(back);
    var now := P.Reversed(taken + back) + base;
    assert now == P.Reversed(back) + seen;
    assert history == arrived + seen;
    assert history == P.Reversed(front) + now;
    assert history[|history| - |now|..] == now;
    if n == |oldest| { assert front == []; }
  }

  // ----- exactly once --------------------------------------------------------------------------

  function CommittedChild(c: Cycle, ref: Ref): Child
    requires ref in c.children
  {
    if ref in c.staged then c.children[ref].(anchors := Some(c.staged[ref])) else c.children[ref]
  }

  /** A lone target that is not read is paused and returns nothing. */
  lemma LoneUnread(classify: Classifier, ref: Ref, child: Child, reply: Reply)
    requires Alone(classify, child, ref, reply).abort.None?
    requires reply.Served? ==> OneShot(reply.history, Known(child)).None?
    ensures var lone := Alone(classify, child, ref, reply);
            ref in lone.children && ref !in lone.events && CommittedChild(lone, ref).pause.Some?
  {
    hide OneShot, TakeRows;
  }

  lemma LoneRead(classify: Classifier, ref: Ref, child: Child, history: seq<Row>, rows: seq<Row>)
    requires Alone(classify, child, ref, Served(history)).abort.None?
    requires OneShot(history, Known(child)) == Some(rows)
    ensures var lone := Alone(classify, child, ref, Served(history));
            var t := TakeRows(classify, ref, P.Reversed(rows));
            && ref in lone.children && ref in lone.events && lone.events[ref] == t.events
            && (if t.refusal.Some? then CommittedChild(lone, ref).pause.Some?
                else CommittedChild(lone, ref) == child.(anchors := Some(Ids(Newest(history)))))
  {
    hide OneShot, TakeRows, Ids, Newest;
  }

  lemma ReadingFits(classify: Classifier, ref: Ref, track: Track, log: seq<string>, history: seq<Row>,
                    arrived: seq<Row>, child: Child)
    requires DistinctIds(history) && GrowsTo(SeenHistory(track), history)
    requires log == Events(classify, ref, track.taken) && history == arrived + SeenHistory(track)
    requires var t := TakeRows(classify, ref, P.Reversed(arrived));
             child.pause.None? ==> t.refusal.None? && Known(child) == Ids(Newest(history))
    ensures var t := TakeRows(classify, ref, P.Reversed(arrived));
            Fits(classify, ref, child, Track(track.base, track.taken + P.Reversed(arrived)[..t.count]),
                 log + t.events, history)
  {
    hide Ids, Newest, DistinctIds, GrowsTo;
    var oldest := P.Reversed(arrived);
    var t := TakeRows(classify, ref, oldest);
    assert history[..|history| - |SeenHistory(track)|] == arrived;
    ReadingExtends(classify, ref, track.base, track.taken, history, t.count);
    TakenIsPrefix(classify, ref, oldest);
    EventsAppend(classify, ref, track.taken, oldest[..t.count]);
  }

  /** A lone target that is not aborted keeps its log in step with the rows it took. */
  lemma LoneKeepsFit(classify: Classifier, ref: Ref, child: Child, track: Track, log: seq<string>,
                     history: seq<Row>, reply: Reply)
    requires DistinctIds(history) && Fits(classify, ref, child, track, log, history) && child.pause.None?
    requires reply.Served? ==> reply.history == history
    requires Alone(classify, child, ref, reply).abort.None?
    ensures var lone := Alone(classify, child, ref, reply);
            && ref in lone.children
            && Fits(classify, ref, CommittedChild(lone, ref),
                    TrackAfter(classify, ref, child, track, history, ref in lone.events),
                    LogAfter(log, lone.events, ref), history)
  {
    hide Ids, Newest, DistinctIds, OneShot, TakeRows, Alone, Events, P.Reversed, InReach;
    var seen := SeenHistory(track);
    var arrived := history[..|history| - |seen|];
    assert history == arrived + seen;
    OneShotSelectsArrivals(arrived, seen);
    assert log + [] == log;
    if reply.Served? && OneShot(history, Known(child)).Some? {
      LoneRead(classify, ref, child, history, arrived);
      ReadingFits(classify, ref, track, log, history, arrived, CommittedChild(Alone(classify, child, ref, reply), ref));
    } else {
      LoneUnread(classify, ref, child, reply);
    }
  }

  /** A lone target that is read and stays unpaused has taken all that has arrived. */
  lemma LoneCatchesUp(classify: Classifier, ref: Ref, child: Child, track: Track, log: seq<string>,
                      history: seq<Row>, reply: Reply)
    requires DistinctIds(history) && Fits(classify, ref, child, track, log, history) && child.pause.None?
    requires reply.Served? ==> reply.history == history
    requires Alone(classify, child, ref, reply).abort.None?
    ensures var lone := Alone(classify, child, ref, reply);
            && ref in lone.children
            && (CommittedChild(lone, ref).pause.None? ==>
                  SeenHistory(TrackAfter(classify, ref, child, track, history, ref in lone.events)) == history)
  {
    hide Ids, Newest, DistinctIds, OneShot, TakeRows, Alone, Events, P.Reversed, InReach;
    var seen := SeenHistory(track);
    var arrived := history[..|history| - |seen|];
    assert history == arrived + seen;
    OneShotSelectsArrivals(arrived, seen);
    if reply.Served? && OneShot(history, Known(child)).Some? {
      LoneRead(classify, ref, child, history, arrived);
      ReadingExtends(classify, ref, track.base, track.taken, history,
                     TakeRows(classify, ref, P.Reversed(arrived)).count);
    } else {
      LoneUnread(classify, ref, child, reply);
    }
  }

  lemma {:induction false} CycleOnlyPauses(
    classify: Classifier, children: Children, refs: seq<Ref>, replies: map<Ref, Reply>, ref: Ref)
    requires Answered(children, refs, replies) && ref in children
    ensures var c := CycleOver(classify, children, refs, replies);
            c.children[ref] == children[ref] || c.children[ref].pause.Some?
  {
    if refs != [] {
      var n := |refs| - 1;
      CycleOnlyPauses(classify, children, refs[..n], replies, ref);
      StepOnlyPauses(classify, CycleOver(classify, children, refs[..n], replies), refs[n], replies[refs[n]], ref);
    }
  }

  lemma StepOnlyPauses(classify: Classifier, cycle: Cycle, ref: Ref, reply: Reply, other: Ref)
    requires ref in cycle.children && other in cycle.children
    ensures var c := CycleStep(classify, cycle, ref, reply);
            other in c.children && (c.children[other] == cycle.children[other] || c.children[other].pause.Some?)
  {
    hide OneShot, TakeRows;
  }

  /** A target that returns nothing and is at most paused keeps its log and its track. */
  lemma NothingReturned(classify: Classifier, ref: Ref, child: Child, later: Child, track: Track, log: seq<string>,
                        history: seq<Row>, returned: map<Ref, seq<string>>)
    requires Fits(classify, ref, child, track, log, history) && ref !in returned
    requires later == child || later.pause.Some?
    ensures Fits(classify, ref, later, TrackAfter(classify, ref, child, track, history, ref in returned),
                 LogAfter(log, returned, ref), history)
  {
    hide OneShot, TakeRows, Events, SeenHistory, GrowsTo, Ids, Newest;
    assert log + [] == log;
  }

  lemma CycledTargetFits(classify: Classifier, s: System, refs: seq<Ref>, faults: map<Ref, Reply>,
                         ref: Ref)
    requires Inv(classify, s) && Pollable(s, refs) && ref in s.tracks
    requires CycleOver(classify, s.children, refs, RepliesFor(s, refs, faults)).abort.None?
    ensures ref in s.children && ref in s.histories && ref in s.logs
    ensures var c := CycleOver(classify, s.children, refs, RepliesFor(s, refs, faults));
            Fits(classify, ref, CommittedChild(c, ref),
                 TrackAfter(classify, ref, s.children[ref], s.tracks[ref], s.histories[ref], ref in c.events),
                 LogAfter(s.logs[ref], c.events, ref), s.histories[ref])
  {
    hide Fits, TrackAfter, CycleOver, Alone, OneShot;
    assert TrackOk(classify, s, ref);
    var replies := RepliesFor(s, refs, faults);
    var c := CycleOver(classify, s.children, refs, replies);
    if ref in refs {
      var k :| 0 <= k < |refs| && refs[k] == ref;
      TargetsAreIsolated(classify, s.children, refs, replies, k);
      LoneKeepsFit(classify, ref, s.children[ref], s.tracks[ref], s.logs[ref], s.histories[ref], replies[ref]);
    } else {
      CycleLeavesOthers(classify, s.children, refs, replies, ref);
      NothingReturned(classify, ref, s.children[ref], CommittedChild(c, ref), s.tracks[ref], s.logs[ref],
                      s.histories[ref], c.events);
    }
  }

  lemma PolledTargetFits(classify: Classifier, s: System, refs: seq<Ref>, faults: map<Ref, Reply>,
                         ref: Ref)
    requires Inv(classify, s) && Pollable(s, refs) && ref in s.tracks
    ensures ref in s.children && ref in s.histories && ref in s.logs
    ensures var p := PollOnce(classify, s.children, refs, RepliesFor(s, refs, faults));
            && ref in p.children
            && Fits(classify, ref, p.children[ref],
                    TrackAfter(classify, ref, s.children[ref], s.tracks[ref], s.histories[ref], ref in p.events),
                    LogAfter(s.logs[ref], p.events, ref), s.histories[ref])
  {
    hide Fits, TrackAfter, CycleOver, OneShot, LogAfter;
    assert TrackOk(classify, s, ref);
    var replies := RepliesFor(s, refs, faults);
    var c := CycleOver(classify, s.children, refs, replies);
    CycleOnlyPauses(classify, s.children, refs, replies, ref);
    if c.abort.None? && !AllPaused(Commit(c.children, c.staged)) {
      CycledTargetFits(classify, s, refs, faults, ref);
    } else {
      var p := PollOnce(classify, s.children, refs, replies);
      NothingReturned(classify, ref, s.children[ref], p.children[ref], s.tracks[ref], s.logs[ref],
                      s.histories[ref], p.events);
    }
  }

  lemma PollKeepsInv(classify: Classifier, s: System, refs: seq<Ref>, faults: map<Ref, Reply>)
    requires Inv(classify, s)
    ensures Inv(classify, Next(classify, s, Poll(refs, faults)))
  {
    hide Fits, TrackAfter, PollOnce, CycleOver, OneShot, LogAfter, DistinctIds;
    if Pollable(s, refs) {
      var t := Next(classify, s, Poll(refs, faults));
      PollKeepsDomain(classify, s, refs, faults);
      forall ref | ref in t.tracks ensures TrackOk(classify, t, ref) {
        assert TrackOk(classify, s, ref);
        PolledTargetFits(classify, s, refs, faults, ref);
      }
    }
  }

  lemma PollKeepsDomain(classify: Classifier, s: System, refs: seq<Ref>, faults: map<Ref, Reply>)
    requires Pollable(s, refs)
    ensures PollOnce(classify, s.children, refs, RepliesFor(s, refs, faults)).children.Keys == s.children.Keys
  {
    hide CycleOver, OneShot;
  }

  lemma {:induction false} RunsKeepInv(classify: Classifier, s: System, steps: seq<Step>)
    requires Fresh(s)
    ensures Inv(classify, Run(classify, s, steps))
  {
    hide Next;
    if steps != [] {
      var before, last := Run(classify, s, steps[..|steps| - 1]), steps[|steps| - 1];
      RunsKeepInv(classify, s, steps[..|steps| - 1]);
      match last
      case Arrive(ref, rows) => ArriveKeepsInv(classify, before, ref, rows);
      case Poll(refs, faults) => PollKeepsInv(classify, before, refs, faults);
      case Baseline(ref) => BaselineKeepsInv(classify, before, ref);
    }
  }

  /**
   * Exactly once, for every target of every run of arrivals, polls, failures and resumes: what
   * was returned since the target's baseline is the events of its oldest arrivals since, in
   * order, none lost or repeated; and a target that is not paused knows exactly where it is.
   */
  lemma EachTargetExactlyOnce(classify: Classifier, s: System, steps: seq<Step>, ref: Ref)
    requires Fresh(s) && ref in Run(classify, s, steps).tracks
    ensures var t := Run(classify, s, steps);
            && ref in t.logs && ref in t.histories && ref in t.children
            && Gives(classify, ref, t.tracks[ref].taken, t.logs[ref])
            && GrowsTo(P.Reversed(t.tracks[ref].taken) + t.tracks[ref].base, t.histories[ref])
            && (t.children[ref].pause.None? ==>
                  Known(t.children[ref]) == Ids(Newest(P.Reversed(t.tracks[ref].taken) + t.tracks[ref].base)))
  {
    hide Gives, Run;
    RunsKeepInv(classify, s, steps);
    var t := Run(classify, s, steps);
    assert TrackOk(classify, t, ref);
    EventsGive(classify, ref, t.tracks[ref].taken);
  }

  /**
   * Progress: after a poll that raised nothing, every target it covered and left unpaused has
   * taken everything that arrived since its baseline.
   */
  lemma PolledTargetIsCaughtUp(
    classify: Classifier, s: System, steps: seq<Step>, refs: seq<Ref>, faults: map<Ref, Reply>, ref: Ref)
    requires Fresh(s) && Pollable(Run(classify, s, steps), refs) && ref in refs
    requires var t := Run(classify, s, steps);
             PollOnce(classify, t.children, refs, RepliesFor(t, refs, faults)).raised.None?
    ensures var t := Run(classify, s, steps + [Poll(refs, faults)]);
            && Tracked(t, ref)
            && (t.children[ref].pause.None? ==> SeenHistory(t.tracks[ref]) == t.histories[ref])
  {
    hide Fits, TrackAfter, CycleOver, Alone, OneShot, LogAfter, SeenHistory, Next;
    assert (steps + [Poll(refs, faults)])[..|steps|] == steps;
    RunsKeepInv(classify, s, steps);
    var t := Run(classify, s, steps);
    var replies := RepliesFor(t, refs, faults);
    var k :| 0 <= k < |refs| && refs[k] == ref;
    assert TrackOk(classify, t, ref) && Tracked(t, ref);
    TargetsAreIsolated(classify, t.children, refs, replies, k);
    LoneCatchesUp(classify, ref, t.children[ref], t.tracks[ref], t.logs[ref], t.histories[ref], replies[ref]);
    PollIsNext(classify, t, refs, faults, ref);
  }

  lemma PollIsNext(classify: Classifier, s: System, refs: seq<Ref>, faults: map<Ref, Reply>, ref: Ref)
    requires Pollable(s, refs) && Tracked(s, ref)
    requires PollOnce(classify, s.children, refs, RepliesFor(s, refs, faults)).raised.None?
    ensures var c := CycleOver(classify, s.children, refs, RepliesFor(s, refs, faults));
            var t := Next(classify, s, Poll(refs, faults));
            && Tracked(t, ref) && t.histories[ref] == s.histories[ref] && t.children[ref] == CommittedChild(c, ref)
            && t.tracks[ref] == TrackAfter(classify, ref, s.children[ref], s.tracks[ref], s.histories[ref],
                                           ref in c.events)
  {
    hide TrackAfter, CycleOver;
  }

  /** A healthy target loses its anchors exactly when too many rows arrived between two readings. */
  lemma AnchorLostIffOutOfReach(classify: Classifier, s: System, steps: seq<Step>, ref: Ref)
    requires Fresh(s) && ref in Run(classify, s, steps).tracks
    requires ref in Run(classify, s, steps).children && Run(classify, s, steps).children[ref].pause.None?
    ensures var t := Run(classify, s, steps);
            && ref in t.histories
            && var seen := SeenHistory(t.tracks[ref]); var history := t.histories[ref];
               && |seen| <= |history|
               && (OneShot(history, Known(t.children[ref])) == None
                   <==> |history| - |seen| >= if seen == [] then PAGE_SIZE else WINDOW)
  {
    RunsKeepInv(classify, s, steps);
    var t := Run(classify, s, steps);
    assert TrackOk(classify, t, ref);
    var history, seen := t.histories[ref], SeenHistory(t.tracks[ref]);
    var arrived := history[..|history| - |seen|];
    assert history == arrived + seen;
    OneShotSelectsArrivals(arrived, seen);
  }
}
