// What one cycle over several conversations does to each of them, told from the rows that
// arrived and from what the service answered.
module WechatCycles {
  import opened WechatHistory
  import P = WechatPolling
  import opened WechatMultiplexer

  /** A target is read, paused with its own reason, or ends the cycle for all. */
  datatype Fate = Read | Paused(reason: Reason) | Abort(reason: Reason)

  /** The rows that arrived since `seen`, oldest first. */
  ghost function ArrivedSince(seen: seq<Row>, history: seq<Row>): seq<Row>
    requires GrowsTo(seen, history)
  {
    P.OldestFirst(history[..|history| - |seen|])
  }

  ghost predicate Fits(seen: seq<Row>, reply: Reply) {
    reply.Served? ==> DistinctIds(reply.history) && GrowsTo(seen, reply.history)
  }

  /** A garbled or unfit answer and a fatal row end the cycle; any other trouble is the target's own. */
  ghost predicate Fares(classify: Classifier, ref: Ref, seen: seq<Row>, reply: Reply, fate: Fate)
    requires Fits(seen, reply)
  {
    match reply
    case Garbled => fate == Abort(SnapshotUnavailable)
    case Unfit => fate == Abort(PageInvalid)
    case NoTable => fate == Paused(TableError)
    case Served(history) =>
      var arrived := ArrivedSince(seen, history);
      if |arrived| >= (if seen == [] then 100 else 1000) then fate == Paused(AnchorLost)
      else if exists k :: FirstRefused(classify, ref, arrived, k, true) then fate == Abort(FatalIdentity)
      else if exists k :: FirstRefused(classify, ref, arrived, k, false) then fate == Paused(RowRefused)
      else fate == Read
  }

  lemma OneFirstRefused(classify: Classifier, ref: Ref, rows: seq<Row>, i: nat, a: bool, j: nat, b: bool)
    requires FirstRefused(classify, ref, rows, i, a) && FirstRefused(classify, ref, rows, j, b)
    ensures i == j && a == b
  {
  }

  /** What a cycle makes of one target by its fate; the events are those of the rows up to a refused one. */
  ghost predicate Stepped(classify: Classifier, ref: Ref, seen: seq<Row>, reply: Reply, fate: Fate, child: Child,
                          after: Child, events: map<Ref, seq<string>>, staged: map<Ref, set<int>>)
    requires Fits(seen, reply)
  {
    match fate
    case Abort(reason) => true
    case Paused(reason) =>
      && after == child.(pause := Some(reason)) && ref !in staged
      && (reason != RowRefused ==> ref !in events)
      && (reason == RowRefused && reply.Served? ==>
            && ref in events
            && exists k :: UpTo(classify, ref, ArrivedSince(seen, reply.history), k, events[ref]))
    case Read =>
      && after == child && reply.Served? && ref in events && ref in staged
      && Gives(classify, ref, ArrivedSince(seen, reply.history), events[ref])
      && staged[ref] == Ids(Newest(reply.history))
  }

  ghost predicate UpTo(classify: Classifier, ref: Ref, rows: seq<Row>, k: nat, events: seq<string>) {
    FirstRefused(classify, ref, rows, k, false) && Gives(classify, ref, rows[..k], events)
  }

  lemma SliceIsArrived(seen: seq<Row>, history: seq<Row>)
    requires DistinctIds(history) && GrowsTo(seen, history)
    ensures var arrived := history[..|history| - |seen|];
            && OneShot(history, Ids(Newest(seen)))
               == (if |arrived| < (if seen == [] then 100 else 1000) then Some(arrived) else None)
            && P.Reversed(arrived) == ArrivedSince(seen, history)
            && |ArrivedSince(seen, history)| == |arrived|
  {
    var arrived := history[..|history| - |seen|];
    assert arrived + seen == history;
    OneShotSelectsArrivals(arrived, seen);
    P.ReversedIsOldestFirst(arrived);
  }

  lemma TakenFares(classify: Classifier, ref: Ref, seen: seq<Row>, history: seq<Row>, fate: Fate)
    requires Fits(seen, Served(history)) && Fares(classify, ref, seen, Served(history), fate)
    requires |history| - |seen| < (if seen == [] then 100 else 1000)
    ensures var arrived := ArrivedSince(seen, history); var t := TakeRows(classify, ref, arrived);
            && (t.refusal.Some? && t.refusal.value ==> fate == Abort(FatalIdentity) && t.refusal == Some(true))
            && (t.refusal.Some? && !t.refusal.value ==>
                  && t.refusal != Some(true) && fate == Paused(RowRefused)
                  && UpTo(classify, ref, arrived, t.count, t.events))
            && (t.refusal == None ==> fate == Read && Gives(classify, ref, arrived, t.events))
  {
    hide Gives, TakeRows;
    SliceIsArrived(seen, history);
    var arrived := ArrivedSince(seen, history);
    var t := TakeRows(classify, ref, arrived);
    TakesUpToRefused(classify, ref, arrived);
    if t.refusal.Some? && !t.refusal.value && exists k :: FirstRefused(classify, ref, arrived, k, true) {
      var k :| FirstRefused(classify, ref, arrived, k, true);
      OneFirstRefused(classify, ref, arrived, t.count, false, k, true);
    }
    if t.refusal == None { assert arrived[..t.count] == arrived; }
  }

  lemma StepFares(classify: Classifier, cycle: Cycle, ref: Ref, seen: seq<Row>, reply: Reply, fate: Fate)
    requires ref in cycle.children && cycle.abort.None? && ref !in cycle.events && ref !in cycle.staged
    requires Known(cycle.children[ref]) == Ids(Newest(seen))
    requires Fits(seen, reply) && Fares(classify, ref, seen, reply, fate)
    ensures var c := CycleStep(classify, cycle, ref, reply);
            && ref in c.children
            && c.abort == (if fate.Abort? then Some(fate.reason) else None)
            && Stepped(classify, ref, seen, reply, fate, cycle.children[ref], c.children[ref], c.events, c.staged)
  {
    hide Gives, UpTo, TakeRows, OneShot, FirstRefused, Newest, Ids, GrowsTo, DistinctIds, ArrivedSince;
    match reply {
      case Served(history) =>
        SliceIsArrived(seen, history);
        var arrived := ArrivedSince(seen, history);
        if |history| - |seen| < (if seen == [] then 100 else 1000) {
          TakenFares(classify, ref, seen, history, fate);
        }
      case _ =>
    }
  }

  // ----- the whole cycle ----------------------------------------------------------

  /** Targets not paused, each once, whose anchors are those of the newest page they saw. */
  ghost predicate Cyclable(children: Children, refs: seq<Ref>, replies: map<Ref, Reply>, seen: map<Ref, seq<Row>>) {
    && Answered(children, refs, replies) && DistinctRefs(refs)
    && forall ref :: ref in refs ==> ref in seen && Placed(children, replies, seen, ref)
  }

  ghost predicate Placed(children: Children, replies: map<Ref, Reply>, seen: map<Ref, seq<Row>>, ref: Ref) {
    && ref in children && ref in replies && ref in seen && Fits(seen[ref], replies[ref])
    && Known(children[ref]) == Ids(Newest(seen[ref]))
  }

  /** The fate of each target, in the order of the cycle. */
  ghost predicate Fated(classify: Classifier, children: Children, refs: seq<Ref>, replies: map<Ref, Reply>,
                        seen: map<Ref, seq<Row>>, fates: seq<Fate>)
  {
    && Cyclable(children, refs, replies, seen) && |fates| == |refs|
    && forall i :: 0 <= i < |refs| ==> Fares(classify, refs[i], seen[refs[i]], replies[refs[i]], fates[i])
  }

  ghost predicate FirstAbort(fates: seq<Fate>, k: nat, reason: Reason) {
    k < |fates| && fates[k] == Abort(reason) && forall i :: 0 <= i < k ==> !fates[i].Abort?
  }

  ghost predicate Shared(classify: Classifier, children: Children, refs: seq<Ref>, replies: map<Ref, Reply>,
                         seen: map<Ref, seq<Row>>, fates: seq<Fate>, c: Cycle, i: nat)
    requires Fated(classify, children, refs, replies, seen, fates) && i < |refs|
  {
    && refs[i] in c.children
    && Stepped(classify, refs[i], seen[refs[i]], replies[refs[i]], fates[i],
               children[refs[i]], c.children[refs[i]], c.events, c.staged)
  }

  lemma PrefixIsFated(classify: Classifier, children: Children, refs: seq<Ref>, replies: map<Ref, Reply>,
                      seen: map<Ref, seq<Row>>, fates: seq<Fate>)
    requires Fated(classify, children, refs, replies, seen, fates) && refs != []
    ensures Fated(classify, children, refs[..|refs| - 1], replies, seen, fates[..|refs| - 1])
    ensures refs[|refs| - 1] !in refs[..|refs| - 1]
  {
    hide Fares, Fits, Placed;
  }

  /**
   * A cycle is ended by the first target that ends it, and if none does, every target gets
   * what its own fate says.
   */
  lemma {:induction false} CycleFares(classify: Classifier, children: Children, refs: seq<Ref>,
                                      replies: map<Ref, Reply>, seen: map<Ref, seq<Row>>, fates: seq<Fate>)
    requires Fated(classify, children, refs, replies, seen, fates)
    ensures var c := CycleOver(classify, children, refs, replies);
            && (c.abort.Some? ==> exists k :: FirstAbort(fates, k, c.abort.value))
            && (c.abort.None? ==> forall i :: 0 <= i < |fates| ==> !fates[i].Abort?)
            && (c.abort.None? ==>
                  forall i :: 0 <= i < |refs| ==> Shared(classify, children, refs, replies, seen, fates, c, i))
  {
    hide Fares, Stepped, CycleStep, Fits;
    if refs != [] {
      var n := |refs| - 1;
      var before, c := CycleOver(classify, children, refs[..n], replies), CycleOver(classify, children, refs, replies);
      PrefixIsFated(classify, children, refs, replies, seen, fates);
      CycleFares(classify, children, refs[..n], replies, seen, fates[..n]);
      if before.abort.Some? {
        var k :| FirstAbort(fates[..n], k, before.abort.value);
        AbortStays(classify, before, refs[n], replies[refs[n]]);
        assert FirstAbort(fates, k, before.abort.value);
      } else {
        CycleLeavesOthers(classify, children, refs[..n], replies, refs[n]);
        StepFares(classify, before, refs[n], seen[refs[n]], replies[refs[n]], fates[n]);
        if fates[n].Abort? {
          assert FirstAbort(fates, n, fates[n].reason);
        } else {
          forall i | 0 <= i < |refs| ensures Shared(classify, children, refs, replies, seen, fates, c, i) {
            if i < n {
              assert Shared(classify, children, refs[..n], replies, seen, fates[..n], before, i);
              StepLeavesOthers(classify, before, refs[n], replies[refs[n]], refs[i]);
              SteppedStays(classify, refs[i], seen[refs[i]], replies[refs[i]], fates[i], children[refs[i]], before, c);
            }
          }
        }
      }
    }
  }

  lemma AbortStays(classify: Classifier, c: Cycle, ref: Ref, reply: Reply)
    requires ref in c.children && c.abort.Some?
    ensures CycleStep(classify, c, ref, reply) == c
  {
  }

  lemma SteppedStays(classify: Classifier, ref: Ref, seen: seq<Row>, reply: Reply, fate: Fate, child: Child,
                     before: Cycle, after: Cycle)
    requires Fits(seen, reply) && ref in before.children && ref in after.children
    requires Stepped(classify, ref, seen, reply, fate, child, before.children[ref], before.events, before.staged)
    requires after.children[ref] == before.children[ref]
    requires (ref in after.events <==> ref in before.events)
    requires ref in after.events ==> after.events[ref] == before.events[ref]
    requires (ref in after.staged <==> ref in before.staged)
    requires ref in after.staged ==> after.staged[ref] == before.staged[ref]
    ensures Stepped(classify, ref, seen, reply, fate, child, after.children[ref], after.events, after.staged)
  {
  }

  // ----- a poll -------------------------------------------------------------------

  /** A target after a poll that was not ended for all. */
  ghost predicate Settled(reply: Reply, fate: Fate, before: Child, after: Child) {
    match fate
    case Abort(_) => false
    case Paused(reason) => after == Child(before.anchors, Some(reason))
    case Read => reply.Served? && after == Child(Some(Ids(Newest(reply.history))), before.pause)
  }

  /** What a target returns: the events of all that arrived, or of what arrived before a refused row. */
  ghost predicate Returned(classify: Classifier, ref: Ref, seen: seq<Row>, reply: Reply, fate: Fate,
                           events: map<Ref, seq<string>>)
    requires Fits(seen, reply)
  {
    if fate == Paused(RowRefused) then
      && reply.Served? && ref in events
      && exists k :: UpTo(classify, ref, ArrivedSince(seen, reply.history), k, events[ref])
    else if fate == Read then
      reply.Served? && ref in events && Gives(classify, ref, ArrivedSince(seen, reply.history), events[ref])
    else ref !in events
  }

  /** Everything is paused afterwards: what the poll did not cover already was, the rest is paused by it. */
  ghost predicate NoneLeft(children: Children, refs: seq<Ref>, fates: seq<Fate>) {
    && (forall ref :: ref in children && ref !in refs ==> children[ref].pause.Some?)
    && (forall i :: 0 <= i < |fates| ==> fates[i].Paused?)
  }

  ghost predicate Ended(fates: seq<Fate>) {
    exists i :: 0 <= i < |fates| && fates[i].Abort?
  }

  /** A poll that ends for all: nothing is returned and no anchor moves. */
  ghost predicate EndedPoll(children: Children, fates: seq<Fate>, p: Polled) {
    && p.events == map[] && p.raised.Some? && (exists k :: FirstAbort(fates, k, p.raised.value))
    && p.paused == (if p.raised == Some(PageInvalid) then None else p.raised)
    && forall ref :: ref in children ==> ref in p.children && p.children[ref].anchors == children[ref].anchors
  }

  /** Any other poll: each target gets what its own fate says, and the rest is left alone. */
  ghost predicate FairPoll(classify: Classifier, children: Children, refs: seq<Ref>, replies: map<Ref, Reply>,
                           seen: map<Ref, seq<Row>>, fates: seq<Fate>, p: Polled)
    requires Fated(classify, children, refs, replies, seen, fates) && p.children.Keys == children.Keys
  {
    && (forall i :: 0 <= i < |refs| ==>
          Settled(replies[refs[i]], fates[i], children[refs[i]], p.children[refs[i]]))
    && (forall ref :: ref in children && ref !in refs ==> p.children[ref] == children[ref] && ref !in p.events)
    && if NoneLeft(children, refs, fates)
       then p.raised == p.paused == Some(AllTargetsPaused) && p.events == map[]
       else && p.raised == p.paused == None
            && forall i :: 0 <= i < |refs| ==>
                 Returned(classify, refs[i], seen[refs[i]], replies[refs[i]], fates[i], p.events)
  }

  lemma {:induction false} CycleKeepsAnchors(classify: Classifier, children: Children, refs: seq<Ref>,
                                             replies: map<Ref, Reply>, ref: Ref)
    requires Answered(children, refs, replies) && ref in children
    ensures CycleOver(classify, children, refs, replies).children[ref].anchors == children[ref].anchors
  {
    hide CycleStep;
    if refs != [] {
      var n := |refs| - 1;
      CycleKeepsAnchors(classify, children, refs[..n], replies, ref);
      StepKeepsAnchors(classify, CycleOver(classify, children, refs[..n], replies), refs[n], replies[refs[n]], ref);
    }
  }

  lemma StepKeepsAnchors(classify: Classifier, c: Cycle, ref: Ref, reply: Reply, other: Ref)
    requires ref in c.children && other in c.children
    ensures var d := CycleStep(classify, c, ref, reply);
            other in d.children && d.children[other].anchors == c.children[other].anchors
  {
    hide OneShot, TakeRows;
  }

  ghost predicate Fair(classify: Classifier, children: Children, refs: seq<Ref>, replies: map<Ref, Reply>,
                       seen: map<Ref, seq<Row>>, fates: seq<Fate>, after: Children,
                       events: map<Ref, seq<string>>, i: nat)
    requires Fated(classify, children, refs, replies, seen, fates) && i < |refs| && after.Keys == children.Keys
  {
    && Settled(replies[refs[i]], fates[i], children[refs[i]], after[refs[i]])
    && Returned(classify, refs[i], seen[refs[i]], replies[refs[i]], fates[i], events)
    && (after[refs[i]].pause.Some? <==> fates[i].Paused?)
  }

  lemma SharedSettles(classify: Classifier, children: Children, refs: seq<Ref>, replies: map<Ref, Reply>,
                      seen: map<Ref, seq<Row>>, fates: seq<Fate>, c: Cycle, i: nat)
    requires Fated(classify, children, refs, replies, seen, fates) && i < |refs|
    requires Shared(classify, children, refs, replies, seen, fates, c, i) && !fates[i].Abort?
    requires c.children.Keys == children.Keys && refs[i] in children && children[refs[i]].pause.None?
    ensures Fair(classify, children, refs, replies, seen, fates, Commit(c.children, c.staged), c.events, i)
  {
    hide Gives, UpTo, Newest, Ids;
    RefusedIsServed(classify, refs[i], seen[refs[i]], replies[refs[i]], fates[i]);
  }

  lemma RefusedIsServed(classify: Classifier, ref: Ref, seen: seq<Row>, reply: Reply, fate: Fate)
    requires Fits(seen, reply) && Fares(classify, ref, seen, reply, fate)
    ensures fate == Paused(RowRefused) ==> reply.Served?
  {
  }

  /**
   * One poll, told from what arrived: the first target with an unusable answer or a fatal row
   * ends it with its reason; it is refused as well if no target is left unpaused; and otherwise
   * each target is read, or paused, by its own fate.
   */
  lemma PollFares(classify: Classifier, children: Children, refs: seq<Ref>, replies: map<Ref, Reply>,
                  seen: map<Ref, seq<Row>>, fates: seq<Fate>)
    requires Fated(classify, children, refs, replies, seen, fates)
    requires forall ref :: ref in refs ==> children[ref].pause.None?
    ensures var p := PollOnce(classify, children, refs, replies);
            && p.children.Keys == children.Keys
            && (if Ended(fates) then EndedPoll(children, fates, p)
                else FairPoll(classify, children, refs, replies, seen, fates, p))
  {
    hide *;
    CycleFares(classify, children, refs, replies, seen, fates);
    FatedIsAnswered(classify, children, refs, replies, seen, fates);
    var c := CycleOver(classify, children, refs, replies);
    if c.abort.Some? {
      var k :| FirstAbort(fates, k, c.abort.value);
      AbortEnds(fates, k, c.abort.value);
      AbortedPoll(classify, children, refs, replies, fates, k);
    } else {
      NoneEnds(fates);
      FinishedPoll(classify, children, refs, replies, seen, fates);
    }
  }

  lemma FatedIsAnswered(classify: Classifier, children: Children, refs: seq<Ref>, replies: map<Ref, Reply>,
                        seen: map<Ref, seq<Row>>, fates: seq<Fate>)
    requires Fated(classify, children, refs, replies, seen, fates)
    ensures Answered(children, refs, replies) && |fates| == |refs|
    ensures forall ref :: ref in refs ==> ref in children
  {
  }

  lemma NoneEnds(fates: seq<Fate>)
    requires forall i :: 0 <= i < |fates| ==> !fates[i].Abort?
    ensures !Ended(fates)
  {
  }

  lemma AbortedPoll(classify: Classifier, children: Children, refs: seq<Ref>, replies: map<Ref, Reply>,
                    fates: seq<Fate>, k: nat)
    requires Answered(children, refs, replies)
    requires CycleOver(classify, children, refs, replies).abort.Some?
    requires FirstAbort(fates, k, CycleOver(classify, children, refs, replies).abort.value)
    ensures var p := PollOnce(classify, children, refs, replies);
            p.children.Keys == children.Keys && EndedPoll(children, fates, p)
  {
    hide FirstAbort, CycleStep;
    var p := PollOnce(classify, children, refs, replies);
    forall ref | ref in children ensures p.children[ref].anchors == children[ref].anchors {
      CycleKeepsAnchors(classify, children, refs, replies, ref);
    }
  }

  lemma FinishedPoll(classify: Classifier, children: Children, refs: seq<Ref>, replies: map<Ref, Reply>,
                     seen: map<Ref, seq<Row>>, fates: seq<Fate>)
    requires Fated(classify, children, refs, replies, seen, fates)
    requires forall ref :: ref in refs ==> children[ref].pause.None?
    requires forall i :: 0 <= i < |fates| ==> !fates[i].Abort?
    requires CycleOver(classify, children, refs, replies).abort.None?
    requires forall i :: 0 <= i < |refs| ==> Shared(classify, children, refs, replies, seen, fates,
                                                    CycleOver(classify, children, refs, replies), i)
    ensures var p := PollOnce(classify, children, refs, replies);
            && p.children.Keys == children.Keys
            && FairPoll(classify, children, refs, replies, seen, fates, p)
  {
    hide *;
    FatedIsAnswered(classify, children, refs, replies, seen, fates);
    var c := CycleOver(classify, children, refs, replies);
    EveryShareIsFair(classify, children, refs, replies, seen, fates);
    FairIsFinished(classify, children, refs, replies, seen, fates, c);
  }

  lemma EveryShareIsFair(classify: Classifier, children: Children, refs: seq<Ref>, replies: map<Ref, Reply>,
                         seen: map<Ref, seq<Row>>, fates: seq<Fate>)
    requires Fated(classify, children, refs, replies, seen, fates)
    requires forall ref :: ref in refs ==> children[ref].pause.None?
    requires forall i :: 0 <= i < |fates| ==> !fates[i].Abort?
    requires forall i :: 0 <= i < |refs| ==> Shared(classify, children, refs, replies, seen, fates,
                                                    CycleOver(classify, children, refs, replies), i)
    ensures var c := CycleOver(classify, children, refs, replies);
            AllFair(classify, children, refs, replies, seen, fates, Commit(c.children, c.staged), c.events)
  {
    hide Fares, Shared, Fair, Newest, Ids, Placed, Fits, CycleStep;
    var c := CycleOver(classify, children, refs, replies);
    var committed := Commit(c.children, c.staged);
    forall i | 0 <= i < |refs| ensures Fair(classify, children, refs, replies, seen, fates, committed, c.events, i) {
      SharedSettles(classify, children, refs, replies, seen, fates, c, i);
    }
    forall ref | ref in children && ref !in refs ensures committed[ref] == children[ref] && ref !in c.events {
      CycleLeavesOthers(classify, children, refs, replies, ref);
    }
  }

  lemma FairIsFinished(classify: Classifier, children: Children, refs: seq<Ref>, replies: map<Ref, Reply>,
                       seen: map<Ref, seq<Row>>, fates: seq<Fate>, c: Cycle)
    requires Fated(classify, children, refs, replies, seen, fates)
    requires c == CycleOver(classify, children, refs, replies) && c.abort.None?
    requires AllFair(classify, children, refs, replies, seen, fates, Commit(c.children, c.staged), c.events)
    ensures var p := PollOnce(classify, children, refs, replies);
            && p.children.Keys == children.Keys
            && FairPoll(classify, children, refs, replies, seen, fates, p)
  {
    hide Fares, Settled, Returned, CycleOver, Commit, NoneLeft, AllPaused, DistinctRefs, Fits;
    var committed := Commit(c.children, c.staged);
    FairLeavesNone(classify, children, refs, replies, seen, fates, committed, c.events);
    var p := PollOnce(classify, children, refs, replies);
    assert p.children == committed;
    forall i | 0 <= i < |refs|
      ensures Settled(replies[refs[i]], fates[i], children[refs[i]], committed[refs[i]])
      ensures Returned(classify, refs[i], seen[refs[i]], replies[refs[i]], fates[i], c.events)
    {
      assert Fair(classify, children, refs, replies, seen, fates, committed, c.events, i);
    }
  }

  ghost predicate AllFair(classify: Classifier, children: Children, refs: seq<Ref>, replies: map<Ref, Reply>,
                          seen: map<Ref, seq<Row>>, fates: seq<Fate>, after: Children,
                          events: map<Ref, seq<string>>)
  {
    && Fated(classify, children, refs, replies, seen, fates) && after.Keys == children.Keys
    && (forall i :: 0 <= i < |refs| ==> Fair(classify, children, refs, replies, seen, fates, after, events, i))
    && (forall ref :: ref in children && ref !in refs ==> after[ref] == children[ref] && ref !in events)
  }

  lemma FairLeavesNone(classify: Classifier, children: Children, refs: seq<Ref>, replies: map<Ref, Reply>,
                       seen: map<Ref, seq<Row>>, fates: seq<Fate>, after: Children,
                       events: map<Ref, seq<string>>)
    requires AllFair(classify, children, refs, replies, seen, fates, after, events)
    ensures AllPaused(after) <==> NoneLeft(children, refs, fates)
  {
    hide Placed, Fares, Settled, Returned;
    forall i | 0 <= i < |refs| ensures refs[i] in children && (after[refs[i]].pause.Some? <==> fates[i].Paused?) {
      assert Fair(classify, children, refs, replies, seen, fates, after, events, i);
    }
    AllPausedIff(children, after, refs, fates);
  }

  lemma AbortEnds(fates: seq<Fate>, k: nat, reason: Reason)
    requires FirstAbort(fates, k, reason)
    ensures Ended(fates)
  {
  }

  lemma AllPausedIff(children: Children, committed: Children, refs: seq<Ref>, fates: seq<Fate>)
    requires |fates| == |refs| && committed.Keys == children.Keys
    requires forall i :: 0 <= i < |refs| ==> refs[i] in children
    requires forall i :: 0 <= i < |refs| ==> (committed[refs[i]].pause.Some? <==> fates[i].Paused?)
    requires forall ref :: ref in children && ref !in refs ==> committed[ref] == children[ref]
    ensures AllPaused(committed) <==> NoneLeft(children, refs, fates)
  {
    if NoneLeft(children, refs, fates) {
      forall ref | ref in committed ensures committed[ref].pause.Some? {
        if ref in refs { var i :| 0 <= i < |refs| && refs[i] == ref; }
      }
    }
  }

  // ----- over runs ------------------------------------------------------------------

  /** What each target had seen of its history when the poll came. */
  ghost function SeenBy(s: System, refs: seq<Ref>): map<Ref, seq<Row>>
    requires Pollable(s, refs)
  {
    map ref | ref in refs && Tracked(s, ref) :: SeenHistory(s.tracks[ref])
  }

  lemma PollableIsCyclable(classify: Classifier, s: System, refs: seq<Ref>, faults: map<Ref, Reply>)
    requires Inv(classify, s) && Pollable(s, refs)
    ensures Cyclable(s.children, refs, RepliesFor(s, refs, faults), SeenBy(s, refs))
  {
    hide DistinctIds, GrowsTo, Newest, Ids, SeenHistory;
    var replies, seen := RepliesFor(s, refs, faults), SeenBy(s, refs);
    forall ref | ref in refs ensures ref in seen && Placed(s.children, replies, seen, ref) {
      var i :| 0 <= i < |refs| && refs[i] == ref;
      assert Tracked(s, ref) && TrackOk(classify, s, ref);
    }
  }

  lemma {:induction false} EveryTargetHasAFate(
    classify: Classifier, children: Children, refs: seq<Ref>, replies: map<Ref, Reply>, seen: map<Ref, seq<Row>>)
    returns (fates: seq<Fate>)
    requires Cyclable(children, refs, replies, seen)
    ensures Fated(classify, children, refs, replies, seen, fates)
  {
    hide Fares, Fits;
    fates := [];
    for k := 0 to |refs|
      invariant |fates| == k
      invariant forall i :: 0 <= i < k ==> Fares(classify, refs[i], seen[refs[i]], replies[refs[i]], fates[i])
    {
      var fate := HasAFate(classify, refs[k], seen[refs[k]], replies[refs[k]]);
      fates := fates + [fate];
    }
  }

  lemma HasAFate(classify: Classifier, ref: Ref, seen: seq<Row>, reply: Reply) returns (fate: Fate)
    requires Fits(seen, reply)
    ensures Fares(classify, ref, seen, reply, fate)
  {
    match reply {
      case Garbled => fate := Abort(SnapshotUnavailable);
      case Unfit => fate := Abort(PageInvalid);
      case NoTable => fate := Paused(TableError);
      case Served(history) =>
        var arrived := ArrivedSince(seen, history);
        if |arrived| >= (if seen == [] then 100 else 1000) { fate := Paused(AnchorLost); }
        else if exists k :: FirstRefused(classify, ref, arrived, k, true) { fate := Abort(FatalIdentity); }
        else if exists k :: FirstRefused(classify, ref, arrived, k, false) { fate := Paused(RowRefused); }
        else { fate := Read; }
    }
  }

  /**
   * In every run, every poll of unpaused targets gives each of them a fate told from what
   * arrived since it was last read, and ends as those fates say.
   */
  lemma EveryPollFares(classify: Classifier, s: System, steps: seq<Step>, refs: seq<Ref>, faults: map<Ref, Reply>)
    returns (fates: seq<Fate>)
    requires Fresh(s) && Pollable(Run(classify, s, steps), refs)
    ensures var t := Run(classify, s, steps);
            var replies, seen := RepliesFor(t, refs, faults), SeenBy(t, refs);
            var p := PollOnce(classify, t.children, refs, replies);
            && Fated(classify, t.children, refs, replies, seen, fates)
            && p.children.Keys == t.children.Keys
            && (if Ended(fates) then EndedPoll(t.children, fates, p)
                else FairPoll(classify, t.children, refs, replies, seen, fates, p))
            && (var u := Next(classify, t, Poll(refs, faults));
                u.children == p.children && u.paused == p.paused)
  {
    hide Inv, Fresh, Cyclable, Fated, Ended, EndedPoll, FairPoll, SeenBy, RepliesFor, PollOnce, Run;
    var t := Run(classify, s, steps);
    RunsKeepInv(classify, s, steps);
    PollableIsCyclable(classify, t, refs, faults);
    fates := EveryTargetHasAFate(classify, t.children, refs, RepliesFor(t, refs, faults), SeenBy(t, refs));
    PollFares(classify, t.children, refs, RepliesFor(t, refs, faults), SeenBy(t, refs), fates);
  }
}
