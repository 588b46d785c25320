// What the restore switch leaves behind, for every fate of every rename of the switch and of its
// rollback: where each entry ends, when the active state is restored, and when the report is true.
module RestoreOutcomes {

  import opened Restore

  // ----- the rollback follows its plan -------------------------------------------------------

  /** Of the staged entries to be overwritten, those whose path the old entry has come back to. */
  function Gone(lost: set<Name>, back: set<Name>): set<Name> {
    set s | s in lost && IsStaged(s) && Target(s) in back
  }

  /**
   * After back was moved back; lost is what an old entry overwrites on its way home, which is a
   * staged one that the switch does not know to be installed.
   */
  ghost predicate Reached(before: Files, now: Files, taken: set<Name>, back: set<Name>, lost: set<Name>) {
    At(before - Gone(lost, back), now, taken - Gone(lost, back), back)
  }

  /** A staged database can be overwritten where it was installed, and staged objects if they are empty. */
  ghost predicate Losable(before: Files, taken: set<Name>, back: set<Name>, lost: set<Name>) {
    && (forall s :: s in lost ==> IsStaged(s) && s in taken && s !in back)
    && (StagedObjects in lost ==> StagedObjects in before && before[StagedObjects].empty)
  }

  function Successor(o: Name): Name {
    match o
    case Db => StagedDb
    case Objects => StagedObjects
    case _ => o
  }

  /** Every path an entry goes back to has been cleared, or holds what may be overwritten. */
  ghost predicate Clear(taken: set<Name>, back: set<Name>, o: Name, lost: set<Name>) {
    && IsOrigin(o) && o in taken - lost && o !in back
    && (Successor(o) != o && Successor(o) in taken && Successor(o) !in back ==> Successor(o) in lost)
  }

  ghost predicate Takeable(taken: set<Name>, back: set<Name>, undo: seq<Name>, lost: set<Name>)
    decreases |undo|
  {
    undo == [] || (Clear(taken, back, undo[0], lost) && Takeable(taken, back + {undo[0]}, undo[1..], lost))
  }

  lemma {:induction false} TakeableOrigins(taken: set<Name>, back: set<Name>, undo: seq<Name>, lost: set<Name>)
    requires Takeable(taken, back, undo, lost)
    ensures AllOrigins(undo)
    decreases |undo|
  {
    if undo != [] { TakeableOrigins(taken, back + {undo[0]}, undo[1..], lost); }
  }

  lemma RetreatIsFree(before: Files, now: Files, done: set<Name>, back: set<Name>, o: Name)
    requires At(before, now, done, back) && o in done && o !in back && IsOrigin(o)
    requires o == Db && StagedDb in done ==> StagedDb in back
    requires o == Objects && StagedObjects in done ==> StagedObjects in back
    ensures Retreat(o) !in now
  {
    AtPlace(before, now, done, back, Retreat(o));
  }

  lemma MoveOverStaged(before: Files, now: Files, done: set<Name>, back: set<Name>, o: Name, fate: Fate)
    requires At(before, now, done, back) && o in {Db, Objects} && o in done && o !in back
    requires Successor(o) in done && Successor(o) !in back
    requires o == Objects ==> before[StagedObjects].empty
    ensures CanMove(now, Target(o), o, fate) <==> fate != Refused
    ensures if fate == Refused then Renamed(now, Target(o), o, fate) == now
            else At(before - {Successor(o)}, Renamed(now, Target(o), o, fate), done - {Successor(o)}, back + {o})
  {
    var s, places := Successor(o), Places(before, done, back);
    assert places[s] == o && now[o] == before[s];
    MoveOver(before, now, places, o, s);
    OverPlaces(before, done, back, o);
    hide Arranged;
  }

  lemma OverPlaces(before: Files, done: set<Name>, back: set<Name>, o: Name)
    requires Origins(before) && o in {Db, Objects} && o in before && Successor(o) in before
    ensures Places(before - {Successor(o)}, done - {Successor(o)}, back + {o})
            == (Places(before, done, back) - {Successor(o)})[o := o]
  {
  }

  lemma TargetIsThere(before: Files, now: Files, done: set<Name>, back: set<Name>, o: Name)
    requires At(before, now, done, back) && o in done && o !in back && IsOrigin(o)
    ensures Target(o) in now
  {
    AtPlace(before, now, done, back, Target(o));
    assert Where(o, done, back) == Target(o);
  }

  /** A rename of the rollback succeeds, or takes effect although it fails, or changes nothing. */
  ghost predicate Tried(p: Progress, q: Progress, fates: Fates) {
    q.calls == p.calls + 1 && (q.ok <==> fates(p.calls) == Moves)
  }

  lemma RetireOne(before: Files, p: Progress, o: Name, taken: set<Name>, back: set<Name>, lost: set<Name>, fates: Fates)
    requires p.ok && Reached(before, p.files, taken, back, lost) && Clear(taken, back, o, lost)
    requires Losable(before, taken, back, lost)
    ensures var q := TryIfThere(p, Target(o), Retreat(o), fates);
            && Tried(p, q, fates)
            && Reached(before, q.files, taken, if fates(p.calls) == Refused then back else back + {o}, lost)
  {
    hide At;
    var gone := Gone(lost, back);
    TargetIsThere(before - gone, p.files, taken - gone, back, o);
    if Successor(o) != o && Successor(o) in lost {
      var s := Successor(o);
      MoveOverStaged(before - gone, p.files, taken - gone, back, o, fates(p.calls));
      assert Gone(lost, back + {o}) == gone + {s};
      assert before - gone - {s} == before - (gone + {s}) && taken - gone - {s} == taken - (gone + {s});
    } else {
      RetreatIsFree(before - gone, p.files, taken - gone, back, o);
      MoveBack(before - gone, p.files, taken - gone, back, o, fates(p.calls));
      assert Gone(lost, back + {o}) == gone;
    }
  }

  /** The rollback was run up to the first rename that failed. */
  ghost predicate Undone(before: Files, p: Progress, undo: seq<Name>, q: Progress,
                         taken: set<Name>, back: set<Name>, lost: set<Name>, fates: Fates) {
    && (q.ok <==> FirstStop(p.calls, |undo|, fates) == |undo|)
    && Reached(before, q.files, taken, back + Set(undo[..Effects(p.calls, |undo|, fates)]), lost)
  }

  lemma {:induction false} RetireStops(before: Files, p: Progress, undo: seq<Name>,
                                       taken: set<Name>, back: set<Name>, lost: set<Name>, fates: Fates)
    requires p.ok && Reached(before, p.files, taken, back, lost)
    requires Takeable(taken, back, undo, lost) && AllOrigins(undo)
    requires Losable(before, taken, back, lost)
    ensures Undone(before, p, undo, Retire(p, undo, fates), taken, back, lost, fates)
    decreases |undo|
  {
    hide Reached, TryIfThere, Undone, Clear;
    if undo == [] {
      UndoneAtOnce(before, p, undo, taken, back, lost, fates);
    } else {
      var o, rest := undo[0], undo[1..];
      assert undo == [o] + rest;
      RetireOne(before, p, o, taken, back, lost, fates);
      var q := TryIfThere(p, Target(o), Retreat(o), fates);
      if q.ok {
        StillLosable(before, taken, back, o, lost);
        RetireStops(before, q, rest, taken, back + {o}, lost, fates);
        UndoneLater(before, p, o, rest, q, Retire(q, rest, fates), taken, back, lost, fates);
      } else {
        RetireStays(q, rest, fates);
        UndoneHere(before, p, o, rest, q, taken, back, lost, fates);
      }
    }
  }

  lemma StillLosable(before: Files, taken: set<Name>, back: set<Name>, o: Name, lost: set<Name>)
    requires Clear(taken, back, o, lost) && Losable(before, taken, back, lost)
    ensures Losable(before, taken, back + {o}, lost)
  {
  }

  lemma UndoneAtOnce(before: Files, p: Progress, undo: seq<Name>,
                     taken: set<Name>, back: set<Name>, lost: set<Name>, fates: Fates)
    requires p.ok && Reached(before, p.files, taken, back, lost) && undo == []
    ensures Undone(before, p, undo, p, taken, back, lost, fates)
  {
    hide Reached;
    NoneTaken(back, undo);
  }

  lemma UndoneLater(before: Files, p: Progress, o: Name, rest: seq<Name>, q: Progress, r: Progress,
                    taken: set<Name>, back: set<Name>, lost: set<Name>, fates: Fates)
    requires Tried(p, q, fates) && q.ok && Undone(before, q, rest, r, taken, back + {o}, lost, fates)
    ensures Undone(before, p, [o] + rest, r, taken, back, lost, fates)
  {
    hide Reached, Set;
    TakeFirst(o, rest, back, Effects(q.calls, |rest|, fates));
  }

  lemma UndoneHere(before: Files, p: Progress, o: Name, rest: seq<Name>, q: Progress,
                   taken: set<Name>, back: set<Name>, lost: set<Name>, fates: Fates)
    requires Tried(p, q, fates) && !q.ok
    requires Reached(before, q.files, taken, if fates(p.calls) == Refused then back else back + {o}, lost)
    ensures Undone(before, p, [o] + rest, q, taken, back, lost, fates)
  {
    hide Reached, Set;
    NoneTaken(back, [o] + rest);
    TakeFirst(o, rest, back, 0);
    NoneTaken(back + {o}, rest);
  }

  lemma UndoIsPlanned(p: Progress, o: Name, done: set<Name>, rest: seq<Name>, fates: Fates)
    requires IsOrigin(o) && AllOrigins(rest)
    ensures AllOrigins(If(o, done) + rest)
    ensures Retire(p, If(o, done) + rest, fates)
            == Retire(UndoIf(p, o in done, Target(o), Retreat(o), fates), rest, fates)
  {
    hide TryIfThere;
    if o in done {
      assert ([o] + rest)[1..] == rest;
    } else {
      assert [] + rest == rest;
    }
  }

  lemma RollbackIsPlanned(s: Progress, fates: Fates)
    ensures AllOrigins(UndoPlan(s.done))
    ensures Rollback(s, fates) == Retire(Progress(s.files, s.calls, true, {}), UndoPlan(s.done), fates)
  {
    hide UndoIf, Retire;
    var done := s.done;
    var shm: seq<Name> := If(Shm, done) + [];
    assert If(Shm, done) == shm;
    var wal, p := If(Wal, done) + shm, Progress(s.files, s.calls, true, {});
    var db := If(Db, done) + wal;
    var objects := If(Objects, done) + db;
    var staged := If(StagedDb, done) + objects;
    UndoIsPlanned(p, StagedObjects, done, staged, fates);
    var a := UndoIf(p, StagedObjects in done, Objects, FailedObjects, fates);
    UndoIsPlanned(a, StagedDb, done, objects, fates);
    var b := UndoIf(a, StagedDb in done, Db, FailedDb, fates);
    UndoIsPlanned(b, Objects, done, db, fates);
    var c := UndoIf(b, Objects in done, OldObjects, Objects, fates);
    UndoIsPlanned(c, Db, done, wal, fates);
    var d := UndoIf(c, Db in done, OldDb, Db, fates);
    UndoIsPlanned(d, Wal, done, shm, fates);
    var e := UndoIf(d, Wal in done, OldWal, Wal, fates);
    UndoIsPlanned(e, Shm, done, [], fates);
    RetireNothing(UndoIf(e, Shm in done, OldShm, Shm, fates), fates);
  }

  lemma RetireNothing(p: Progress, fates: Fates)
    ensures Retire(p, [], fates) == p
  {
  }

  // ----- where the switch fails ----------------------------------------------------------------

  /** The renames over before the failed one, the failed one, what happened to it, and the next call. */
  datatype Failure = Failure(done: set<Name>, at: Name, fate: Fate, next: nat)

  function FailureOf(before: Files, calls: nat, fates: Fates): Failure
    requires FirstStop(calls, |Plan(before)|, fates) < |Plan(before)|
  {
    var k := FirstStop(calls, |Plan(before)|, fates);
    Failure(Set(Plan(before)[..k]), Plan(before)[k], fates(calls + k), calls + k + 1)
  }

  function Taken(f: Failure): set<Name> {
    if f.fate == Interrupted then f.done + {f.at} else f.done
  }

  /** The switch does not know that this staged entry was installed over an old one. */
  predicate Hidden(before: Files, f: Failure) {
    f.fate == Interrupted && f.at in before && IsStaged(f.at) && Target(f.at) in before
  }

  /** The old entry comes back on top of it: over a database, and over objects if there are none. */
  predicate Overwrites(before: Files, f: Failure) {
    Hidden(before, f) && (f.at == StagedDb || before[f.at].empty)
  }

  /** The old objects cannot come back onto staged ones that are not empty. */
  predicate Blocked(before: Files, f: Failure) {
    Hidden(before, f) && f.at == StagedObjects && !before[f.at].empty
  }

  /** What the rollback takes back, up to a rename that is bound to be refused. */
  function Undoable(before: Files, f: Failure): seq<Name> {
    if Blocked(before, f) then [StagedDb] else UndoPlan(f.done)
  }

  /** What the rollback has taken back when it ends. */
  function TakenBack(before: Files, f: Failure, fates: Fates): set<Name> {
    var undo := Undoable(before, f);
    Set(undo[..Effects(f.next, |undo|, fates)])
  }

  predicate AllUndone(before: Files, f: Failure, fates: Fates) {
    !Blocked(before, f) && FirstStop(f.next, |Undoable(before, f)|, fates) == |Undoable(before, f)|
  }

  function Lost(before: Files, f: Failure): set<Name> { if Overwrites(before, f) then {f.at} else {} }

  function PlanRank(n: Name): nat {
    match n
    case Db => 0
    case Wal => 1
    case Shm => 2
    case Objects => 3
    case StagedDb => 4
    case _ => 5
  }

  ghost predicate Ordered(s: seq<Name>, rank: Name -> nat) {
    forall i, j :: 0 <= i < j < |s| ==> rank(s[i]) < rank(s[j])
  }

  function And(back: set<Name>, o: Name, done: set<Name>): set<Name> { if o in done then back + {o} else back }

  lemma OrderedIf(o: Name, there: set<Name>, rest: seq<Name>, rank: Name -> nat)
    requires Ordered(rest, rank) && forall n :: n in Set(rest) ==> rank(o) < rank(n)
    ensures Ordered(If(o, there) + rest, rank)
    ensures Set(If(o, there) + rest) == And(Set(rest), o, there)
  {
    if o in there {
      var all := [o] + rest;
      forall i, j | 0 <= i < j < |all| ensures rank(all[i]) < rank(all[j]) {
        assert all[j] == rest[j - 1] && (i > 0 ==> all[i] == rest[i - 1]);
        assert all[j] in Set(rest);
      }
    } else {
      assert [] + rest == rest;
    }
  }

  lemma InstallsAreOrdered()
    ensures Ordered([StagedDb, StagedObjects], PlanRank)
    ensures Set([StagedDb, StagedObjects]) == {StagedDb, StagedObjects}
    ensures Set([]) == {} && Ordered([], UndoRank)
  {
  }

  lemma PlanIsOrdered(before: Files)
    requires Known(before)
    ensures Ordered(Plan(before), PlanRank) && Set(Plan(before)) == before.Keys
  {
    hide Ordered, If, Set;
    var there, last := before.Keys, [StagedDb, StagedObjects];
    InstallsAreOrdered();
    OrderedIf(Objects, there, last, PlanRank);
    var shm := If(Objects, there) + last;
    OrderedIf(Shm, there, shm, PlanRank);
    var wal := If(Shm, there) + shm;
    OrderedIf(Wal, there, wal, PlanRank);
    OrderedIf(Db, there, If(Wal, there) + wal, PlanRank);
    assert forall n :: n in Set(Plan(before)) <==> n in before;
  }

  function UndoRank(n: Name): nat {
    match n
    case StagedObjects => 0
    case StagedDb => 1
    case Objects => 2
    case Db => 3
    case Wal => 4
    case _ => 5
  }

  lemma UndoIsOrdered(done: set<Name>)
    requires forall o :: o in done ==> IsOrigin(o)
    ensures Ordered(UndoPlan(done), UndoRank) && Set(UndoPlan(done)) == done
  {
    hide Ordered, If, Set;
    InstallsAreOrdered();
    var shm := If(Shm, done) + [];
    assert shm == If(Shm, done);
    OrderedIf(Shm, done, [], UndoRank);
    var wal := If(Wal, done) + shm;
    OrderedIf(Wal, done, shm, UndoRank);
    var db := If(Db, done) + wal;
    OrderedIf(Db, done, wal, UndoRank);
    var objects := If(Objects, done) + db;
    OrderedIf(Objects, done, db, UndoRank);
    OrderedIf(StagedDb, done, objects, UndoRank);
    OrderedIf(StagedObjects, done, If(StagedDb, done) + objects, UndoRank);
  }

  lemma FirstOfOrdered(s: seq<Name>, rank: Name -> nat, k: nat)
    requires Ordered(s, rank) && k < |s|
    ensures s[k] in Set(s)
    ensures forall n :: n in Set(s[..k]) <==> n in Set(s) && rank(n) < rank(s[k])
  {
    forall n ensures n in s[..k] <==> n in s && rank(n) < rank(s[k]) {
      if n in s {
        var i :| 0 <= i < |s| && s[i] == n;
        assert i < k ==> s[..k][i] == n;
      }
    }
  }

  /** Done is everything the plan names before the failed rename. */
  ghost predicate Shaped(before: Files, f: Failure) {
    && f.at in before && IsOrigin(f.at)
    && forall n :: n in f.done <==> n in before && PlanRank(n) < PlanRank(f.at)
  }

  lemma FailureIsShaped(before: Files, calls: nat, fates: Fates)
    requires Known(before) && FirstStop(calls, |Plan(before)|, fates) < |Plan(before)|
    ensures Shaped(before, FailureOf(before, calls, fates))
  {
    hide Plan, Ordered, Set;
    PlanIsOrdered(before);
    var k := FirstStop(calls, |Plan(before)|, fates);
    FirstOfOrdered(Plan(before), PlanRank, k);
  }

  lemma TakeableIf(taken: set<Name>, back: set<Name>, o: Name, done: set<Name>, rest: seq<Name>, lost: set<Name>)
    requires o in done ==> Clear(taken, back, o, lost)
    requires Takeable(taken, if o in done then back + {o} else back, rest, lost)
    ensures Takeable(taken, back, If(o, done) + rest, lost)
  {
    hide Clear;
    if o in done {
      assert ([o] + rest)[1..] == rest;
    } else {
      assert [] + rest == rest;
    }
  }

  lemma UndoIsTakeable(before: Files, f: Failure)
    requires Origins(before) && Shaped(before, f) && !Blocked(before, f)
    ensures Takeable(Taken(f), {}, UndoPlan(f.done), Lost(before, f))
  {
    var taken, done, lost := Taken(f), f.done, Lost(before, f);
    var b1 := And({}, StagedObjects, done);
    var b2 := And(b1, StagedDb, done);
    var b3 := And(b2, Objects, done);
    var b4 := And(b3, Db, done);
    var b5 := And(b4, Wal, done);
    assert Takeable(taken, And(b5, Shm, done), [], lost);
    assert StagedObjects !in done;
    assert StagedDb in done ==> Clear(taken, b1, StagedDb, lost);
    assert Objects in done ==> Clear(taken, b2, Objects, lost);
    assert Db in done ==> Clear(taken, b3, Db, lost);
    assert Wal in done ==> Clear(taken, b4, Wal, lost);
    assert Shm in done ==> Clear(taken, b5, Shm, lost);
    UndoFrom(taken, done, lost, b1, b2, b3, b4, b5);
  }

  lemma UndoFrom(taken: set<Name>, done: set<Name>, lost: set<Name>,
                 b1: set<Name>, b2: set<Name>, b3: set<Name>, b4: set<Name>, b5: set<Name>)
    requires b1 == And({}, StagedObjects, done) && b2 == And(b1, StagedDb, done) && b3 == And(b2, Objects, done)
    requires b4 == And(b3, Db, done) && b5 == And(b4, Wal, done)
    requires StagedObjects !in done
    requires StagedDb in done ==> Clear(taken, b1, StagedDb, lost)
    requires Objects in done ==> Clear(taken, b2, Objects, lost)
    requires Db in done ==> Clear(taken, b3, Db, lost)
    requires Wal in done ==> Clear(taken, b4, Wal, lost)
    requires Shm in done ==> Clear(taken, b5, Shm, lost)
    ensures Takeable(taken, {}, UndoPlan(done), lost)
  {
    assert Takeable(taken, And(b5, Shm, done), [], lost);
    hide Clear, Takeable, If;
    var shm := If(Shm, done) + [];
    assert If(Shm, done) == shm;
    TakeableIf(taken, b5, Shm, done, [], lost);
    var wal := If(Wal, done) + shm;
    TakeableIf(taken, b4, Wal, done, shm, lost);
    var db := If(Db, done) + wal;
    TakeableIf(taken, b3, Db, done, wal, lost);
    var objects := If(Objects, done) + db;
    TakeableIf(taken, b2, Objects, done, db, lost);
    TakeableIf(taken, b1, StagedDb, done, objects, lost);
    TakeableIf(taken, {}, StagedObjects, done, If(StagedDb, done) + objects, lost);
  }

  // ----- the two halves together ------------------------------------------------------------------

  lemma TakenIsPrefix(plan: seq<Name>, calls: nat, fates: Fates)
    requires FirstStop(calls, |plan|, fates) < |plan|
    ensures var k := FirstStop(calls, |plan|, fates);
            Set(plan[..Effects(calls, |plan|, fates)])
            == (if fates(calls + k) == Interrupted then Set(plan[..k]) + {plan[k]} else Set(plan[..k]))
  {
    var k := FirstStop(calls, |plan|, fates);
    assert plan[..k + 1] == plan[..k] + [plan[k]];
    assert Set(plan[..k] + [plan[k]]) == Set(plan[..k]) + {plan[k]};
  }

  /** The state the rollback starts from. */
  lemma FailureReached(before: Files, calls: nat, fates: Fates)
    requires Known(before) && FirstStop(calls, |Plan(before)|, fates) < |Plan(before)|
    ensures var s, f := Switch(before, calls, fates), FailureOf(before, calls, fates);
            && !s.ok && s.done == f.done && s.calls == f.next
            && Reached(before, s.files, Taken(f), {}, Lost(before, f))
  {
    hide At, Switch, Plan, Set;
    SwitchStops(before, calls, fates);
    TakenIsPrefix(Plan(before), calls, fates);
    assert {} + Set(Plan(before)[..FirstStop(calls, |Plan(before)|, fates)])
           == Set(Plan(before)[..FirstStop(calls, |Plan(before)|, fates)]);
    var taken := Set(Plan(before)[..Effects(calls, |Plan(before)|, fates)]);
    assert Gone(Lost(before, FailureOf(before, calls, fates)), {}) == {};
    assert {} + taken == taken && taken - {} == taken && before - {} == before;
  }

  lemma BothTargetsThere(before: Files, now: Files, f: Failure, back: set<Name>)
    requires Shaped(before, f) && Blocked(before, f) && At(before, now, Taken(f), back) && back <= {StagedDb}
    ensures OldObjects in now && Objects in now && !now[Objects].empty
  {
    TargetIsThere(before, now, Taken(f), back, Objects);
    assert Places(before, Taken(f), back)[StagedObjects] == Objects;
  }

  lemma BlockedPlan(before: Files, f: Failure) returns (rest: seq<Name>)
    requires Known(before) && Shaped(before, f) && Blocked(before, f)
    ensures AllOrigins(rest) && UndoPlan(f.done) == [StagedDb] + ([Objects] + rest)
  {
    var done := f.done;
    assert StagedObjects !in done && StagedDb in done && Objects in done;
    rest := If(Db, done) + (If(Wal, done) + If(Shm, done));
    assert [] + ([StagedDb] + ([Objects] + rest)) == [StagedDb] + ([Objects] + rest);
  }

  lemma PlainReached(before: Files, now: Files, taken: set<Name>, back: set<Name>)
    ensures Reached(before, now, taken, back, {}) <==> At(before, now, taken, back)
  {
    hide At;
    assert Gone({}, back) == {} && before - {} == before && taken - {} == taken;
  }

  /** The staged objects stand in the way of the old ones: the rollback ends there. */
  lemma BlockedStops(before: Files, p: Progress, f: Failure, fates: Fates)
    requires p.ok && p.calls == f.next && Known(before) && Shaped(before, f) && Blocked(before, f)
    requires Reached(before, p.files, Taken(f), {}, {})
    requires AllOrigins(UndoPlan(f.done))
    ensures var r := Retire(p, UndoPlan(f.done), fates);
            !r.ok && Reached(before, r.files, Taken(f), TakenBack(before, f, fates), {})
  {
    hide Reached, TryIfThere, At, UndoPlan;
    var rest := BlockedPlan(before, f);
    assert ([StagedDb] + ([Objects] + rest))[1..] == [Objects] + rest;
    assert Clear(Taken(f), {}, StagedDb, {});
    RetireOne(before, p, StagedDb, Taken(f), {}, {}, fates);
    var q := TryIfThere(p, Db, FailedDb, fates);
    StagedTaken(f.next, fates);
    if q.ok {
      PlainReached(before, q.files, Taken(f), {} + {StagedDb});
      BothTargetsThere(before, q.files, f, {} + {StagedDb});
      ObjectsRefused(q, fates);
      var r := TryIfThere(q, OldObjects, Objects, fates);
      assert ([Objects] + rest)[1..] == rest;
      RetireStays(r, rest, fates);
    } else {
      RetireStays(q, [Objects] + rest, fates);
    }
  }

  lemma StagedTaken(calls: nat, fates: Fates)
    ensures Set([StagedDb][..Effects(calls, 1, fates)]) == (if fates(calls) == Refused then {} else {} + {StagedDb})
  {
    assert [StagedDb][..1] == [StagedDb];
  }

  lemma ObjectsRefused(q: Progress, fates: Fates)
    requires q.ok && OldObjects in q.files && Objects in q.files && !q.files[Objects].empty
    ensures var r := TryIfThere(q, OldObjects, Objects, fates); !r.ok && r.files == q.files
  {
  }

  lemma NotInstalled(before: Files, calls: nat, fates: Fates)
    requires !Switch(before, calls, fates).ok
    ensures var r := Rollback(Switch(before, calls, fates), fates);
            Result(before, calls, fates) == (r.files, if r.ok then RolledBack else RollbackFailed)
  {
    hide Switch, Rollback;
  }

  /**
   * Whatever happens to the renames: the rollback takes back what was done, in its own order, up
   * to the first rename that fails, and says so exactly if none does.
   */
  lemma RollbackUndoes(before: Files, calls: nat, fates: Fates)
    requires Known(before) && FirstStop(calls, |Plan(before)|, fates) < |Plan(before)|
    ensures var (now, outcome) := Result(before, calls, fates);
            var f := FailureOf(before, calls, fates);
            && outcome == (if AllUndone(before, f, fates) then RolledBack else RollbackFailed)
            && Reached(before, now, Taken(f), TakenBack(before, f, fates), Lost(before, f))
  {
    hide Switch, Rollback, Reached, Plan, UndoPlan, Takeable, FailureOf, Shaped, Result, Effects, Set;
    FailureReached(before, calls, fates);
    FailureIsShaped(before, calls, fates);
    var s, f := Switch(before, calls, fates), FailureOf(before, calls, fates);
    var p := Progress(s.files, s.calls, true, {});
    RollbackIsPlanned(s, fates);
    NotInstalled(before, calls, fates);
    if Blocked(before, f) {
      BlockedStops(before, p, f, fates);
    } else {
      UndoIsTakeable(before, f);
      RetireStops(before, p, UndoPlan(f.done), Taken(f), {}, Lost(before, f), fates);
      assert {} + TakenBack(before, f, fates) == TakenBack(before, f, fates);
    }
  }

  // ----- the guarantees ------------------------------------------------------------------

  /** Contents stand for the files themselves, so no two entries share one. */
  ghost predicate Separate(files: Files) {
    forall a, b :: a in files && b in files && files[a] == files[b] ==> a == b
  }

  lemma AtHome(before: Files, now: Files, done: set<Name>, n: Name)
    requires At(before, now, done, done) && IsActive(n)
    ensures n in now <==> n in before
    ensures n in before ==> now[n] == before[n]
  {
    AtPlace(before, now, done, done, n);
    if n in before { assert Where(n, done, done) == n && Places(before, done, done)[n] == n; }
  }

  lemma ActiveWhenAllBack(before: Files, now: Files, done: set<Name>)
    requires At(before, now, done, done)
    ensures ActivePart(now) == ActivePart(before)
  {
    hide At;
    forall n | IsActive(n) ensures (n in now <==> n in before) && (n in before ==> now[n] == before[n]) {
      AtHome(before, now, done, n);
    }
  }

  lemma ActiveWhenNotAllBack(before: Files, now: Files, done: set<Name>, back: set<Name>, o: Name)
    requires At(before, now, done, back) && Separate(before) && o in done && o !in back
    ensures ActivePart(now) != ActivePart(before)
  {
    var places := Places(before, done, back);
    assert places[o] == Target(o);
    if IsActive(o) {
      AtPlace(before, now, done, back, o);
      if o in now {
        var x :| x in before && Where(x, done, back) == o;
        assert places[x] == o && now[o] == before[x] && x != o;
        assert ActivePart(now)[o] != ActivePart(before)[o];
      } else {
        assert o in ActivePart(before) && o !in ActivePart(now);
      }
    } else {
      var t := Target(o);
      assert t in ActivePart(now) && ActivePart(now)[t] == before[o];
      assert t in ActivePart(before) ==> ActivePart(before)[t] != before[o];
    }
  }

  /** The active part is as before exactly when all that took effect was taken back. */
  lemma ActiveIff(before: Files, now: Files, taken: set<Name>, back: set<Name>, lost: set<Name>)
    requires Reached(before, now, taken, back, lost) && Separate(before)
    ensures ActivePart(now) == ActivePart(before) <==> taken - Gone(lost, back) == back
  {
    hide At;
    var gone := Gone(lost, back);
    assert ActivePart(before - gone) == ActivePart(before);
    BackIsTaken(before - gone, now, taken - gone, back);
    if taken - gone == back {
      ActiveWhenAllBack(before - gone, now, back);
    } else {
      var o :| o in taken - gone && o !in back;
      ActiveWhenNotAllBack(before - gone, now, taken - gone, back, o);
    }
  }

  lemma BackIsTaken(before: Files, now: Files, taken: set<Name>, back: set<Name>)
    requires At(before, now, taken, back)
    ensures back <= taken
    ensures taken == back || exists o :: o in taken && o !in back
  {
    hide Arranged;
  }

  lemma PrefixIsAll(s: seq<Name>, rank: Name -> nat, e: nat)
    requires Ordered(s, rank) && e <= |s|
    ensures Set(s[..e]) == Set(s) <==> e == |s|
    ensures Set(s[..e]) <= Set(s)
  {
    if e == |s| {
      assert s[..e] == s;
    } else {
      FirstOfOrdered(s, rank, e);
    }
  }

  /** All that took effect was taken back exactly if no interrupt stood in the way and every undo took effect. */
  lemma AllTakenIff(before: Files, f: Failure, fates: Fates)
    requires Known(before) && Shaped(before, f) && f.fate != Moves
    ensures var back, undo := TakenBack(before, f, fates), UndoPlan(f.done);
            (Taken(f) - Gone(Lost(before, f), back) == back <==>
             (f.fate == Refused || Overwrites(before, f)) && Effects(f.next, |undo|, fates) == |undo|)
  {
    hide UndoPlan, Ordered, Effects, Set;
    var undo, back := UndoPlan(f.done), TakenBack(before, f, fates);
    UndoIsOrdered(f.done);
    PrefixIsAll(undo, UndoRank, Effects(f.next, |undo|, fates));
    if Blocked(before, f) {
      StagedTaken(f.next, fates);
      assert f.at in Taken(f) && f.at !in back;
    } else {
      assert back == f.done <==> Effects(f.next, |undo|, fates) == |undo|;
      assert f.at !in f.done && back <= f.done;
      if f.fate == Interrupted { assert f.at in Taken(f) && f.at !in back; }
      if Overwrites(before, f) {
        assert Target(f.at) in f.done && Taken(f) - {f.at} == f.done;
        assert Gone(Lost(before, f), back) == if Target(f.at) in back then {f.at} else {};
      }
      assert f.done - {} == f.done;
    }
  }

  /**
   * For every failure of the switch and every course of the rollback: the active state is as it
   * was exactly when the failed rename had no effect, or put a staged database or an empty staged
   * directory where the old one came back, and every rename of the rollback took effect.
   */
  lemma RestoredIff(before: Files, calls: nat, fates: Fates)
    requires Known(before) && Separate(before) && FirstStop(calls, |Plan(before)|, fates) < |Plan(before)|
    ensures var f := FailureOf(before, calls, fates);
            var undo := UndoPlan(f.done);
            (ActivePart(Result(before, calls, fates).0) == ActivePart(before) <==>
             (f.fate == Refused || Overwrites(before, f)) && Effects(f.next, |undo|, fates) == |undo|)
  {
    hide Result, Reached, Plan, UndoPlan, ActivePart, Shaped, Separate, TakenBack, Effects;
    RollbackUndoes(before, calls, fates);
    FailureIsShaped(before, calls, fates);
    var f := FailureOf(before, calls, fates);
    AllTakenIff(before, f, fates);
    ActiveIff(before, Result(before, calls, fates).0, Taken(f), TakenBack(before, f, fates), Lost(before, f));
  }

  /**
   * The report that the active state was rolled back is true exactly if no save was interrupted
   * after it took effect, and no install onto a path that held nothing before.
   */
  lemma ReportIsTrueIff(before: Files, calls: nat, fates: Fates)
    requires Known(before) && Separate(before) && FirstStop(calls, |Plan(before)|, fates) < |Plan(before)|
    requires Result(before, calls, fates).1 == RolledBack
    ensures var f := FailureOf(before, calls, fates);
            && IsOrigin(f.at)
            && (ActivePart(Result(before, calls, fates).0) == ActivePart(before) <==>
                !(f.fate == Interrupted && (IsActive(f.at) || Target(f.at) !in before)))
  {
    hide Result, Plan, UndoPlan, ActivePart, Separate, Reached, Set;
    RestoredIff(before, calls, fates);
    RollbackUndoes(before, calls, fates);
    FailureIsShaped(before, calls, fates);
  }

  /**
   * What a false report leaves: without the entry whose save was interrupted, or with a staged
   * entry where there was none.
   */
  lemma FalseReportLeaves(before: Files, calls: nat, fates: Fates)
    requires Known(before) && FirstStop(calls, |Plan(before)|, fates) < |Plan(before)|
    requires Result(before, calls, fates).1 == RolledBack
    ensures var f := FailureOf(before, calls, fates);
            && IsOrigin(f.at) && f.at in before
            && (f.fate == Interrupted && (IsActive(f.at) || Target(f.at) !in before) ==>
                ActivePart(Result(before, calls, fates).0)
                == (if IsActive(f.at) then ActivePart(before) - {f.at}
                    else ActivePart(before)[Target(f.at) := before[f.at]]))
  {
    hide Result, Plan, UndoPlan, ActivePart, Reached, Set;
    RollbackUndoes(before, calls, fates);
    FailureIsShaped(before, calls, fates);
    var f := FailureOf(before, calls, fates);
    if f.fate == Interrupted && (IsActive(f.at) || Target(f.at) !in before) {
      AllTaken(before, f, fates);
      PlainReached(before, Result(before, calls, fates).0, f.done + {f.at}, f.done);
      ActiveWithout(before, Result(before, calls, fates).0, f);
    }
  }

  lemma AllTaken(before: Files, f: Failure, fates: Fates)
    requires Known(before) && Shaped(before, f) && AllUndone(before, f, fates)
    ensures TakenBack(before, f, fates) == f.done
  {
    hide Ordered;
    UndoIsOrdered(f.done);
    PrefixIsAll(UndoPlan(f.done), UndoRank, |UndoPlan(f.done)|);
  }

  lemma ActiveWithout(before: Files, now: Files, f: Failure)
    requires Shaped(before, f) && At(before, now, f.done + {f.at}, f.done)
    requires IsActive(f.at) || Target(f.at) !in before
    ensures ActivePart(now) == if IsActive(f.at) then ActivePart(before) - {f.at}
                               else ActivePart(before)[Target(f.at) := before[f.at]]
  {
    hide At, Shaped;
    ShapedAt(before, f);
    forall n | IsActive(n)
      ensures n in now <==> (n in before && n != f.at) || n == Target(f.at)
      ensures n in now ==> now[n] == (if n == Target(f.at) then before[f.at] else before[n])
    {
      EntryWithout(before, now, f, n);
    }
  }

  lemma ShapedAt(before: Files, f: Failure)
    requires Shaped(before, f)
    ensures f.at in before && IsOrigin(f.at)
  {
  }

  lemma EntryWithout(before: Files, now: Files, f: Failure, n: Name)
    requires Shaped(before, f) && At(before, now, f.done + {f.at}, f.done) && IsActive(n)
    requires IsActive(f.at) || Target(f.at) !in before
    ensures n in now <==> (n in before && n != f.at) || n == Target(f.at)
    ensures n in now ==> now[n] == (if n == Target(f.at) then before[f.at] else before[n])
  {
    hide Arranged, Places;
    var taken, o := f.done + {f.at}, f.at;
    AtPlace(before, now, taken, f.done, n);
    EntryEnds(before, now, taken, f.done, o);
    if n in before && n != o { EntryEnds(before, now, taken, f.done, n); }
  }

  /** Where the entries are when it is over, whatever was refused or interrupted, the rollback included. */
  lemma WhereEntriesEnd(before: Files, calls: nat, fates: Fates, o: Name)
    requires Known(before) && FirstStop(calls, |Plan(before)|, fates) < |Plan(before)| && o in before
    ensures var f := FailureOf(before, calls, fates);
            var now, back := Result(before, calls, fates).0, TakenBack(before, f, fates);
            o !in Gone(Lost(before, f), back) ==>
              (IsOrigin(o) && Where(o, Taken(f), back) in now && now[Where(o, Taken(f), back)] == before[o])
  {
    hide Result, Plan, UndoPlan, At, TakenBack, Where;
    RollbackUndoes(before, calls, fates);
    var f := FailureOf(before, calls, fates);
    var now, back := Result(before, calls, fates).0, TakenBack(before, f, fates);
    var gone := Gone(Lost(before, f), back);
    if o !in gone {
      EntryEnds(before - gone, now, Taken(f) - gone, back, o);
      WhereOther(o, Taken(f), back, gone);
    }
  }

  lemma EntryEnds(before: Files, now: Files, done: set<Name>, back: set<Name>, o: Name)
    requires At(before, now, done, back) && o in before
    ensures IsOrigin(o) && Where(o, done, back) in now && now[Where(o, done, back)] == before[o]
  {
    assert Places(before, done, back)[o] == Where(o, done, back);
  }

  lemma WhereOther(o: Name, done: set<Name>, back: set<Name>, gone: set<Name>)
    requires IsOrigin(o) && o !in gone
    ensures Where(o, done - gone, back) == Where(o, done, back)
  {
  }

  /** Success leaves exactly the staged database and objects active, and no old sidecar. */
  ghost predicate StagedIsActive(before: Files, now: Files)
    requires StagedDb in before && StagedObjects in before
  {
    ActivePart(now) == map[Db := before[StagedDb], Objects := before[StagedObjects]]
  }

  lemma InstalledIsStaged(before: Files, now: Files)
    requires Known(before) && At(before, now, before.Keys, {})
    ensures StagedIsActive(before, now)
  {
    var places := Places(before, before.Keys, {});
    assert places[StagedDb] == Db && places[StagedObjects] == Objects;
    forall n | n in ActivePart(now) ensures n == Db || n == Objects {
      AtPlace(before, now, before.Keys, {}, n);
    }
  }

  /** Success is reported exactly if every rename reported it, and installs exactly the staged state. */
  lemma InstalledIff(before: Files, calls: nat, fates: Fates)
    requires Known(before)
    ensures var (now, outcome) := Result(before, calls, fates);
            && (outcome == Installed <==> FirstStop(calls, |Plan(before)|, fates) == |Plan(before)|)
            && (outcome == Installed ==> StagedIsActive(before, now) && At(before, now, before.Keys, {}))
  {
    hide Switch, Rollback, At, Plan, Ordered, StagedIsActive;
    SwitchStops(before, calls, fates);
    PlanIsOrdered(before);
    var s, plan := Switch(before, calls, fates), Plan(before);
    if s.ok {
      assert plan[..|plan|] == plan && {} + Set(plan) == Set(plan);
      InstalledIsStaged(before, s.files);
    }
  }

  /**
   * With atomic renames that may each be refused: success installs exactly the staged state;
   * after a completed rollback the database, its sidecars and the objects are exactly as
   * before, and after a failed rollback they are not; and no path overwrites or loses a file.
   */
  lemma SwitchIsAtomic(before: Files, calls: nat, fates: Fates)
    requires Known(before) && Separate(before) && NeverInterrupted(fates)
    ensures var (now, outcome) := Result(before, calls, fates);
            && (outcome == Installed ==> StagedIsActive(before, now))
            && (outcome == RolledBack ==> ActivePart(now) == ActivePart(before))
            && (outcome == RollbackFailed ==> ActivePart(now) != ActivePart(before))
            && exists places :: Arranged(before, now, places)
  {
    hide Result, Plan, UndoPlan, ActivePart, StagedIsActive, TakenBack, Separate, Arranged;
    InstalledIff(before, calls, fates);
    var (now, outcome) := Result(before, calls, fates);
    if outcome == Installed {
      assert Arranged(before, now, Places(before, before.Keys, {}));
    } else {
      var f := FailureOf(before, calls, fates);
      RollbackUndoes(before, calls, fates);
      RestoredIff(before, calls, fates);
      PlainReached(before, now, Taken(f), TakenBack(before, f, fates));
      assert Arranged(before, now, Places(before, Taken(f), TakenBack(before, f, fates)));
    }
  }

  /** The renames in order, there and back, when everything is there and all of it was moved. */
  lemma RenamesInOrder(before: Files)
    requires Known(before) && Db in before && Wal in before && Shm in before && Objects in before
    ensures Plan(before) == [Db, Wal, Shm, Objects, StagedDb, StagedObjects]
    ensures UndoPlan(before.Keys) == [StagedObjects, StagedDb, Objects, Db, Wal, Shm]
    ensures UndoPlan(before.Keys - {StagedObjects}) == [StagedDb, Objects, Db, Wal, Shm]
    ensures UndoPlan({Db, Wal, Shm, Objects}) == [Objects, Db, Wal, Shm]
    ensures UndoPlan({Db, Wal, Shm}) == [Db, Wal, Shm] && UndoPlan({Db, Wal}) == [Db, Wal] && UndoPlan({Db}) == [Db]
  {
  }

  // ----- the database after a failure ---------------------------------------------------

  /** The staging directory is deleted with everything still in it. */
  predicate LostInCleanup(before: Files, now: Files) {
    Db in before && before[Db] !in ActivePart(now).Values
  }

  /** The old database is lost exactly when its save took effect and the way back did not. */
  lemma DatabaseLostIff(before: Files, calls: nat, fates: Fates)
    requires Known(before) && Separate(before) && Db in before
    requires FirstStop(calls, |Plan(before)|, fates) < |Plan(before)|
    ensures var f := FailureOf(before, calls, fates);
            LostInCleanup(before, Result(before, calls, fates).0)
            <==> Db in Taken(f) && Db !in TakenBack(before, f, fates)
  {
    hide Result, Plan, UndoPlan, At, TakenBack;
    RollbackUndoes(before, calls, fates);
    WhereEntriesEnd(before, calls, fates, Db);
    var f := FailureOf(before, calls, fates);
    var now, back := Result(before, calls, fates).0, TakenBack(before, f, fates);
    var gone := Gone(Lost(before, f), back);
    if Db in Taken(f) && Db !in back {
      OldDbOnly(before - gone, now, Taken(f) - gone, back);
    } else {
      assert Db in now && now[Db] == before[Db];
      assert ActivePart(now)[Db] == before[Db];
    }
  }

  lemma OldDbOnly(before: Files, now: Files, done: set<Name>, back: set<Name>)
    requires At(before, now, done, back) && Separate(before) && Db in done && Db !in back
    ensures Db in before && before[Db] !in ActivePart(now).Values
  {
    forall n | n in ActivePart(now) ensures ActivePart(now)[n] != before[Db] {
      AtPlace(before, now, done, back, n);
      var x :| x in before && Where(x, done, back) == n;
      assert Places(before, done, back)[x] == n;
    }
  }

  function Item(id: nat): Content { Content(id, false) }

  const EXAMPLE: Files :=
    map[Db := Item(1), Objects := Item(2), StagedDb := Item(3), StagedObjects := Item(4)]
  const SAVED: Files :=
    map[OldDb := Item(1), OldObjects := Item(2), StagedDb := Item(3), StagedObjects := Item(4)]

  function RefusedAfterTwo(call: nat): Fate { if call < 2 then Moves else Refused }

  lemma ExampleIsSaved()
    ensures SaveActive(EXAMPLE, 0, RefusedAfterTwo) == Progress(SAVED, 2, true, {Db, Objects})
  {
    var moved: Files := map[OldDb := Item(1), Objects := Item(2), StagedDb := Item(3), StagedObjects := Item(4)];
    assert (EXAMPLE - {Db})[OldDb := Item(1)] == moved;
    assert (moved - {Objects})[OldObjects := Item(2)] == SAVED;
    var p0, p1 := Progress(EXAMPLE, 0, true, {}), Progress(moved, 1, true, {Db});
    assert TryIfThere(p0, Db, OldDb, RefusedAfterTwo) == p1;
    assert Wal !in moved && Shm !in moved;
    assert TryIfThere(p1, Objects, OldObjects, RefusedAfterTwo) == Progress(SAVED, 2, true, {Db, Objects});
  }

  lemma ExampleFailsTwice()
    ensures Result(EXAMPLE, 0, RefusedAfterTwo) == (SAVED, RollbackFailed)
  {
    ExampleIsSaved();
    hide SaveActive;
    var s := Progress(SAVED, 3, false, {Db, Objects});
    assert Switch(EXAMPLE, 0, RefusedAfterTwo) == s;
    assert Rollback(s, RefusedAfterTwo) == Progress(SAVED, 4, false, {});
  }

  /**
   * A second failure inside the rollback is reported with the same error, yet the database
   * stays in the rollback directory, which is deleted with the staging directory.
   */
  lemma DoubleFailureLosesDatabase()
    ensures exists before, fates :: Known(before) && NeverInterrupted(fates)
              && Result(before, 0, fates).1 == RollbackFailed
              && LostInCleanup(before, Result(before, 0, fates).0)
  {
    hide Result;
    ExampleFailsTwice();
    assert ActivePart(SAVED) == map[];
    assert Known(EXAMPLE) && NeverInterrupted(RefusedAfterTwo);
    assert LostInCleanup(EXAMPLE, SAVED);
  }

  /**
   * An interrupt that lands between the first rename and its flag: the error says the state
   * was rolled back, but nothing is undone and the database is lost.
   */
  lemma InterruptedMoveLosesDatabase(before: Files, calls: nat, fates: Fates)
    requires Known(before) && Separate(before) && Db in before && fates(calls) == Interrupted
    ensures Result(before, calls, fates).1 == RolledBack
    ensures LostInCleanup(before, Result(before, calls, fates).0)
  {
    var now := Renamed(before, Db, OldDb, Interrupted);
    assert SaveActive(before, calls, fates) == Progress(now, calls + 1, false, {});
    assert Result(before, calls, fates) == (now, RolledBack);
    forall n | n in ActivePart(now) ensures ActivePart(now)[n] != before[Db] {
      assert n != Db && now[n] == before[n];
    }
  }
}
