// The restore switch: a fixed sequence of renames with a rollback that may itself fail.  Each
// rename is atomic but may be refused, or may take effect and then be interrupted before the
// progress flag behind it is set.  This module holds the switch and follows it forward, whatever
// happens to its renames; RestoreOutcomes follows the rollback and says what is left.
module Restore {

  /** The paths the switch touches: active, staged, saved in the rollback directory, and discarded. */
  datatype Name =
    | Db | Wal | Shm | Objects
    | StagedDb | StagedObjects
    | OldDb | OldWal | OldShm | OldObjects
    | FailedDb | FailedObjects

  /** A file or directory itself, whatever its path; only of a directory it matters whether it is empty. */
  datatype Content = Content(id: nat, empty: bool)

  type Files = map<Name, Content>

  datatype Fate = Moves | Refused | Interrupted

  /** What happens to the n-th rename. */
  type Fates = nat -> Fate

  predicate IsDirectory(n: Name) {
    n == Objects || n == StagedObjects || n == OldObjects || n == FailedObjects
  }

  /** A directory replaces an empty one and no other; a file replaces the file that is there. */
  predicate CanMove(files: Files, from: Name, to: Name, fate: Fate) {
    from in files && fate != Refused && !(IsDirectory(to) && to in files && !files[to].empty)
  }

  function Renamed(files: Files, from: Name, to: Name, fate: Fate): Files {
    if CanMove(files, from, to, fate) then (files - {from})[to := files[from]] else files
  }

  /** The files after the n-th rename, and whether it reported success. */
  function Attempt(files: Files, calls: nat, from: Name, to: Name, fates: Fates): (Files, bool) {
    (Renamed(files, from, to, fates(calls)), CanMove(files, from, to, fates(calls)) && fates(calls) == Moves)
  }

  class FileSystem {
    var files: Files
    var calls: nat

    constructor (files: Files)
      ensures this.files == files && calls == 0
    {
      this.files, calls := files, 0;
    }

    method Replace(from: Name, to: Name, fates: Fates) returns (ok: bool)
      modifies this
      ensures calls == old(calls) + 1
      ensures (files, ok) == Attempt(old(files), old(calls), from, to, fates)
    {
      var fate := fates(calls);
      calls := calls + 1;
      if !CanMove(files, from, to, fate) { return false; }
      files := (files - {from})[to := files[from]];
      return fate == Moves;
    }
  }

  // ----- the switch -----------------------------------------------------------

  /** How far a sequence of renames got; done holds the source of every rename known to be over. */
  datatype Progress = Progress(files: Files, calls: nat, ok: bool, done: set<Name>)

  /** After the first failure nothing more is attempted. */
  function Try(p: Progress, from: Name, to: Name, fates: Fates): Progress {
    if !p.ok then p
    else
      var (files, ok) := Attempt(p.files, p.calls, from, to, fates);
      Progress(files, p.calls + 1, ok, if ok then p.done + {from} else p.done)
  }

  function TryIfThere(p: Progress, from: Name, to: Name, fates: Fates): Progress {
    if from in p.files then Try(p, from, to, fates) else p
  }

  function SaveActive(files: Files, calls: nat, fates: Fates): Progress {
    var p := TryIfThere(Progress(files, calls, true, {}), Db, OldDb, fates);
    var q := TryIfThere(TryIfThere(p, Wal, OldWal, fates), Shm, OldShm, fates);
    TryIfThere(q, Objects, OldObjects, fates)
  }

  function Switch(files: Files, calls: nat, fates: Fates): Progress {
    Try(Try(SaveActive(files, calls, fates), StagedDb, Db, fates), StagedObjects, Objects, fates)
  }

  function UndoIf(p: Progress, known: bool, from: Name, to: Name, fates: Fates): Progress {
    if known then TryIfThere(p, from, to, fates) else p
  }

  /** Undo what is known to be done, newest first, sidecars last. */
  function Rollback(s: Progress, fates: Fates): Progress {
    var a := UndoIf(Progress(s.files, s.calls, true, {}), StagedObjects in s.done, Objects, FailedObjects, fates);
    var b := UndoIf(a, StagedDb in s.done, Db, FailedDb, fates);
    var c := UndoIf(b, Objects in s.done, OldObjects, Objects, fates);
    var d := UndoIf(c, Db in s.done, OldDb, Db, fates);
    UndoIf(UndoIf(d, Wal in s.done, OldWal, Wal, fates), Shm in s.done, OldShm, Shm, fates)
  }

  /** Both kinds of failure raise the same error; only a note tells them apart. */
  datatype Outcome = Installed | RolledBack | RollbackFailed

  function Result(files: Files, calls: nat, fates: Fates): (Files, Outcome) {
    var s := Switch(files, calls, fates);
    if s.ok then (s.files, Installed)
    else
      var r := Rollback(s, fates);
      (r.files, if r.ok then RolledBack else RollbackFailed)
  }

  /** Move one active entry aside, if the switch is still going and the entry exists. */
  method SaveOne(fs: FileSystem, ok0: bool, done0: set<Name>, active: Name, saved: Name, fates: Fates)
    returns (ok: bool, done: set<Name>)
    modifies fs
    ensures Progress(fs.files, fs.calls, ok, done)
            == TryIfThere(Progress(old(fs.files), old(fs.calls), ok0, done0), active, saved, fates)
  {
    hide Attempt;
    ok, done := ok0, done0;
    if ok && active in fs.files {
      ok := fs.Replace(active, saved, fates);
      if ok { done := done + {active}; }
    }
  }

  /** The forward half: the progress flags are the set of sources moved so far. */
  method SaveOriginals(fs: FileSystem, fates: Fates) returns (ok: bool, done: set<Name>)
    modifies fs
    ensures Progress(fs.files, fs.calls, ok, done) == SaveActive(old(fs.files), old(fs.calls), fates)
  {
    hide Try, TryIfThere;
    ok, done := SaveOne(fs, true, {}, Db, OldDb, fates);
    ok, done := SaveOne(fs, ok, done, Wal, OldWal, fates);
    ok, done := SaveOne(fs, ok, done, Shm, OldShm, fates);
    ok, done := SaveOne(fs, ok, done, Objects, OldObjects, fates);
  }

  method InstallForward(fs: FileSystem, fates: Fates) returns (ok: bool, done: set<Name>)
    modifies fs
    ensures Progress(fs.files, fs.calls, ok, done) == Switch(old(fs.files), old(fs.calls), fates)
  {
    hide Attempt, SaveActive;
    ok, done := SaveOriginals(fs, fates);
    if ok {
      ok := fs.Replace(StagedDb, Db, fates);
      if ok {
        done := done + {StagedDb};
        ok := fs.Replace(StagedObjects, Objects, fates);
        if ok { done := done + {StagedObjects}; }
      }
    }
  }

  method UndoMove(fs: FileSystem, ok0: bool, ghost done0: set<Name>, known: bool, from: Name, to: Name, fates: Fates)
    returns (ok: bool, ghost done: set<Name>)
    modifies fs
    ensures Progress(fs.files, fs.calls, ok, done)
            == UndoIf(Progress(old(fs.files), old(fs.calls), ok0, done0), known, from, to, fates)
  {
    hide Attempt;
    ok, done := ok0, done0;
    if ok && known && from in fs.files {
      ok := fs.Replace(from, to, fates);
      if ok { done := done + {from}; }
    }
  }

  method RollBack(fs: FileSystem, done: set<Name>, fates: Fates) returns (ok: bool)
    modifies fs
    ensures var r := Rollback(Progress(old(fs.files), old(fs.calls), false, done), fates);
            fs.files == r.files && fs.calls == r.calls && ok == r.ok
  {
    hide UndoIf;
    ghost var back: set<Name>;
    ok, back := UndoMove(fs, true, {}, StagedObjects in done, Objects, FailedObjects, fates);
    ok, back := UndoMove(fs, ok, back, StagedDb in done, Db, FailedDb, fates);
    ok, back := UndoMove(fs, ok, back, Objects in done, OldObjects, Objects, fates);
    ok, back := UndoMove(fs, ok, back, Db in done, OldDb, Db, fates);
    ok, back := UndoMove(fs, ok, back, Wal in done, OldWal, Wal, fates);
    ok, back := UndoMove(fs, ok, back, Shm in done, OldShm, Shm, fates);
  }

  method AtomicInstallRestore(fs: FileSystem, fates: Fates) returns (outcome: Outcome)
    modifies fs
    ensures (fs.files, outcome) == Result(old(fs.files), old(fs.calls), fates)
  {
    var ok, done := InstallForward(fs, fates);
    if ok { return Installed; }
    ok := RollBack(fs, done, fates);
    return if ok then RolledBack else RollbackFailed;
  }

  // ----- what the switch promises -------------------------------------------------

  predicate IsActive(n: Name) { n == Db || n == Wal || n == Shm || n == Objects }

  predicate IsStaged(n: Name) { n == StagedDb || n == StagedObjects }

  /** Entries the switch moves; its own directories start empty. */
  predicate IsOrigin(n: Name) { IsActive(n) || IsStaged(n) }

  ghost predicate Known(before: Files) {
    StagedDb in before && StagedObjects in before && Origins(before)
  }

  ghost predicate Origins(before: Files) { forall o :: o in before ==> IsOrigin(o) }

  /** What a restarted program sees, once the staging directory is cleaned up. */
  function ActivePart(files: Files): Files {
    map n | n in files && IsActive(n) :: files[n]
  }

  ghost predicate NeverInterrupted(fates: Fates) { forall i :: fates(i) != Interrupted }

  /** Where the switch takes an entry, and where the rollback takes it from there. */
  function Target(origin: Name): Name
    requires IsOrigin(origin)
  {
    match origin
    case Db => OldDb
    case Wal => OldWal
    case Shm => OldShm
    case Objects => OldObjects
    case StagedDb => Db
    case _ => Objects
  }

  function Retreat(origin: Name): Name
    requires IsOrigin(origin)
  {
    match origin
    case StagedDb => FailedDb
    case StagedObjects => FailedObjects
    case _ => origin
  }

  function Where(origin: Name, done: set<Name>, back: set<Name>): Name
    requires IsOrigin(origin)
  {
    if origin in back then Retreat(origin) else if origin in done then Target(origin) else origin
  }

  function Places(before: Files, done: set<Name>, back: set<Name>): map<Name, Name>
    requires forall o :: o in before ==> IsOrigin(o)
  {
    map o | o in before :: Where(o, done, back)
  }

  /** Every entry is in its own place and nothing else exists: nothing was lost or overwritten. */
  ghost predicate Arranged<K(!new)>(before: map<K, Content>, now: map<K, Content>, places: map<K, K>) {
    && places.Keys == before.Keys
    && (forall o :: o in places ==> places[o] in now && now[places[o]] == before[o])
    && (forall a, b :: a in places && b in places && places[a] == places[b] ==> a == b)
    && (forall n :: n in now ==> n in places.Values)
  }

  lemma MoveOne<K(!new)>(before: map<K, Content>, now: map<K, Content>, places: map<K, K>, o: K, to: K)
    requires Arranged(before, now, places) && o in places && to !in now
    ensures places[o] in now
    ensures Arranged(before, (now - {places[o]})[to := now[places[o]]], places[o := to])
  {
    var next, moved := (now - {places[o]})[to := now[places[o]]], places[o := to];
    forall n | n in next ensures n in moved.Values {
      if n == to {
        assert moved[o] == n;
      } else {
        var x :| x in places && places[x] == n;
        assert moved[x] == n;
      }
    }
  }

  /** One entry put on top of another: the one that was there is gone, and all else is in place. */
  lemma MoveOver<K(!new)>(before: map<K, Content>, now: map<K, Content>, places: map<K, K>, o: K, lost: K)
    requires Arranged(before, now, places) && o in places && lost in places && o != lost
    ensures places[o] in now
    ensures Arranged(before - {lost}, (now - {places[o]})[places[lost] := now[places[o]]],
                     (places - {lost})[o := places[lost]])
  {
    var to := places[lost];
    var next, moved := (now - {places[o]})[to := now[places[o]]], (places - {lost})[o := to];
    forall n | n in next ensures n in moved.Values {
      if n == to {
        assert moved[o] == n;
      } else {
        var x :| x in places && places[x] == n;
        assert moved[x] == n;
      }
    }
  }

  /** The entries of before with those in done moved by the switch, and of these back moved by the rollback. */
  ghost predicate At(before: Files, now: Files, done: set<Name>, back: set<Name>) {
    Origins(before) && back <= done <= before.Keys && Arranged(before, now, Places(before, done, back))
  }

  lemma Present<K(!new)>(before: map<K, Content>, now: map<K, Content>, places: map<K, K>, n: K)
    requires Arranged(before, now, places)
    ensures n in now <==> exists o :: o in before && places[o] == n
  {
    if n in now {
      var o :| o in places && places[o] == n;
    }
  }

  lemma AtPlace(before: Files, now: Files, done: set<Name>, back: set<Name>, n: Name)
    requires At(before, now, done, back)
    ensures n in now <==> exists o :: o in before && Where(o, done, back) == n
  {
    Present(before, now, Places(before, done, back), n);
    hide Arranged;
    forall o | o in before ensures Places(before, done, back)[o] == Where(o, done, back) {}
  }

  lemma MoveForward(before: Files, now: Files, done: set<Name>, o: Name, fate: Fate)
    requires At(before, now, done, {}) && o in before && o !in done && Target(o) !in now
    ensures CanMove(now, o, Target(o), fate) <==> fate != Refused
    ensures if fate == Refused then Renamed(now, o, Target(o), fate) == now
            else At(before, Renamed(now, o, Target(o), fate), done + {o}, {})
  {
    hide Arranged;
    MoveOne(before, now, Places(before, done, {}), o, Target(o));
    assert Places(before, done + {o}, {}) == Places(before, done, {})[o := Target(o)];
  }

  lemma MoveBack(before: Files, now: Files, done: set<Name>, back: set<Name>, o: Name, fate: Fate)
    requires At(before, now, done, back) && o in done && o !in back && Retreat(o) !in now
    ensures CanMove(now, Target(o), Retreat(o), fate) <==> fate != Refused
    ensures if fate == Refused then Renamed(now, Target(o), Retreat(o), fate) == now
            else At(before, Renamed(now, Target(o), Retreat(o), fate), done, back + {o})
  {
    hide Arranged;
    MoveOne(before, now, Places(before, done, back), o, Retreat(o));
    assert Places(before, done, back + {o}) == Places(before, done, back)[o := Retreat(o)];
  }

  // ----- the renames as one list -------------------------------------------------------

  function If(n: Name, there: set<Name>): seq<Name> { if n in there then [n] else [] }

  function Set(s: seq<Name>): set<Name> { set n | n in s }

  /** The origins of the renames of the switch, in order. */
  function Plan(before: Files): seq<Name> {
    If(Db, before.Keys) + (If(Wal, before.Keys) + (If(Shm, before.Keys) + (If(Objects, before.Keys)
    + [StagedDb, StagedObjects])))
  }

  /** The origins the rollback takes back, newest first and the sidecars last. */
  function UndoPlan(done: set<Name>): seq<Name> {
    If(StagedObjects, done) + (If(StagedDb, done) + (If(Objects, done)
    + (If(Db, done) + (If(Wal, done) + If(Shm, done)))))
  }

  /** How many of the next n renames report success before one does not. */
  function FirstStop(calls: nat, n: nat, fates: Fates): (k: nat)
    ensures k <= n && (k < n ==> fates(calls + k) != Moves)
    ensures forall c: nat :: calls <= c < calls + k ==> fates(c) == Moves
    decreases n
  {
    if n == 0 || fates(calls) != Moves then 0 else 1 + FirstStop(calls + 1, n - 1, fates)
  }

  /** How many of them take effect: an interrupted one does, although it reports failure. */
  function Effects(calls: nat, n: nat, fates: Fates): (k: nat)
    ensures k <= n
  {
    var k := FirstStop(calls, n, fates);
    if k < n && fates(calls + k) == Interrupted then k + 1 else k
  }

  ghost predicate AllOrigins(s: seq<Name>) { forall o :: o in s ==> IsOrigin(o) }

  ghost function Advance(p: Progress, plan: seq<Name>, fates: Fates): Progress
    requires AllOrigins(plan)
    decreases |plan|
  {
    if plan == [] then p else Advance(Try(p, plan[0], Target(plan[0]), fates), plan[1..], fates)
  }

  ghost function Retire(p: Progress, undo: seq<Name>, fates: Fates): Progress
    requires AllOrigins(undo)
    decreases |undo|
  {
    if undo == [] then p else Retire(TryIfThere(p, Target(undo[0]), Retreat(undo[0]), fates), undo[1..], fates)
  }

  lemma {:induction false} AdvanceStays(p: Progress, plan: seq<Name>, fates: Fates)
    requires AllOrigins(plan) && !p.ok
    ensures Advance(p, plan, fates) == p
  {
    if plan != [] { AdvanceStays(p, plan[1..], fates); }
  }

  lemma {:induction false} RetireStays(p: Progress, undo: seq<Name>, fates: Fates)
    requires AllOrigins(undo) && !p.ok
    ensures Retire(p, undo, fates) == p
  {
    if undo != [] { RetireStays(p, undo[1..], fates); }
  }

  /** Every entry of the plan is still where it was, and its place has been cleared. */
  ghost predicate Runnable(before: Files, done: set<Name>, plan: seq<Name>)
    decreases |plan|
  {
    plan == [] ||
    (plan[0] in before && plan[0] !in done && IsOrigin(plan[0])
     && (Target(plan[0]) in before ==> Target(plan[0]) in done)
     && Runnable(before, done + {plan[0]}, plan[1..]))
  }

  lemma {:induction false} RunnableOrigins(before: Files, done: set<Name>, plan: seq<Name>)
    requires Runnable(before, done, plan)
    ensures AllOrigins(plan) && Set(plan) <= before.Keys && Set(plan) !! done
    decreases |plan|
  {
    if plan != [] { RunnableOrigins(before, done + {plan[0]}, plan[1..]); }
  }

  lemma TakeFirst(o: Name, rest: seq<Name>, done: set<Name>, k: nat)
    requires k <= |rest|
    ensures ([o] + rest)[..k + 1] == [o] + rest[..k]
    ensures done + Set(([o] + rest)[..k + 1]) == done + {o} + Set(rest[..k])
  {
    assert ([o] + rest)[..k + 1] == [o] + rest[..k];
  }

  /** A plan was run up to the first rename that failed, which may still have taken effect. */
  ghost predicate Stopped(before: Files, p: Progress, plan: seq<Name>, q: Progress, fates: Fates) {
    var k := FirstStop(p.calls, |plan|, fates);
    && (q.ok <==> k == |plan|)
    && q.calls == p.calls + (if k == |plan| then k else k + 1)
    && q.done == p.done + Set(plan[..k])
    && At(before, q.files, p.done + Set(plan[..Effects(p.calls, |plan|, fates)]), {})
  }

  lemma {:induction false} AdvanceStops(before: Files, p: Progress, plan: seq<Name>, fates: Fates)
    requires p.ok && At(before, p.files, p.done, {}) && Runnable(before, p.done, plan) && AllOrigins(plan)
    ensures Stopped(before, p, plan, Advance(p, plan, fates), fates)
    decreases |plan|
  {
    hide At, Try, Stopped;
    if plan == [] {
      StopsAtOnce(before, p, plan, fates);
    } else {
      var o, rest := plan[0], plan[1..];
      assert plan == [o] + rest;
      AdvanceOne(before, p, o, fates);
      var q := Try(p, o, Target(o), fates);
      if q.ok {
        AdvanceStops(before, q, rest, fates);
        StopsLater(before, p, o, rest, q, Advance(q, rest, fates), fates);
      } else {
        AdvanceStays(q, rest, fates);
        StopsHere(before, p, o, rest, q, fates);
      }
    }
  }

  lemma StopsAtOnce(before: Files, p: Progress, plan: seq<Name>, fates: Fates)
    requires p.ok && At(before, p.files, p.done, {}) && plan == []
    ensures Stopped(before, p, plan, p, fates)
  {
    hide At;
    NoneTaken(p.done, plan);
  }

  lemma StopsLater(before: Files, p: Progress, o: Name, rest: seq<Name>, q: Progress, r: Progress, fates: Fates)
    requires q.done == p.done + {o} && q.calls == p.calls + 1 && fates(p.calls) == Moves
    requires Stopped(before, q, rest, r, fates)
    ensures Stopped(before, p, [o] + rest, r, fates)
  {
    hide At, Set;
    TakeFirst(o, rest, p.done, FirstStop(q.calls, |rest|, fates));
    TakeFirst(o, rest, p.done, Effects(q.calls, |rest|, fates));
  }

  lemma StopsHere(before: Files, p: Progress, o: Name, rest: seq<Name>, q: Progress, fates: Fates)
    requires !q.ok && q.done == p.done && q.calls == p.calls + 1 && fates(p.calls) != Moves
    requires At(before, q.files, if fates(p.calls) == Refused then p.done else p.done + {o}, {})
    ensures Stopped(before, p, [o] + rest, q, fates)
  {
    hide At, Set;
    NoneTaken(p.done, [o] + rest);
    TakeFirst(o, rest, p.done, 0);
    NoneTaken(p.done + {o}, rest);
  }

  lemma NoneTaken(done: set<Name>, plan: seq<Name>)
    ensures done + Set(plan[..0]) == done
  {
  }

  lemma AdvanceOne(before: Files, p: Progress, o: Name, fates: Fates)
    requires p.ok && At(before, p.files, p.done, {}) && o in before && o !in p.done
    requires Target(o) in before ==> Target(o) in p.done
    ensures var q := Try(p, o, Target(o), fates);
            && q.calls == p.calls + 1 && (q.ok <==> fates(p.calls) == Moves)
            && q.done == (if q.ok then p.done + {o} else p.done)
            && At(before, q.files, if fates(p.calls) == Refused then p.done else p.done + {o}, {})
  {
    AtPlace(before, p.files, p.done, {}, Target(o));
    MoveForward(before, p.files, p.done, o, fates(p.calls));
    hide At;
  }

  // ----- the switch follows its plan ------------------------------------------------------

  ghost predicate Forward(before: Files, p: Progress) {
    p.ok ==> At(before, p.files, p.done, {})
  }

  lemma StartsForward(before: Files, p: Progress)
    requires Origins(before) && p.files == before && p.done == {}
    ensures At(before, p.files, p.done, {})
  {
    assert forall n :: n in before ==> Places(before, {}, {})[n] == n;
    assert forall n :: n in before ==> n in Places(before, {}, {}).Values;
  }

  /** An active entry is still there when its turn comes exactly if it was there before. */
  lemma SaveIsPlanned(before: Files, p: Progress, o: Name, fates: Fates)
    requires Origins(before) && Forward(before, p) && IsActive(o) && o !in p.done
    requires p.ok ==> StagedDb !in p.done && StagedObjects !in p.done
    ensures var q := TryIfThere(p, o, Target(o), fates);
            q == Advance(p, If(o, before.Keys), fates) && Forward(before, q) && p.done <= q.done <= p.done + {o}
  {
    hide At, Try;
    if p.ok {
      StillThere(before, p, o);
      if o in before { AdvanceOne(before, p, o, fates); }
    } else {
      AdvanceStays(p, If(o, before.Keys), fates);
      TryStays(p, o, Target(o), fates);
    }
    assert o in before ==> Advance(p, [o], fates) == Try(p, o, Target(o), fates);
  }

  lemma StillThere(before: Files, p: Progress, o: Name)
    requires At(before, p.files, p.done, {}) && IsActive(o) && o !in p.done
    requires StagedDb !in p.done && StagedObjects !in p.done
    ensures o in before <==> o in p.files
    ensures o in before ==> Target(o) !in before
  {
    AtPlace(before, p.files, p.done, {}, o);
    if o in before { assert Where(o, p.done, {}) == o; }
  }

  lemma TryStays(p: Progress, from: Name, to: Name, fates: Fates)
    requires !p.ok
    ensures TryIfThere(p, from, to, fates) == p
  {
  }

  lemma {:induction false} AdvanceOver(p: Progress, first: seq<Name>, rest: seq<Name>, fates: Fates)
    requires AllOrigins(first) && AllOrigins(rest)
    ensures AllOrigins(first + rest)
    ensures Advance(p, first + rest, fates) == Advance(Advance(p, first, fates), rest, fates)
    decreases |first|
  {
    if first == [] {
      assert first + rest == rest;
    } else {
      assert (first + rest)[1..] == first[1..] + rest;
      AdvanceOver(Try(p, first[0], Target(first[0]), fates), first[1..], rest, fates);
    }
  }

  lemma SwitchIsPlanned(before: Files, calls: nat, fates: Fates)
    requires Origins(before)
    ensures AllOrigins(Plan(before))
    ensures Switch(before, calls, fates) == Advance(Progress(before, calls, true, {}), Plan(before), fates)
  {
    hide Try, TryIfThere, Forward;
    var there := before.Keys;
    var p0 := Progress(before, calls, true, {});
    StartsForward(before, p0);
    StartIsForward(before, p0);
    SaveIsPlanned(before, p0, Db, fates);
    var p1 := TryIfThere(p0, Db, OldDb, fates);
    SaveIsPlanned(before, p1, Wal, fates);
    var p2 := TryIfThere(p1, Wal, OldWal, fates);
    SaveIsPlanned(before, p2, Shm, fates);
    var p3 := TryIfThere(p2, Shm, OldShm, fates);
    SaveIsPlanned(before, p3, Objects, fates);
    var last := [StagedDb, StagedObjects];
    AdvanceOver(p3, If(Objects, there), last, fates);
    AdvanceOver(p2, If(Shm, there), If(Objects, there) + last, fates);
    AdvanceOver(p1, If(Wal, there), If(Shm, there) + (If(Objects, there) + last), fates);
    AdvanceOver(p0, If(Db, there), If(Wal, there) + (If(Shm, there) + (If(Objects, there) + last)), fates);
    var p4 := TryIfThere(p3, Objects, OldObjects, fates);
    InstallIsPlanned(p4, fates);
  }

  lemma StartIsForward(before: Files, p: Progress)
    requires At(before, p.files, p.done, {})
    ensures Forward(before, p)
  {
  }

  lemma InstallIsPlanned(p: Progress, fates: Fates)
    ensures Try(Try(p, StagedDb, Db, fates), StagedObjects, Objects, fates)
            == Advance(p, [StagedDb, StagedObjects], fates)
  {
    hide Try;
    var q := Try(p, StagedDb, Db, fates);
    assert [StagedDb, StagedObjects][1..] == [StagedObjects];
    assert Advance(q, [StagedObjects], fates) == Try(q, StagedObjects, Objects, fates);
  }

  lemma RunnableIf(before: Files, done: set<Name>, o: Name, rest: seq<Name>)
    requires IsOrigin(o) && o !in done && (Target(o) in before ==> Target(o) in done)
    requires Runnable(before, if o in before then done + {o} else done, rest)
    ensures Runnable(before, done, If(o, before.Keys) + rest)
  {
    if o in before {
      assert ([o] + rest)[1..] == rest;
    } else {
      assert [] + rest == rest;
    }
  }

  lemma InstallsAreRunnable(before: Files, done: set<Name>)
    requires Known(before) && forall n :: n in done <==> n in before && IsActive(n)
    ensures Runnable(before, done, [StagedDb, StagedObjects])
  {
    var last := [StagedDb, StagedObjects];
    assert last[1..] == [StagedObjects] && last[1..][1..] == [];
    assert Runnable(before, done + {StagedDb}, [StagedObjects]);
  }

  lemma PlanIsRunnable(before: Files)
    requires Known(before)
    ensures Runnable(before, {}, Plan(before))
  {
    hide Runnable;
    var there := before.Keys;
    var d1 := if Db in before then {Db} else {};
    var d2 := if Wal in before then d1 + {Wal} else d1;
    var d3 := if Shm in before then d2 + {Shm} else d2;
    var d4 := if Objects in before then d3 + {Objects} else d3;
    var last := [StagedDb, StagedObjects];
    InstallsAreRunnable(before, d4);
    RunnableIf(before, d3, Objects, last);
    RunnableIf(before, d2, Shm, If(Objects, there) + last);
    RunnableIf(before, d1, Wal, If(Shm, there) + (If(Objects, there) + last));
    assert Db in before ==> {} + {Db} == d1;
    RunnableIf(before, {}, Db, If(Wal, there) + (If(Shm, there) + (If(Objects, there) + last)));
  }

  lemma SwitchStops(before: Files, calls: nat, fates: Fates)
    requires Known(before)
    ensures Stopped(before, Progress(before, calls, true, {}), Plan(before), Switch(before, calls, fates), fates)
  {
    hide At, Switch, Plan, Stopped;
    var p := Progress(before, calls, true, {});
    StartsForward(before, p);
    SwitchIsPlanned(before, calls, fates);
    PlanIsRunnable(before);
    AdvanceStops(before, p, Plan(before), fates);
  }
}
