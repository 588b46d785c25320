// One-time approvals: the durable lifecycle of a request, and the execution of the one tool
// call it authorizes.
module Approvals {

  type Id = nat
  type Token = nat

  datatype Option<+T> = None | Some(value: T)

  datatype State = Pending | Executing | Approved | Denied | Unknown

  /** The exact action a request is bound to, arguments included by their digest. */
  datatype Binding = Binding(profile: nat, channel: nat, chat: nat, event: nat, tool: nat, kind: nat, arguments: nat)

  datatype Row = Row(binding: Binding, state: State, token: Option<Token>, code: string, expires: int)

  datatype Action = Requested | Claims | Decided | Executed | Recovers | Expires

  datatype Entry = Entry(action: Action, state: State)

  /** The rows, and for each the audit entries written about it, oldest first. */
  datatype Book = Book(rows: map<Id, Row>, paths: map<Id, seq<Entry>>)

  predicate Terminal(s: State) { s == Approved || s == Denied || s == Unknown }

  // ----- what each operation does ------------------------------------------------

  function Bound(rows: map<Id, Row>, b: Binding): (ids: set<Id>)
    ensures forall id :: id in ids <==> id in rows && rows[id].binding == b
  {
    set id | id in rows && rows[id].binding == b
  }

  /** Insertion is skipped when the id or the binding is taken. */
  function Created(b: Book, id: Id, binding: Binding, expires: int): Book {
    if id in b.rows || Bound(b.rows, binding) != {} then b
    else Book(b.rows[id := Row(binding, Pending, None, "", expires)], b.paths[id := [Entry(Requested, Pending)]])
  }

  predicate Overdue(row: Row, profile: nat, now: int) {
    row.binding.profile == profile && row.state == Pending && row.expires <= now
  }

  function OverdueIds(rows: map<Id, Row>, profile: nat, now: int): set<Id> {
    set id | id in rows && Overdue(rows[id], profile, now)
  }

  function Appended(paths: map<Id, seq<Entry>>, ids: set<Id>, e: Entry): map<Id, seq<Entry>> {
    map id | id in paths :: if id in ids then paths[id] + [e] else paths[id]
  }

  function Expired(b: Book, profile: nat, now: int): Book {
    Book(map id | id in b.rows :: if Overdue(b.rows[id], profile, now)
                                  then b.rows[id].(state := Denied, code := "expired") else b.rows[id],
         Appended(b.paths, OverdueIds(b.rows, profile, now), Entry(Expires, Denied)))
  }

  function Moved(b: Book, id: Id, row: Row, e: Entry): Book
    requires id in b.paths
  {
    Book(b.rows[id := row], b.paths[id := b.paths[id] + [e]])
  }

  predicate Open(b: Book, id: Id, profile: nat) {
    id in b.rows && id in b.paths && b.rows[id].binding.profile == profile && b.rows[id].state == Pending
  }

  function Claimed(b: Book, id: Id, profile: nat, now: int, token: Token): (Book, bool) {
    var e := Expired(b, profile, now);
    if Open(e, id, profile) && e.rows[id].expires > now
    then (Moved(e, id, e.rows[id].(state := Executing, token := Some(token)), Entry(Claims, Executing)), true)
    else (e, false)
  }

  function Refused(b: Book, id: Id, profile: nat, now: int, code: string): (Book, bool) {
    var e := Expired(b, profile, now);
    if Open(e, id, profile)
    then (Moved(e, id, e.rows[id].(state := Denied, code := code), Entry(Decided, Denied)), true)
    else (e, false)
  }

  predicate ClaimedBy(b: Book, id: Id, profile: nat, token: Token) {
    && id in b.rows && id in b.paths && b.rows[id].binding.profile == profile
    && b.rows[id].state == Executing && b.rows[id].token == Some(token)
  }

  function Resolved(b: Book, id: Id, profile: nat, token: Token, outcome: State, code: string): (Book, bool) {
    if Terminal(outcome) && ClaimedBy(b, id, profile, token)
    then (Moved(b, id, b.rows[id].(state := outcome, code := code), Entry(Executed, outcome)), true)
    else (b, false)
  }

  predicate Interrupted(row: Row, profile: nat) { row.binding.profile == profile && row.state == Executing }

  function InterruptedIds(rows: map<Id, Row>, profile: nat): set<Id> {
    set id | id in rows && Interrupted(rows[id], profile)
  }

  function Recovered(b: Book, profile: nat): Book {
    Book(map id | id in b.rows :: if Interrupted(b.rows[id], profile)
                                  then b.rows[id].(state := Unknown, code := "interrupted_execution") else b.rows[id],
         Appended(b.paths, InterruptedIds(b.rows, profile), Entry(Recovers, Unknown)))
  }

  // ----- what a row is afterwards -------------------------------------------------

  /** Pending, of this profile, and its time has come. */
  ghost predicate TimedOut(row: Row, profile: nat, now: int) {
    row.state == Pending && row.binding.profile == profile && !(now < row.expires)
  }

  /** One row and its audit path after a call at this time that decides about `id`, or about nothing. */
  ghost predicate RowAfter(b: Book, c: Book, x: Id, profile: nat, now: int, decided: bool, to: Row, e: Entry)
    requires x in b.rows && x in b.paths
  {
    && x in c.rows && x in c.paths
    && if decided then c.rows[x] == to && c.paths[x] == b.paths[x] + [e]
       else if TimedOut(b.rows[x], profile, now) then
         && c.rows[x] == Row(b.rows[x].binding, Denied, b.rows[x].token, "expired", b.rows[x].expires)
         && c.paths[x] == b.paths[x] + [Entry(Expires, Denied)]
       else c.rows[x] == b.rows[x] && c.paths[x] == b.paths[x]
  }

  ghost predicate Undecided(b: Book, id: Id, profile: nat, now: int) {
    id in b.rows && b.rows[id].state == Pending && b.rows[id].binding.profile == profile && now < b.rows[id].expires
  }

  /**
   * Row by row: a claim and a denial go through exactly for a pending request of the profile
   * before its time, and in any case every request of the profile whose time has come is denied
   * as expired; nothing else changes.
   */
  lemma DecisionOutcomes(b: Book, id: Id, profile: nat, now: int, token: Token, code: string)
    requires b.rows.Keys == b.paths.Keys
    ensures var (c, ok) := Claimed(b, id, profile, now, token);
            && (ok <==> Undecided(b, id, profile, now)) && c.rows.Keys == b.rows.Keys == c.paths.Keys
            && forall x :: x in b.rows ==>
                 RowAfter(b, c, x, profile, now, ok && x == id,
                          Row(b.rows[x].binding, Executing, Some(token), b.rows[x].code, b.rows[x].expires),
                          Entry(Claims, Executing))
    ensures var (c, ok) := Refused(b, id, profile, now, code);
            && (ok <==> Undecided(b, id, profile, now)) && c.rows.Keys == b.rows.Keys == c.paths.Keys
            && forall x :: x in b.rows ==>
                 RowAfter(b, c, x, profile, now, ok && x == id,
                          Row(b.rows[x].binding, Denied, b.rows[x].token, code, b.rows[x].expires),
                          Entry(Decided, Denied))
    ensures var c := Expired(b, profile, now);
            && c.rows.Keys == b.rows.Keys == c.paths.Keys
            && forall x :: x in b.rows ==> RowAfter(b, c, x, profile, now, false, b.rows[x], Entry(Expires, Denied))
  {
    hide RowAfter;
    ExpiryOutcome(b, profile, now);
    ClaimOutcome(b, id, profile, now, token);
    DenialOutcome(b, id, profile, now, code);
  }

  lemma ExpiryOutcome(b: Book, profile: nat, now: int)
    requires b.rows.Keys == b.paths.Keys
    ensures var c := Expired(b, profile, now);
            && c.rows.Keys == b.rows.Keys == c.paths.Keys
            && forall x :: x in b.rows ==> RowAfter(b, c, x, profile, now, false, b.rows[x], Entry(Expires, Denied))
  {
  }

  lemma ClaimOutcome(b: Book, id: Id, profile: nat, now: int, token: Token)
    requires b.rows.Keys == b.paths.Keys
    ensures var (c, ok) := Claimed(b, id, profile, now, token);
            && (ok <==> Undecided(b, id, profile, now)) && c.rows.Keys == b.rows.Keys == c.paths.Keys
            && forall x :: x in b.rows ==>
                 RowAfter(b, c, x, profile, now, ok && x == id,
                          Row(b.rows[x].binding, Executing, Some(token), b.rows[x].code, b.rows[x].expires),
                          Entry(Claims, Executing))
  {
    ExpiryOutcome(b, profile, now);
    hide Expired;
  }

  lemma DenialOutcome(b: Book, id: Id, profile: nat, now: int, code: string)
    requires b.rows.Keys == b.paths.Keys
    ensures var (c, ok) := Refused(b, id, profile, now, code);
            && (ok <==> Undecided(b, id, profile, now)) && c.rows.Keys == b.rows.Keys == c.paths.Keys
            && forall x :: x in b.rows ==>
                 RowAfter(b, c, x, profile, now, ok && x == id,
                          Row(b.rows[x].binding, Denied, b.rows[x].token, code, b.rows[x].expires),
                          Entry(Decided, Denied))
  {
    ExpiryOutcome(b, profile, now);
    hide Expired;
  }

  // ----- the repository ---------------------------------------------------------------

  datatype Audit = Audit(id: Id, entry: Entry)

  function PathOf(audit: seq<Audit>, id: Id): seq<Entry> {
    if audit == [] then []
    else PathOf(audit[..|audit| - 1], id) + if audit[|audit| - 1].id == id then [audit[|audit| - 1].entry] else []
  }

  lemma PathGrows(audit: seq<Audit>, a: Audit, id: Id)
    ensures PathOf(audit + [a], id) == if a.id == id then PathOf(audit, id) + [a.entry] else PathOf(audit, id)
  {
    assert (audit + [a])[..|audit|] == audit;
  }

  function Paths(rows: map<Id, Row>, audit: seq<Audit>): map<Id, seq<Entry>> {
    map id | id in rows :: PathOf(audit, id)
  }

  /** Rows never seen by the audit have an empty path. */
  ghost predicate AuditOk(rows: map<Id, Row>, audit: seq<Audit>) {
    forall i :: 0 <= i < |audit| ==> audit[i].id in rows
  }

  lemma {:induction false} NoPathYet(rows: map<Id, Row>, audit: seq<Audit>, id: Id)
    requires AuditOk(rows, audit) && id !in rows
    ensures PathOf(audit, id) == []
  {
    if audit != [] { NoPathYet(rows, audit[..|audit| - 1], id); }
  }

  lemma OneMoved(rows: map<Id, Row>, audit: seq<Audit>, id: Id, row: Row, e: Entry)
    requires id in rows && AuditOk(rows, audit)
    ensures Book(rows[id := row], Paths(rows[id := row], audit + [Audit(id, e)]))
            == Moved(Book(rows, Paths(rows, audit)), id, row, e)
    ensures AuditOk(rows[id := row], audit + [Audit(id, e)])
  {
    hide PathOf;
    forall x: Id
      ensures PathOf(audit + [Audit(id, e)], x) == if x == id then PathOf(audit, x) + [e] else PathOf(audit, x)
    {
      PathGrows(audit, Audit(id, e), x);
    }
    assert Paths(rows[id := row], audit + [Audit(id, e)]) == Paths(rows, audit)[id := PathOf(audit, id) + [e]];
  }

  lemma OneCreated(rows: map<Id, Row>, audit: seq<Audit>, id: Id, row: Row, e: Entry)
    requires id !in rows && AuditOk(rows, audit)
    ensures Paths(rows[id := row], audit + [Audit(id, e)]) == Paths(rows, audit)[id := [e]]
    ensures AuditOk(rows[id := row], audit + [Audit(id, e)])
  {
    hide PathOf;
    forall x: Id
      ensures PathOf(audit + [Audit(id, e)], x) == if x == id then PathOf(audit, x) + [e] else PathOf(audit, x)
    {
      PathGrows(audit, Audit(id, e), x);
    }
    NoPathYet(rows, audit, id);
    assert PathOf(audit + [Audit(id, e)], id) == [] + [e] == [e];
  }

  /** Part of the rows already changed, the rest to come. */
  ghost predicate Partly(now: Book, before: Book, after: Book, todo: set<Id>) {
    && now.rows.Keys == before.rows.Keys == after.rows.Keys == now.paths.Keys == before.paths.Keys == after.paths.Keys
    && (forall id :: id in todo ==>
          id in before.rows && now.rows[id] == before.rows[id] && now.paths[id] == before.paths[id])
    && (forall id :: id in before.rows && id !in todo ==>
          now.rows[id] == after.rows[id] && now.paths[id] == after.paths[id])
  }

  lemma PartlyMoves(now: Book, next: Book, before: Book, after: Book, todo: set<Id>, id: Id)
    requires Partly(now, before, after, todo) && id in todo
    requires next.rows.Keys == now.rows.Keys && next.paths.Keys == now.paths.Keys
    requires next.rows[id] == after.rows[id] && next.paths[id] == after.paths[id]
    requires forall x :: x in now.rows && x != id ==> next.rows[x] == now.rows[x] && next.paths[x] == now.paths[x]
    ensures Partly(next, before, after, todo - {id})
  {
  }

  lemma ExpireStep(now: Book, before: Book, profile: nat, at: int, todo: set<Id>, id: Id)
    requires Partly(now, before, Expired(before, profile, at), todo) && id in todo
    ensures id in now.rows && id in now.paths
    ensures Partly(if Overdue(now.rows[id], profile, at)
                   then Moved(now, id, now.rows[id].(state := Denied, code := "expired"), Entry(Expires, Denied))
                   else now,
                   before, Expired(before, profile, at), todo - {id})
  {
    var next := if Overdue(now.rows[id], profile, at)
                then Moved(now, id, now.rows[id].(state := Denied, code := "expired"), Entry(Expires, Denied)) else now;
    PartlyMoves(now, next, before, Expired(before, profile, at), todo, id);
  }

  lemma RecoverStep(now: Book, before: Book, profile: nat, todo: set<Id>, id: Id)
    requires Partly(now, before, Recovered(before, profile), todo) && id in todo
    ensures id in now.rows && id in now.paths
    ensures Partly(if Interrupted(now.rows[id], profile)
                   then Moved(now, id, now.rows[id].(state := Unknown, code := "interrupted_execution"),
                              Entry(Recovers, Unknown)) else now,
                   before, Recovered(before, profile), todo - {id})
  {
    var next := if Interrupted(now.rows[id], profile)
                then Moved(now, id, now.rows[id].(state := Unknown, code := "interrupted_execution"),
                           Entry(Recovers, Unknown)) else now;
    PartlyMoves(now, next, before, Recovered(before, profile), todo, id);
  }

  lemma AllToDo(before: Book, after: Book)
    requires before.rows.Keys == before.paths.Keys == after.rows.Keys == after.paths.Keys
    ensures Partly(before, before, after, before.rows.Keys)
    ensures forall now :: Partly(now, before, after, {}) ==> now == after
  {
  }

  class ApprovalRepository {
    var rows: map<Id, Row>
    var audit: seq<Audit>

    ghost function State(): Book
      reads this
    {
      Book(rows, Paths(rows, audit))
    }

    ghost predicate Valid()
      reads this
    {
      AuditOk(rows, audit)
    }

    constructor ()
      ensures Valid() && State() == Book(map[], map[])
    {
      rows, audit := map[], [];
    }

    /** Creation is idempotent per binding; an id taken by another binding is an error. */
    method Create(id: Id, binding: Binding, expires: int) returns (ok: bool)
      requires Valid()
      modifies this
      ensures Valid() && State() == Created(old(State()), id, binding, expires)
      ensures ok == (Bound(rows, binding) != {})
      ensures rows == if id in old(rows) || (exists x :: x in old(rows) && old(rows)[x].binding == binding)
                      then old(rows) else old(rows)[id := Row(binding, Pending, None, "", expires)]
    {
      if id !in rows && Bound(rows, binding) == {} {
        var row := Row(binding, Pending, None, "", expires);
        OneCreated(rows, audit, id, row, Entry(Requested, Pending));
        rows, audit := rows[id := row], audit + [Audit(id, Entry(Requested, Pending))];
        assert id in Bound(rows, binding);
      }
      ok := Bound(rows, binding) != {};
    }

    method Write(id: Id, row: Row, e: Entry)
      requires Valid() && id in rows
      modifies this
      ensures Valid() && State() == Moved(old(State()), id, row, e)
      ensures rows == old(rows)[id := row]
    {
      OneMoved(rows, audit, id, row, e);
      rows, audit := rows[id := row], audit + [Audit(id, e)];
    }

    method ExpirePending(profile: nat, now: int)
      requires Valid()
      modifies this
      ensures Valid() && State() == Expired(old(State()), profile, now)
    {
      hide Partly, Moved;
      var todo := rows.Keys;
      ghost var before, after := State(), Expired(State(), profile, now);
      AllToDo(before, after);
      while todo != {}
        invariant Valid() && Partly(State(), before, after, todo)
      {
        var id :| id in todo;
        ExpireStep(State(), before, profile, now, todo, id);
        if Overdue(rows[id], profile, now) {
          Write(id, rows[id].(state := Denied, code := "expired"), Entry(Expires, Denied));
        }
        todo := todo - {id};
      }
    }

    method RecoverExecuting(profile: nat)
      requires Valid()
      modifies this
      ensures Valid() && State() == Recovered(old(State()), profile) && rows.Keys == old(rows).Keys
      ensures forall id :: id in rows ==>
                var row := old(rows)[id];
                rows[id] == if row.state == Executing && row.binding.profile == profile
                            then Row(row.binding, Unknown, row.token, "interrupted_execution", row.expires) else row
    {
      hide Partly, Moved;
      var todo := rows.Keys;
      ghost var before, after := State(), Recovered(State(), profile);
      AllToDo(before, after);
      while todo != {}
        invariant Valid() && Partly(State(), before, after, todo)
      {
        var id :| id in todo;
        RecoverStep(State(), before, profile, todo, id);
        if Interrupted(rows[id], profile) {
          Write(id, rows[id].(state := Unknown, code := "interrupted_execution"), Entry(Recovers, Unknown));
        }
        todo := todo - {id};
      }
    }

    method Claim(id: Id, profile: nat, now: int, token: Token) returns (ok: bool)
      requires Valid()
      modifies this
      ensures Valid() && (State(), ok) == Claimed(old(State()), id, profile, now, token)
    {
      ExpirePending(profile, now);
      ok := id in rows && rows[id].binding.profile == profile && rows[id].state == Pending && rows[id].expires > now;
      if ok { Write(id, rows[id].(state := Executing, token := Some(token)), Entry(Claims, Executing)); }
    }

    method Deny(id: Id, profile: nat, now: int, code: string) returns (ok: bool)
      requires Valid()
      modifies this
      ensures Valid() && (State(), ok) == Refused(old(State()), id, profile, now, code)
    {
      ExpirePending(profile, now);
      ok := id in rows && rows[id].binding.profile == profile && rows[id].state == Pending;
      if ok { Write(id, rows[id].(state := Denied, code := code), Entry(Decided, Denied)); }
    }

    method Resolve(id: Id, profile: nat, token: Token, outcome: State, code: string) returns (ok: bool)
      requires Valid()
      modifies this
      ensures Valid() && (State(), ok) == Resolved(old(State()), id, profile, token, outcome, code)
      ensures ok <==> && outcome in {Approved, Denied, Unknown} && id in old(rows)
                      && old(rows)[id].binding.profile == profile
                      && old(rows)[id].state == Executing && old(rows)[id].token == Some(token)
      ensures rows == if ok then old(rows)[id := old(rows)[id].(state := outcome, code := code)] else old(rows)
    {
      ok := (outcome == Approved || outcome == Denied || outcome == Unknown)
            && id in rows && rows[id].binding.profile == profile
            && rows[id].state == Executing && rows[id].token == Some(token);
      if ok { Write(id, rows[id].(state := outcome, code := code), Entry(Executed, outcome)); }
    }
  }

  // ----- executing an approved tool ---------------------------------------------------------

  /** How one await ends: with a value, with an exception, or cancelled. */
  datatype Await<+T> = Returns(value: T) | Raises | Cancelled

  datatype ToolResult = ToolResult(ok: bool, committed: bool, stateUnknown: bool)

  datatype Begun = Begun(execution: nat, created: bool)

  /** Everything the execution meets on its way, in order. */
  datatype Surroundings = Surroundings(
    event: Await<bool>, toolFound: bool, manifestMatches: bool, allowed: Await<bool>, schemaOk: bool,
    preflight: Await<bool>, commit: Await<bool>, begun: Await<Begun>, marked: Await<bool>,
    invoked: Await<ToolResult>, persisted: Await<bool>, persistedAtLast: Await<bool>)

  predicate Good(a: Await<bool>) { a.Returns? && a.value }

  /** Every check passed and the execution record is ours: the tool is invoked. */
  predicate Invokes(s: Surroundings) {
    && Good(s.event) && s.toolFound && s.manifestMatches && Good(s.allowed) && s.schemaOk
    && Good(s.preflight) && Good(s.commit)
    && s.begun.Returns? && s.begun.value.created && Good(s.marked)
  }

  /** The tool answered that its effect is committed, and that answer was persisted. */
  predicate Commits(s: Surroundings) {
    && Invokes(s) && s.invoked.Returns? && s.invoked.value == ToolResult(true, true, false)
    && Good(s.persisted)
  }

  /** What may be reported for a claim: once invoked never a denial, and no approval uninvoked. */
  predicate Reportable(invoked: bool, outcome: State) {
    Terminal(outcome) && (invoked ==> outcome != Denied) && (outcome == Approved ==> invoked)
  }

  datatype Attempt = Attempt(outcome: State, started: bool, invocations: nat, execution: Option<nat>, resolved: bool)

  const UNTRIED := Attempt(Denied, false, 0, None, false)

  /** The checks, under the side-effect lock; stopping early leaves a denial, a conflict an unknown. */
  method Preflight(s: Surroundings) returns (a: Attempt, ready: bool)
    ensures a.invocations == 0 && !a.started && !a.resolved && (a.outcome == Denied || a.outcome == Unknown)
    ensures ready <==> Invokes(s)
    ensures ready ==> a.execution.Some?
    ensures !ready ==> (a.outcome == Unknown <==>
              Cleared(s) && (!s.begun.value.created || s.marked == Returns(false)))
    ensures a.execution.Some? <==> Cleared(s)
  {
    a, ready := UNTRIED, false;
    if !Good(s.event) || !s.toolFound || !s.manifestMatches || !Good(s.allowed) || !s.schemaOk { return; }
    if !Good(s.preflight) || !Good(s.commit) || !s.begun.Returns? { return; }
    a := a.(execution := Some(s.begun.value.execution));
    if !s.begun.value.created { return a.(outcome := Unknown), false; }
    if s.marked == Returns(false) { return a.(outcome := Unknown), false; }
    ready := s.marked.Returns?;
  }

  /** The invocation and the first attempt to persist its result; any exception means unknown. */
  method InvokeTool(s: Surroundings, a0: Attempt) returns (a: Attempt)
    requires a0.invocations == 0 && !a0.started && !a0.resolved && Invokes(s)
    ensures a.started && a.invocations == 1 && a.execution == a0.execution
    ensures a.outcome == if Commits(s) then Approved else Unknown
    ensures a.resolved <==> s.invoked.Returns? && Good(s.persisted)
  {
    a := a0.(started := true, invocations := a0.invocations + 1);
    if !s.invoked.Returns? { return a.(outcome := Unknown); }
    var r := s.invoked.value;
    a := a.(outcome := if r.ok && r.committed && !r.stateUnknown then Approved else Unknown);
    if !s.persisted.Returns? { return a.(outcome := Unknown); }
    a := a.(resolved := s.persisted.value);
    if !a.resolved { a := a.(outcome := Unknown); }
  }

  /** Everything up to the execution record went well; whether that record is ours is seen next. */
  ghost predicate Cleared(s: Surroundings) {
    && s.event == Returns(true) && s.toolFound && s.manifestMatches && s.allowed == Returns(true) && s.schemaOk
    && s.preflight == Returns(true) && s.commit == Returns(true) && s.begun.Returns?
  }

  /**
   * The whole attempt up to the resolution of the claim: the tool is invoked at most once, and
   * only when every check passed; the outcome is an approval exactly when a committed result
   * was persisted, and once invoked it is never a denial.
   */
  method ExecuteApprovedTool(s: Surroundings) returns (outcome: State, invocations: nat)
    ensures invocations == if Invokes(s) then 1 else 0
    ensures outcome == Approved <==> Commits(s)
    ensures Reportable(invocations > 0, outcome)
    ensures invocations == 1 <==> (Cleared(s) && s.begun.value.created && s.marked == Returns(true))
    ensures outcome == Denied <==>
              (!Cleared(s)
               || (s.begun.value.created && !s.marked.Returns? && s.persistedAtLast.Returns?))
    ensures outcome == Approved ==>
              && s.invoked.Returns? && s.invoked.value.ok && s.invoked.value.committed
              && !s.invoked.value.stateUnknown && s.persisted == Returns(true)
    ensures invocations == 1 && s.invoked == Returns(ToolResult(true, true, false)) && s.persisted == Returns(true)
            ==> outcome == Approved
  {
    var a, ready := Preflight(s);
    if ready { a := InvokeTool(s, a); }
    if a.execution.Some? && !a.resolved {
      match s.persistedAtLast {
        case Returns(ok) => a := a.(resolved := ok);
        case _ => a := a.(outcome := Unknown);
      }
    }
    return a.outcome, a.invocations;
  }

  // ----- requests, decisions, executions and restarts interleaved ------------------------------

  /** A claim being carried out; the flag is set when its tool has been invoked. */
  datatype Task = Task(id: Id, profile: nat, invoked: bool)

  datatype System = System(book: Book, tasks: map<Token, Task>, claims: map<Id, nat>, invocations: map<Id, nat>)

  datatype Step =
    | Create(id: Id, binding: Binding, expires: int)
    | List(profile: nat, now: int)
    | Claim(id: Id, profile: nat, now: int, token: Token)
    | Deny(id: Id, profile: nat, now: int, code: string)
    | Invoke(token: Token)
    | Resolve(token: Token, outcome: State, code: string)
    | Lost(token: Token)
    | Restart(profile: nat)

  function Count(counts: map<Id, nat>, id: Id): nat {
    if id in counts then counts[id] else 0
  }

  predicate TokenFresh(s: System, token: Token) {
    token !in s.tasks && forall id | id in s.book.rows :: s.book.rows[id].token != Some(token)
  }

  function Next(s: System, step: Step): System {
    match step
    case Create(id, binding, expires) => s.(book := Created(s.book, id, binding, expires))
    case List(profile, now) => s.(book := Expired(s.book, profile, now))
    case Claim(id, profile, now, token) =>
      if !TokenFresh(s, token) then s
      else
        var (book, ok) := Claimed(s.book, id, profile, now, token);
        if ok then System(book, s.tasks[token := Task(id, profile, false)],
                          s.claims[id := Count(s.claims, id) + 1], s.invocations)
        else s.(book := book)
    case Deny(id, profile, now, code) => s.(book := Refused(s.book, id, profile, now, code).0)
    case Invoke(token) =>
      if token in s.tasks && !s.tasks[token].invoked then
        var t := s.tasks[token];
        s.(tasks := s.tasks[token := t.(invoked := true)],
           invocations := s.invocations[t.id := Count(s.invocations, t.id) + 1])
      else s
    case Resolve(token, outcome, code) =>
      if token in s.tasks && Reportable(s.tasks[token].invoked, outcome) then
        var t := s.tasks[token];
        s.(book := Resolved(s.book, t.id, t.profile, token, outcome, code).0, tasks := s.tasks - {token})
      else s
    case Lost(token) => s.(tasks := s.tasks - {token})
    case Restart(profile) => s.(book := Recovered(s.book, profile), tasks := map[])
  }

  function Run(steps: seq<Step>): System {
    if steps == [] then System(Book(map[], map[]), map[], map[], map[])
    else Next(Run(steps[..|steps| - 1]), steps[|steps| - 1])
  }

  // ----- the invariant ----------------------------------------------------------------------------

  /** The audit entries of a row are exactly the way it came to its state. */
  predicate PathFits(path: seq<Entry>, state: State) {
    || (state == Pending && path == [Entry(Requested, Pending)])
    || (state == Executing && path == [Entry(Requested, Pending), Entry(Claims, Executing)])
    || (state == Denied && (path == [Entry(Requested, Pending), Entry(Decided, Denied)]
                            || path == [Entry(Requested, Pending), Entry(Expires, Denied)]))
    || (Terminal(state) && path == [Entry(Requested, Pending), Entry(Claims, Executing), Entry(Executed, state)])
    || (state == Unknown && path == [Entry(Requested, Pending), Entry(Claims, Executing), Entry(Recovers, Unknown)])
  }

  ghost predicate PathsFit(b: Book) {
    b.rows.Keys == b.paths.Keys && forall id :: id in b.rows ==> PathFits(b.paths[id], b.rows[id].state)
  }

  ghost predicate BindingsDistinct(b: Book) {
    forall x, y :: x in b.rows && y in b.rows && b.rows[x].binding == b.rows[y].binding ==> x == y
  }

  /** What the counts say about a row: unclaimed, claimed and not invoked, or invoked once. */
  ghost predicate CountsFit(s: System, id: Id) {
    && Count(s.claims, id) <= 1 && Count(s.invocations, id) <= Count(s.claims, id)
    && (id !in s.book.rows ==> Count(s.claims, id) == 0)
    && (id in s.book.rows ==>
          && (s.book.rows[id].state == Pending ==> Count(s.claims, id) == 0)
          && (s.book.rows[id].state == Executing ==> Count(s.claims, id) == 1)
          && (Count(s.invocations, id) == 1 ==> s.book.rows[id].state != Denied)
          && (s.book.rows[id].state == Approved ==> Count(s.invocations, id) == 1))
  }

  /** Each running claim holds the token of its executing row, and knows whether it invoked. */
  ghost predicate TaskFits(s: System, token: Token)
    requires token in s.tasks
  {
    var t := s.tasks[token];
    && ClaimedBy(s.book, t.id, t.profile, token)
    && Count(s.invocations, t.id) == if t.invoked then 1 else 0
  }

  ghost predicate Inv(s: System) {
    && PathsFit(s.book) && BindingsDistinct(s.book)
    && (forall id: Id :: CountsFit(s, id))
    && (forall token :: token in s.tasks ==> TaskFits(s, token))
  }

  lemma ExpiredKeepsBook(b: Book, profile: nat, now: int)
    requires PathsFit(b) && BindingsDistinct(b)
    ensures PathsFit(Expired(b, profile, now)) && BindingsDistinct(Expired(b, profile, now))
    ensures var e := Expired(b, profile, now);
            && e.rows.Keys == b.rows.Keys && e.paths.Keys == b.paths.Keys
            && forall id :: id in b.rows ==> KeptOrExpired(b.rows[id], e.rows[id])
  {
  }

  predicate KeptOrExpired(row: Row, later: Row) {
    later == row || (row.state == Pending && later == row.(state := Denied, code := "expired"))
  }

  lemma MovedKeepsBook(b: Book, id: Id, row: Row, e: Entry)
    requires PathsFit(b) && BindingsDistinct(b) && id in b.rows && row.binding == b.rows[id].binding
    requires PathFits(b.paths[id] + [e], row.state)
    ensures PathsFit(Moved(b, id, row, e)) && BindingsDistinct(Moved(b, id, row, e))
  {
    hide PathFits;
  }

  lemma CreateKeepsInv(s: System, id: Id, binding: Binding, expires: int)
    requires Inv(s)
    ensures Inv(Next(s, Create(id, binding, expires)))
  {
    var t := Next(s, Create(id, binding, expires));
    if id !in s.book.rows && Bound(s.book.rows, binding) == {} {
      forall x | x in s.book.rows ensures s.book.rows[x].binding != binding {
        assert x !in Bound(s.book.rows, binding);
      }
      forall token | token in t.tasks ensures TaskFits(t, token) { assert TaskFits(s, token); }
      forall x: Id ensures CountsFit(t, x) { assert CountsFit(s, x); }
    }
  }

  /** Rows of running claims are untouched and no pending row gains a count when requests expire. */
  lemma ExpireKeepsInv(s: System, profile: nat, now: int)
    requires Inv(s)
    ensures Inv(s.(book := Expired(s.book, profile, now)))
  {
    hide PathsFit, BindingsDistinct, Expired;
    ExpiredKeepsBook(s.book, profile, now);
    var t := s.(book := Expired(s.book, profile, now));
    forall token | token in t.tasks ensures TaskFits(t, token) { assert TaskFits(s, token); }
    forall x: Id ensures CountsFit(t, x) { assert CountsFit(s, x); }
  }

  lemma PendingPath(b: Book, id: Id)
    requires PathsFit(b) && id in b.rows && b.rows[id].state == Pending
    ensures b.paths[id] == [Entry(Requested, Pending)]
  {
  }

  /** The state after an open request is claimed, before anything of it is executed. */
  function Taken(e: System, id: Id, profile: nat, token: Token): System
    requires id in e.book.rows && id in e.book.paths
  {
    System(Moved(e.book, id, e.book.rows[id].(state := Executing, token := Some(token)), Entry(Claims, Executing)),
           e.tasks[token := Task(id, profile, false)], e.claims[id := Count(e.claims, id) + 1], e.invocations)
  }

  lemma ClaimOpenKeepsBook(e: System, id: Id, profile: nat, token: Token)
    requires Inv(e) && Open(e.book, id, profile)
    ensures PathsFit(Taken(e, id, profile, token).book) && BindingsDistinct(Taken(e, id, profile, token).book)
  {
    hide CountsFit, TaskFits;
    PendingPath(e.book, id);
    MovedKeepsBook(e.book, id, e.book.rows[id].(state := Executing, token := Some(token)), Entry(Claims, Executing));
  }

  lemma ClaimOpenKeepsInv(e: System, id: Id, profile: nat, token: Token)
    requires Inv(e) && Open(e.book, id, profile) && TokenFresh(e, token)
    ensures Inv(Taken(e, id, profile, token))
  {
    hide PathsFit, BindingsDistinct;
    var t := Taken(e, id, profile, token);
    ClaimOpenKeepsBook(e, id, profile, token);
    assert CountsFit(e, id);
    forall k | k in t.tasks ensures TaskFits(t, k) { if k != token { assert TaskFits(e, k); } }
    forall x: Id ensures CountsFit(t, x) { assert CountsFit(e, x); }
  }

  lemma ExpiredKeepsTokens(s: System, profile: nat, now: int, token: Token)
    requires TokenFresh(s, token)
    ensures TokenFresh(s.(book := Expired(s.book, profile, now)), token)
  {
  }

  lemma ClaimKeepsInv(s: System, id: Id, profile: nat, now: int, token: Token)
    requires Inv(s) && TokenFresh(s, token)
    ensures Inv(Next(s, Claim(id, profile, now, token)))
  {
    hide Inv, Expired, PathsFit, BindingsDistinct, Moved, TokenFresh;
    ExpireKeepsInv(s, profile, now);
    ExpiredKeepsTokens(s, profile, now, token);
    var e := s.(book := Expired(s.book, profile, now));
    if Open(e.book, id, profile) && e.book.rows[id].expires > now { ClaimOpenKeepsInv(e, id, profile, token); }
  }

  lemma DenyOpenKeepsBook(b: Book, id: Id, profile: nat, code: string)
    requires PathsFit(b) && BindingsDistinct(b) && Open(b, id, profile)
    ensures var t := Moved(b, id, b.rows[id].(state := Denied, code := code), Entry(Decided, Denied));
            PathsFit(t) && BindingsDistinct(t)
  {
    PendingPath(b, id);
    MovedKeepsBook(b, id, b.rows[id].(state := Denied, code := code), Entry(Decided, Denied));
  }

  lemma DenyOpenKeepsInv(e: System, id: Id, profile: nat, code: string)
    requires Inv(e) && Open(e.book, id, profile)
    ensures Inv(e.(book := Moved(e.book, id, e.book.rows[id].(state := Denied, code := code), Entry(Decided, Denied))))
  {
    hide PathsFit, BindingsDistinct;
    var t := e.(book := Moved(e.book, id, e.book.rows[id].(state := Denied, code := code), Entry(Decided, Denied)));
    DenyOpenKeepsBook(e.book, id, profile, code);
    assert CountsFit(e, id);
    forall k | k in t.tasks ensures TaskFits(t, k) { assert TaskFits(e, k); }
    forall x: Id ensures CountsFit(t, x) { assert CountsFit(e, x); }
  }

  lemma DenyKeepsInv(s: System, id: Id, profile: nat, now: int, code: string)
    requires Inv(s)
    ensures Inv(Next(s, Deny(id, profile, now, code)))
  {
    hide Inv, Expired, PathsFit, BindingsDistinct, Moved;
    ExpireKeepsInv(s, profile, now);
    var e := s.(book := Expired(s.book, profile, now));
    if Open(e.book, id, profile) { DenyOpenKeepsInv(e, id, profile, code); }
  }

  /** Two running claims never share a row, since the row carries one token. */
  lemma InvokeKeepsInv(s: System, token: Token)
    requires Inv(s) && token in s.tasks && !s.tasks[token].invoked
    ensures Inv(Next(s, Invoke(token)))
  {
    var t := Next(s, Invoke(token));
    hide PathsFit, BindingsDistinct;
    assert TaskFits(s, token);
    forall k | k in t.tasks ensures TaskFits(t, k) { assert TaskFits(s, k); }
    forall x: Id ensures CountsFit(t, x) { assert CountsFit(s, x); }
  }

  lemma ExecutingPath(b: Book, id: Id)
    requires PathsFit(b) && id in b.rows && b.rows[id].state == Executing
    ensures b.paths[id] == [Entry(Requested, Pending), Entry(Claims, Executing)]
  {
  }

  lemma ResolveKeepsBook(b: Book, id: Id, profile: nat, token: Token, outcome: State, code: string)
    requires PathsFit(b) && BindingsDistinct(b) && ClaimedBy(b, id, profile, token) && Terminal(outcome)
    ensures var t := Moved(b, id, b.rows[id].(state := outcome, code := code), Entry(Executed, outcome));
            PathsFit(t) && BindingsDistinct(t)
  {
    ExecutingPath(b, id);
    MovedKeepsBook(b, id, b.rows[id].(state := outcome, code := code), Entry(Executed, outcome));
  }

  lemma ResolveKeepsInv(s: System, token: Token, outcome: State, code: string)
    requires Inv(s) && token in s.tasks && Reportable(s.tasks[token].invoked, outcome)
    ensures Inv(Next(s, Resolve(token, outcome, code)))
  {
    hide PathsFit, BindingsDistinct, CountsFit;
    assert TaskFits(s, token);
    var task := s.tasks[token];
    ResolveKeepsBook(s.book, task.id, task.profile, token, outcome, code);
    ResolveKeepsRest(s, Next(s, Resolve(token, outcome, code)), token, task.id,
                     s.book.rows[task.id].(state := outcome, code := code));
  }

  lemma ResolveKeepsRest(s: System, t: System, token: Token, id: Id, row: Row)
    requires Inv(s) && token in s.tasks && TaskFits(s, token) && id == s.tasks[token].id
    requires PathsFit(t.book) && BindingsDistinct(t.book)
    requires t.book.rows == s.book.rows[id := row] && t.book.paths.Keys == s.book.paths.Keys
    requires t.tasks == s.tasks - {token} && t.claims == s.claims && t.invocations == s.invocations
    requires Reportable(s.tasks[token].invoked, row.state)
    ensures Inv(t)
  {
    hide PathsFit, BindingsDistinct;
    forall k | k in t.tasks ensures TaskFits(t, k) { assert TaskFits(s, k); }
    forall x: Id ensures CountsFit(t, x) { assert CountsFit(s, x); }
  }

  lemma RecoveredKeepsBook(b: Book, profile: nat)
    requires PathsFit(b) && BindingsDistinct(b)
    ensures PathsFit(Recovered(b, profile)) && BindingsDistinct(Recovered(b, profile))
  {
    forall id | id in b.rows && Interrupted(b.rows[id], profile)
      ensures PathFits(b.paths[id] + [Entry(Recovers, Unknown)], Unknown)
    {
      ExecutingPath(b, id);
    }
  }

  lemma RestartKeepsInv(s: System, profile: nat)
    requires Inv(s)
    ensures Inv(Next(s, Restart(profile)))
  {
    RecoveredKeepsBook(s.book, profile);
    hide PathsFit, BindingsDistinct;
    var t := Next(s, Restart(profile));
    forall x: Id ensures CountsFit(t, x) { assert CountsFit(s, x); }
  }

  lemma LostKeepsInv(s: System, token: Token)
    requires Inv(s)
    ensures Inv(Next(s, Lost(token)))
  {
    var t := Next(s, Lost(token));
    forall k | k in t.tasks ensures TaskFits(t, k) { assert TaskFits(s, k); }
    forall x: Id ensures CountsFit(t, x) { assert CountsFit(s, x); }
  }

  lemma NextKeepsInv(s: System, step: Step)
    requires Inv(s)
    ensures Inv(Next(s, step))
  {
    match step
    case Create(id, binding, expires) => CreateKeepsInv(s, id, binding, expires);
    case List(profile, now) => ExpireKeepsInv(s, profile, now);
    case Claim(id, profile, now, token) => if TokenFresh(s, token) { ClaimKeepsInv(s, id, profile, now, token); }
    case Deny(id, profile, now, code) => DenyKeepsInv(s, id, profile, now, code);
    case Invoke(token) => if token in s.tasks && !s.tasks[token].invoked { InvokeKeepsInv(s, token); }
    case Resolve(token, outcome, code) =>
      if token in s.tasks && Reportable(s.tasks[token].invoked, outcome) { ResolveKeepsInv(s, token, outcome, code); }
    case Lost(token) => LostKeepsInv(s, token);
    case Restart(profile) => RestartKeepsInv(s, profile);
  }

  lemma {:induction false} RunsKeepInv(steps: seq<Step>)
    ensures Inv(Run(steps))
  {
    if steps != [] {
      RunsKeepInv(steps[..|steps| - 1]);
      NextKeepsInv(Run(steps[..|steps| - 1]), steps[|steps| - 1]);
    } else {
      forall id: Id ensures CountsFit(Run([]), id) {}
    }
  }

  // ----- what every run promises ------------------------------------------------------------------

  /**
   * Over every interleaving each approval is claimed at most once and its tool invoked at most
   * once; once invoked it is executing, approved or unknown, never denied; approved means
   * invoked; and the audit entries of a row are exactly the path to its state.
   */
  lemma ApprovalsAreOneShot(steps: seq<Step>, id: Id)
    requires id in Run(steps).book.rows
    ensures var s := Run(steps); var row := s.book.rows[id];
            && Count(s.claims, id) <= 1 && Count(s.invocations, id) <= Count(s.claims, id)
            && (Count(s.invocations, id) == 1 ==>
                  row.state == Executing || row.state == Approved || row.state == Unknown)
            && (row.state == Approved ==> Count(s.invocations, id) == 1)
            && id in s.book.paths && PathFits(s.book.paths[id], row.state)
  {
    RunsKeepInv(steps);
    assert CountsFit(Run(steps), id);
  }

  /** One binding has at most one row for ever, so an exact action runs at most once in all. */
  lemma BindingsStayUnique(steps: seq<Step>, a: Id, b: Id)
    requires a in Run(steps).book.rows && b in Run(steps).book.rows
    requires Run(steps).book.rows[a].binding == Run(steps).book.rows[b].binding
    ensures a == b
  {
    RunsKeepInv(steps);
  }

  ghost predicate SameFor(s: System, t: System, id: Id) {
    && id in s.book.rows && id in t.book.rows && id in s.book.paths && id in t.book.paths
    && t.book.rows[id] == s.book.rows[id] && t.book.paths[id] == s.book.paths[id]
    && Count(t.invocations, id) == Count(s.invocations, id)
  }

  lemma ExpiredSkipsTerminal(b: Book, profile: nat, now: int, id: Id)
    requires id in b.rows && id in b.paths && Terminal(b.rows[id].state)
    ensures var e := Expired(b, profile, now);
            id in e.rows && id in e.paths && e.rows[id] == b.rows[id] && e.paths[id] == b.paths[id]
  {
  }

  lemma TerminalStepKeeps(s: System, step: Step, id: Id)
    requires Inv(s) && id in s.book.rows && Terminal(s.book.rows[id].state)
    ensures SameFor(s, Next(s, step), id)
  {
    hide Expired, Recovered, BindingsDistinct, PathFits, CountsFit;
    if (step.Invoke? || step.Resolve?) && step.token in s.tasks { assert TaskFits(s, step.token); }
    if step.Claim? || step.Deny? || step.List? { ExpiredSkipsTerminal(s.book, step.profile, step.now, id); }
    if step.Restart? { RecoveredSkipsTerminal(s.book, step.profile, id); }
  }

  lemma RecoveredSkipsTerminal(b: Book, profile: nat, id: Id)
    requires id in b.rows && id in b.paths && Terminal(b.rows[id].state)
    ensures var e := Recovered(b, profile);
            id in e.rows && id in e.paths && e.rows[id] == b.rows[id] && e.paths[id] == b.paths[id]
  {
  }

  /** A terminal row never changes again: not its state, not its path, and its tool is not invoked. */
  lemma {:induction false} TerminalIsForEver(steps: seq<Step>, more: seq<Step>, id: Id)
    requires id in Run(steps).book.rows && Terminal(Run(steps).book.rows[id].state)
    ensures SameFor(Run(steps), Run(steps + more), id)
  {
    hide Next, CountsFit, TaskFits, PathFits, BindingsDistinct;
    RunsKeepInv(steps);
    if more == [] {
      assert steps + more == steps;
    } else {
      var before := more[..|more| - 1];
      TerminalIsForEver(steps, before, id);
      RunsKeepInv(steps + before);
      var all := steps + more;
      assert all[..|all| - 1] == steps + before && all[|all| - 1] == more[|more| - 1];
      TerminalStepKeeps(Run(steps + before), more[|more| - 1], id);
    }
  }

  /**
   * The life of one request, step by step: it is created pending; claimed before its time it is
   * executing; its tool is invoked once; and it ends as reported, or unknown after a restart.
   */
  lemma LifeOfARequest(s: System, id: Id, binding: Binding, expires: int, now: int, token: Token, outcome: State,
                       code: string)
    requires id !in s.book.rows && (forall x :: x in s.book.rows ==> s.book.rows[x].binding != binding)
    requires TokenFresh(s, token) && now < expires && s.book.rows.Keys == s.book.paths.Keys
    requires outcome == Approved || outcome == Unknown
    ensures var profile := binding.profile;
            var created := Next(s, Create(id, binding, expires));
            var claimed := Next(created, Claim(id, profile, now, token));
            var invoked := Next(claimed, Invoke(token));
            var resolved := Next(invoked, Resolve(token, outcome, code));
            && created.book.rows == s.book.rows[id := Row(binding, Pending, None, "", expires)]
            && RowIs(claimed, id, Row(binding, Executing, Some(token), "", expires), Entry(Claims, Executing), [])
            && Count(claimed.claims, id) == Count(s.claims, id) + 1
            && Count(invoked.invocations, id) == Count(s.invocations, id) + 1 && invoked.book == claimed.book
            && RowIs(resolved, id, Row(binding, outcome, Some(token), code, expires), Entry(Claims, Executing),
                     [Entry(Executed, outcome)])
            && token !in resolved.tasks
            && RowIs(Next(invoked, Restart(profile)), id,
                     Row(binding, Unknown, Some(token), "interrupted_execution", expires), Entry(Claims, Executing),
                     [Entry(Recovers, Unknown)])
            && Next(invoked, Restart(profile)).tasks == map[]
            && RowIs(Next(created, Deny(id, profile, now, code)), id, Row(binding, Denied, None, code, expires),
                     Entry(Decided, Denied), [])
            && RowIs(Next(created, List(profile, expires)), id, Row(binding, Denied, None, "expired", expires),
                     Entry(Expires, Denied), [])
  {
    hide *;
    var profile, created := binding.profile, Next(s, Create(id, binding, expires));
    IsCreated(s, id, binding, expires, token);
    IsClaimed(created, id, binding, expires, now, token);
    IsDenied(created, id, binding, expires, now, code);
    TimesOut(created, id, binding, expires);
    var claimed := Next(created, Claim(id, profile, now, token));
    IsExecuted(claimed, id, binding, expires, token, outcome, code);
  }

  lemma IsCreated(s: System, id: Id, binding: Binding, expires: int, token: Token)
    requires id !in s.book.rows && (forall x :: x in s.book.rows ==> s.book.rows[x].binding != binding)
    requires TokenFresh(s, token) && s.book.rows.Keys == s.book.paths.Keys
    ensures var t := Next(s, Create(id, binding, expires));
            && t.book.rows == s.book.rows[id := Row(binding, Pending, None, "", expires)]
            && IsPending(t, id, binding, expires) && TokenFresh(t, token)
            && t.claims == s.claims && t.invocations == s.invocations
  {
    assert Bound(s.book.rows, binding) == {};
  }

  ghost predicate IsPending(s: System, id: Id, binding: Binding, expires: int) {
    && s.book.rows.Keys == s.book.paths.Keys && id in s.book.rows
    && s.book.rows[id] == Row(binding, Pending, None, "", expires) && s.book.paths[id] == [Entry(Requested, Pending)]
  }

  ghost predicate IsExecuting(s: System, id: Id, binding: Binding, expires: int, token: Token) {
    && token in s.tasks && s.tasks[token] == Task(id, binding.profile, false)
    && RowIs(s, id, Row(binding, Executing, Some(token), "", expires), Entry(Claims, Executing), [])
  }

  lemma IsClaimed(s: System, id: Id, binding: Binding, expires: int, now: int, token: Token)
    requires IsPending(s, id, binding, expires) && TokenFresh(s, token) && now < expires
    ensures var claimed := Next(s, Claim(id, binding.profile, now, token));
            && IsExecuting(claimed, id, binding, expires, token)
            && RowIs(claimed, id, Row(binding, Executing, Some(token), "", expires), Entry(Claims, Executing), [])
            && Count(claimed.claims, id) == Count(s.claims, id) + 1 && claimed.invocations == s.invocations
  {
    hide Claimed, TokenFresh;
    ClaimOutcome(s.book, id, binding.profile, now, token);
    var (c, ok) := Claimed(s.book, id, binding.profile, now, token);
    assert RowAfter(s.book, c, id, binding.profile, now, ok && id == id,
                    Row(binding, Executing, Some(token), "", expires), Entry(Claims, Executing));
  }

  lemma IsDenied(s: System, id: Id, binding: Binding, expires: int, now: int, code: string)
    requires IsPending(s, id, binding, expires) && now < expires
    ensures RowIs(Next(s, Deny(id, binding.profile, now, code)), id, Row(binding, Denied, None, code, expires),
                  Entry(Decided, Denied), [])
  {
    hide Refused;
    DenialOutcome(s.book, id, binding.profile, now, code);
    var (c, ok) := Refused(s.book, id, binding.profile, now, code);
    assert RowAfter(s.book, c, id, binding.profile, now, ok && id == id, Row(binding, Denied, None, code, expires),
                    Entry(Decided, Denied));
  }

  lemma TimesOut(s: System, id: Id, binding: Binding, expires: int)
    requires IsPending(s, id, binding, expires)
    ensures RowIs(Next(s, List(binding.profile, expires)), id, Row(binding, Denied, None, "expired", expires),
                  Entry(Expires, Denied), [])
  {
    hide Expired;
    ExpiryOutcome(s.book, binding.profile, expires);
    assert RowAfter(s.book, Expired(s.book, binding.profile, expires), id, binding.profile, expires, false,
                    s.book.rows[id], Entry(Expires, Denied));
  }

  lemma IsExecuted(s: System, id: Id, binding: Binding, expires: int, token: Token, outcome: State, code: string)
    requires IsExecuting(s, id, binding, expires, token) && (outcome == Approved || outcome == Unknown)
    ensures var invoked := Next(s, Invoke(token));
            var resolved := Next(invoked, Resolve(token, outcome, code));
            var restarted := Next(invoked, Restart(binding.profile));
            && Count(invoked.invocations, id) == Count(s.invocations, id) + 1 && invoked.book == s.book
            && RowIs(resolved, id, Row(binding, outcome, Some(token), code, expires), Entry(Claims, Executing),
                     [Entry(Executed, outcome)])
            && token !in resolved.tasks
            && RowIs(restarted, id, Row(binding, Unknown, Some(token), "interrupted_execution", expires),
                     Entry(Claims, Executing), [Entry(Recovers, Unknown)])
            && restarted.tasks == map[]
  {
  }

  /** The row, and the audit entries since it was requested. */
  ghost predicate RowIs(s: System, id: Id, row: Row, first: Entry, rest: seq<Entry>) {
    && id in s.book.rows && s.book.rows[id] == row
    && id in s.book.paths && s.book.paths[id] == [Entry(Requested, Pending)] + [first] + rest
  }
}
