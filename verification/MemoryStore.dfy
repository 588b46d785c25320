// Conversation memories: adding a record, the supersession graph it builds, and the SQLite
// store that must accept and deactivate exactly as the in-memory one does.
module MemoryStore {

  type Id = nat

  datatype Scope = Scope(channel: nat, chat: nat)

  datatype Kind = Summary | Fact | Preference | Commitment | Episode

  datatype Record = Record(id: Id, scope: Scope, kind: Kind, text: string,
                           sources: seq<nat>, supersedes: seq<Id>, active: bool)

  type Records = map<Id, Record>

  datatype StoreError =
    | AlreadyExists | Missing(missing: Id) | OtherConversation | AlreadyInactive(inactive: Id) | DatabaseFailed

  datatype Result<+T> = Ok(value: T) | Err(error: StoreError)

  datatype Option<+T> = None | Some(value: T)

  // ----- what an add does ---------------------------------------------------

  predicate Replaceable(records: Records, r: Record, id: Id) {
    id in records && records[id].scope == r.scope && records[id].active
  }

  /** The first superseded id that may not be replaced decides the error. */
  function FirstRefusal(records: Records, r: Record, ids: seq<Id>): (e: Option<StoreError>)
    ensures e.None? <==> forall i :: 0 <= i < |ids| ==> Replaceable(records, r, ids[i])
    ensures e != Some(DatabaseFailed)
  {
    if ids == [] then None
    else if ids[0] !in records then Some(Missing(ids[0]))
    else if records[ids[0]].scope != r.scope then Some(OtherConversation)
    else if !records[ids[0]].active then Some(AlreadyInactive(ids[0]))
    else FirstRefusal(records, r, ids[1..])
  }

  function Deactivated(records: Records, ids: seq<Id>): Records {
    map id | id in records :: if id in ids then records[id].(active := false) else records[id]
  }

  function AddError(records: Records, r: Record): Option<StoreError> {
    if r.id in records then Some(AlreadyExists) else FirstRefusal(records, r, r.supersedes)
  }

  /** All or nothing: a refused add changes no record. */
  function Added(records: Records, r: Record): Records {
    if AddError(records, r).Some? then records else Deactivated(records, r.supersedes)[r.id := r]
  }

  function Outcome(e: Option<StoreError>): Result<()> {
    if e.Some? then Err(e.value) else Ok(())
  }

  lemma DeactivateOneMore(records: Records, ids: seq<Id>, k: nat)
    requires k < |ids| && ids[k] in records
    ensures Deactivated(records, ids[..k + 1])
            == Deactivated(records, ids[..k])[ids[k] := records[ids[k]].(active := false)]
  {
    assert ids[..k + 1] == ids[..k] + [ids[k]];
  }

  /** The reason an add is refused with, at its first superseded record that may not be replaced. */
  ghost predicate RefusedAt(records: Records, r: Record, k: nat, e: StoreError) {
    && k < |r.supersedes|
    && (forall i :: 0 <= i < k ==> MayReplace(records, r.scope, r.supersedes[i]))
    && var id := r.supersedes[k];
       || (id !in records && e == Missing(id))
       || (id in records && records[id].scope != r.scope && e == OtherConversation)
       || (id in records && records[id].scope == r.scope && !records[id].active && e == AlreadyInactive(id))
  }

  ghost predicate MayReplace(records: Records, scope: Scope, id: Id) {
    id in records && records[id].scope == scope && records[id].active
  }

  lemma {:induction false} FirstRefusalAt(records: Records, r: Record, from: nat)
    requires from <= |r.supersedes| && forall i :: 0 <= i < from ==> MayReplace(records, r.scope, r.supersedes[i])
    ensures var e := FirstRefusal(records, r, r.supersedes[from..]);
            && (e.None? <==> forall i :: 0 <= i < |r.supersedes| ==> MayReplace(records, r.scope, r.supersedes[i]))
            && (e.Some? ==> exists k :: RefusedAt(records, r, k, e.value))
    decreases |r.supersedes| - from
  {
    if from < |r.supersedes| {
      assert r.supersedes[from..][1..] == r.supersedes[from + 1..];
      if MayReplace(records, r.scope, r.supersedes[from]) {
        FirstRefusalAt(records, r, from + 1);
      } else {
        assert RefusedAt(records, r, from, FirstRefusal(records, r, r.supersedes[from..]).value);
      }
    }
  }

  /**
   * An add goes through exactly if the id is free and every record it supersedes is an active
   * one of its own conversation; then it is stored as given, those are inactive, and nothing
   * else has changed.  Otherwise the store is as it was.
   */
  lemma AddOutcome(records: Records, r: Record)
    ensures var e, after := AddError(records, r), Added(records, r);
            && (e.None? <==> r.id !in records
                             && forall i :: 0 <= i < |r.supersedes| ==> MayReplace(records, r.scope, r.supersedes[i]))
            && (e.Some? ==> after == records)
            && (e.Some? ==> if r.id in records then e.value == AlreadyExists
                            else exists k :: RefusedAt(records, r, k, e.value))
            && (e.None? ==> after.Keys == records.Keys + {r.id} && after[r.id] == r)
            && (e.None? ==> forall id :: id in records ==>
                  after[id] == if id in r.supersedes then records[id].(active := false) else records[id])
  {
    FirstRefusalAt(records, r, 0);
    assert r.supersedes[0..] == r.supersedes;
  }

  class InMemoryMemoryStore {
    var records: Records

    constructor ()
      ensures records == map[]
    {
      records := map[];
    }

    method Add(r: Record) returns (result: Result<()>)
      modifies this
      ensures result == Outcome(AddError(old(records), r))
      ensures records == Added(old(records), r)
    {
      if r.id in records { return Err(AlreadyExists); }
      var replacements: seq<Record> := [];
      for i := 0 to |r.supersedes|
        invariant records == old(records)
        invariant AddError(records, r) == FirstRefusal(records, r, r.supersedes[i..])
        invariant |replacements| == i
        invariant forall k :: 0 <= k < i ==> r.supersedes[k] in records && replacements[k] == records[r.supersedes[k]]
      {
        var id := r.supersedes[i];
        if id !in records { return Err(Missing(id)); }
        if records[id].scope != r.scope { return Err(OtherConversation); }
        if !records[id].active { return Err(AlreadyInactive(id)); }
        replacements := replacements + [records[id]];
        assert r.supersedes[i..][1..] == r.supersedes[i + 1..];
      }
      for i := 0 to |replacements|
        invariant records == Deactivated(old(records), r.supersedes[..i])
      {
        DeactivateOneMore(old(records), r.supersedes, i);
        records := records[r.supersedes[i] := replacements[i].(active := false)];
      }
      assert r.supersedes[..|r.supersedes|] == r.supersedes;
      records := records[r.id := r];
      return Ok(());
    }

    /** Reading is scoped: a record of another conversation is not found. */
    method Get(id: Id, scope: Scope) returns (found: Option<Record>)
      ensures found == if id in records && records[id].scope == scope then Some(records[id]) else None
    {
      if id !in records || records[id].scope != scope { return None; }
      return Some(records[id]);
    }

    /**
     * The best-ranked candidates, best first.  How records match and rank is left abstract; a
     * commitment is found whether or not it matches.
     */
    method Search(q: Query, matched: Record -> bool, rank: Rank, limit: int) returns (found: Option<seq<Record>>)
      requires Keyed(records)
      ensures found.None? <==> limit < 1 || limit > 100
      ensures found.Some? ==> |found.value| <= limit && BestOf(Candidates(records, q, matched), found.value, rank)
      ensures found.Some? && |found.value| < limit ==> Ids(found.value) == Candidates(records, q, matched).Keys
    {
      if limit < 1 || limit > 100 { return None; }
      var todo := Candidates(records, q, matched);
      ghost var all := todo;
      var hits: seq<Record> := [];
      while |hits| < limit && todo != map[]
        invariant Split(all, hits, todo) && |hits| <= limit && BestOf(all, hits, rank)
        decreases |todo.Keys|
      {
        var best := Best(todo, rank);
        TakeBest(all, hits, todo, best, rank);
        hits, todo := hits + [best], todo - {best.id};
      }
      return Some(hits);
    }

    method Best(todo: Records, rank: Rank) returns (best: Record)
      requires todo != map[] && Keyed(todo)
      ensures best.id in todo && todo[best.id] == best
      ensures forall id :: id in todo ==> !Ahead(rank, todo[id], best)
    {
      var first :| first in todo;
      best := todo[first];
      var left := todo.Keys - {first};
      while left != {}
        invariant left <= todo.Keys && best.id in todo && todo[best.id] == best
        invariant forall id :: id in todo && id !in left ==> !Ahead(rank, todo[id], best)
      {
        var id :| id in left;
        left := left - {id};
        if Ahead(rank, todo[id], best) { best := todo[id]; }
      }
    }

    /** The search for the one active record of a kind: no terms and one hit. */
    method SearchOne(scope: Scope, kind: Kind, rank: Rank) returns (hit: Option<Record>)
      requires Keyed(records)
      ensures hit.Some? ==> hit.value.id in records && Active(records, scope, kind, hit.value)
      ensures hit.Some? ==> forall id :: id in records && Active(records, scope, kind, records[id]) ==>
                              !Ahead(rank, records[id], hit.value)
      ensures hit.None? ==> forall id :: id in records ==> !Active(records, scope, kind, records[id])
    {
      var q, matched := Query(scope, Some({kind}), false), (r: Record) => false;
      var found := Search(q, matched, rank, 1);
      hit := if found.value == [] then None else Some(found.value[0]);
      ghost var all := Candidates(records, q, matched);
      assert found.value == [] ==> all.Keys == {};
      assert forall id :: id in records && Active(records, scope, kind, records[id]) ==> id in all;
      forall id | id in all ensures hit.Some? && !Ahead(rank, all[id], hit.value) {
        assert hit.Some? && all[id] != hit.value ==> all[id] !in found.value;
      }
    }
  }

  // ----- searching ------------------------------------------------------------------

  /** A query names its conversation, may name kinds, and may hold terms. */
  datatype Query = Query(scope: Scope, kinds: Option<set<Kind>>, hasTerms: bool)

  /** Score first, creation time second. */
  type Rank = Record -> (real, int)

  predicate Ahead(rank: Rank, a: Record, b: Record) {
    rank(a).0 > rank(b).0 || (rank(a).0 == rank(b).0 && rank(a).1 > rank(b).1)
  }

  predicate Found(q: Query, matched: Record -> bool, r: Record) {
    && r.active && r.scope == q.scope && (q.kinds.Some? ==> r.kind in q.kinds.value)
    && (q.hasTerms ==> matched(r) || r.kind == Commitment)
  }

  function Candidates(records: Records, q: Query, matched: Record -> bool): Records {
    map id | id in records && Found(q, matched, records[id]) :: records[id]
  }

  function Ids(hits: seq<Record>): set<Id> {
    set h | h in hits :: h.id
  }

  /** Distinct candidates in order of rank, and no other candidate is ahead of any of them. */
  ghost predicate BestOf(all: Records, hits: seq<Record>, rank: Rank) {
    && (forall h :: h in hits ==> h.id in all && all[h.id] == h)
    && (forall i, j :: 0 <= i < j < |hits| ==> hits[i].id != hits[j].id && !Ahead(rank, hits[j], hits[i]))
    && (forall id, h :: id in all && all[id] !in hits && h in hits ==> !Ahead(rank, all[id], h))
  }

  ghost predicate Split(all: Records, hits: seq<Record>, todo: Records) {
    && Keyed(all) && Keyed(todo) && Ids(hits) + todo.Keys == all.Keys && Ids(hits) !! todo.Keys
    && (forall id :: id in todo ==> todo[id] == all[id])
    && (forall h :: h in hits ==> h.id in all && all[h.id] == h)
  }

  lemma TakeBest(all: Records, hits: seq<Record>, todo: Records, best: Record, rank: Rank)
    requires Split(all, hits, todo) && BestOf(all, hits, rank) && best.id in todo && todo[best.id] == best
    requires forall id :: id in todo ==> !Ahead(rank, todo[id], best)
    ensures Split(all, hits + [best], todo - {best.id}) && BestOf(all, hits + [best], rank)
  {
    hide Ahead;
    var more := hits + [best];
    assert Ids(more) == Ids(hits) + {best.id} by {
      assert more[|hits|] == best;
      forall h | h in hits ensures h in more {}
    }
    forall h | h in hits ensures h.id in Ids(hits) && h.id != best.id {}
    assert best !in hits;
    forall i | 0 <= i < |hits| ensures hits[i].id != best.id && !Ahead(rank, best, hits[i]) {
      assert hits[i] in hits;
    }
    forall id, h | id in all && all[id] !in more && h in more ensures !Ahead(rank, all[id], h) {
      assert id !in Ids(hits) && id in todo;
    }
  }

  /** Records are stored under their own ids. */
  ghost predicate Keyed(records: Records) {
    forall id :: id in records ==> records[id].id == id
  }

  predicate Active(records: Records, scope: Scope, kind: Kind, r: Record) {
    r.id in records && records[r.id] == r && r.active && r.scope == scope && r.kind == kind
  }

  // ----- the SQLite store ------------------------------------------------------

  /** A row repeats the activity flag of the record it encodes. */
  datatype Row = Row(active: bool, record: Record)

  type Rows = map<Id, Row>

  ghost predicate RowsOk(rows: Rows) {
    forall id :: id in rows ==> rows[id].active == rows[id].record.active && rows[id].record.id == id
  }

  ghost function Decoded(rows: Rows): Records {
    map id | id in rows :: rows[id].record
  }

  lemma RowDeactivated(rows: Rows, before: Records, ids: seq<Id>, k: nat)
    requires RowsOk(rows) && k < |ids| && ids[k] in rows && Decoded(rows) == Deactivated(before, ids[..k])
    ensures var next := rows[ids[k] := Row(false, rows[ids[k]].record.(active := false))];
            RowsOk(next) && Decoded(next) == Deactivated(before, ids[..k + 1])
  {
    var id := ids[k];
    var next := rows[id := Row(false, rows[id].record.(active := false))];
    assert id in Decoded(rows) && Decoded(rows)[id] == rows[id].record;
    DeactivateOneMore(before, ids, k);
    assert Decoded(next) == Decoded(rows)[id := rows[id].record.(active := false)];
  }

  lemma RowInserted(rows: Rows, r: Record)
    requires RowsOk(rows)
    ensures RowsOk(rows[r.id := Row(r.active, r)])
    ensures Decoded(rows[r.id := Row(r.active, r)]) == Decoded(rows)[r.id := r]
  {
  }

  class SQLiteMemoryStore {
    var rows: Rows

    constructor ()
      ensures rows == map[]
    {
      rows := map[];
    }

    /** One transaction; any statement may fail, and every failure rolls back. */
    method Add(r: Record, failsAt: int) returns (result: Result<()>)
      requires RowsOk(rows)
      modifies this
      ensures RowsOk(rows)
      ensures result == Err(DatabaseFailed) ==> rows == old(rows) && failsAt >= 0
      ensures result != Err(DatabaseFailed) ==>
                result == Outcome(AddError(old(Decoded(rows)), r)) && Decoded(rows) == Added(old(Decoded(rows)), r)
    {
      hide Decoded, RowsOk, FirstRefusal, Deactivated;
      var savepoint := rows;
      result := CheckStatements(r);
      if result.Ok? {
        result := WriteStatements(r, failsAt);
        if result.Err? { rows := savepoint; }
      }
    }

    method CheckStatements(r: Record) returns (result: Result<()>)
      ensures result == Outcome(AddError(Decoded(rows), r))
    {
      if r.id in rows { return Err(AlreadyExists); }
      for i := 0 to |r.supersedes|
        invariant AddError(Decoded(rows), r) == FirstRefusal(Decoded(rows), r, r.supersedes[i..])
      {
        var id := r.supersedes[i];
        if id !in rows { return Err(Missing(id)); }
        if rows[id].record.scope != r.scope { return Err(OtherConversation); }
        if !rows[id].record.active { return Err(AlreadyInactive(id)); }
        assert r.supersedes[i..][1..] == r.supersedes[i + 1..];
      }
      return Ok(());
    }

    method WriteStatements(r: Record, failsAt: int) returns (result: Result<()>)
      requires RowsOk(rows) && forall i :: 0 <= i < |r.supersedes| ==> r.supersedes[i] in Decoded(rows)
      modifies this
      ensures result == Ok(()) || (result == Err(DatabaseFailed) && failsAt >= 0)
      ensures result.Ok? ==> RowsOk(rows) && Decoded(rows) == Deactivated(old(Decoded(rows)), r.supersedes)[r.id := r]
    {
      ghost var before := Decoded(rows);
      assert Deactivated(before, r.supersedes[..0]) == before;
      for i := 0 to |r.supersedes|
        invariant RowsOk(rows) && rows.Keys == before.Keys
        invariant Decoded(rows) == Deactivated(before, r.supersedes[..i])
      {
        if failsAt == i { return Err(DatabaseFailed); }
        var id := r.supersedes[i];
        RowDeactivated(rows, before, r.supersedes, i);
        rows := rows[id := Row(false, rows[id].record.(active := false))];
      }
      assert r.supersedes[..|r.supersedes|] == r.supersedes;
      if failsAt == |r.supersedes| { return Err(DatabaseFailed); }
      RowInserted(rows, r);
      rows := rows[r.id := Row(r.active, r)];
      return Ok(());
    }
  }

  // ----- runs of adds --------------------------------------------------------------

  function AddAll(rs: seq<Record>): Records {
    if rs == [] then map[] else Added(AddAll(rs[..|rs| - 1]), rs[|rs| - 1])
  }

  /** The position of the add that stored each record. */
  function Born(rs: seq<Record>): (born: map<Id, nat>)
    ensures born.Keys == AddAll(rs).Keys
    ensures forall id :: id in born ==> born[id] < |rs|
  {
    if rs == [] then map[]
    else
      var n, before := |rs| - 1, AddAll(rs[..|rs| - 1]);
      if AddError(before, rs[n]).Some? then Born(rs[..n]) else Born(rs[..n])[rs[n].id := n]
  }

  predicate Supersedes(records: Records, newer: Id, older: Id) {
    newer in records && older in records[newer].supersedes
  }

  /** Every link goes to an earlier, now inactive record of the same conversation. */
  ghost predicate LinkOk(records: Records, born: map<Id, nat>, newer: Id, older: Id)
    requires newer in records && records.Keys == born.Keys
  {
    && older in records && born[older] < born[newer]
    && records[older].scope == records[newer].scope && !records[older].active
  }

  ghost predicate Linked(records: Records, born: map<Id, nat>)
    requires records.Keys == born.Keys
  {
    && Keyed(records)
    && (forall newer, older :: Supersedes(records, newer, older) ==> LinkOk(records, born, newer, older))
    && (forall a, b, older :: Supersedes(records, a, older) && Supersedes(records, b, older) ==> a == b)
  }

  lemma AddKeepsLinks(records: Records, born: map<Id, nat>, r: Record, n: nat)
    requires records.Keys == born.Keys && Linked(records, born)
    requires AddError(records, r).None? && forall id :: id in born ==> born[id] < n
    ensures Linked(Added(records, r), born[r.id := n])
  {
    var after, later := Added(records, r), born[r.id := n];
    forall newer, older | Supersedes(after, newer, older) ensures LinkOk(after, later, newer, older) {
      if newer == r.id {
        var i :| 0 <= i < |r.supersedes| && r.supersedes[i] == older;
        assert Replaceable(records, r, r.supersedes[i]);
      } else {
        assert Supersedes(records, newer, older);
        assert LinkOk(records, born, newer, older);
      }
    }
    forall a, b, older | Supersedes(after, a, older) && Supersedes(after, b, older) ensures a == b {
      OnlyNewLinkOrOld(records, born, r, a, b, older);
      OnlyNewLinkOrOld(records, born, r, b, a, older);
    }
  }

  lemma ActiveIsNotSuperseded(records: Records, born: map<Id, nat>, older: Id)
    requires records.Keys == born.Keys && Linked(records, born) && older in records && records[older].active
    ensures forall newer :: !Supersedes(records, newer, older)
  {
  }

  /** What the new record supersedes was active, so nothing superseded it before. */
  lemma OnlyNewLinkOrOld(records: Records, born: map<Id, nat>, r: Record, a: Id, b: Id, older: Id)
    requires records.Keys == born.Keys && Linked(records, born) && AddError(records, r).None?
    requires Supersedes(Added(records, r), a, older) && Supersedes(Added(records, r), b, older)
    ensures a == r.id ==> b == r.id
    ensures a != r.id && b != r.id ==> a == b
  {
    assert b != r.id ==> Supersedes(records, b, older);
    assert a != r.id ==> Supersedes(records, a, older);
    if a == r.id {
      var i :| 0 <= i < |r.supersedes| && r.supersedes[i] == older;
      assert Replaceable(records, r, r.supersedes[i]);
      ActiveIsNotSuperseded(records, born, older);
    }
  }

  lemma {:induction false} RunsKeepLinks(rs: seq<Record>)
    ensures Linked(AddAll(rs), Born(rs))
  {
    if rs != [] {
      var n, before := |rs| - 1, AddAll(rs[..|rs| - 1]);
      RunsKeepLinks(rs[..n]);
      if AddError(before, rs[n]).None? { AddKeepsLinks(before, Born(rs[..n]), rs[n], n); }
    }
  }

  /** A chain of supersessions, newest first. */
  ghost predicate Path(records: Records, p: seq<Id>) {
    |p| > 0 && p[0] in records && forall i :: 0 <= i < |p| - 1 ==> Supersedes(records, p[i], p[i + 1])
  }

  predicate SameScope(records: Records, a: Id, b: Id) {
    a in records && b in records && records[a].scope == records[b].scope
  }

  lemma {:induction false} PathsGoBack(rs: seq<Record>, p: seq<Id>)
    requires Path(AddAll(rs), p)
    ensures var last := p[|p| - 1];
            && last in AddAll(rs) && AddAll(rs)[last].scope == AddAll(rs)[p[0]].scope
            && (|p| > 1 ==> Born(rs)[last] < Born(rs)[p[0]])
  {
    if |p| > 1 {
      var q := p[..|p| - 1];
      assert Path(AddAll(rs), q);
      PathsGoBack(rs, q);
      RunsKeepLinks(rs);
      assert Supersedes(AddAll(rs), p[|p| - 2], p[|p| - 1]);
      assert LinkOk(AddAll(rs), Born(rs), p[|p| - 2], p[|p| - 1]);
    }
  }

  /**
   * Whatever is added in whatever order: supersession has no cycles, stays inside one
   * conversation, each record is superseded by at most one other, and is then inactive.
   */
  lemma SupersessionIsAForest(rs: seq<Record>)
    ensures forall p :: Path(AddAll(rs), p) && |p| > 1 ==>
              p[0] != p[|p| - 1] && SameScope(AddAll(rs), p[0], p[|p| - 1])
    ensures forall a, b, older :: Supersedes(AddAll(rs), a, older) && Supersedes(AddAll(rs), b, older) ==>
              a == b && older in AddAll(rs) && !AddAll(rs)[older].active
  {
    forall p | Path(AddAll(rs), p) && |p| > 1
      ensures p[0] != p[|p| - 1] && SameScope(AddAll(rs), p[0], p[|p| - 1])
    {
      PathsGoBack(rs, p);
    }
    RunsKeepLinks(rs);
    forall a, b, older | Supersedes(AddAll(rs), a, older) && Supersedes(AddAll(rs), b, older)
      ensures a == b && older in AddAll(rs) && !AddAll(rs)[older].active
    {
      assert LinkOk(AddAll(rs), Born(rs), a, older);
    }
  }
}
