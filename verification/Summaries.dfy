// Deriving memories from a conversation: facts bound to the messages of the prompt, and one
// rolling summary per conversation whose every source can be traced to a prompt.
module Summaries {
  import opened MemoryStore
  import opened Derivation

  type ItemKind = k: Kind | k.Fact? || k.Preference? || k.Commitment? witness Fact

  /** Texts are given stripped of surrounding blanks; an empty one makes no record. */
  datatype Item = Item(kind: ItemKind, text: string, sources: seq<nat>)

  datatype Payload = Payload(items: seq<Item>, summary: Option<string>)

  /** The token counter, and the name-based identifier of a record. */
  datatype Service = Service(counter: Counter, idOf: (Scope, Kind, string, seq<nat>) -> Id)

  /** One derive call; the reply is missing when the model call or its JSON failed. */
  datatype Call = Call(turns: seq<Turn>, limits: Limits, jsonOutput: bool, reply: Option<Payload>)

  // ----- the records a reply asks for -------------------------------------------

  /** Order-preserving removal of repeats. */
  function Unique(ids: seq<nat>): (u: seq<nat>)
    ensures forall x :: x in u <==> x in ids
    ensures forall i, j :: 0 <= i < j < |u| ==> u[i] != u[j]
  {
    if ids == [] then []
    else
      var before := Unique(ids[..|ids| - 1]);
      if ids[|ids| - 1] in before then before else before + [ids[|ids| - 1]]
  }

  function TurnIds(turns: seq<Turn>): (ids: seq<nat>)
    ensures |ids| == |turns| && forall i :: 0 <= i < |ids| ==> ids[i] == turns[i].id
  {
    if turns == [] then [] else TurnIds(turns[..|turns| - 1]) + [turns[|turns| - 1].id]
  }

  predicate Grounded(item: Item, prompt: seq<nat>) {
    forall x :: x in item.sources ==> x in prompt
  }

  function ItemRecord(s: Service, scope: Scope, item: Item): Record {
    var sources := Unique(item.sources);
    Record(s.idOf(scope, item.kind, item.text, sources), scope, item.kind, item.text, sources, [], true)
  }

  /** The new summary covers the prior one's sources and the prompt, and supersedes the prior one. */
  function SummaryRecord(s: Service, scope: Scope, text: string, prior: Option<Record>, prompt: seq<nat>): Record {
    var sources := Unique((if prior.Some? then prior.value.sources else []) + prompt);
    Record(s.idOf(scope, Summary, text, sources), scope, Summary, text, sources,
           if prior.Some? then [prior.value.id] else [], true)
  }

  // ----- what a call does to the store -----------------------------------------------

  /** An identical record of the same conversation is returned as it is. */
  predicate Present(records: Records, r: Record) {
    r.id in records && records[r.id].scope == r.scope
  }

  function AddOnce(records: Records, r: Record): Records {
    if Present(records, r) then records else Added(records, r)
  }

  predicate Refused(records: Records, r: Record) {
    r.text == "" || (!Present(records, r) && AddError(records, r).Some?)
  }

  /** Ungrounded items are skipped; a record that cannot be added ends the call. */
  function AddItems(s: Service, scope: Scope, records: Records, items: seq<Item>, prompt: seq<nat>): (Records, bool)
    decreases |items|
  {
    if items == [] then (records, true)
    else if !Grounded(items[0], prompt) then AddItems(s, scope, records, items[1..], prompt)
    else
      var r := ItemRecord(s, scope, items[0]);
      if Refused(records, r) then (records, false)
      else AddItems(s, scope, AddOnce(records, r), items[1..], prompt)
  }

  predicate OneScope(turns: seq<Turn>) {
    forall i :: 0 <= i < |turns| ==> turns[i].scope == turns[0].scope
  }

  predicate Accepted(call: Call) {
    && call.turns != [] && OneScope(call.turns)
    && call.limits.output >= 1 && call.limits.context >= 2 && call.jsonOutput
  }

  ghost predicate IsPrevious(records: Records, scope: Scope, previous: Option<Record>) {
    if previous.Some? then Active(records, scope, Summary, previous.value)
    else forall id :: id in records ==> !Active(records, scope, Summary, records[id])
  }

  /** The active summary of a conversation; when there is at most one the choice is no choice. */
  ghost function Previous(records: Records, scope: Scope): (previous: Option<Record>)
    ensures IsPrevious(records, scope, previous)
  {
    if id :| id in records && Active(records, scope, Summary, records[id]) then Some(records[id]) else None
  }

  /** The ids each new summary was prompted with are kept as history. */
  datatype Memory = Memory(records: Records, prompted: map<Id, set<nat>>)

  function Rolled(s: Service, scope: Scope, m: Memory, text: string, prior: Option<Record>, prompt: seq<nat>): Memory {
    var r := SummaryRecord(s, scope, text, prior, prompt);
    if Refused(m.records, r) || Present(m.records, r) then m
    else Memory(Added(m.records, r), m.prompted[r.id := set x | x in prompt])
  }

  function Persisted(s: Service, call: Call, m: Memory, previous: Option<Record>, bounded: Bounded): Memory
    requires bounded.Prompt? && call.turns != [] && call.reply.Some?
  {
    var scope, prompt := call.turns[0].scope, TurnIds(bounded.turns);
    var (records, complete) := AddItems(s, scope, m.records, call.reply.value.items, prompt);
    var added := Memory(records, m.prompted);
    if complete && call.limits.rolling && call.reply.value.summary.Some?
       && (previous.None? || bounded.prior.Some?)
    then Rolled(s, scope, added, call.reply.value.summary.value, bounded.prior, prompt)
    else added
  }

  function BoundedFor(s: Service, call: Call, previous: Option<Record>): Bounded
    requires call.turns != []
  {
    InitialIsNotEmpty(call.turns, previous);
    Shrink(s.counter, call.limits, Initial(call.turns, previous), previous)
  }

  ghost function Derived(s: Service, m: Memory, call: Call): Memory {
    if !Accepted(call) then m
    else
      var previous := if call.limits.rolling then Previous(m.records, call.turns[0].scope) else None;
      var bounded := BoundedFor(s, call, previous);
      if bounded.Overflow? || call.reply.None? then m else Persisted(s, call, m, previous, bounded)
  }

  // ----- the invariant -----------------------------------------------------------------

  ghost predicate OneSummary(records: Records) {
    forall a, b :: a in records && b in records && records[a].scope == records[b].scope
                   && Active(records, records[a].scope, Summary, records[a])
                   && Active(records, records[b].scope, Summary, records[b])
                   ==> a == b
  }

  /** Records are only added or deactivated. */
  ghost predicate Grows(before: Records, after: Records) {
    forall id :: id in before ==> id in after && (after[id] == before[id] || after[id] == before[id].(active := false))
  }

  /** A summary made here covers its prompt and its predecessor's sources, and nothing else. */
  ghost predicate Covers(m: Memory, id: Id) {
    && id in m.records && id in m.prompted
    && var r := m.records[id];
       && |r.supersedes| <= 1
       && (r.supersedes == [] ==> (set x | x in r.sources) == m.prompted[id])
       && (|r.supersedes| == 1 ==>
             && r.supersedes[0] in m.records && m.records[r.supersedes[0]].kind == Summary
             && m.records[r.supersedes[0]].scope == r.scope
             && (set x | x in r.sources) == (set x | x in m.records[r.supersedes[0]].sources) + m.prompted[id])
  }

  /** The source was in the prompt of a summary further down the chain, or came with the initial store. */
  ghost predicate TracedBy(m: Memory, id: Id, x: nat, p: seq<Id>) {
    && Path(m.records, p) && p[0] == id
    && var origin := p[|p| - 1];
       if origin in m.prompted then x in m.prompted[origin]
       else origin in m.records && x in m.records[origin].sources
  }

  ghost predicate Traced(m: Memory, id: Id) {
    id in m.records && forall x :: x in m.records[id].sources ==> exists p :: TracedBy(m, id, x, p)
  }

  ghost predicate ChainOk(m: Memory) {
    && Keyed(m.records) && OneSummary(m.records)
    && forall id :: id in m.prompted ==> Covers(m, id) && Traced(m, id)
  }

  lemma ItemsKeepSummaries(s: Service, scope: Scope, records: Records, items: seq<Item>, prompt: seq<nat>)
    requires Keyed(records)
    ensures var after := AddItems(s, scope, records, items, prompt).0;
            && Keyed(after) && (forall id :: id in records ==> id in after && after[id] == records[id])
            && (forall id :: id in after && id !in records ==> after[id].kind != Summary)
    decreases |items|
  {
    if items == [] {
    } else if !Grounded(items[0], prompt) {
      ItemsKeepSummaries(s, scope, records, items[1..], prompt);
    } else {
      var r := ItemRecord(s, scope, items[0]);
      if !Refused(records, r) {
        var next := AddOnce(records, r);
        assert Keyed(next) && forall id :: id in records ==> id in next && next[id] == records[id];
        ItemsKeepSummaries(s, scope, next, items[1..], prompt);
      }
    }
  }

  lemma PathGrows(before: Records, after: Records, p: seq<Id>)
    requires Grows(before, after) && Path(before, p)
    ensures Path(after, p)
  {
    forall i | 0 <= i < |p| - 1 ensures Supersedes(after, p[i], p[i + 1]) {
      assert Supersedes(before, p[i], p[i + 1]);
    }
  }

  lemma TraceGrows(m: Memory, after: Memory, id: Id)
    requires Grows(m.records, after.records) && Traced(m, id) && m.prompted.Keys <= m.records.Keys
    requires forall k :: k in m.prompted ==> k in after.prompted && after.prompted[k] == m.prompted[k]
    requires forall k :: k in after.prompted && k !in m.prompted ==> k !in m.records
    ensures Traced(after, id)
  {
    forall x | x in after.records[id].sources ensures exists p :: TracedBy(after, id, x, p) {
      assert x in m.records[id].sources;
      var p :| TracedBy(m, id, x, p);
      PathGrows(m.records, after.records, p);
      assert TracedBy(after, id, x, p);
    }
  }

  lemma CoverGrows(m: Memory, after: Memory, id: Id)
    requires Grows(m.records, after.records) && Covers(m, id)
    requires id in after.prompted && after.prompted[id] == m.prompted[id]
    ensures Covers(after, id)
  {
  }

  lemma NewSummaryTraced(m: Memory, after: Memory, r: Record, prior: Option<Record>, prompt: seq<nat>)
    requires r.id !in m.records && r.id in after.records && after.records[r.id] == r
    requires after.prompted == m.prompted[r.id := set x | x in prompt]
    requires Grows(m.records, after.records)
    requires forall x :: x in r.sources <==> x in prompt || (prior.Some? && x in prior.value.sources)
    requires r.supersedes == if prior.Some? then [prior.value.id] else []
    requires prior.Some? ==> prior.value.id in m.records && m.records[prior.value.id] == prior.value
                             && (prior.value.id in m.prompted ==> Traced(after, prior.value.id))
    ensures Traced(after, r.id)
  {
    forall x | x in r.sources ensures exists p :: TracedBy(after, r.id, x, p) {
      if x in prompt {
        assert TracedBy(after, r.id, x, [r.id]);
      } else {
        var older := prior.value.id;
        assert Supersedes(after.records, r.id, older);
        if older in m.prompted {
          assert x in after.records[older].sources;
          var p :| TracedBy(after, older, x, p);
          var q := [r.id] + p;
          assert forall i :: 1 <= i < |q| - 1 ==> Supersedes(after.records, p[i - 1], p[i]);
          assert TracedBy(after, r.id, x, q);
        } else {
          assert TracedBy(after, r.id, x, [r.id, older]);
        }
      }
    }
  }

  lemma AddedGrows(records: Records, r: Record)
    requires Keyed(records)
    ensures Keyed(Added(records, r)) && Grows(records, Added(records, r))
  {
  }

  /** Deactivating the only active summary of a conversation makes room for its successor. */
  lemma AddedKeepsOneSummary(records: Records, r: Record, prior: Option<Record>)
    requires Keyed(records) && OneSummary(records) && IsPrevious(records, r.scope, prior)
    requires r.kind == Summary && AddError(records, r).None?
    requires r.supersedes == if prior.Some? then [prior.value.id] else []
    ensures OneSummary(Added(records, r))
  {
    var after := Added(records, r);
    forall id | id in after && Active(after, r.scope, Summary, after[id]) ensures id == r.id {
      assert id != r.id ==> Active(records, r.scope, Summary, records[id]);
    }
    forall a, b | a in after && b in after && after[a].scope == after[b].scope
                  && Active(after, after[a].scope, Summary, after[a])
                  && Active(after, after[b].scope, Summary, after[b])
      ensures a == b
    {
      if a != r.id && b != r.id {
        assert Active(records, records[a].scope, Summary, records[a]);
        assert Active(records, records[b].scope, Summary, records[b]);
      }
    }
  }

  /** The summaries made earlier keep what they cover and where it is traced to. */
  lemma OlderKeepChain(m: Memory, after: Memory, added: Id)
    requires ChainOk(m) && Grows(m.records, after.records) && added !in m.records
    requires added in after.prompted && after.prompted == m.prompted[added := after.prompted[added]]
    ensures forall id :: id in m.prompted ==> Covers(after, id) && Traced(after, id)
  {
    hide Grows, Traced, OneSummary;
    assert forall id :: id in m.prompted ==> Covers(m, id) && id in m.records;
    forall id | id in m.prompted ensures Covers(after, id) && Traced(after, id) {
      CoverGrows(m, after, id);
      TraceGrows(m, after, id);
    }
  }

  lemma RolledKeepsChain(s: Service, scope: Scope, m: Memory, text: string, prior: Option<Record>, prompt: seq<nat>)
    requires ChainOk(m) && IsPrevious(m.records, scope, prior)
    ensures ChainOk(Rolled(s, scope, m, text, prior, prompt))
  {
    var r := SummaryRecord(s, scope, text, prior, prompt);
    if !Refused(m.records, r) && !Present(m.records, r) {
      var after := Rolled(s, scope, m, text, prior, prompt);
      AddedGrows(m.records, r);
      AddedKeepsOneSummary(m.records, r, prior);
      OlderKeepChain(m, after, r.id);
      NewSummaryTraced(m, after, r, prior, prompt);
      NewSummaryCovers(after, r, prior, prompt);
    }
  }

  lemma NewSummaryCovers(after: Memory, r: Record, prior: Option<Record>, prompt: seq<nat>)
    requires r.id in after.records && after.records[r.id] == r
    requires r.id in after.prompted && after.prompted[r.id] == set x | x in prompt
    requires forall x :: x in r.sources <==> x in prompt || (prior.Some? && x in prior.value.sources)
    requires r.supersedes == if prior.Some? then [prior.value.id] else []
    requires prior.Some? ==> prior.value.id in after.records && prior.value.scope == r.scope
                             && prior.value.kind == Summary
                             && after.records[prior.value.id] == prior.value.(active := false)
    ensures Covers(after, r.id)
  {
  }

  lemma PersistedKeepsChain(s: Service, call: Call, m: Memory, previous: Option<Record>, bounded: Bounded)
    requires ChainOk(m) && bounded.Prompt? && call.turns != [] && call.reply.Some?
    requires call.limits.rolling ==> IsPrevious(m.records, call.turns[0].scope, previous)
    requires bounded.prior == previous || bounded.prior == None
    ensures ChainOk(Persisted(s, call, m, previous, bounded))
  {
    hide OneSummary, Traced, Covers, AddItems, Rolled, IsPrevious;
    var scope, prompt := call.turns[0].scope, TurnIds(bounded.turns);
    ItemsKeepSummaries(s, scope, m.records, call.reply.value.items, prompt);
    var added := Memory(AddItems(s, scope, m.records, call.reply.value.items, prompt).0, m.prompted);
    ItemsKeepChain(m, added);
    if call.limits.rolling && call.reply.value.summary.Some? && (previous.None? || bounded.prior.Some?) {
      ItemsKeepPrevious(m, added, scope, previous);
      RolledKeepsChain(s, scope, added, call.reply.value.summary.value, previous, prompt);
    }
  }

  lemma DerivedKeepsChain(s: Service, m: Memory, call: Call)
    requires ChainOk(m)
    ensures ChainOk(Derived(s, m, call))
  {
    hide OneSummary, Traced, Covers, IsPrevious, Persisted, Shrink;
    if Accepted(call) {
      var previous := if call.limits.rolling then Previous(m.records, call.turns[0].scope) else None;
      var bounded := BoundedFor(s, call, previous);
      if bounded.Prompt? && call.reply.Some? {
        BoundedInputIsSound(s.counter, call.limits, call.turns, previous);
        PersistedKeepsChain(s, call, m, previous, bounded);
      }
    }
  }

  lemma ItemsKeepChain(m: Memory, added: Memory)
    requires ChainOk(m) && added.prompted == m.prompted && Keyed(added.records)
    requires forall id :: id in m.records ==> id in added.records && added.records[id] == m.records[id]
    requires forall id :: id in added.records && id !in m.records ==> added.records[id].kind != Summary
    ensures ChainOk(added)
  {
    forall a, b | a in added.records && b in added.records && added.records[a].scope == added.records[b].scope
                  && Active(added.records, added.records[a].scope, Summary, added.records[a])
                  && Active(added.records, added.records[b].scope, Summary, added.records[b])
      ensures a == b
    {
      assert a in m.records && Active(m.records, m.records[a].scope, Summary, m.records[a]);
      assert b in m.records && Active(m.records, m.records[b].scope, Summary, m.records[b]);
    }
    forall id | id in added.prompted ensures Covers(added, id) && Traced(added, id) {
      assert Covers(m, id);
      CoverGrows(m, added, id);
      TraceGrows(m, added, id);
    }
  }

  lemma ItemsKeepPrevious(m: Memory, added: Memory, scope: Scope, previous: Option<Record>)
    requires Keyed(m.records) && Keyed(added.records) && IsPrevious(m.records, scope, previous)
    requires forall id :: id in m.records ==> id in added.records && added.records[id] == m.records[id]
    requires forall id :: id in added.records && id !in m.records ==> added.records[id].kind != Summary
    ensures IsPrevious(added.records, scope, previous)
  {
    if previous.None? {
      forall id | id in added.records ensures !Active(added.records, scope, Summary, added.records[id]) {
        assert id in m.records ==> !Active(m.records, scope, Summary, m.records[id]);
      }
    }
  }

  // ----- what one call stores, told from the reply ----------------------------------------

  predicate NoneBefore(ids: seq<nat>, i: nat) {
    i < |ids| && forall j :: 0 <= j < i ==> ids[j] != ids[i]
  }

  /** The first occurrence of each id and nothing else, in order. */
  ghost predicate FirstsAt(ids: seq<nat>, firsts: seq<nat>, at: seq<nat>) {
    && |at| == |firsts| && Increasing(at)
    && (forall k :: 0 <= k < |at| ==> at[k] < |ids| && firsts[k] == ids[at[k]])
    && (forall i: nat :: i in at <==> NoneBefore(ids, i))
  }

  ghost predicate WithoutRepeats(ids: seq<nat>, firsts: seq<nat>) {
    exists at: seq<nat> :: FirstsAt(ids, firsts, at)
  }

  lemma FirstsSnoc(ids: seq<nat>, firsts: seq<nat>, at: seq<nat>, id: nat)
    requires FirstsAt(ids, firsts, at)
    ensures id in ids ==> FirstsAt(ids + [id], firsts, at)
    ensures id !in ids ==> FirstsAt(ids + [id], firsts + [id], at + [|ids|])
  {
    var more := ids + [id];
    assert more[|ids|] == id && (at + [|ids|])[|at|] == |ids|;
    forall i: nat ensures NoneBefore(more, i) <==> NoneBefore(ids, i) || (i == |ids| && id !in ids) {
      assert forall j :: 0 <= j < |ids| ==> more[j] == ids[j] && ids[j] in ids;
      if i == |ids| && id in ids {
        var j :| 0 <= j < |ids| && ids[j] == id;
        assert more[j] == id;
      }
    }
  }

  lemma {:induction false} UniqueKeepsFirsts(ids: seq<nat>) returns (at: seq<nat>)
    ensures FirstsAt(ids, Unique(ids), at)
  {
    at := [];
    if ids != [] {
      var n := |ids| - 1;
      at := UniqueKeepsFirsts(ids[..n]);
      FirstsSnoc(ids[..n], Unique(ids[..n]), at, ids[n]);
      assert ids == ids[..n] + [ids[n]];
      hide FirstsAt;
      if ids[n] !in ids[..n] { at := at + [n]; }
    }
  }

  /** The record of this conversation with this text, from these messages, that supersedes these. */
  ghost predicate Makes(s: Service, scope: Scope, kind: Kind, text: string, ids: seq<nat>, supersedes: seq<Id>,
                        r: Record)
  {
    && WithoutRepeats(ids, r.sources) && r.scope == scope && r.kind == kind && r.text == text
    && r.supersedes == supersedes && r.active && r.id == s.idOf(scope, kind, text, r.sources)
  }

  ghost predicate MakesItem(s: Service, scope: Scope, item: Item, r: Record) {
    Makes(s, scope, item.kind, item.text, item.sources, [], r)
  }

  lemma ItemIsMade(s: Service, scope: Scope, item: Item)
    ensures MakesItem(s, scope, item, ItemRecord(s, scope, item))
  {
    var at := UniqueKeepsFirsts(item.sources);
  }

  lemma SummaryIsMade(s: Service, scope: Scope, text: string, prior: Option<Record>, prompt: seq<nat>)
    ensures Makes(s, scope, Summary, text, (if prior.Some? then prior.value.sources else []) + prompt,
                  if prior.Some? then [prior.value.id] else [], SummaryRecord(s, scope, text, prior, prompt))
  {
    var at := UniqueKeepsFirsts((if prior.Some? then prior.value.sources else []) + prompt);
  }

  /** Every source of the item is a message of the prompt. */
  ghost predicate GroundedIn(item: Item, turns: seq<Turn>) {
    forall x :: x in item.sources ==> exists i :: 0 <= i < |turns| && turns[i].id == x
  }

  lemma GroundedByTurns(item: Item, turns: seq<Turn>)
    ensures Grounded(item, TurnIds(turns)) <==> GroundedIn(item, turns)
  {
    var ids := TurnIds(turns);
    forall x | x in ids ensures exists i :: 0 <= i < |turns| && turns[i].id == x {
      var i :| 0 <= i < |ids| && ids[i] == x;
      assert turns[i].id == x;
    }
    forall i | 0 <= i < |turns| ensures turns[i].id in ids {
      assert ids[i] == turns[i].id;
    }
    hide TurnIds;
  }

  ghost predicate Held(s: Service, scope: Scope, records: Records, item: Item) {
    item.text != "" && exists r :: MakesItem(s, scope, item, r) && r.id in records && records[r.id].scope == scope
  }

  /** The item is blank, or its id belongs to another conversation. */
  ghost predicate Blocked(s: Service, scope: Scope, records: Records, item: Item) {
    exists r :: MakesItem(s, scope, item, r)
                && (r.text == "" || (r.id in records && records[r.id].scope != scope))
  }

  ghost predicate FromItem(s: Service, scope: Scope, items: seq<Item>, turns: seq<Turn>, n: nat, r: Record)
    requires n <= |items|
  {
    exists i :: 0 <= i < n && GroundedIn(items[i], turns) && items[i].text != "" && MakesItem(s, scope, items[i], r)
  }

  /**
   * The first n items were taken: what was stored stays, each grounded item is held, every new
   * record is that of a grounded item, and the next item, if there is one, cannot be added.
   */
  ghost predicate TookItems(s: Service, scope: Scope, before: Records, after: Records, items: seq<Item>,
                            turns: seq<Turn>, n: nat)
  {
    && n <= |items|
    && (forall id :: id in before ==> id in after && after[id] == before[id])
    && (forall id :: id in after && id !in before ==>
          after[id].id == id && FromItem(s, scope, items, turns, n, after[id]))
    && (forall i :: 0 <= i < n && GroundedIn(items[i], turns) ==> Held(s, scope, after, items[i]))
    && (n < |items| ==> GroundedIn(items[n], turns) && Blocked(s, scope, after, items[n]))
  }

  lemma {:induction false} AddItemsOutcome(s: Service, scope: Scope, records: Records, items: seq<Item>,
                                           turns: seq<Turn>) returns (n: nat)
    ensures var (after, complete) := AddItems(s, scope, records, items, TurnIds(turns));
            TookItems(s, scope, records, after, items, turns, n) && n <= |items| && complete == (n == |items|)
    decreases |items|
  {
    hide GroundedIn, MakesItem, Added, Refused, AddOnce, TookItems, TookFirst, Blocked;
    var prompt := TurnIds(turns);
    n := 0;
    if items == [] {
      TookNone(s, scope, records, items, turns);
    } else {
      GroundedByTurns(items[0], turns);
      var r := ItemRecord(s, scope, items[0]);
      ItemIsMade(s, scope, items[0]);
      var after := AddItems(s, scope, records, items, prompt).0;
      if !Grounded(items[0], prompt) {
        n := AddItemsOutcome(s, scope, records, items[1..], turns);
        ItemSkipped(s, scope, records, items[0], turns);
        TookOneMore(s, scope, records, records, after, items, turns, n);
        n := n + 1;
      } else if !Refused(records, r) {
        n := AddItemsOutcome(s, scope, AddOnce(records, r), items[1..], turns);
        OneItemAdded(s, scope, records, items[0], turns);
        TookOneMore(s, scope, records, AddOnce(records, r), after, items, turns, n);
        n := n + 1;
      } else {
        RefusedIsBlocked(s, scope, records, items[0]);
        TookNone(s, scope, records, items, turns);
      }
    }
  }

  lemma RefusedIsBlocked(s: Service, scope: Scope, records: Records, item: Item)
    requires Refused(records, ItemRecord(s, scope, item))
    ensures Blocked(s, scope, records, item)
  {
    ItemIsMade(s, scope, item);
    AddOutcome(records, ItemRecord(s, scope, item));
  }

  /** What adding one grounded item does. */
  ghost predicate TookFirst(s: Service, scope: Scope, before: Records, after: Records, item: Item, turns: seq<Turn>) {
    && (forall id :: id in before ==> id in after && after[id] == before[id])
    && (forall id :: id in after && id !in before ==>
          after[id].id == id && GroundedIn(item, turns) && item.text != "" && MakesItem(s, scope, item, after[id]))
    && (GroundedIn(item, turns) ==> Held(s, scope, after, item))
  }

  lemma ItemSkipped(s: Service, scope: Scope, records: Records, item: Item, turns: seq<Turn>)
    requires !GroundedIn(item, turns)
    ensures TookFirst(s, scope, records, records, item, turns)
  {
  }

  lemma TookNone(s: Service, scope: Scope, records: Records, items: seq<Item>, turns: seq<Turn>)
    requires items != [] ==> GroundedIn(items[0], turns) && Blocked(s, scope, records, items[0])
    ensures TookItems(s, scope, records, records, items, turns, 0)
  {
  }

  lemma OneItemAdded(s: Service, scope: Scope, records: Records, item: Item, turns: seq<Turn>)
    requires !Refused(records, ItemRecord(s, scope, item)) && GroundedIn(item, turns)
    ensures TookFirst(s, scope, records, AddOnce(records, ItemRecord(s, scope, item)), item, turns)
  {
    hide GroundedIn, MakesItem, Makes;
    ItemIsMade(s, scope, item);
    AddOutcome(records, ItemRecord(s, scope, item));
  }

  lemma TookOneMore(s: Service, scope: Scope, before: Records, mid: Records, after: Records, items: seq<Item>,
                    turns: seq<Turn>, n: nat)
    requires items != [] && TookFirst(s, scope, before, mid, items[0], turns)
    requires TookItems(s, scope, mid, after, items[1..], turns, n)
    ensures TookItems(s, scope, before, after, items, turns, n + 1)
  {
    hide GroundedIn, MakesItem, Makes, FromItem, Held;
    forall id | id in after && id !in before
      ensures after[id].id == id && FromItem(s, scope, items, turns, n + 1, after[id])
    {
      if id in mid {
        FromHead(s, scope, items, turns, n, after[id]);
      } else {
        FromTail(s, scope, items, turns, n, after[id]);
      }
    }
    forall i | 0 <= i < n + 1 && GroundedIn(items[i], turns) ensures Held(s, scope, after, items[i]) {
      if i == 0 {
        StillHeld(s, scope, mid, after, items[0]);
      } else {
        assert items[i] == items[1..][i - 1];
      }
    }
  }

  lemma FromHead(s: Service, scope: Scope, items: seq<Item>, turns: seq<Turn>, n: nat, r: Record)
    requires n < |items| && GroundedIn(items[0], turns) && items[0].text != "" && MakesItem(s, scope, items[0], r)
    ensures FromItem(s, scope, items, turns, n + 1, r)
  {
  }

  lemma FromTail(s: Service, scope: Scope, items: seq<Item>, turns: seq<Turn>, n: nat, r: Record)
    requires items != [] && n <= |items| - 1 && FromItem(s, scope, items[1..], turns, n, r)
    ensures FromItem(s, scope, items, turns, n + 1, r)
  {
    hide GroundedIn, MakesItem;
    var i :| 0 <= i < n && GroundedIn(items[1..][i], turns) && items[1..][i].text != ""
             && MakesItem(s, scope, items[1..][i], r);
    assert items[i + 1] == items[1..][i];
  }

  lemma StillHeld(s: Service, scope: Scope, before: Records, after: Records, item: Item)
    requires Held(s, scope, before, item)
    requires forall id :: id in before ==> id in after && after[id] == before[id]
    ensures Held(s, scope, after, item)
  {
    hide MakesItem;
  }

  /**
   * A summary is refused if it is blank or its id is another conversation's, and left as it is
   * if it is already stored; else it is added as made, and the prior one, if any, is inactive.
   */
  ghost predicate StoresSummary(scope: Scope, before: Records, after: Records, prior: Option<Record>, r: Record,
                                ok: bool)
  {
    if r.text == "" || (r.id in before && before[r.id].scope != scope) then after == before && !ok
    else if r.id in before then after == before && ok
    else
      && ok && after.Keys == before.Keys + {r.id} && after[r.id] == r
      && forall id :: id in before ==>
           after[id] == if prior.Some? && id == prior.value.id then before[id].(active := false) else before[id]
  }

  /** The sources are those of the prior summary and then the prompt, without repeats. */
  ghost predicate Rolls(s: Service, scope: Scope, before: Records, after: Records, text: string,
                        prior: Option<Record>, turns: seq<Turn>, ok: bool)
  {
    exists r :: MakesSummary(s, scope, text, prior, turns, r) && StoresSummary(scope, before, after, prior, r, ok)
  }

  ghost predicate MakesSummary(s: Service, scope: Scope, text: string, prior: Option<Record>, turns: seq<Turn>,
                               r: Record)
  {
    match prior
    case None => Makes(s, scope, Summary, text, TurnIds(turns), [], r)
    case Some(p) => Makes(s, scope, Summary, text, p.sources + TurnIds(turns), [p.id], r)
  }

  /**
   * So a summary that is not blank and whose id is free becomes the one active summary of its
   * conversation, and the prior one is inactive.
   */
  lemma SummaryTakesOver(s: Service, scope: Scope, before: Records, after: Records, text: string,
                         prior: Option<Record>, turns: seq<Turn>, r: Record, ok: bool)
    requires Keyed(before) && OneSummary(before) && IsPrevious(before, scope, prior) && text != "" && r.id !in before
    requires MakesSummary(s, scope, text, prior, turns, r) && StoresSummary(scope, before, after, prior, r, ok)
    ensures ok && IsPrevious(after, scope, Some(r)) && OneSummary(after)
    ensures prior.Some? ==> prior.value.id in after && !after[prior.value.id].active
  {
    hide WithoutRepeats;
    AddOutcome(before, r);
    assert after == Added(before, r);
    AddedKeepsOneSummary(before, r, prior);
  }

  lemma RollOutcome(s: Service, scope: Scope, records: Records, text: string, prior: Option<Record>, turns: seq<Turn>)
    requires Keyed(records) && IsPrevious(records, scope, prior)
    ensures var r := SummaryRecord(s, scope, text, prior, TurnIds(turns));
            var ok := !Refused(records, r);
            Rolls(s, scope, records, if ok then AddOnce(records, r) else records, text, prior, turns, ok)
  {
    hide Makes, Added, SummaryRecord, Refused, AddOnce, StoresSummary;
    var r := SummaryRecord(s, scope, text, prior, TurnIds(turns));
    SummaryIsMade(s, scope, text, prior, TurnIds(turns));
    assert [] + TurnIds(turns) == TurnIds(turns);
    assert MakesSummary(s, scope, text, prior, turns, r);
    SummaryIsStored(s, scope, records, text, prior, TurnIds(turns));
  }

  lemma SummaryIsStored(s: Service, scope: Scope, records: Records, text: string, prior: Option<Record>,
                        prompt: seq<nat>)
    requires Keyed(records) && IsPrevious(records, scope, prior)
    ensures var r := SummaryRecord(s, scope, text, prior, prompt);
            var ok := !Refused(records, r);
            StoresSummary(scope, records, if ok then AddOnce(records, r) else records, prior, r, ok)
  {
    hide Added, AddError;
    AddOutcome(records, SummaryRecord(s, scope, text, prior, prompt));
  }

  /** The call once its prompt is fixed. */
  ghost predicate Stores(s: Service, before: Records, call: Call, previous: Option<Record>, bounded: Bounded,
                         after: Records, ok: bool)
    requires call.turns != []
  {
    if bounded.Overflow? || call.reply.None? then after == before && !ok
    else
      var scope, reply := call.turns[0].scope, call.reply.value;
      exists mid, n: nat ::
        && TookItems(s, scope, before, mid, reply.items, bounded.turns, n)
        && if n < |reply.items| then after == mid && !ok
           else if call.limits.rolling && reply.summary.Some? && (previous.None? || bounded.prior.Some?)
           then Rolls(s, scope, mid, after, reply.summary.value, bounded.prior, bounded.turns, ok)
           else after == mid && ok
  }

  ghost predicate WellPosed(call: Call) {
    && call.turns != [] && (forall i :: 0 <= i < |call.turns| ==> call.turns[i].scope == call.turns[0].scope)
    && call.limits.output >= 1 && call.limits.context >= 2 && call.jsonOutput
  }

  /**
   * What a call leaves in the store, told from what was there, the prompt and the reply: nothing
   * unless it is well posed; else each grounded item with its own kind, text and sources, and
   * for a rolling call the new summary in the place of the prior one.
   */
  ghost predicate CallOutcome(s: Service, before: Records, call: Call, after: Records, ok: bool) {
    if !WellPosed(call) then after == before && !ok
    else
      exists previous, bounded ::
        && (if call.limits.rolling then IsPrevious(before, call.turns[0].scope, previous) else previous == None)
        && SendsWhatEnters(s.counter, call.limits, call.turns, previous, bounded)
        && Stores(s, before, call, previous, bounded, after, ok)
  }

  // ----- runs --------------------------------------------------------------------------

  ghost function DerivedAll(s: Service, m: Memory, calls: seq<Call>): Memory {
    if calls == [] then m else Derived(s, DerivedAll(s, m, calls[..|calls| - 1]), calls[|calls| - 1])
  }

  /**
   * Rolling summaries: over any sequence of calls, starting from at most one active summary
   * per conversation, there is never a second one; each summary made covers exactly its
   * predecessor's sources and its own prompt; and every source can be traced to a prompt of
   * its chain, or to a summary the store started with.
   */
  lemma {:induction false} RollingSummaries(s: Service, records: Records, calls: seq<Call>)
    requires Keyed(records) && OneSummary(records)
    ensures var after := DerivedAll(s, Memory(records, map[]), calls);
            && Keyed(after.records) && OneSummary(after.records)
            && forall id :: id in after.prompted ==> Covers(after, id) && Traced(after, id)
  {
    if calls != [] {
      RollingSummaries(s, records, calls[..|calls| - 1]);
      DerivedKeepsChain(s, DerivedAll(s, Memory(records, map[]), calls[..|calls| - 1]), calls[|calls| - 1]);
    }
  }

  // ----- the service -----------------------------------------------------------------------

  class MemoryDerivationService {
    const store: InMemoryMemoryStore
    const service: Service

    constructor (store: InMemoryMemoryStore, service: Service)
      ensures this.store == store && this.service == service
    {
      this.store, this.service := store, service;
    }

    method AddIdempotently(r: Record) returns (ok: bool)
      modifies store
      ensures ok == !old(Refused(store.records, r))
      ensures store.records == if ok then old(AddOnce(store.records, r)) else old(store.records)
    {
      if r.text == "" { return false; }
      var existing := store.Get(r.id, r.scope);
      if existing.Some? { return true; }
      var result := store.Add(r);
      return result.Ok?;
    }

    method PersistItems(scope: Scope, items: seq<Item>, prompt: seq<nat>) returns (complete: bool)
      modifies store
      ensures (store.records, complete) == old(AddItems(service, scope, store.records, items, prompt))
    {
      for i := 0 to |items|
        invariant AddItems(service, scope, store.records, items[i..], prompt)
                  == old(AddItems(service, scope, store.records, items, prompt))
      {
        assert items[i..][1..] == items[i + 1..];
        if Grounded(items[i], prompt) {
          var ok := AddIdempotently(ItemRecord(service, scope, items[i]));
          if !ok { return false; }
        }
      }
      return true;
    }

    /** The previous summary is found by a search of one hit; how hits are ranked is arbitrary. */
    method FindPrevious(scope: Scope, rank: Rank) returns (previous: Option<Record>)
      requires Keyed(store.records) && OneSummary(store.records)
      ensures previous == Previous(store.records, scope)
    {
      previous := store.SearchOne(scope, Summary, rank);
      PreviousIsUnique(store.records, scope, previous);
    }

    /** One derivation: bound the prompt, add what the reply derived, then roll the summary. */
    method Derive(call: Call, rank: Rank, ghost prompted: map<Id, set<nat>>) returns (ok: bool)
      requires ChainOk(Memory(store.records, prompted))
      modifies store
      ensures store.records == Derived(service, old(Memory(store.records, prompted)), call).records
      ensures CallOutcome(service, old(store.records), call, store.records, ok)
    {
      hide AddItems, SummaryRecord, OneSummary, Covers, Traced, Previous, Persisted, Stores, SendsWhatEnters;
      hide IsPrevious, Shrink;
      if call.turns == [] || !OneScope(call.turns) { return false; }
      if call.limits.output < 1 || call.limits.context < 2 || !call.jsonOutput { return false; }
      var scope := call.turns[0].scope;
      var previous: Option<Record> := None;
      if call.limits.rolling {
        previous := FindPrevious(scope, rank);
      }
      var bounded := BoundedInput(service.counter, call.limits, call.turns, previous);
      if bounded.Overflow? || call.reply.None? {
        NothingStored(service, store.records, call, previous, bounded);
        return false;
      }
      PriorIsKeptOrNone(service, call, previous, bounded);
      ok := Persist(call, previous, bounded, prompted);
    }

    /** What follows the model call: the items, and the summary if all of them are in. */
    method Persist(call: Call, previous: Option<Record>, bounded: Bounded, ghost prompted: map<Id, set<nat>>)
      returns (ok: bool)
      requires bounded.Prompt? && call.turns != [] && call.reply.Some? && Keyed(store.records)
      requires call.limits.rolling ==> IsPrevious(store.records, call.turns[0].scope, previous)
      requires bounded.prior == previous || bounded.prior == None
      modifies store
      ensures store.records == Persisted(service, call, old(Memory(store.records, prompted)), previous, bounded).records
      ensures Stores(service, old(store.records), call, previous, bounded, store.records, ok)
    {
      hide AddItems, SummaryRecord, TookItems, Rolls, IsPrevious, Refused, AddOnce;
      var scope, prompt, items := call.turns[0].scope, TurnIds(bounded.turns), call.reply.value.items;
      ghost var before := store.records;
      var complete := PersistItems(scope, items, prompt);
      ghost var mid := store.records;
      ghost var n := AddItemsOutcome(service, scope, before, items, bounded.turns);
      ItemsKeepSummaries(service, scope, before, items, prompt);
      if !complete { return false; }
      if call.limits.rolling && call.reply.value.summary.Some? && (previous.None? || bounded.prior.Some?) {
        ItemsKeepPrevious(Memory(before, prompted), Memory(mid, prompted), scope, previous);
        RollOutcome(service, scope, mid, call.reply.value.summary.value, bounded.prior, bounded.turns);
        ok := AddIdempotently(SummaryRecord(service, scope, call.reply.value.summary.value, bounded.prior, prompt));
        RolledRecords(service, scope, Memory(mid, prompted), call.reply.value.summary.value, bounded.prior, prompt);
        return ok;
      }
      return true;
    }
  }

  lemma PriorIsKeptOrNone(s: Service, call: Call, previous: Option<Record>, bounded: Bounded)
    requires SendsWhatEnters(s.counter, call.limits, call.turns, previous, bounded) && bounded.Prompt?
    ensures bounded.prior == previous || bounded.prior == None
  {
  }

  lemma NothingStored(s: Service, records: Records, call: Call, previous: Option<Record>, bounded: Bounded)
    requires call.turns != [] && (bounded.Overflow? || call.reply.None?)
    ensures Stores(s, records, call, previous, bounded, records, false)
  {
  }

  lemma RolledRecords(s: Service, scope: Scope, m: Memory, text: string, prior: Option<Record>, prompt: seq<nat>)
    ensures var r := SummaryRecord(s, scope, text, prior, prompt);
            Rolled(s, scope, m, text, prior, prompt).records
            == if Refused(m.records, r) then m.records else AddOnce(m.records, r)
  {
  }

  lemma PreviousIsUnique(records: Records, scope: Scope, previous: Option<Record>)
    requires OneSummary(records)
    requires previous.Some? ==> Active(records, scope, Summary, previous.value)
    requires previous.None? ==> forall id :: id in records ==> !Active(records, scope, Summary, records[id])
    ensures previous == Previous(records, scope)
  {
    var p := Previous(records, scope);
    if previous.Some? && p.Some? {
      assert previous.value.id == p.value.id;
    }
  }
}
