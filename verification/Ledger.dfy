// The write-ahead ledger under the budget.  Memory moves first and the ledger row follows in
// a worker thread, so the two are modelled as separate steps that interleave freely with
// other reservations, with failures, with cancellations and with a crash.
module Ledger {
  import opened MapSums
  import opened Budget

  datatype RowState = Reserved | Released | Settled(charged: real) | ChargedUnknown(charged: real)

  datatype Row = Row(reservation: Reservation, state: RowState)

  type Rows = map<Id, Row>

  // ----- the table --------------------------------------------------------

  /** Start-up recovery: a reservation left open by a crash is charged in full. */
  function Recover(rows: Rows): Rows {
    map id | id in rows :: if rows[id].state == Reserved
                           then rows[id].(state := ChargedUnknown(rows[id].reservation.amount))
                           else rows[id]
  }

  predicate Counted(row: Row, k: Key) {
    Holds(row.reservation, k) && (row.state.Settled? || row.state.ChargedUnknown?)
  }

  ghost function CountedUnder(rows: Rows, k: Key): map<Id, real> {
    map id | id in rows && Counted(rows[id], k) :: rows[id].state.charged
  }

  /** The spend that recovery would read for a key if the process stopped now. */
  ghost function RecoveredSpend(rows: Rows, k: Key): real {
    Sum(CountedUnder(Recover(rows), k))
  }

  class Table {
    var rows: Rows

    constructor ()
      ensures rows == map[]
    {
      rows := map[];
    }

    method InsertReservation(id: Id, r: Reservation) returns (ok: bool)
      modifies this
      ensures ok == (id !in old(rows))
      ensures rows == if ok then old(rows)[id := Row(r, Reserved)] else old(rows)
    {
      ok := id !in rows;
      if ok { rows := rows[id := Row(r, Reserved)]; }
    }

    /** The transition applies to exactly one reserved row, or it is an error. */
    method UpdateSettlement(id: Id, state: RowState) returns (ok: bool)
      modifies this
      ensures ok == (id in old(rows) && old(rows)[id].state == Reserved)
      ensures rows == if ok then old(rows)[id := Row(old(rows)[id].reservation, state)] else old(rows)
    {
      ok := id in rows && rows[id].state == Reserved;
      if ok { rows := rows[id := rows[id].(state := state)]; }
    }

    method Total(k: Key) returns (total: real)
      ensures total == Sum(CountedUnder(rows, k))
    {
      var todo := rows.Keys;
      total := 0.0;
      ghost var seen: map<Id, real> := map[];
      while todo != {}
        invariant todo <= rows.Keys
        invariant seen == CountedUnder(rows, k) - todo
        invariant total == Sum(seen)
      {
        var id :| id in todo;
        if Counted(rows[id], k) {
          total := total + rows[id].state.charged;
          SumInsert(seen, id, rows[id].state.charged);
          seen := seen[id := rows[id].state.charged];
        }
        todo := todo - {id};
      }
      assert seen == CountedUnder(rows, k);
    }

    method InitializeAndRecover(day: nat, month: nat) returns (daily: real, monthly: real)
      modifies this
      ensures rows == Recover(old(rows))
      ensures rows.Keys == old(rows).Keys
      ensures forall id :: id in rows ==>
                rows[id].state != Reserved && rows[id].reservation == old(rows)[id].reservation
      ensures forall id :: id in rows ==>
                rows[id].state == match old(rows)[id].state
                                  case Reserved => ChargedUnknown(old(rows)[id].reservation.amount)
                                  case state => state
      ensures daily == RecoveredSpend(old(rows), Day(day))
      ensures monthly == RecoveredSpend(old(rows), Month(month))
    {
      rows := Recover(rows);
      daily := Total(Day(day));
      monthly := Total(Month(month));
    }
  }

  // ----- memory, table and threads together --------------------------------

  /** The one outstanding thread job of a reservation. */
  datatype Job = InsertRow(reservation: Reservation) | UpdateRow(state: RowState)

  datatype System = System(mem: Books, rows: Rows, jobs: map<Id, Job>, fault: bool)

  datatype Step =
    | Admit(take: Op)
    | Inserted(id: Id)
    | InsertAbandoned(id: Id, threadRuns: bool, memoryKept: bool)
    | Close(op: Op)
    | Updated(id: Id)
    | UpdateLost(id: Id)
    | Restart(readDay: nat, readMonth: nat, day: nat, month: nat)

  /** The row state that closing a reservation asks for; none when its usage cannot be priced. */
  function Closing(p: Policy, r: Reservation, op: Op): Option<RowState>
    requires !op.Take?
  {
    match op
    case Release(_) => Some(Released)
    case Settle(_, usage) =>
      var cost := ActualCost(p, r, usage);
      if cost.Ok? then Some(Settled(cost.value)) else None
    case SettleUnknown(_) => Some(ChargedUnknown(r.amount))
  }

  ghost function Admitted(p: Policy, s: System, op: Op): System
    requires op.Take?
  {
    var r := Reserve(p, s.mem, op.model, op.prompt, op.completion, op.day, op.month);
    if op.id in s.mem.open || op.id in s.rows || op.id in s.jobs || r.Err? then s
    else s.(mem := After(p, s.mem, op), jobs := s.jobs[op.id := InsertRow(r.value)])
  }

  ghost function Closed(p: Policy, s: System, op: Op): System
    requires !op.Take?
  {
    if op.id !in s.mem.open || op.id !in s.rows then s
    else
      var closing := Closing(p, s.mem.open[op.id], op);
      s.(mem := After(p, s.mem, op),
         jobs := if closing.Some? then s.jobs[op.id := UpdateRow(closing.value)] else s.jobs)
  }

  function UpdateApplied(s: System, id: Id): System
    requires id in s.jobs && s.jobs[id].UpdateRow?
  {
    if id in s.rows && s.rows[id].state == Reserved
    then s.(rows := s.rows[id := s.rows[id].(state := s.jobs[id].state)], jobs := s.jobs - {id})
    else s.(fault := true, jobs := s.jobs - {id})
  }

  /** A crash loses memory and threads; the next process recovers the table and reads two totals. */
  ghost function Restarted(s: System, readDay: nat, readMonth: nat, day: nat, month: nat): System {
    System(Books(map[day := RecoveredSpend(s.rows, Day(readDay))],
                 map[month := RecoveredSpend(s.rows, Month(readMonth))],
                 map[]),
           Recover(s.rows), map[], s.fault)
  }

  ghost function Next(p: Policy, s: System, step: Step): System {
    match step
    case Admit(op) => if op.Take? then Admitted(p, s, op) else s
    case Inserted(id) =>
      if id in s.jobs && s.jobs[id].InsertRow?
      then s.(rows := s.rows[id := Row(s.jobs[id].reservation, Reserved)], jobs := s.jobs - {id})
      else s
    case InsertAbandoned(id, threadRuns, memoryKept) =>
      if id in s.jobs && s.jobs[id].InsertRow?
      then s.(jobs := if threadRuns then s.jobs else s.jobs - {id},
              mem := if memoryKept then s.mem else Drop(s.mem, id))
      else s
    case Close(op) => if op.Take? then s else Closed(p, s, op)
    case Updated(id) => if id in s.jobs && s.jobs[id].UpdateRow? then UpdateApplied(s, id) else s
    case UpdateLost(id) =>
      if id in s.jobs && s.jobs[id].UpdateRow? then s.(jobs := s.jobs - {id}) else s
    case Restart(readDay, readMonth, day, month) => Restarted(s, readDay, readMonth, day, month)
  }

  ghost function Run(p: Policy, s: System, steps: seq<Step>): System {
    if steps == [] then s else Next(p, Run(p, s, steps[..|steps| - 1]), steps[|steps| - 1])
  }

  ghost predicate Empty(s: System) {
    && s.rows == map[] && s.jobs == map[] && !s.fault && s.mem.open == map[]
    && forall k :: Spent(s.mem, k) == 0.0
  }

  // ----- the life of one row --------------------------------------------------

  /** What the ledger keeps of a closed call; one whose usage has no price stays reserved. */
  function Kept(p: Policy, op: Op, model: Model, worst: real): RowState
    requires !op.Take? && model in p.prices
  {
    match op
    case Release(_) => Released
    case SettleUnknown(_) => ChargedUnknown(worst)
    case Settle(_, usage) =>
      match p.prices[model].Cost(usage)
      case Ok(cost) => Settled(cost)
      case Err(_) => Reserved
  }

  /**
   * A call that is admitted, written, closed and written again: the row first holds the worst
   * case as reserved and then the outcome, memory holds it no longer, and every other row,
   * reservation and job is as it was.
   */
  lemma LifeOfARow(p: Policy, s: System, take: Op, op: Op)
    requires take.Take? && !op.Take? && op.id == take.id
    requires take.id !in s.mem.open && take.id !in s.rows && take.id !in s.jobs
    requires Reserve(p, s.mem, take.model, take.prompt, take.completion, take.day, take.month).Ok?
    ensures take.model in p.prices
    ensures var worst := Worst(p.prices[take.model], take.prompt, take.completion);
            var held := Reservation(take.model, worst, take.day, take.month);
            var written := Next(p, Next(p, s, Admit(take)), Inserted(take.id));
            var done := Next(p, Next(p, written, Close(op)), Updated(take.id));
            && written.rows == s.rows[take.id := Row(held, Reserved)] && written.jobs == s.jobs
            && written.mem.open == s.mem.open[take.id := held]
            && done.rows == s.rows[take.id := Row(held, Kept(p, op, take.model, worst))] && done.jobs == s.jobs
            && done.mem.open == s.mem.open && done.fault == s.fault
  {
    hide *;
    ReservedIff(p, s.mem, take.model, take.prompt, take.completion, take.day, take.month);
    var worst := Worst(p.prices[take.model], take.prompt, take.completion);
    var held := Reservation(take.model, worst, take.day, take.month);
    RowIsWritten(p, s, take, held);
    var written := Next(p, Next(p, s, Admit(take)), Inserted(take.id));
    RowIsClosed(p, written, op, held);
    assert s.rows[take.id := Row(held, Reserved)][take.id := Row(held, Kept(p, op, take.model, worst))]
           == s.rows[take.id := Row(held, Kept(p, op, take.model, worst))];
    assert s.mem.open[take.id := held] - {take.id} == s.mem.open;
  }

  lemma RowIsWritten(p: Policy, s: System, take: Op, held: Reservation)
    requires take.Take? && take.id !in s.mem.open && take.id !in s.rows && take.id !in s.jobs
    requires Reserve(p, s.mem, take.model, take.prompt, take.completion, take.day, take.month) == Ok(held)
    ensures var written := Next(p, Next(p, s, Admit(take)), Inserted(take.id));
            && written.rows == s.rows[take.id := Row(held, Reserved)] && written.jobs == s.jobs
            && written.mem.open == s.mem.open[take.id := held] && written.fault == s.fault
  {
    hide Reserve;
    assert s.jobs[take.id := InsertRow(held)] - {take.id} == s.jobs;
  }

  lemma RowIsClosed(p: Policy, s: System, op: Op, held: Reservation)
    requires !op.Take? && op.id in s.mem.open && s.mem.open[op.id] == held && op.id !in s.jobs
    requires op.id in s.rows && s.rows[op.id] == Row(held, Reserved) && held.model in p.prices
    ensures var done := Next(p, Next(p, s, Close(op)), Updated(op.id));
            && done.rows == s.rows[op.id := Row(held, Kept(p, op, held.model, held.amount))] && done.jobs == s.jobs
            && done.mem.open == s.mem.open - {op.id} && done.fault == s.fault
  {
    hide Times;
    var closed := Next(p, s, Close(op));
    if op.Settle? && p.prices[held.model].Cost(op.usage).Err? {
      assert closed.jobs == s.jobs;
      assert s.rows[op.id := s.rows[op.id]] == s.rows;
    } else {
      assert closed.jobs - {op.id} == s.jobs;
    }
  }

  // ----- the ledger transition error never fires ---------------------------

  ghost predicate JobFits(s: System, id: Id)
    requires id in s.jobs
  {
    match s.jobs[id]
    case InsertRow(r) =>
      id !in s.rows && r.amount >= 0.0 && (id in s.mem.open ==> s.mem.open[id] == r)
    case UpdateRow(state) =>
      && id in s.rows && s.rows[id].state == Reserved && id !in s.mem.open
      && state != Reserved && (state.Settled? || state.ChargedUnknown? ==> state.charged >= 0.0)
  }

  ghost predicate RowFits(s: System, id: Id)
    requires id in s.rows
  {
    var row := s.rows[id];
    && row.reservation.amount >= 0.0
    && (row.state.Settled? || row.state.ChargedUnknown? ==> row.state.charged >= 0.0)
    && (id in s.mem.open ==> row == Row(s.mem.open[id], Reserved) && id !in s.jobs)
  }

  ghost predicate Consistent(s: System) {
    && WellFormed(s.mem)
    && (forall id :: id in s.jobs ==> JobFits(s, id))
    && (forall id :: id in s.rows ==> RowFits(s, id))
  }

  lemma ClosingIsNonNegative(p: Policy, r: Reservation, op: Op)
    requires p.Valid() && r.amount >= 0.0 && !op.Take? && Closing(p, r, op).Some?
    ensures var c := Closing(p, r, op).value;
            c != Reserved && (c.Settled? || c.ChargedUnknown? ==> c.charged >= 0.0)
  {
    if op.Settle? { CostIsNonNegative(p.prices[r.model], op.usage); }
  }

  lemma AdmitKeepsConsistent(p: Policy, s: System, op: Op)
    requires p.Valid() && Consistent(s) && op.Take?
    ensures Consistent(Admitted(p, s, op))
  {
    var t := Admitted(p, s, op);
    StepKeepsWellFormed(p, s.mem, op);
    if op.id !in s.mem.open && op.id !in s.rows && op.id !in s.jobs && t.jobs != s.jobs {
      assert t.mem.open[op.id].amount >= 0.0;
      forall id | id in t.rows ensures RowFits(t, id) { assert RowFits(s, id); }
      forall id | id in t.jobs ensures JobFits(t, id) { assert id != op.id ==> JobFits(s, id); }
    }
  }

  lemma CloseKeepsConsistent(p: Policy, s: System, op: Op)
    requires p.Valid() && Consistent(s) && !op.Take?
    ensures Consistent(Closed(p, s, op))
  {
    var t := Closed(p, s, op);
    StepKeepsWellFormed(p, s.mem, op);
    if op.id in s.mem.open && op.id in s.rows {
      assert RowFits(s, op.id);
      if Closing(p, s.mem.open[op.id], op).Some? { ClosingIsNonNegative(p, s.mem.open[op.id], op); }
      forall id | id in t.rows ensures RowFits(t, id) { assert RowFits(s, id); }
      forall id | id in t.jobs ensures JobFits(t, id) { assert id != op.id ==> JobFits(s, id); }
    }
  }

  lemma RestartKeepsConsistent(s: System, readDay: nat, readMonth: nat, day: nat, month: nat)
    requires Consistent(s)
    ensures Consistent(Restarted(s, readDay, readMonth, day, month))
  {
    var t := Restarted(s, readDay, readMonth, day, month);
    forall id | id in t.rows ensures RowFits(t, id) { assert RowFits(s, id); }
  }

  lemma JobStepKeepsConsistent(p: Policy, s: System, step: Step)
    requires Consistent(s) && !step.Admit? && !step.Close? && !step.Restart?
    ensures Consistent(Next(p, s, step)) && Next(p, s, step).fault == s.fault
  {
    var t := Next(p, s, step);
    if step.id in s.jobs {
      assert JobFits(s, step.id);
      forall id | id in t.rows ensures RowFits(t, id) { assert id in s.rows ==> RowFits(s, id); }
      forall id | id in t.jobs ensures JobFits(t, id) { assert JobFits(s, id); }
    }
  }

  lemma NextKeepsConsistent(p: Policy, s: System, step: Step)
    requires p.Valid() && Consistent(s)
    ensures Consistent(Next(p, s, step)) && Next(p, s, step).fault == s.fault
  {
    hide Consistent;
    match step
    case Admit(op) => if op.Take? { AdmitKeepsConsistent(p, s, op); }
    case Close(op) => if !op.Take? { CloseKeepsConsistent(p, s, op); }
    case Restart(readDay, readMonth, day, month) => RestartKeepsConsistent(s, readDay, readMonth, day, month);
    case _ => JobStepKeepsConsistent(p, s, step);
  }

  lemma {:induction false} RunsStayConsistent(p: Policy, s: System, steps: seq<Step>)
    requires p.Valid() && Consistent(s)
    ensures Consistent(Run(p, s, steps)) && Run(p, s, steps).fault == s.fault
  {
    if steps != [] {
      RunsStayConsistent(p, s, steps[..|steps| - 1]);
      NextKeepsConsistent(p, Run(p, s, steps[..|steps| - 1]), steps[|steps| - 1]);
    }
  }

  /** Over every run, with any crashes and any charges, "applied exactly once" is never violated. */
  lemma TransitionErrorNeverFires(p: Policy, s: System, steps: seq<Step>)
    requires p.Valid() && Empty(s)
    ensures !Run(p, s, steps).fault
  {
    RunsStayConsistent(p, s, steps);
  }

  // ----- what the table answers for, against what memory has spent ----------

  /** What a row will finally be charged once its outstanding job is done; open rows are not yet spent. */
  function Pending(s: System, id: Id): RowState
    requires id in s.rows
  {
    if id in s.jobs && s.jobs[id].UpdateRow? then s.jobs[id].state else s.rows[id].state
  }

  function Charged(state: RowState, r: Reservation): real {
    match state
    case Reserved => r.amount
    case Released => 0.0
    case Settled(charged) => charged
    case ChargedUnknown(charged) => charged
  }

  ghost function Claims(s: System, k: Key): map<Id, real> {
    map id | id in s.rows && id !in s.mem.open && Holds(s.rows[id].reservation, k)
      :: Charged(Pending(s, id), s.rows[id].reservation)
  }

  /** How much more the table answers for than memory has spent. */
  ghost function Slack(s: System, k: Key): real {
    Sum(Claims(s, k)) - Spent(s.mem, k)
  }

  /** What a restart puts under a key: what it read for the day and the month it then runs in. */
  ghost function ReadFor(rows: Rows, readDay: nat, readMonth: nat, day: nat, month: nat, k: Key): real {
    if k == Day(day) then RecoveredSpend(rows, Day(readDay))
    else if k == Month(month) then RecoveredSpend(rows, Month(readMonth))
    else 0.0
  }

  /**
   * A settlement within its reservation, and a restart that reads no more than the table holds
   * for the day and the month it then runs in; two clock readings that agree read just that.
   */
  ghost predicate Sound(p: Policy, s: System, step: Step) {
    match step
    case Close(op) =>
      op.Settle? && op.id in s.mem.open && ActualCost(p, s.mem.open[op.id], op.usage).Ok?
      ==> ActualCost(p, s.mem.open[op.id], op.usage).value <= s.mem.open[op.id].amount
    case Restart(readDay, readMonth, day, month) =>
      && RecoveredSpend(s.rows, Day(readDay)) <= RecoveredSpend(s.rows, Day(day))
      && RecoveredSpend(s.rows, Month(readMonth)) <= RecoveredSpend(s.rows, Month(month))
    case _ => true
  }

  ghost predicate AllSound(p: Policy, s: System, steps: seq<Step>) {
    forall i :: 0 <= i < |steps| ==> Sound(p, Run(p, s, steps[..i]), steps[i])
  }

  ghost predicate Bounded(s: System) {
    forall id :: id in s.jobs && s.jobs[id].UpdateRow? && id in s.rows ==>
      Charged(s.jobs[id].state, s.rows[id].reservation) <= s.rows[id].reservation.amount
  }

  /** Recovery adds up the same rows as Claims, each at the worst it can still be charged. */
  ghost function WorstCharges(s: System, k: Key): map<Id, real> {
    map id | id in s.rows && Holds(s.rows[id].reservation, k)
      :: Charged(s.rows[id].state, s.rows[id].reservation)
  }

  lemma RecoveryChargesTheWorst(s: System, k: Key)
    requires Consistent(s)
    ensures RecoveredSpend(s.rows, k) == Sum(WorstCharges(s, k))
  {
    var counted, worst := CountedUnder(Recover(s.rows), k), WorstCharges(s, k);
    forall id | id in worst ensures worst[id] >= 0.0 && (id !in counted ==> worst[id] == 0.0) {
      assert RowFits(s, id);
    }
    SumMonotone(counted, worst);
    ZeroesAddNothing(counted, worst);
  }

  lemma {:induction false} ZeroesAddNothing(u: map<Id, real>, w: map<Id, real>)
    requires forall id :: id in u ==> id in w && u[id] == w[id]
    requires forall id :: id in w && id !in u ==> w[id] == 0.0
    ensures Sum(u) == Sum(w)
    decreases w.Keys
  {
    if w.Keys == {} {
      assert u.Keys == {};
    } else {
      var id :| id in w;
      SumRemove(w, id);
      if id in u { SumRemove(u, id); ZeroesAddNothing(u - {id}, w - {id}); }
      else { ZeroesAddNothing(u, w - {id}); }
    }
  }

  /** What memory still holds open and the table already knows. */
  ghost function OpenRows(s: System, k: Key): map<Id, real> {
    map id | id in s.rows && id in s.mem.open && Holds(s.rows[id].reservation, k)
      :: s.rows[id].reservation.amount
  }

  lemma {:induction false} SumSplit(u: map<Id, real>, v: map<Id, real>, w: map<Id, real>)
    requires u.Keys !! v.Keys && w.Keys == u.Keys + v.Keys
    requires forall id :: id in u ==> u[id] <= w[id]
    requires forall id :: id in v ==> v[id] <= w[id]
    ensures Sum(u) + Sum(v) <= Sum(w)
    decreases w.Keys
  {
    if w.Keys == {} {
      assert u.Keys == {} && v.Keys == {};
    } else {
      var id :| id in w;
      SumRemove(w, id);
      if id in u { SumRemove(u, id); SumSplit(u - {id}, v, w - {id}); }
      else { SumRemove(v, id); SumSplit(u, v - {id}, w - {id}); }
    }
  }

  /** Stopping now recovers at least what memory spent, plus every returned open reservation in full. */
  lemma RecoveryCoversClaims(s: System, k: Key)
    requires Consistent(s) && Bounded(s)
    ensures RecoveredSpend(s.rows, k) >= Sum(Claims(s, k)) + Sum(OpenRows(s, k))
  {
    RecoveryChargesTheWorst(s, k);
    forall id | id in Claims(s, k) ensures Claims(s, k)[id] <= WorstCharges(s, k)[id] {
      if id in s.jobs { assert JobFits(s, id); }
    }
    forall id | id in OpenRows(s, k) ensures OpenRows(s, k)[id] <= WorstCharges(s, k)[id] {
      assert RowFits(s, id);
    }
    SumSplit(Claims(s, k), OpenRows(s, k), WorstCharges(s, k));
  }

  // ----- how each step moves the slack --------------------------------------

  lemma ClaimAppears(s: System, t: System, id: Id, k: Key)
    requires id in t.rows && id !in t.mem.open && id !in Claims(s, k)
    requires forall i :: i != id ==> (i in Claims(s, k) <==> i in Claims(t, k))
    requires forall i :: i != id && i in Claims(s, k) ==> Claims(s, k)[i] == Claims(t, k)[i]
    ensures Sum(Claims(t, k)) == Sum(Claims(s, k))
            + Share(t.rows[id].reservation, k, Charged(Pending(t, id), t.rows[id].reservation))
  {
    if Holds(t.rows[id].reservation, k) {
      SumInsert(Claims(s, k), id, Claims(t, k)[id]);
      assert Claims(t, k) == Claims(s, k)[id := Claims(t, k)[id]];
    } else {
      assert Claims(t, k) == Claims(s, k);
    }
  }

  /** What a step that is not a restart adds to the slack: writes that come late, never, or with no price. */
  function Gain(p: Policy, s: System, step: Step, k: Key): real {
    match step
    case Inserted(id) =>
      if id in s.jobs && s.jobs[id].InsertRow? && id !in s.mem.open
      then Share(s.jobs[id].reservation, k, s.jobs[id].reservation.amount)
      else 0.0
    case Close(op) =>
      if !op.Take? && op.id in s.mem.open && op.id in s.rows && Closing(p, s.mem.open[op.id], op).None?
      then Share(s.mem.open[op.id], k, s.mem.open[op.id].amount)
      else 0.0
    case UpdateLost(id) =>
      if id in s.jobs && s.jobs[id].UpdateRow? && id in s.rows
      then Share(s.rows[id].reservation, k,
                 s.rows[id].reservation.amount - Charged(s.jobs[id].state, s.rows[id].reservation))
      else 0.0
    case _ => 0.0
  }

  /** Closing books the charge in memory and claims exactly the same amount from the table. */
  lemma CloseKeepsSlack(p: Policy, s: System, op: Op, k: Key)
    requires p.Valid() && !op.Take? && (op.id in s.rows ==> RowFits(s, op.id))
    ensures Slack(Next(p, s, Close(op)), k) >= Slack(s, k)
    ensures Slack(Next(p, s, Close(op)), k) == Slack(s, k) + Gain(p, s, Close(op), k)
  {
    var t := Next(p, s, Close(op));
    if op.id in s.mem.open && op.id in s.rows {
      ClaimAppears(s, t, op.id, k);
      var closing := Closing(p, s.mem.open[op.id], op);
      if closing.Some? {
        var amount := if closing.value.Released? then 0.0 else closing.value.charged;
        ChargeConserves(s.mem, op.id, amount, k);
      }
    }
  }

  lemma InsertKeepsSlack(p: Policy, s: System, id: Id, k: Key)
    requires id in s.jobs ==> JobFits(s, id)
    ensures Slack(Next(p, s, Inserted(id)), k) >= Slack(s, k)
    ensures Slack(Next(p, s, Inserted(id)), k) == Slack(s, k) + Gain(p, s, Inserted(id), k)
  {
    if id in s.jobs && s.jobs[id].InsertRow? {
      if id in s.mem.open {
        InsertHeld(p, s, id, k);
      } else {
        ClaimAppears(s, Next(p, s, Inserted(id)), id, k);
      }
    }
  }

  lemma InsertHeld(p: Policy, s: System, id: Id, k: Key)
    requires id in s.jobs && s.jobs[id].InsertRow? && JobFits(s, id) && id in s.mem.open
    ensures Claims(Next(p, s, Inserted(id)), k) == Claims(s, k)
  {
    hide Holds, Charged;
  }

  lemma LostUpdateKeepsSlack(p: Policy, s: System, id: Id, k: Key)
    requires id in s.jobs ==> JobFits(s, id)
    ensures Slack(Next(p, s, UpdateLost(id)), k) == Slack(s, k) + Gain(p, s, UpdateLost(id), k)
    ensures Bounded(s) ==> Slack(Next(p, s, UpdateLost(id)), k) >= Slack(s, k)
  {
    var t := Next(p, s, UpdateLost(id));
    if id in s.jobs && s.jobs[id].UpdateRow? {
      var row := s.rows[id];
      if Holds(row.reservation, k) {
        assert Claims(t, k) == Claims(s, k)[id := row.reservation.amount];
        SumUpdate(Claims(s, k), id, row.reservation.amount);
      } else {
        assert Claims(t, k) == Claims(s, k);
      }
    }
  }

  lemma WorstChargesNonNegative(s: System, k: Key)
    requires Consistent(s)
    ensures Sum(WorstCharges(s, k)) >= 0.0
  {
    forall id | id in WorstCharges(s, k) ensures WorstCharges(s, k)[id] >= 0.0 { assert RowFits(s, id); }
    SumMonotone(map[], WorstCharges(s, k));
  }

  lemma RestartClaims(s: System, readDay: nat, readMonth: nat, day: nat, month: nat, k: Key)
    ensures Claims(Restarted(s, readDay, readMonth, day, month), k) == WorstCharges(s, k)
  {
    hide CountedUnder, RecoveredSpend;
    var t := Restarted(s, readDay, readMonth, day, month);
    assert Claims(t, k).Keys == WorstCharges(s, k).Keys;
    forall id | id in Claims(t, k) ensures Claims(t, k)[id] == WorstCharges(s, k)[id] {
    }
  }

  /** A restart leaves as slack what the table has under a key beyond what was read for it. */
  lemma RestartSlack(s: System, readDay: nat, readMonth: nat, day: nat, month: nat, k: Key)
    requires Consistent(s)
    ensures var t := Restarted(s, readDay, readMonth, day, month);
            && Spent(t.mem, k) == ReadFor(s.rows, readDay, readMonth, day, month, k)
            && Slack(t, k) == RecoveredSpend(s.rows, k) - Spent(t.mem, k)
    ensures RecoveredSpend(s.rows, k) >= 0.0
  {
    hide Consistent, RecoveredSpend, Claims, WorstCharges;
    RecoveryChargesTheWorst(s, k);
    RestartClaims(s, readDay, readMonth, day, month, k);
    WorstChargesNonNegative(s, k);
  }

  lemma AdmitKeepsSlack(p: Policy, s: System, op: Op, k: Key)
    requires op.Take?
    ensures Slack(Admitted(p, s, op), k) == Slack(s, k)
  {
    assert Claims(Admitted(p, s, op), k) == Claims(s, k);
  }

  lemma AbandonKeepsSlack(p: Policy, s: System, id: Id, threadRuns: bool, memoryKept: bool, k: Key)
    requires id in s.jobs ==> JobFits(s, id)
    ensures Slack(Next(p, s, InsertAbandoned(id, threadRuns, memoryKept)), k) == Slack(s, k)
  {
    var t := Next(p, s, InsertAbandoned(id, threadRuns, memoryKept));
    if id in s.jobs && s.jobs[id].InsertRow? {
      assert Claims(t, k).Keys == Claims(s, k).Keys;
      assert Claims(t, k) == Claims(s, k);
    }
  }

  lemma UpdateKeepsSlack(p: Policy, s: System, id: Id, k: Key)
    requires id in s.jobs ==> JobFits(s, id)
    ensures Slack(Next(p, s, Updated(id)), k) == Slack(s, k)
  {
    if id in s.jobs && s.jobs[id].UpdateRow? {
      var t := UpdateApplied(s, id);
      assert Claims(t, k).Keys == Claims(s, k).Keys;
      assert Claims(t, k) == Claims(s, k);
    }
  }

  lemma SoundRestartSlack(p: Policy, s: System, step: Step, k: Key)
    requires Consistent(s) && step.Restart? && Sound(p, s, step)
    ensures Slack(Next(p, s, step), k) >= 0.0
  {
    hide Consistent, RecoveredSpend, Slack;
    RestartSlack(s, step.readDay, step.readMonth, step.day, step.month, k);
  }

  lemma NextKeepsSlack(p: Policy, s: System, step: Step, k: Key)
    requires p.Valid() && Consistent(s) && Bounded(s) && Sound(p, s, step)
    ensures Slack(s, k) >= 0.0 ==> Slack(Next(p, s, step), k) >= 0.0
  {
    match step
    case Close(op) => if !op.Take? { CloseKeepsSlack(p, s, op, k); }
    case Inserted(id) => InsertKeepsSlack(p, s, id, k);
    case UpdateLost(id) => LostUpdateKeepsSlack(p, s, id, k);
    case Restart(readDay, readMonth, day, month) => SoundRestartSlack(p, s, step, k);
    case Admit(op) => if op.Take? { AdmitKeepsSlack(p, s, op, k); }
    case InsertAbandoned(id, threadRuns, memoryKept) => AbandonKeepsSlack(p, s, id, threadRuns, memoryKept, k);
    case Updated(id) => UpdateKeepsSlack(p, s, id, k);
  }

  lemma NextKeepsBounded(p: Policy, s: System, step: Step)
    requires Consistent(s) && Bounded(s) && Sound(p, s, step)
    ensures Bounded(Next(p, s, step))
  {
    if step.Close? && step.op.id in s.rows { assert RowFits(s, step.op.id); }
    if (step.Inserted? || step.Updated?) && step.id in s.jobs { assert JobFits(s, step.id); }
  }

  // ----- crash safety --------------------------------------------------------

  lemma {:induction false} RunsKeepSlack(p: Policy, s: System, steps: seq<Step>, k: Key)
    requires p.Valid() && Empty(s) && AllSound(p, s, steps)
    ensures Consistent(Run(p, s, steps)) && Bounded(Run(p, s, steps)) && Slack(Run(p, s, steps), k) >= 0.0
  {
    if steps == [] {
      assert Claims(s, k) == map[];
    } else {
      var before, last := steps[..|steps| - 1], steps[|steps| - 1];
      forall i | 0 <= i < |before| ensures Sound(p, Run(p, s, before[..i]), before[i]) {
        assert before[..i] == steps[..i];
      }
      RunsKeepSlack(p, s, before, k);
      assert Sound(p, Run(p, s, before), last);
      NextKeepsConsistent(p, Run(p, s, before), last);
      NextKeepsBounded(p, Run(p, s, before), last);
      NextKeepsSlack(p, Run(p, s, before), last, k);
    }
  }

  /**
   * Crash safety: if no settlement charges more than it reserved, and no restart reads more than
   * the table holds for the day and month it runs in, then wherever the process stops, the spend
   * recovered for any key is at least what memory had recorded for it plus every reservation a
   * caller still held.
   */
  lemma CrashSafety(p: Policy, s: System, steps: seq<Step>, k: Key)
    requires p.Valid() && Empty(s) && AllSound(p, s, steps)
    ensures var t := Run(p, s, steps);
            RecoveredSpend(t.rows, k) >= Spent(t.mem, k) + Sum(OpenRows(t, k))
  {
    RunsKeepSlack(p, s, steps, k);
    RecoveryCoversClaims(Run(p, s, steps), k);
  }

  /** Steps that lose nothing: no failed or cancelled ledger write, no unpriceable usage, no restart. */
  ghost predicate Clean(p: Policy, s: System, step: Step) {
    match step
    case InsertAbandoned(_, _, _) => false
    case UpdateLost(_) => false
    case Restart(_, _, _, _) => false
    case Inserted(id) => id in s.mem.open
    case Close(op) => !op.Take? && op.id in s.mem.open && Closing(p, s.mem.open[op.id], op).Some?
    case _ => true
  }

  lemma {:induction false} CleanRunsKeepSlack(p: Policy, s: System, steps: seq<Step>, k: Key)
    requires p.Valid() && Consistent(s)
    requires forall i :: 0 <= i < |steps| ==> Clean(p, Run(p, s, steps[..i]), steps[i])
    ensures Slack(Run(p, s, steps), k) == Slack(s, k)
  {
    if steps != [] {
      var before, last := steps[..|steps| - 1], steps[|steps| - 1];
      forall i | 0 <= i < |before| ensures Clean(p, Run(p, s, before[..i]), before[i]) {
        assert before[..i] == steps[..i];
      }
      CleanRunsKeepSlack(p, s, before, k);
      var now := Run(p, s, before);
      assert Clean(p, now, last);
      RunsStayConsistent(p, s, before);
      match last
      case Close(op) => CloseKeepsSlack(p, now, op, k);
      case Inserted(id) => InsertKeepsSlack(p, now, id, k);
      case Admit(op) => if op.Take? { AdmitKeepsSlack(p, now, op, k); }
      case Updated(id) => UpdateKeepsSlack(p, now, id, k);
    }
  }

  /**
   * Recovery overcounts only after a lost or cancelled write: after a restart and clean steps,
   * stopping with no job outstanding and nothing open recovers exactly what memory had spent.
   */
  lemma CleanRecoveryIsExact(p: Policy, s: System, day: nat, month: nat, steps: seq<Step>, k: Key)
    requires p.Valid() && Consistent(s) && (k == Day(day) || k == Month(month))
    requires var fresh0 := Next(p, s, Restart(day, month, day, month));
             && (forall i :: 0 <= i < |steps| ==> Clean(p, Run(p, fresh0, steps[..i]), steps[i]))
             && Run(p, fresh0, steps).jobs == map[] && Run(p, fresh0, steps).mem.open == map[]
    ensures var t := Run(p, Next(p, s, Restart(day, month, day, month)), steps);
            RecoveredSpend(t.rows, k) == Spent(t.mem, k)
  {
    hide Consistent, RecoveredSpend, Slack, Clean, Next;
    var start := Next(p, s, Restart(day, month, day, month));
    NextKeepsConsistent(p, s, Restart(day, month, day, month));
    AgreeingRestartSlack(p, s, day, month, k);
    CleanRunsKeepSlack(p, start, steps, k);
    RunsStayConsistent(p, start, steps);
    QuietClaims(Run(p, start, steps), k);
  }

  lemma AgreeingRestartSlack(p: Policy, s: System, day: nat, month: nat, k: Key)
    requires Consistent(s) && (k == Day(day) || k == Month(month))
    ensures Slack(Next(p, s, Restart(day, month, day, month)), k) == 0.0
  {
    hide Consistent, RecoveredSpend, Slack;
    RestartSlack(s, day, month, day, month, k);
  }

  /** With nothing open and nothing outstanding the table answers for what recovery finds. */
  lemma QuietClaims(s: System, k: Key)
    requires Consistent(s) && s.jobs == map[] && s.mem.open == map[]
    ensures RecoveredSpend(s.rows, k) == Spent(s.mem, k) + Slack(s, k)
  {
    hide Consistent, RecoveredSpend;
    RecoveryChargesTheWorst(s, k);
    assert Claims(s, k) == WorstCharges(s, k);
  }
}
