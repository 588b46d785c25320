// How far the spend that recovery would find is from the spend in memory: exactly, in every
// reachable state, whatever is charged, lost, cancelled or restarted.
module LedgerGap {
  import opened MapSums
  import opened Budget
  import opened Ledger

  /** What each outstanding update of the table would still take off the worst charge of its row. */
  ghost function Outstanding(s: System, k: Key): map<Id, real> {
    map id | id in s.jobs && s.jobs[id].UpdateRow? && id in s.rows && Holds(s.rows[id].reservation, k)
      :: s.rows[id].reservation.amount - Charged(s.jobs[id].state, s.rows[id].reservation)
  }

  /** Two disjoint maps, and a third that raises some of the first. */
  lemma {:induction false} SumTogether(u: map<Id, real>, v: map<Id, real>, x: map<Id, real>, w: map<Id, real>)
    requires u.Keys !! v.Keys && x.Keys <= u.Keys && w.Keys == u.Keys + v.Keys
    requires forall id :: id in u ==> w[id] == u[id] + (if id in x then x[id] else 0.0)
    requires forall id :: id in v ==> w[id] == v[id]
    ensures Sum(w) == Sum(u) + Sum(v) + Sum(x)
    decreases w.Keys
  {
    if w.Keys == {} {
      assert u.Keys == {} && v.Keys == {} && x.Keys == {};
    } else {
      var id :| id in w;
      SumRemove(w, id);
      if id in v {
        SumRemove(v, id);
        SumTogether(u, v - {id}, x, w - {id});
      } else {
        SumRemove(u, id);
        if id in x { SumRemove(x, id); }
        assert id !in x ==> x - {id} == x;
        SumTogether(u - {id}, v, x - {id}, w - {id});
      }
    }
  }

  lemma WorstParts(s: System, k: Key)
    requires Consistent(s)
    ensures var u, v, x, w := Claims(s, k), OpenRows(s, k), Outstanding(s, k), WorstCharges(s, k);
            && u.Keys !! v.Keys && x.Keys <= u.Keys && w.Keys == u.Keys + v.Keys
            && (forall id :: id in u ==> w[id] == u[id] + (if id in x then x[id] else 0.0))
            && (forall id :: id in v ==> w[id] == v[id])
  {
    forall id | id in s.jobs && s.jobs[id].UpdateRow?
      ensures id in s.rows && s.rows[id].state == Reserved && id !in s.mem.open
    {
      assert JobFits(s, id);
    }
    forall id | id in s.rows && id in s.mem.open ensures s.rows[id].state == Reserved {
      assert RowFits(s, id);
    }
  }

  /** In every consistent state: what recovery finds beyond memory, part by part. */
  lemma RecoveryGap(s: System, k: Key)
    requires Consistent(s)
    ensures RecoveredSpend(s.rows, k) - Spent(s.mem, k)
            == Slack(s, k) + Sum(OpenRows(s, k)) + Sum(Outstanding(s, k))
  {
    hide Claims, OpenRows, WorstCharges, Outstanding, RecoveredSpend, Consistent;
    RecoveryChargesTheWorst(s, k);
    WorstParts(s, k);
    SumTogether(Claims(s, k), OpenRows(s, k), Outstanding(s, k), WorstCharges(s, k));
  }

  /** After a restart the table holds what it held, and memory what was read from it. */
  lemma RestartGap(s: System, readDay: nat, readMonth: nat, day: nat, month: nat, k: Key)
    requires Consistent(s)
    ensures var t := Restarted(s, readDay, readMonth, day, month);
            && RecoveredSpend(t.rows, k) - Spent(t.mem, k) == Slack(t, k)
            && RecoveredSpend(t.rows, k) == RecoveredSpend(s.rows, k)
            && Spent(t.mem, k) == ReadFor(s.rows, readDay, readMonth, day, month, k)
  {
    hide RecoveredSpend, ReadFor, Slack, Consistent;
    RestartSlack(s, readDay, readMonth, day, month, k);
    RecoverTwice(s.rows, k);
  }

  lemma RecoverTwice(rows: Rows, k: Key)
    ensures RecoveredSpend(Recover(rows), k) == RecoveredSpend(rows, k)
  {
    assert Recover(Recover(rows)) == Recover(rows);
  }

  /** Every step that is not a restart moves the slack by exactly its gain. */
  lemma SlackMoves(p: Policy, s: System, step: Step, k: Key)
    requires p.Valid() && Consistent(s) && !step.Restart?
    ensures Slack(Next(p, s, step), k) == Slack(s, k) + Gain(p, s, step, k)
  {
    match step
    case Close(op) => if !op.Take? { CloseKeepsSlack(p, s, op, k); }
    case Inserted(id) => InsertKeepsSlack(p, s, id, k);
    case UpdateLost(id) => LostUpdateKeepsSlack(p, s, id, k);
    case Admit(op) => if op.Take? { AdmitKeepsSlack(p, s, op, k); }
    case InsertAbandoned(id, threadRuns, memoryKept) => AbandonKeepsSlack(p, s, id, threadRuns, memoryKept, k);
    case Updated(id) => UpdateKeepsSlack(p, s, id, k);
  }

  /** All gains since the last restart, and what the table held beyond what that restart read. */
  ghost function Surplus(p: Policy, s: System, steps: seq<Step>, k: Key): real {
    if steps == [] then 0.0
    else
      var before, last := steps[..|steps| - 1], steps[|steps| - 1];
      if last.Restart? then
        var rows := Run(p, s, before).rows;
        RecoveredSpend(rows, k) - ReadFor(rows, last.readDay, last.readMonth, last.day, last.month, k)
      else Surplus(p, s, before, k) + Gain(p, Run(p, s, before), last, k)
  }

  lemma {:induction false} SlackIsSurplus(p: Policy, s: System, steps: seq<Step>, k: Key)
    requires p.Valid() && Empty(s)
    ensures Slack(Run(p, s, steps), k) == Surplus(p, s, steps, k)
  {
    hide Slack, Gain, RecoveredSpend, ReadFor, Consistent, Empty, Next;
    if steps == [] {
      NoSlackAtStart(s, k);
    } else {
      var before, last := steps[..|steps| - 1], steps[|steps| - 1];
      SlackIsSurplus(p, s, before, k);
      StartIsConsistent(s);
      RunsStayConsistent(p, s, before);
      if last.Restart? {
        RestartIsNext(p, Run(p, s, before), last);
        RestartGap(Run(p, s, before), last.readDay, last.readMonth, last.day, last.month, k);
      } else {
        SlackMoves(p, Run(p, s, before), last, k);
      }
    }
  }

  lemma NoSlackAtStart(s: System, k: Key)
    requires Empty(s)
    ensures Slack(s, k) == 0.0
  {
    assert Claims(s, k) == map[];
  }

  lemma RestartIsNext(p: Policy, s: System, step: Step)
    requires step.Restart?
    ensures Next(p, s, step) == Restarted(s, step.readDay, step.readMonth, step.day, step.month)
  {
  }

  lemma StartIsConsistent(s: System)
    requires Empty(s)
    ensures Consistent(s)
  {
  }

  /**
   * Over every run from an empty table, with any charges, losses, cancellations and restarts,
   * stopping recovers exactly this much more than memory had spent; it covers memory exactly
   * when the sum is not negative.
   */
  lemma RecoveryCoversIff(p: Policy, s: System, steps: seq<Step>, k: Key)
    requires p.Valid() && Empty(s)
    ensures var t := Run(p, s, steps);
            var gap := Surplus(p, s, steps, k) + Sum(OpenRows(t, k)) + Sum(Outstanding(t, k));
            && RecoveredSpend(t.rows, k) == Spent(t.mem, k) + gap
            && (RecoveredSpend(t.rows, k) >= Spent(t.mem, k) <==> gap >= 0.0)
  {
    hide Slack, Surplus, RecoveredSpend, Outstanding, OpenRows, Consistent, Empty;
    StartIsConsistent(s);
    RunsStayConsistent(p, s, steps);
    SlackIsSurplus(p, s, steps, k);
    RecoveryGap(Run(p, s, steps), k);
  }

  // ----- the two ways to fall short -------------------------------------------

  /**
   * Losing the ledger update of a settlement settles the gap at reserved minus charged: the
   * update no longer offsets it, and an overcharge is not recovered.
   */
  lemma LostOverchargeIsNotRecovered(p: Policy, s: System, id: Id, k: Key)
    requires Consistent(s) && id in s.jobs && s.jobs[id].UpdateRow?
    ensures id in s.rows
    ensures var t := Next(p, s, UpdateLost(id));
            var row := s.rows[id];
            && Slack(t, k) == Slack(s, k) + Share(row.reservation, k,
                                                  row.reservation.amount - Charged(s.jobs[id].state, row.reservation))
            && RecoveredSpend(t.rows, k) - Spent(t.mem, k) == Slack(t, k) + Sum(OpenRows(s, k)) + Sum(Outstanding(t, k))
  {
    assert JobFits(s, id);
    LostUpdateKeepsSlack(p, s, id, k);
    NextStaysConsistent(p, s, id);
    var t := Next(p, s, UpdateLost(id));
    assert OpenRows(t, k) == OpenRows(s, k);
    RecoveryGap(t, k);
  }

  lemma NextStaysConsistent(p: Policy, s: System, id: Id)
    requires Consistent(s)
    ensures Consistent(Next(p, s, UpdateLost(id)))
  {
    JobStepKeepsConsistent(p, s, UpdateLost(id));
  }

  /**
   * The table is read before the manager takes its own clock reading.  The restarted memory is
   * covered for its day exactly when the day it read had spent no more than the day it runs in,
   * and for its month likewise.
   */
  lemma MidnightDuringRestart(p: Policy, s: System, readDay: nat, readMonth: nat, day: nat, month: nat)
    requires Consistent(s)
    ensures var t := Next(p, s, Restart(readDay, readMonth, day, month));
            && (RecoveredSpend(t.rows, Day(day)) >= Spent(t.mem, Day(day))
                <==> RecoveredSpend(s.rows, Day(readDay)) <= RecoveredSpend(s.rows, Day(day)))
            && (RecoveredSpend(t.rows, Month(month)) >= Spent(t.mem, Month(month))
                <==> RecoveredSpend(s.rows, Month(readMonth)) <= RecoveredSpend(s.rows, Month(month)))
  {
    RestartGap(s, readDay, readMonth, day, month, Day(day));
    RestartGap(s, readDay, readMonth, day, month, Month(month));
  }

  /** A run from an empty table after which recovery finds less than memory has spent. */
  ghost predicate FallsShort(p: Policy, s: System, steps: seq<Step>, k: Key) {
    p.Valid() && Empty(s) && RecoveredSpend(Run(p, s, steps).rows, k) < Spent(Run(p, s, steps).mem, k)
  }

  predicate NoRestart(steps: seq<Step>) {
    forall step :: step in steps ==> !step.Restart?
  }

  predicate NothingLost(steps: seq<Step>) {
    forall step :: step in steps ==> !step.InsertAbandoned? && !step.UpdateLost?
  }

  lemma RunOne(p: Policy, s: System, steps: seq<Step>, step: Step)
    ensures Run(p, s, steps + [step]) == Next(p, Run(p, s, steps), step)
  {
    assert (steps + [step])[..|steps|] == steps;
  }

  const MODEL := Model("", "")
  const POLICY := Policy(10.0, 10.0, map[MODEL := Price(1.0, 0.0, None)])
  const NOTHING := System(Books(map[], map[], map[]), map[], map[], false)
  const HELD := Reservation(MODEL, 1.0, 0, 0)

  /** One call reserved at 1.0 on day 0, with its row in the table. */
  const OPENED := [Admit(Take(0, MODEL, 1000000, 0, 0, 0)), Inserted(0)]
  const HOLDING := System(Books(map[], map[], map[0 := HELD]), map[0 := Row(HELD, Reserved)], map[], false)

  lemma OneIsOpen()
    ensures POLICY.Valid() && Empty(NOTHING) && Run(POLICY, NOTHING, OPENED) == HOLDING
  {
    var take := Take(0, MODEL, 1000000, 0, 0, 0);
    var held := Books(map[], map[], map[0 := HELD]);
    assert OpenUnder(map[], Day(0)) == map[] && OpenUnder(map[], Month(0)) == map[];
    assert WorstCase(POLICY, MODEL, 1000000, 0) == Ok(1.0);
    assert Reserve(POLICY, NOTHING.mem, MODEL, 1000000, 0, 0, 0) == Ok(HELD);
    assert After(POLICY, NOTHING.mem, take) == held;
    var admitted := System(held, map[], map[0 := InsertRow(HELD)], false);
    assert Next(POLICY, NOTHING, Admit(take)) == admitted;
    assert Next(POLICY, admitted, Inserted(0)) == HOLDING;
    RunOne(POLICY, NOTHING, [], Admit(take));
    RunOne(POLICY, NOTHING, [] + [Admit(take)], Inserted(0));
    assert [] + [Admit(take)] + [Inserted(0)] == OPENED;
  }

  /** What recovery finds in a table with that one row, left open or charged in full. */
  lemma OneRowRecovers(rows: Rows)
    requires rows == map[0 := Row(HELD, Reserved)] || rows == map[0 := Row(HELD, ChargedUnknown(1.0))]
    ensures RecoveredSpend(rows, Day(0)) == 1.0 && RecoveredSpend(rows, Day(1)) == 0.0
    ensures Recover(rows) == map[0 := Row(HELD, ChargedUnknown(1.0))]
  {
    assert Recover(rows) == map[0 := Row(HELD, ChargedUnknown(1.0))];
    var none: map<Id, real>, id: Id := map[], 0;
    assert CountedUnder(Recover(rows), Day(0)) == none[id := 1.0];
    assert CountedUnder(Recover(rows), Day(1)) == none;
    SumInsert(none, id, 1.0);
  }

  const DOUBLE := Settle(0, Tokens(2000000, 0, 0))
  const OVERSPENT := System(Books(map[0 := 2.0], map[0 := 2.0], map[]), map[0 := Row(HELD, Reserved)], map[], false)
  const LOSING := OPENED + [Close(DOUBLE)] + [UpdateLost(0)]

  lemma LosingEnds()
    ensures Run(POLICY, NOTHING, LOSING) == OVERSPENT
  {
    OneIsOpen();
    var closed := OVERSPENT.(jobs := map[0 := UpdateRow(Settled(2.0))]);
    assert ActualCost(POLICY, HELD, DOUBLE.usage) == Ok(2.0);
    assert Next(POLICY, HOLDING, Close(DOUBLE)) == closed;
    assert Next(POLICY, closed, UpdateLost(0)) == OVERSPENT;
    RunOne(POLICY, NOTHING, OPENED, Close(DOUBLE));
    RunOne(POLICY, NOTHING, OPENED + [Close(DOUBLE)], UpdateLost(0));
  }

  /** The usage reported for that call costs 2.0, and the write of its settlement fails. */
  lemma LostOverchargeRun()
    ensures exists p, s, steps :: FallsShort(p, s, steps, Day(0)) && NoRestart(steps)
  {
    hide Run, RecoveredSpend, Empty;
    OneIsOpen();
    LosingEnds();
    OneRowRecovers(OVERSPENT.rows);
    assert FallsShort(POLICY, NOTHING, LOSING, Day(0)) && NoRestart(LOSING);
  }

  const CHARGED := System(Books(map[0 := 1.0], map[0 := 1.0], map[]),
                          map[0 := Row(HELD, ChargedUnknown(1.0))], map[], false)
  const CHARGING := OPENED + [Close(SettleUnknown(0))] + [Updated(0)]
  const CROSSING := CHARGING + [Restart(0, 0, 1, 0)]

  lemma ChargingEnds()
    ensures Run(POLICY, NOTHING, CHARGING) == CHARGED
  {
    OneIsOpen();
    var closed := System(CHARGED.mem, HOLDING.rows, map[0 := UpdateRow(ChargedUnknown(1.0))], false);
    assert Next(POLICY, HOLDING, Close(SettleUnknown(0))) == closed;
    assert Next(POLICY, closed, Updated(0)) == CHARGED;
    RunOne(POLICY, NOTHING, OPENED, Close(SettleUnknown(0)));
    RunOne(POLICY, NOTHING, OPENED + [Close(SettleUnknown(0))], Updated(0));
  }

  lemma CrossingEnds()
    ensures var t := Run(POLICY, NOTHING, CROSSING);
            t.rows == CHARGED.rows && Spent(t.mem, Day(1)) == 1.0
  {
    hide Run, RecoveredSpend;
    ChargingEnds();
    RunOne(POLICY, NOTHING, CHARGING, Restart(0, 0, 1, 0));
    OneRowRecovers(CHARGED.rows);
  }

  /** The call is charged on day 0; the next process reads that day and runs in the following one. */
  lemma MidnightRun()
    ensures exists p, s, steps :: FallsShort(p, s, steps, Day(1)) && NothingLost(steps)
  {
    hide Run, RecoveredSpend, Empty;
    OneIsOpen();
    CrossingEnds();
    OneRowRecovers(CHARGED.rows);
    assert FallsShort(POLICY, NOTHING, CROSSING, Day(1)) && NothingLost(CROSSING);
  }
}
