// The spend budget of cloud model calls: reserve the worst case, then release it,
// settle the actual usage, or charge the whole reservation when usage is unknown.
module Budget {
  import opened MapSums

  type Id = nat

  datatype Model = Model(provider: string, name: string)

  datatype Option<+T> = None | Some(value: T)

  datatype BudgetError =
    | NegativeTokens | PriceNotConfigured | DailyExceeded | MonthlyExceeded | UnknownReservation

  datatype Result<+T> = Ok(value: T) | Err(error: BudgetError)

  datatype Tokens = Tokens(prompt: int, completion: int, cached: int)

  const MILLION := 1000000.0

  // ----- prices -----------------------------------------------------------

  datatype Price = Price(input: real, output: real, cached: Option<real>) {
    predicate Valid() {
      input >= 0.0 && output >= 0.0 && (cached.Some? ==> cached.value >= 0.0)
    }

    /** A missing cached price and a cached price of zero both mean the input price. */
    function CachedRate(): real {
      if cached.Some? && cached.value != 0.0 then cached.value else input
    }

    function Cost(t: Tokens): Result<real> {
      if t.prompt < 0 || t.completion < 0 || t.cached < 0 then Err(NegativeTokens)
      else
        var cached := if t.prompt <= t.cached then t.prompt else t.cached;
        Ok((Times(t.prompt - cached, input) + Times(cached, CachedRate())
            + Times(t.completion, output)) / MILLION)
    }
  }

  function Times(tokens: int, price: real): real {
    tokens as real * price
  }

  /** Usage that stays inside the bounds a reservation was made for. */
  predicate Within(t: Tokens, prompt: int, completion: int) {
    0 <= t.prompt <= prompt && 0 <= t.completion <= completion && 0 <= t.cached
  }

  lemma MulMonotone(a: real, b: real, x: real, y: real)
    requires 0.0 <= a <= b && 0.0 <= x <= y
    ensures a * x <= b * y
  {
    assert a * x <= b * x;
    assert b * x <= b * y;
  }

  lemma DivideMonotone(a: real, b: real)
    requires a <= b
    ensures a / MILLION <= b / MILLION
  {
  }

  /** What one cached prompt token costs: a missing price and a price of 0 both mean the input price. */
  function CachedToken(p: Price): real {
    match p.cached
    case None => p.input
    case Some(c) => if c == 0.0 then p.input else c
  }

  lemma OneMore(n: int, x: real)
    ensures Times(n + 1, x) == Times(n, x) + x
  {
    assert (n + 1) as real == n as real + 1.0;
  }

  lemma CostIs(p: Price, prompt: nat, completion: nat, cached: nat)
    requires cached <= prompt
    ensures p.Cost(Tokens(prompt, completion, cached))
            == Ok((Times(prompt - cached, p.input) + Times(cached, CachedToken(p))
                   + Times(completion, p.output)) / MILLION)
  {
    hide Times;
    assert CachedToken(p) == p.CachedRate();
  }

  lemma ExcessIsNotCounted(p: Price, prompt: nat, completion: nat, excess: nat)
    ensures p.Cost(Tokens(prompt, completion, prompt + excess)) == p.Cost(Tokens(prompt, completion, prompt))
  {
    hide Times;
  }

  lemma Together(a: int, b: int, x: real)
    ensures Times(a, x) + Times(b, x) == Times(a + b, x)
  {
    assert (a + b) as real == a as real + b as real;
  }

  lemma NoTokens(x: real)
    ensures Times(0, x) == 0.0
  {
  }

  lemma TimesMonotone(a: nat, b: nat, x: real, y: real)
    requires a <= b && 0.0 <= x <= y
    ensures Times(a, x) <= Times(b, y)
  {
    MulMonotone(a as real, b as real, x, y);
  }

  lemma UsageCostsAtMostBounds(p: Price, t: Tokens, prompt: nat, completion: nat)
    requires p.Valid() && Within(t, prompt, completion)
    requires prompt == 0 || p.CachedRate() <= p.input
    ensures p.Cost(t).value <= p.Cost(Tokens(prompt, completion, 0)).value
  {
    hide Times;
    var cached := if t.prompt <= t.cached then t.prompt else t.cached;
    if t.prompt <= t.cached { ExcessIsNotCounted(p, t.prompt, t.completion, t.cached - t.prompt); }
    CostIs(p, t.prompt, t.completion, cached);
    CostIs(p, prompt, completion, 0);
    NoTokens(CachedToken(p));
    TimesMonotone(t.completion, completion, p.output, p.output);
    TimesMonotone(t.prompt, prompt, p.input, p.input);
    Together(t.prompt - cached, cached, p.input);
    if prompt > 0 { TimesMonotone(cached, cached, CachedToken(p), p.input); }
    NoTokens(p.input);
    DivideMonotone(Times(t.prompt - cached, p.input) + Times(cached, CachedToken(p)) + Times(t.completion, p.output),
                   Times(prompt, p.input) + Times(completion, p.output));
    assert prompt - 0 == prompt;
  }

  lemma DearCostsMore(p: Price, prompt: nat, completion: nat)
    requires prompt > 0 && p.CachedRate() > p.input
    ensures p.Cost(Tokens(prompt, completion, prompt)).value > p.Cost(Tokens(prompt, completion, 0)).value
  {
    CostIs(p, prompt, completion, prompt);
    CostIs(p, prompt, completion, 0);
    NoTokens(p.input);
    NoTokens(CachedToken(p));
    assert prompt as real * CachedToken(p) > prompt as real * p.input;
    assert prompt - 0 == prompt && prompt - prompt == 0;
  }

  /**
   * Every usage inside the reserved bounds costs at most the reservation exactly when a
   * cached token is no dearer than an input token, or no prompt token was reserved.
   */
  lemma ChargeWithinReservationIff(p: Price, prompt: nat, completion: nat)
    requires p.Valid()
    ensures (forall t: Tokens :: Within(t, prompt, completion)
               ==> p.Cost(t).value <= p.Cost(Tokens(prompt, completion, 0)).value)
            <==> (prompt == 0 || p.CachedRate() <= p.input)
  {
    if prompt == 0 || p.CachedRate() <= p.input {
      forall t: Tokens | Within(t, prompt, completion)
        ensures p.Cost(t).value <= p.Cost(Tokens(prompt, completion, 0)).value
      {
        UsageCostsAtMostBounds(p, t, prompt, completion);
      }
    } else {
      var dear := Tokens(prompt, completion, prompt);
      assert Within(dear, prompt, completion);
      DearCostsMore(p, prompt, completion);
    }
  }

  // ----- the books --------------------------------------------------------

  datatype Reservation = Reservation(model: Model, amount: real, day: nat, month: nat)

  datatype Settlement = Settlement(reserved: real, charged: real, overReservation: bool)

  datatype Policy = Policy(daily: real, monthly: real, prices: map<Model, Price>) {
    predicate Valid() {
      0.0 < daily <= monthly && forall m :: m in prices ==> prices[m].Valid()
    }
  }

  /** Spend and reservations are counted under the day and under the month they were made in. */
  datatype Key = Day(date: nat) | Month(number: nat)

  datatype Books = Books(daily: map<nat, real>, monthly: map<nat, real>, open: map<Id, Reservation>)

  ghost predicate WellFormed(b: Books) {
    forall id :: id in b.open ==> b.open[id].amount >= 0.0
  }

  predicate Holds(r: Reservation, k: Key) {
    if k.Day? then r.day == k.date else r.month == k.number
  }

  function At(spend: map<nat, real>, key: nat): real {
    if key in spend then spend[key] else 0.0
  }

  function Spent(b: Books, k: Key): real {
    if k.Day? then At(b.daily, k.date) else At(b.monthly, k.number)
  }

  function Limit(p: Policy, k: Key): real {
    if k.Day? then p.daily else p.monthly
  }

  ghost function OpenUnder(open: map<Id, Reservation>, k: Key): map<Id, real> {
    map id | id in open && Holds(open[id], k) :: open[id].amount
  }

  ghost function Reserved(b: Books, k: Key): real {
    Sum(OpenUnder(b.open, k))
  }

  ghost function Committed(b: Books, k: Key): real {
    Spent(b, k) + Reserved(b, k)
  }

  function Share(r: Reservation, k: Key, amount: real): real {
    if Holds(r, k) then amount else 0.0
  }

  // ----- what each operation does to the books ----------------------------

  function Drop(b: Books, id: Id): Books {
    b.(open := b.open - {id})
  }

  /** The reservation is closed and this much is booked under its day and its month. */
  function Charge(b: Books, id: Id, amount: real): Books
    requires id in b.open
  {
    var r := b.open[id];
    Books(b.daily[r.day := At(b.daily, r.day) + amount],
          b.monthly[r.month := At(b.monthly, r.month) + amount],
          b.open - {id})
  }

  function WorstCase(p: Policy, model: Model, prompt: int, completion: int): Result<real> {
    if prompt < 0 || completion < 0 then Err(NegativeTokens)
    else if model !in p.prices then Err(PriceNotConfigured)
    else p.prices[model].Cost(Tokens(prompt, completion, 0))
  }

  ghost predicate Fits(p: Policy, b: Books, amount: real, k: Key) {
    Committed(b, k) + amount <= Limit(p, k)
  }

  ghost function Reserve(p: Policy, b: Books, model: Model, prompt: int, completion: int, day: nat, month: nat)
    : Result<Reservation>
  {
    var cost := WorstCase(p, model, prompt, completion);
    if cost.Err? then Err(cost.error)
    else if !Fits(p, b, cost.value, Day(day)) then Err(DailyExceeded)
    else if !Fits(p, b, cost.value, Month(month)) then Err(MonthlyExceeded)
    else Ok(Reservation(model, cost.value, day, month))
  }

  function ActualCost(p: Policy, r: Reservation, t: Tokens): Result<real> {
    if r.model in p.prices then p.prices[r.model].Cost(t) else Err(PriceNotConfigured)
  }

  // ----- conservation -----------------------------------------------------

  lemma ReserveCommits(b: Books, id: Id, r: Reservation, k: Key)
    requires id !in b.open
    ensures Committed(b.(open := b.open[id := r]), k) == Committed(b, k) + Share(r, k, r.amount)
  {
    if Holds(r, k) {
      SumInsert(OpenUnder(b.open, k), id, r.amount);
      assert OpenUnder(b.open[id := r], k) == OpenUnder(b.open, k)[id := r.amount];
    } else {
      assert OpenUnder(b.open[id := r], k) == OpenUnder(b.open, k);
    }
  }

  lemma DropUncommits(b: Books, id: Id, k: Key)
    requires id in b.open
    ensures Committed(Drop(b, id), k) == Committed(b, k) - Share(b.open[id], k, b.open[id].amount)
  {
    if Holds(b.open[id], k) {
      SumRemove(OpenUnder(b.open, k), id);
      assert OpenUnder(b.open - {id}, k) == OpenUnder(b.open, k) - {id};
    } else {
      assert OpenUnder(b.open - {id}, k) == OpenUnder(b.open, k);
    }
  }

  /** Settling moves the reservation into spend: the commitment moves by charged minus reserved. */
  lemma ChargeConserves(b: Books, id: Id, amount: real, k: Key)
    requires id in b.open
    ensures Committed(Charge(b, id, amount), k)
            == Committed(b, k) + Share(b.open[id], k, amount - b.open[id].amount)
    ensures Spent(Charge(b, id, amount), k) == Spent(b, k) + Share(b.open[id], k, amount)
  {
    DropUncommits(b, id, k);
    assert Reserved(Charge(b, id, amount), k) == Reserved(Drop(b, id), k);
  }

  // ----- runs -------------------------------------------------------------

  datatype Op =
    | Take(id: Id, model: Model, prompt: int, completion: int, day: nat, month: nat)
    | Release(id: Id)
    | Settle(id: Id, usage: Tokens)
    | SettleUnknown(id: Id)

  /** Operations take the budget lock, so a concurrent run is a sequence of them. */
  ghost function After(p: Policy, b: Books, op: Op): Books {
    match op
    case Take(id, model, prompt, completion, day, month) =>
      var r := Reserve(p, b, model, prompt, completion, day, month);
      if id !in b.open && r.Ok? then b.(open := b.open[id := r.value]) else b
    case Release(id) => if id in b.open then Drop(b, id) else b
    case Settle(id, usage) =>
      if id !in b.open then b
      else if ActualCost(p, b.open[id], usage).Ok? then
        Charge(b, id, ActualCost(p, b.open[id], usage).value)
      else Drop(b, id)
    case SettleUnknown(id) => if id in b.open then Charge(b, id, b.open[id].amount) else b
  }

  ghost function AfterAll(p: Policy, b: Books, ops: seq<Op>): Books {
    if ops == [] then b
    else After(p, AfterAll(p, b, ops[..|ops| - 1]), ops[|ops| - 1])
  }

  /** How far a settlement charges beyond what it reserved, as counted under a key. */
  ghost function Excess(p: Policy, b: Books, op: Op, k: Key): (e: real)
    ensures 0.0 <= e
  {
    if op.Settle? && op.id in b.open && ActualCost(p, b.open[op.id], op.usage).Ok?
    then
      var over := ActualCost(p, b.open[op.id], op.usage).value - b.open[op.id].amount;
      if over > 0.0 then Share(b.open[op.id], k, over) else 0.0
    else 0.0
  }

  ghost function TotalExcess(p: Policy, b: Books, ops: seq<Op>, k: Key): (e: real)
    ensures 0.0 <= e
  {
    if ops == [] then 0.0
    else
      var before := ops[..|ops| - 1];
      TotalExcess(p, b, before, k) + Excess(p, AfterAll(p, b, before), ops[|ops| - 1], k)
  }

  function Larger(a: real, b: real): real { if a < b then b else a }

  lemma CostIsNonNegative(p: Price, t: Tokens)
    requires p.Valid() && p.Cost(t).Ok?
    ensures p.Cost(t).value >= 0.0
  {
    var cached := if t.prompt <= t.cached then t.prompt else t.cached;
    MulMonotone(0.0, (t.prompt - cached) as real, 0.0, p.input);
    MulMonotone(0.0, cached as real, 0.0, p.CachedRate());
    MulMonotone(0.0, t.completion as real, 0.0, p.output);
    DivideMonotone(0.0, (t.prompt - cached) as real * p.input + cached as real * p.CachedRate()
                        + t.completion as real * p.output);
  }

  lemma StepKeepsWellFormed(p: Policy, b: Books, op: Op)
    requires p.Valid() && WellFormed(b)
    ensures WellFormed(After(p, b, op))
  {
    if op.Take? && WorstCase(p, op.model, op.prompt, op.completion).Ok? {
      CostIsNonNegative(p.prices[op.model], Tokens(op.prompt, op.completion, 0));
    }
  }

  lemma StepCommits(p: Policy, b: Books, op: Op, k: Key)
    requires p.Valid() && WellFormed(b)
    ensures Committed(After(p, b, op), k)
            <= Larger(Limit(p, k), Committed(b, k) + Excess(p, b, op, k))
  {
    match op
    case Take(id, model, prompt, completion, day, month) =>
      var r := Reserve(p, b, model, prompt, completion, day, month);
      if id !in b.open && r.Ok? {
        ReserveCommits(b, id, r.value, k);
        assert Fits(p, b, r.value.amount, Day(day)) && Fits(p, b, r.value.amount, Month(month));
      }
    case Release(id) =>
      if id in b.open { DropUncommits(b, id, k); }
    case Settle(id, usage) =>
      if id in b.open {
        DropUncommits(b, id, k);
        var cost := ActualCost(p, b.open[id], usage);
        if cost.Ok? { ChargeConserves(b, id, cost.value, k); }
      }
    case SettleUnknown(id) =>
      if id in b.open { ChargeConserves(b, id, b.open[id].amount, k); }
  }

  /**
   * Hard cap, without assumptions on usage: whatever sequence of operations runs, spend plus
   * open reservations never passes the larger of the limit and the initial commitment by
   * more than the settlements overcharged.
   */
  lemma {:induction false} CapUpToExcess(p: Policy, b: Books, ops: seq<Op>, k: Key)
    requires p.Valid() && WellFormed(b)
    ensures WellFormed(AfterAll(p, b, ops))
    ensures Committed(AfterAll(p, b, ops), k)
            <= Larger(Limit(p, k), Committed(b, k)) + TotalExcess(p, b, ops, k)
  {
    if ops != [] {
      var before := ops[..|ops| - 1];
      CapUpToExcess(p, b, before, k);
      StepKeepsWellFormed(p, AfterAll(p, b, before), ops[|ops| - 1]);
      StepCommits(p, AfterAll(p, b, before), ops[|ops| - 1], k);
    }
  }

  // ----- usage inside its bounds never overcharges -------------------------

  /** Ids are drawn fresh, and each settlement reports usage inside its reservation's bounds. */
  ghost predicate Disciplined(ops: seq<Op>) {
    && (forall i, j :: 0 <= i < j < |ops| && ops[i].Take? && ops[j].Take? ==> ops[i].id != ops[j].id)
    && (forall i, j :: 0 <= i < j < |ops| && ops[i].Take? && ops[j].Settle? && ops[i].id == ops[j].id
          ==> Within(ops[j].usage, ops[i].prompt, ops[i].completion))
  }

  predicate NoDearCache(p: Policy) {
    forall m :: m in p.prices ==> p.prices[m].CachedRate() <= p.prices[m].input
  }

  ghost predicate TakenFor(p: Policy, op: Op, id: Id, r: Reservation) {
    && op.Take? && op.id == id && r.model == op.model && op.prompt >= 0 && op.completion >= 0
    && r.model in p.prices
    && r.amount == p.prices[r.model].Cost(Tokens(op.prompt, op.completion, 0)).value
  }

  /** Every open reservation carries the worst case of the operation that took it. */
  lemma {:induction false} OpenWasTaken(p: Policy, b: Books, ops: seq<Op>, id: Id)
    requires b.open == map[] && id in AfterAll(p, b, ops).open
    ensures exists i :: 0 <= i < |ops| && TakenFor(p, ops[i], id, AfterAll(p, b, ops).open[id])
  {
    var before, op := ops[..|ops| - 1], ops[|ops| - 1];
    if id in AfterAll(p, b, before).open {
      OpenWasTaken(p, b, before, id);
      var i :| 0 <= i < |before| && TakenFor(p, before[i], id, AfterAll(p, b, before).open[id]);
      assert TakenFor(p, ops[i], id, AfterAll(p, b, ops).open[id]);
    } else {
      assert TakenFor(p, ops[|ops| - 1], id, AfterAll(p, b, ops).open[id]);
    }
  }

  lemma {:induction false} DisciplineHasNoExcess(p: Policy, b: Books, ops: seq<Op>, k: Key)
    requires p.Valid() && NoDearCache(p) && b.open == map[] && Disciplined(ops)
    ensures TotalExcess(p, b, ops, k) == 0.0
  {
    if ops != [] {
      var before, op := ops[..|ops| - 1], ops[|ops| - 1];
      assert Disciplined(before);
      DisciplineHasNoExcess(p, b, before, k);
      var now := AfterAll(p, b, before);
      if op.Settle? && op.id in now.open {
        OpenWasTaken(p, b, before, op.id);
        var i :| 0 <= i < |before| && TakenFor(p, before[i], op.id, now.open[op.id]);
        assert ops[i] == before[i] && Within(op.usage, ops[i].prompt, ops[i].completion);
        UsageCostsAtMostBounds(p.prices[now.open[op.id].model], op.usage, ops[i].prompt, ops[i].completion);
      }
    }
  }

  /**
   * From books with nothing open, if usage stays inside its bounds and no cached price is
   * above its input price, no day and no month is ever committed past the larger of its
   * limit and what it had already spent.
   */
  lemma HardSpendCap(p: Policy, b: Books, ops: seq<Op>, k: Key)
    requires p.Valid() && NoDearCache(p) && b.open == map[] && Disciplined(ops)
    ensures Committed(AfterAll(p, b, ops), k) <= Larger(Limit(p, k), Spent(b, k))
  {
    CapUpToExcess(p, b, ops, k);
    DisciplineHasNoExcess(p, b, ops, k);
    assert OpenUnder(b.open, k) == map[];
  }

  /** The cached-price condition cannot be dropped: one disciplined call can spend twice the limit. */
  lemma DearCacheBreaksTheCap()
    ensures exists p: Policy, ops ::
      p.Valid() && Disciplined(ops)
      && Spent(AfterAll(p, Books(map[], map[], map[]), ops), Day(0)) > Limit(p, Day(0))
  {
    var m := Model("", "");
    var price := Price(1.0, 0.0, Some(2.0));
    var p := Policy(1.0, 1.0, map[m := price]);
    var b := Books(map[], map[], map[]);
    var take, settle := Take(0, m, 1000000, 0, 0, 0), Settle(0, Tokens(1000000, 0, 1000000));
    var r := Reservation(m, 1.0, 0, 0);
    assert OpenUnder(b.open, Day(0)) == map[] && OpenUnder(b.open, Month(0)) == map[];
    assert WorstCase(p, m, 1000000, 0) == Ok(1.0);
    assert Reserve(p, b, m, 1000000, 0, 0, 0) == Ok(r);
    assert [take, settle][..1] == [take] && [take][..0] == [];
    var held := b.(open := map[0 := r]);
    assert AfterAll(p, b, [take]) == held;
    assert ActualCost(p, r, settle.usage) == Ok(2.0);
    assert Spent(AfterAll(p, b, [take, settle]), Day(0)) == 2.0;
    assert Disciplined([take, settle]);
  }

  // ----- exactly when the cap holds -----------------------------------------

  /** Nothing negative has been spent or reserved. */
  ghost predicate NonNegative(b: Books) {
    WellFormed(b) && forall k :: Spent(b, k) >= 0.0
  }

  /** A cached token costs more than an input token, and one input token fits the daily limit. */
  predicate Overruns(p: Policy, m: Model) {
    m in p.prices && p.prices[m].CachedRate() > p.prices[m].input && p.prices[m].input / MILLION <= p.daily
  }

  /** From any books with nothing open, in-bounds usage never commits a key past its cap. */
  ghost predicate Capped(p: Policy) {
    forall b: Books, ops, k :: b.open == map[] && NonNegative(b) && Disciplined(ops)
      ==> Committed(AfterAll(p, b, ops), k) <= Larger(Limit(p, k), Spent(b, k))
  }

  lemma NonNegativeCommits(b: Books, k: Key)
    requires NonNegative(b)
    ensures Committed(b, k) >= 0.0
  {
    SumMonotone(map[], OpenUnder(b.open, k));
  }

  lemma StepKeepsNonNegative(p: Policy, b: Books, op: Op)
    requires p.Valid() && NonNegative(b)
    ensures NonNegative(After(p, b, op))
  {
    StepKeepsWellFormed(p, b, op);
    if op.Settle? && op.id in b.open && ActualCost(p, b.open[op.id], op.usage).Ok? {
      CostIsNonNegative(p.prices[b.open[op.id].model], op.usage);
    }
    forall k ensures Spent(After(p, b, op), k) >= 0.0 {
      assert Spent(b, k) >= 0.0;
    }
  }

  ghost predicate OpenWithinDay(p: Policy, b: Books) {
    forall id :: id in b.open ==> b.open[id].amount <= p.daily
  }

  lemma {:induction false} RunsStayNonNegative(p: Policy, b: Books, ops: seq<Op>)
    requires p.Valid() && NonNegative(b) && b.open == map[]
    ensures NonNegative(AfterAll(p, b, ops)) && OpenWithinDay(p, AfterAll(p, b, ops))
  {
    if ops != [] {
      var before, op := ops[..|ops| - 1], ops[|ops| - 1];
      RunsStayNonNegative(p, b, before);
      StepKeepsNonNegative(p, AfterAll(p, b, before), op);
      if op.Take? { NonNegativeCommits(AfterAll(p, b, before), Day(op.day)); }
      hide NonNegative;
    }
  }

  /** A price with prompt tokens in it costs at least one of them. */
  lemma CostsOneToken(p: Price, prompt: int, completion: int)
    requires p.Valid() && prompt >= 1 && completion >= 0
    ensures p.Cost(Tokens(prompt, completion, 0)).value >= p.input / MILLION
  {
    MulMonotone(1.0, prompt as real, p.input, p.input);
    MulMonotone(0.0, completion as real, 0.0, p.output);
    var prompts, completions := prompt as real * p.input, completion as real * p.output;
    assert p.input <= prompts && 0.0 <= completions;
    DivideMonotone(p.input, prompts + completions);
    CostIs(p, prompt, completion, 0);
    NoTokens(CachedToken(p));
    assert prompt - 0 == prompt;
  }

  /** What was taken within the limit is not overcharged unless its price overruns. */
  lemma TakenIsNotOvercharged(p: Policy, take: Op, id: Id, r: Reservation, usage: Tokens)
    requires p.Valid() && TakenFor(p, take, id, r) && r.amount <= p.daily && !Overruns(p, r.model)
    requires Within(usage, take.prompt, take.completion)
    ensures p.prices[r.model].Cost(usage).value <= r.amount
  {
    if take.prompt > 0 { CostsOneToken(p.prices[r.model], take.prompt, take.completion); }
    UsageCostsAtMostBounds(p.prices[r.model], usage, take.prompt, take.completion);
  }

  lemma {:induction false} FittingHasNoExcess(p: Policy, b: Books, ops: seq<Op>, k: Key)
    requires p.Valid() && (forall m :: !Overruns(p, m))
    requires b.open == map[] && NonNegative(b) && Disciplined(ops)
    ensures TotalExcess(p, b, ops, k) == 0.0
  {
    if ops != [] {
      var before, op := ops[..|ops| - 1], ops[|ops| - 1];
      assert Disciplined(before);
      FittingHasNoExcess(p, b, before, k);
      var now := AfterAll(p, b, before);
      if op.Settle? && op.id in now.open {
        OpenWasTaken(p, b, before, op.id);
        RunsStayNonNegative(p, b, before);
        var i :| 0 <= i < |before| && TakenFor(p, before[i], op.id, now.open[op.id]);
        assert ops[i] == before[i] && Within(op.usage, ops[i].prompt, ops[i].completion);
        TakenIsNotOvercharged(p, ops[i], op.id, now.open[op.id], op.usage);
      }
    }
  }

  /** One prompt token, reserved in the last room of the day and charged as cached, breaks the cap. */
  lemma OverrunBreaksTheCap(p: Policy, m: Model) returns (b: Books, ops: seq<Op>)
    requires p.Valid() && Overruns(p, m)
    ensures b.open == map[] && NonNegative(b) && Disciplined(ops)
    ensures Committed(AfterAll(p, b, ops), Day(0)) > Larger(Limit(p, Day(0)), Spent(b, Day(0)))
  {
    var token := p.prices[m].input / MILLION;
    var r := Reservation(m, token, 0, 0);
    DivideMonotone(0.0, p.prices[m].input);
    b := Books(map[0 := p.daily - token], map[], map[]);
    var take, settle := Take(0, m, 1, 0, 0, 0), Settle(0, Tokens(1, 0, 1));
    ops := [take, settle];
    assert OpenUnder(b.open, Day(0)) == map[] && OpenUnder(b.open, Month(0)) == map[];
    assert WorstCase(p, m, 1, 0) == Ok(token);
    assert Reserve(p, b, m, 1, 0, 0, 0) == Ok(r);
    var held := b.(open := map[0 := r]);
    assert [take, settle][..1] == [take] && [take][..0] == [];
    assert AfterAll(p, b, [take]) == held;
    OneCachedToken(p.prices[m]);
    var cost := p.prices[m].CachedRate() / MILLION;
    assert ActualCost(p, r, settle.usage) == Ok(cost);
    var spent := After(p, held, settle);
    assert AfterAll(p, b, ops) == spent && OpenUnder(spent.open, Day(0)) == map[];
  }

  lemma OneCachedToken(p: Price)
    requires p.Valid() && p.CachedRate() > p.input
    ensures p.Cost(Tokens(1, 0, 1)) == Ok(p.CachedRate() / MILLION)
    ensures p.CachedRate() / MILLION > p.input / MILLION
  {
  }

  /**
   * The cap holds over every run of in-bounds usage exactly when no price overruns: a cached
   * price above its input price does no harm only where not one token fits the daily limit.
   */
  lemma CappedIff(p: Policy)
    requires p.Valid()
    ensures Capped(p) <==> forall m :: !Overruns(p, m)
  {
    if forall m :: !Overruns(p, m) {
      forall b: Books, ops, k | b.open == map[] && NonNegative(b) && Disciplined(ops)
        ensures Committed(AfterAll(p, b, ops), k) <= Larger(Limit(p, k), Spent(b, k))
      {
        CapUpToExcess(p, b, ops, k);
        FittingHasNoExcess(p, b, ops, k);
        assert OpenUnder(b.open, k) == map[];
      }
    } else {
      var m :| Overruns(p, m);
      var b, ops := OverrunBreaksTheCap(p, m);
    }
  }

  // ----- what a call costs ----------------------------------------------------

  /**
   * Token by token: nothing costs nothing, each completion token the output price, each
   * uncached prompt token the input price, each cached one the cached price, and no more prompt
   * tokens are cached than there are.
   */
  lemma CostByToken(p: Price, prompt: nat, completion: nat, cached: nat, excess: nat)
    requires cached <= prompt
    ensures p.Cost(Tokens(0, 0, excess)) == Ok(0.0)
    ensures p.Cost(Tokens(prompt, completion + 1, cached)).value
            == p.Cost(Tokens(prompt, completion, cached)).value + p.output / MILLION
    ensures p.Cost(Tokens(prompt + 1, completion, cached)).value
            == p.Cost(Tokens(prompt, completion, cached)).value + p.input / MILLION
    ensures p.Cost(Tokens(prompt + 1, completion, cached + 1)).value
            == p.Cost(Tokens(prompt, completion, cached)).value + CachedToken(p) / MILLION
    ensures p.Cost(Tokens(prompt, completion, prompt + excess)) == p.Cost(Tokens(prompt, completion, prompt))
  {
    hide *;
    NothingCostsNothing(p, excess);
    ExcessIsNotCounted(p, prompt, completion, excess);
    CostIs(p, prompt, completion, cached);
    CostIs(p, prompt, completion + 1, cached);
    CostIs(p, prompt + 1, completion, cached);
    CostIs(p, prompt + 1, completion, cached + 1);
    OneMore(completion, p.output);
    OneMore(prompt - cached, p.input);
    OneMore(cached, CachedToken(p));
    var sum := Times(prompt - cached, p.input) + Times(cached, CachedToken(p)) + Times(completion, p.output);
    PerMillion(sum, p.output);
    PerMillion(sum, p.input);
    PerMillion(sum, CachedToken(p));
    assert prompt + 1 - cached == (prompt - cached) + 1 && prompt + 1 - (cached + 1) == prompt - cached;
  }

  lemma PerMillion(a: real, b: real)
    ensures (a + b) / MILLION == a / MILLION + b / MILLION
  {
  }

  lemma NothingCostsNothing(p: Price, cached: nat)
    ensures p.Cost(Tokens(0, 0, cached)) == Ok(0.0)
  {
    CostIs(p, 0, 0, 0);
    assert Times(0, p.input) == 0.0 && Times(0, CachedToken(p)) == 0.0 && Times(0, p.output) == 0.0;
    ExcessIsNotCounted(p, 0, 0, cached);
  }

  /** A cached price of 0 charges cached tokens like any others. */
  lemma ZeroCachedPriceIsInputPrice(p: Price, prompt: nat, completion: nat, cached: nat)
    requires p.cached == Some(0.0)
    ensures p.Cost(Tokens(prompt, completion, cached)) == p.Cost(Tokens(prompt, completion, 0))
  {
    assert CachedToken(p) == p.input;
    hide *;
    var hit := if prompt <= cached then prompt else cached;
    if prompt <= cached { ExcessIsNotCounted(p, prompt, completion, cached - prompt); }
    CostIs(p, prompt, completion, hit);
    CostIs(p, prompt, completion, 0);
    Together(prompt - hit, hit, p.input);
    NoTokens(p.input);
    assert prompt - 0 == prompt;
  }

  /** Usage cannot be priced exactly if a count is negative. */
  lemma PricedIff(p: Price, t: Tokens)
    ensures p.Cost(t).Ok? <==> t.prompt >= 0 && t.completion >= 0 && t.cached >= 0
    ensures p.Cost(t).Err? ==> p.Cost(t).error == NegativeTokens
  {
  }

  /** The worst case of a request, in plain arithmetic. */
  function Worst(p: Price, prompt: int, completion: int): real {
    (Times(prompt, p.input) + Times(completion, p.output)) / MILLION
  }

  /** A reservation is made exactly if the request can be priced and fits both limits; the first reason refuses it. */
  lemma ReservedIff(p: Policy, b: Books, model: Model, prompt: int, completion: int, day: nat, month: nat)
    ensures var r := Reserve(p, b, model, prompt, completion, day, month);
            if prompt < 0 || completion < 0 then r == Err(NegativeTokens)
            else if model !in p.prices then r == Err(PriceNotConfigured)
            else
              var amount := Worst(p.prices[model], prompt, completion);
              if Spent(b, Day(day)) + Reserved(b, Day(day)) + amount > p.daily then r == Err(DailyExceeded)
              else if Spent(b, Month(month)) + Reserved(b, Month(month)) + amount > p.monthly
              then r == Err(MonthlyExceeded)
              else r == Ok(Reservation(model, amount, day, month))
  {
    if prompt >= 0 && completion >= 0 && model in p.prices {
      CostIs(p.prices[model], prompt, completion, 0);
      NoTokens(CachedToken(p.prices[model]));
      assert prompt - 0 == prompt;
    }
  }

  /** An amount counts under its own day and its own month and nowhere else. */
  function Under(day: nat, month: nat, k: Key, amount: real): real {
    if k == Day(day) || k == Month(month) then amount else 0.0
  }

  /**
   * The whole life of a call: reserving holds its worst case under its day and month and spends
   * nothing; releasing gives it back; settling without usage spends all of it; settling with
   * usage spends what that costs; and each leaves the other reservations as they were.
   */
  lemma LifeOfACall(p: Policy, b: Books, id: Id, model: Model, prompt: int, completion: int, day: nat, month: nat,
                    usage: Tokens, k: Key)
    requires id !in b.open && Reserve(p, b, model, prompt, completion, day, month).Ok?
    ensures model in p.prices
    ensures var worst := Worst(p.prices[model], prompt, completion);
            var held := After(p, b, Take(id, model, prompt, completion, day, month));
            && Spent(held, k) == Spent(b, k) && Reserved(held, k) == Reserved(b, k) + Under(day, month, k, worst)
            && held.open == b.open[id := Reservation(model, worst, day, month)]
            && After(p, held, Release(id)) == b
            && (var full := After(p, held, SettleUnknown(id));
                Spent(full, k) == Spent(b, k) + Under(day, month, k, worst) && full.open == b.open)
            && (var cost, paid := p.prices[model].Cost(usage), After(p, held, Settle(id, usage));
                Spent(paid, k) == Spent(b, k) + (if cost.Ok? then Under(day, month, k, cost.value) else 0.0)
                && paid.open == b.open)
  {
    ReservedIff(p, b, model, prompt, completion, day, month);
    var worst := Worst(p.prices[model], prompt, completion);
    var held := After(p, b, Take(id, model, prompt, completion, day, month));
    ReserveCommits(b, id, Reservation(model, worst, day, month), k);
    assert b.open[id := Reservation(model, worst, day, month)] - {id} == b.open;
    ChargeConserves(held, id, worst, k);
    if p.prices[model].Cost(usage).Ok? { ChargeConserves(held, id, p.prices[model].Cost(usage).value, k); }
  }

  // ----- the manager ------------------------------------------------------

  class BudgetManager {
    const policy: Policy
    var dailySpend: map<nat, real>
    var monthlySpend: map<nat, real>
    var reservations: map<Id, Reservation>

    ghost function State(): Books
      reads this
    {
      Books(dailySpend, monthlySpend, reservations)
    }

    constructor (policy: Policy, day: nat, month: nat, initialDaily: real, initialMonthly: real)
      requires policy.Valid() && initialDaily >= 0.0 && initialMonthly >= 0.0
      ensures this.policy == policy && reservations == map[]
      ensures Spent(State(), Day(day)) == initialDaily && Spent(State(), Month(month)) == initialMonthly
      ensures forall k :: k != Day(day) && k != Month(month) ==> Spent(State(), k) == 0.0
    {
      this.policy := policy;
      dailySpend, monthlySpend := map[day := initialDaily], map[month := initialMonthly];
      reservations := map[];
    }

    /** What is still reserved under a key, added up over the open reservations. */
    method ReservedUnder(k: Key) returns (total: real)
      ensures total == Reserved(State(), k)
    {
      var todo := reservations.Keys;
      total := 0.0;
      ghost var counted: map<Id, Reservation> := map[];
      while todo != {}
        invariant todo <= reservations.Keys
        invariant counted == reservations - todo
        invariant total == Sum(OpenUnder(counted, k))
      {
        var id :| id in todo;
        ReserveCommits(Books(map[], map[], counted), id, reservations[id], k);
        if Holds(reservations[id], k) { total := total + reservations[id].amount; }
        counted := counted[id := reservations[id]];
        todo := todo - {id};
      }
      assert counted == reservations;
    }

    method ReserveCall(model: Model, prompt: int, completion: int, day: nat, month: nat, id: Id)
      returns (result: Result<Reservation>)
      requires id !in reservations
      modifies this`reservations
      ensures result == old(Reserve(policy, State(), model, prompt, completion, day, month))
      ensures State() == After(policy, old(State()), Take(id, model, prompt, completion, day, month))
    {
      var cost := WorstCase(policy, model, prompt, completion);
      if cost.Err? { return Err(cost.error); }
      var dailyReserved := ReservedUnder(Day(day));
      var monthlyReserved := ReservedUnder(Month(month));
      if At(dailySpend, day) + dailyReserved + cost.value > policy.daily { return Err(DailyExceeded); }
      if At(monthlySpend, month) + monthlyReserved + cost.value > policy.monthly { return Err(MonthlyExceeded); }
      var r := Reservation(model, cost.value, day, month);
      reservations := reservations[id := r];
      return Ok(r);
    }

    method ReleaseCall(id: Id) returns (result: Result<()>)
      modifies this`reservations
      ensures result == if id in old(reservations) then Ok(()) else Err(UnknownReservation)
      ensures State() == After(policy, old(State()), Release(id))
    {
      if id !in reservations { return Err(UnknownReservation); }
      reservations := reservations - {id};
      return Ok(());
    }

    /** The reservation is gone even when the reported usage cannot be priced. */
    method SettleCall(id: Id, usage: Tokens) returns (result: Result<Settlement>)
      modifies this
      ensures State() == After(policy, old(State()), Settle(id, usage))
      ensures id !in old(reservations) ==> result == Err(UnknownReservation)
      ensures id in old(reservations) ==>
                var r := old(reservations)[id];
                var cost := ActualCost(policy, r, usage);
                result == if cost.Err? then Err(cost.error)
                          else Ok(Settlement(r.amount, cost.value, cost.value > r.amount))
    {
      if id !in reservations { return Err(UnknownReservation); }
      var r := reservations[id];
      reservations := reservations - {id};
      if r.model !in policy.prices { return Err(PriceNotConfigured); }
      var cost := policy.prices[r.model].Cost(usage);
      if cost.Err? { return Err(cost.error); }
      dailySpend := dailySpend[r.day := At(dailySpend, r.day) + cost.value];
      monthlySpend := monthlySpend[r.month := At(monthlySpend, r.month) + cost.value];
      return Ok(Settlement(r.amount, cost.value, cost.value > r.amount));
    }

    method SettleUnknownCall(id: Id) returns (result: Result<Settlement>)
      modifies this
      ensures State() == After(policy, old(State()), SettleUnknown(id))
      ensures result == if id in old(reservations)
                        then var a := old(reservations)[id].amount; Ok(Settlement(a, a, false))
                        else Err(UnknownReservation)
    {
      if id !in reservations { return Err(UnknownReservation); }
      var r := reservations[id];
      reservations := reservations - {id};
      dailySpend := dailySpend[r.day := At(dailySpend, r.day) + r.amount];
      monthlySpend := monthlySpend[r.month := At(monthlySpend, r.month) + r.amount];
      return Ok(Settlement(r.amount, r.amount, false));
    }

    method Snapshot(day: nat, month: nat)
      returns (dailySpent: real, monthlySpent: real, dailyReserved: real, monthlyReserved: real)
      ensures dailySpent + dailyReserved == Committed(State(), Day(day)) && dailySpent == Spent(State(), Day(day))
      ensures monthlySpent + monthlyReserved == Committed(State(), Month(month))
      ensures monthlySpent == Spent(State(), Month(month))
    {
      dailyReserved := ReservedUnder(Day(day));
      monthlyReserved := ReservedUnder(Month(month));
      dailySpent, monthlySpent := At(dailySpend, day), At(monthlySpend, month);
    }
  }
}
