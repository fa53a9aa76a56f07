/**
 The order engine as a concurrent protocol. Workers each carry one command through the checks,
 the unique insert, the exchange call and the final status write. Every call into a store or an
 exchange is one atomic step; between two steps of one worker anything else may happen: other
 workers, an admin halt or resume, configuration changes, and status writes by the reconcile pass.
 */
module OrderEngine {
  import opened Prelude
  import opened OrderTypes
  import opened Sums
  import ClientOrderId
  import Precision

  /** Where a worker stands: the name of the next external call it will make. */
  datatype Pc = Idle | ReadHalt | ReadStrategy | ReadLoss | ReadLimits | ReadOpen | ReadPortfolioLoss
              | Derive | Insert | Build | ReadMeta | Place | Record | Reject

  datatype Worker = Worker(pc: Pc, cmd: Command, strat: Strategy, limits: Limits, oid: OrderId,
                           qty: real, price: real, fill: Fill)

  /** How an external call ends. `Torn` is a write that took effect although the caller saw an error. */
  datatype Outcome = Done | Failed | Torn

  /** Everything the environment decides about one call. */
  datatype Reply = Reply(outcome: Outcome, amount: real, meta: Option<Meta>, fill: Fill, stamp: string)

  /** Which optional collaborators the engine was built with. */
  datatype Wiring = Wiring(system: bool, stats: bool, meta: bool)

  /** What administrators control: the kill switch, the strategies and the portfolio limits. */
  datatype Config = Config(halted: bool, strategies: map<string, Strategy>, limits: map<string, Limits>)

  /** One `PlaceOrder` call. */
  datatype Call = Call(oid: OrderId, cmd: Command, qty: real, price: real)

  /**
   Records of what happened: the exchange calls in order, the acknowledgements received, each row
   as its insert wrote it and the command it was inserted for, the engine's own final write of an
   order, and the orders that some other writer has touched.
   */
  datatype History = History(calls: seq<Call>, acks: map<OrderId, Fill>, inserted: map<OrderId, Row>,
                             commands: map<OrderId, Command>, finals: map<OrderId, Fill>,
                             foreign: set<OrderId>)

  datatype State = State(wiring: Wiring, cfg: Config, log: map<OrderId, Row>, nonce: nat,
                         workers: seq<Worker>, hist: History)

  datatype Event =
    | Take(w: nat, cmd: Command)
    | Step(w: nat, reply: Reply)
    | Halt
    | Resume
    | SetStrategy(id: string, strat: Strategy)
    | SetLimits(user: string, lim: Limits)
    | Write(oid: OrderId, f: Fill)

  type Hash = string -> OrderId

  const NO_LIMITS := Limits(0.0, 0, 0.0)

  function LimitsOf(cfg: Config, user: string): Limits {
    if user in cfg.limits then cfg.limits[user] else NO_LIMITS
  }

  // ---- What the portfolio query returns --------------------------------------------------------

  /** The two portfolio caps: open notional in USD, and the number of open positions. */
  datatype Gauge = OpenNotional | OpenPositions

  /** One row's part in the portfolio query: the store books the unfilled quantity at the order's own price. */
  function RowWeight(g: Gauge, user: string, row: Row): real {
    if row.user != user || !IsOpen(row.status) then 0.0
    else match g
         case OpenNotional => (row.qty - row.filled) * row.price
         case OpenPositions => 1.0
  }

  function Weights(g: Gauge, user: string, log: map<OrderId, Row>): map<OrderId, real> {
    map id | id in log :: RowWeight(g, user, log[id])
  }

  ghost function Booked(g: Gauge, user: string, log: map<OrderId, Row>): real {
    Total(Weights(g, user, log))
  }

  // ---- The checks --------------------------------------------------------------------------------

  /** The strategy-level gate: live, an account, all three risk caps, a mark price, the position cap. */
  predicate PassesRiskGate(cmd: Command, strat: Strategy) {
    && strat.live
    && strat.account != ""
    && strat.risk.Some?
    && strat.risk.value.maxPositionUsd > 0.0
    && strat.risk.value.maxLeverage > 0.0
    && strat.risk.value.dailyLossCapUsd > 0.0
    && Mark(cmd) > 0.0
    && Notional(cmd) <= strat.risk.value.maxPositionUsd
  }

  predicate FitsCaps(cmd: Command, lim: Limits, openNotional: real, openCount: real) {
    && (lim.maxOpenNotionalUsd > 0.0 ==> openNotional + Notional(cmd) <= lim.maxOpenNotionalUsd)
    && (lim.maxOpenPositions > 0 ==> openCount + 1.0 <= lim.maxOpenPositions as real)
  }

  function AfterLimits(lim: Limits): Pc {
    if lim.maxOpenNotionalUsd > 0.0 || lim.maxOpenPositions > 0 then ReadOpen else AfterOpen(lim)
  }

  function AfterOpen(lim: Limits): Pc {
    if lim.maxDailyLossUsd > 0.0 then ReadPortfolioLoss else Derive
  }

  /** The venue's minimum is the only metadata check that rejects. */
  predicate TooSmall(cmd: Command, meta: Meta) {
    meta.minNotionalUsd > 0.0 && Notional(cmd) < meta.minNotionalUsd
  }

  // ---- One step of one worker -------------------------------------------------------------------

  function Move(s: State, w: nat, k: Worker): State
    requires w < |s.workers|
  {
    s.(workers := s.workers[w := k])
  }

  function At(k: Worker, pc: Pc): Worker {
    k.(pc := pc)
  }

  function CheckHalt(s: State, k: Worker, r: Reply): Worker {
    if s.wiring.system && (r.outcome != Done || s.cfg.halted) then At(k, Idle) else At(k, ReadStrategy)
  }

  function CheckStrategy(s: State, k: Worker, r: Reply): Worker {
    if r.outcome != Done || k.cmd.strategy !in s.cfg.strategies then At(k, Idle)
    else
      var strat := s.cfg.strategies[k.cmd.strategy];
      if PassesRiskGate(k.cmd, strat) then k.(pc := ReadLoss, strat := strat) else At(k, Idle)
  }

  function CheckLoss(s: State, k: Worker, r: Reply): Worker {
    if r.outcome != Done || k.strat.risk.None? || r.amount <= -k.strat.risk.value.dailyLossCapUsd then At(k, Idle)
    else if s.wiring.system && s.wiring.stats then At(k, ReadLimits)
    else At(k, Derive)
  }

  function CheckLimits(s: State, k: Worker, r: Reply): Worker {
    if r.outcome != Done then At(k, Idle)
    else
      var lim := LimitsOf(s.cfg, UserOf(k.strat));
      k.(pc := AfterLimits(lim), limits := lim)
  }

  ghost function CheckOpen(s: State, k: Worker, r: Reply): Worker {
    var user := UserOf(k.strat);
    if r.outcome != Done
       || !FitsCaps(k.cmd, k.limits, Booked(OpenNotional, user, s.log), Booked(OpenPositions, user, s.log))
    then At(k, Idle)
    else At(k, AfterOpen(k.limits))
  }

  function CheckPortfolioLoss(k: Worker, r: Reply): Worker {
    if r.outcome != Done || r.amount <= -k.limits.maxDailyLossUsd then At(k, Idle) else At(k, Derive)
  }

  function CheckMeta(s: State, k: Worker, r: Reply): Worker {
    if s.wiring.meta && r.outcome == Done && r.meta.Some? then
      if TooSmall(k.cmd, r.meta.value) then At(k, Reject)
      else
        k.(pc := Place,
           qty := Precision.RoundToPrecision(k.cmd.qty, r.meta.value.qtyPrecision),
           price := if k.cmd.price > 0.0
                    then Precision.RoundToPrecision(k.cmd.price, r.meta.value.pricePrecision)
                    else k.cmd.price)
    else k.(pc := Place, qty := k.cmd.qty, price := k.cmd.price)
  }

  /** The steps that only read: all they change is the worker itself. */
  ghost function StepCheck(s: State, k: Worker, r: Reply): Worker {
    match k.pc
    case ReadHalt => CheckHalt(s, k, r)
    case ReadStrategy => CheckStrategy(s, k, r)
    case ReadLoss => CheckLoss(s, k, r)
    case ReadLimits => CheckLimits(s, k, r)
    case ReadOpen => CheckOpen(s, k, r)
    case ReadPortfolioLoss => CheckPortfolioLoss(k, r)
    case Build => At(k, if r.outcome == Done then ReadMeta else Reject)
    case ReadMeta => CheckMeta(s, k, r)
    case _ => k
  }

  function StepDerive(hash: Hash, s: State, w: nat, r: Reply): State
    requires w < |s.workers|
  {
    var k := s.workers[w];
    var nonce := if k.cmd.key == "" then (s.nonce + 1) % ClientOrderId.NONCE_WRAP else s.nonce;
    Move(s, w, k.(pc := Insert, oid := hash(ClientOrderId.CommandPreImage(k.cmd, nonce, r.stamp)))).(nonce := nonce)
  }

  function StepInsert(s: State, w: nat, r: Reply): State
    requires w < |s.workers|
  {
    var k := s.workers[w];
    if r.outcome == Failed || k.oid in s.log then Move(s, w, At(k, Idle))
    else
      var row := FreshRow(k.cmd, k.strat);
      Move(s, w, At(k, if r.outcome == Done then Build else Idle))
        .(log := s.log[k.oid := row],
          hist := s.hist.(inserted := s.hist.inserted[k.oid := row], commands := s.hist.commands[k.oid := k.cmd]))
  }

  function StepPlace(s: State, w: nat, r: Reply): State
    requires w < |s.workers|
  {
    var k := s.workers[w];
    var calls := s.hist.calls + [Call(k.oid, k.cmd, k.qty, k.price)];
    if r.outcome == Done
    then
      Move(s, w, k.(pc := Record, fill := r.fill))
        .(hist := s.hist.(calls := calls, acks := s.hist.acks[k.oid := r.fill]))
    else Move(s, w, At(k, Reject)).(hist := s.hist.(calls := calls))
  }

  /** The engine's own status write, which ends the command: the result, or a rejection. */
  function StepFinish(s: State, w: nat, f: Fill, outcome: Outcome): State
    requires w < |s.workers|
  {
    var k := s.workers[w];
    var s' := Move(s, w, At(k, Idle));
    if outcome == Failed || k.oid !in s.log then s'
    else s'.(log := s.log[k.oid := Patch(s.log[k.oid], f)], hist := s.hist.(finals := s.hist.finals[k.oid := f]))
  }

  function FinalFill(k: Worker): Fill {
    if k.pc == Record then k.fill else REJECTION
  }

  ghost function StepWorker(hash: Hash, s: State, w: nat, r: Reply): State
    requires w < |s.workers|
  {
    var k := s.workers[w];
    match k.pc
    case Derive => StepDerive(hash, s, w, r)
    case Insert => StepInsert(s, w, r)
    case Place => StepPlace(s, w, r)
    case Record => StepFinish(s, w, FinalFill(k), r.outcome)
    case Reject => StepFinish(s, w, FinalFill(k), r.outcome)
    case _ => Move(s, w, StepCheck(s, k, r))
  }

  /** A status write by anyone else: the reconcile pass, or another process. */
  function ForeignWrite(s: State, oid: OrderId, f: Fill): State {
    if oid !in s.log then s
    else s.(log := s.log[oid := Patch(s.log[oid], f)], hist := s.hist.(foreign := s.hist.foreign + {oid}))
  }

  /** The group hands a command, new or sent again, to an idle worker. */
  function TakeCommand(s: State, w: nat, cmd: Command): State {
    if w < |s.workers| && s.workers[w].pc == Idle
    then Move(s, w, s.workers[w].(pc := ReadHalt, cmd := cmd)) else s
  }

  ghost function Apply(hash: Hash, s: State, e: Event): State {
    match e
    case Take(w, cmd) => TakeCommand(s, w, cmd)
    case Step(w, r) => if w < |s.workers| then StepWorker(hash, s, w, r) else s
    case Halt => s.(cfg := s.cfg.(halted := true))
    case Resume => s.(cfg := s.cfg.(halted := false))
    case SetStrategy(id, strat) => s.(cfg := s.cfg.(strategies := s.cfg.strategies[id := strat]))
    case SetLimits(user, lim) => s.(cfg := s.cfg.(limits := s.cfg.limits[user := lim]))
    case Write(oid, f) => ForeignWrite(s, oid, f)
  }

  /** A run: any interleaving of worker steps and environment events. */
  ghost function Run(hash: Hash, s: State, es: seq<Event>): State
    decreases |es|
  {
    if es == [] then s else Run(hash, Apply(hash, s, es[0]), es[1..])
  }

  const EMPTY := History([], map[], map[], map[], map[], {})

  predicate Initial(s: State) {
    s.log == map[] && s.hist == EMPTY && forall k <- s.workers :: k.pc == Idle
  }

  lemma {:induction false} RunSplits(hash: Hash, s: State, es: seq<Event>, fs: seq<Event>)
    ensures Run(hash, s, es + fs) == Run(hash, Run(hash, s, es), fs)
    decreases |es|
  {
    if es == [] {
      assert es + fs == fs;
    } else {
      assert (es + fs)[1..] == es[1..] + fs;
      RunSplits(hash, Apply(hash, s, es[0]), es[1..], fs);
    }
  }

  lemma ApplyKeepsShape(hash: Hash, s: State, e: Event)
    ensures |Apply(hash, s, e).workers| == |s.workers|
    ensures Apply(hash, s, e).wiring == s.wiring
  {
  }

  lemma {:induction false} RunKeepsShape(hash: Hash, s: State, es: seq<Event>)
    ensures |Run(hash, s, es).workers| == |s.workers|
    ensures Run(hash, s, es).wiring == s.wiring
    decreases |es|
  {
    if es != [] {
      ApplyKeepsShape(hash, s, es[0]);
      RunKeepsShape(hash, Apply(hash, s, es[0]), es[1..]);
    }
  }
}
