/**
 The portfolio caps under concurrency. The caps are checked against the store and the row is inserted
 later, so other workers can pass the same check in between. The potential "booked in the store plus
 checked but not yet inserted" bounds how far the store can overshoot a cap.
 */
module OrderCaps {
  import opened Prelude
  import opened OrderTypes
  import opened Sums
  import opened OrderEngine
  import OrderSafety

  function Cap(g: Gauge, lim: Limits): real {
    match g
    case OpenNotional => lim.maxOpenNotionalUsd
    case OpenPositions => lim.maxOpenPositions as real
  }

  /** What one order counts in the check. */
  function Checked(g: Gauge, cmd: Command): real {
    match g
    case OpenNotional => Notional(cmd)
    case OpenPositions => 1.0
  }

  /** The most that one order can count: the largest position cap of the user's strategies, or one position. */
  function Unit(g: Gauge, top: real): real {
    match g
    case OpenNotional => top
    case OpenPositions => 1.0
  }

  /** Past the portfolio check, not yet inserted. */
  predicate IsPending(k: Worker) {
    k.pc == ReadPortfolioLoss || k.pc == Derive || k.pc == Insert
  }

  function Positive(x: real): real {
    if x > 0.0 then x else 0.0
  }

  /** An order of negative size is not counted: it must not make room for others before it is booked. */
  function Pending(g: Gauge, user: string, k: Worker): real {
    if IsPending(k) && UserOf(k.strat) == user then Positive(Checked(g, k.cmd)) else 0.0
  }

  function Pendings(g: Gauge, user: string, ws: seq<Worker>): (ps: seq<real>)
    ensures |ps| == |ws|
    ensures forall w :: 0 <= w < |ws| ==> ps[w] == Pending(g, user, ws[w])
  {
    seq(|ws|, w requires 0 <= w < |ws| => Pending(g, user, ws[w]))
  }

  ghost function Ledger(g: Gauge, user: string, s: State): real {
    Booked(g, user, s.log) + Sum(Pendings(g, user, s.workers))
  }

  /** The worker's snapshot of its strategy and limits agrees with the fixed configuration. */
  predicate WorkerReady(cfg: Config, user: string, top: real, k: Worker) {
    && (k.pc == ReadLoss || k.pc == ReadLimits || k.pc == ReadOpen || IsPending(k) ==>
          UserOf(k.strat) == user ==> PassesRiskGate(k.cmd, k.strat) && k.strat.risk.value.maxPositionUsd <= top)
    && (k.pc == ReadOpen || k.pc == ReadPortfolioLoss ==>
          UserOf(k.strat) == user ==> k.limits == LimitsOf(cfg, user))
  }

  /** Both repositories are wired, the cap is set, and `top` bounds the position caps of the user's strategies. */
  predicate Ready(s: State, g: Gauge, user: string, top: real) {
    && |s.workers| > 0
    && s.wiring.system && s.wiring.stats
    && Cap(g, LimitsOf(s.cfg, user)) > 0.0
    && top >= 0.0
    && (forall id <- s.cfg.strategies :: UserOf(s.cfg.strategies[id]) == user && s.cfg.strategies[id].risk.Some? ==>
          s.cfg.strategies[id].risk.value.maxPositionUsd <= top)
    && (forall w :: 0 <= w < |s.workers| ==> WorkerReady(s.cfg, user, top, s.workers[w]))
  }

  /** The configuration stays fixed. */
  predicate Steady(e: Event) {
    !e.SetStrategy? && !e.SetLimits?
  }

  /** The cap, plus one order for every worker but one. */
  function CapBound(s: State, g: Gauge, user: string, top: real): real
    requires |s.workers| > 0
  {
    Cap(g, LimitsOf(s.cfg, user)) + Times(|s.workers| - 1, Unit(g, top))
  }

  // ---- What can push the store beyond that -------------------------------------------------------

  /** The row that this event writes a status to, and what it writes: the engine's own final write, or anyone else's. */
  function WriteOf(s: State, e: Event): Option<(OrderId, Fill)> {
    match e
    case Write(oid, f) => if oid in s.log then Some((oid, f)) else None
    case Step(w, r) =>
      if w < |s.workers| && (s.workers[w].pc == Record || s.workers[w].pc == Reject)
         && r.outcome != Failed && s.workers[w].oid in s.log
      then Some((s.workers[w].oid, FinalFill(s.workers[w])))
      else None
    case _ => None
  }

  /** The worker whose row this event inserts. */
  function InsertOf(s: State, e: Event): Option<Worker> {
    if e.Step? && e.w < |s.workers| && s.workers[e.w].pc == Insert
       && e.reply.outcome != Failed && s.workers[e.w].oid !in s.log
    then Some(s.workers[e.w]) else None
  }

  /** By how much a status write raises what is booked. */
  ghost function Raise(hash: Hash, s: State, e: Event, g: Gauge, user: string): (x: real)
    ensures x >= 0.0
  {
    if WriteOf(s, e).Some? then Positive(Booked(g, user, Apply(hash, s, e).log) - Booked(g, user, s.log)) else 0.0
  }

  /** By how much the store books a new order above what it was checked at: it books the order's own price. */
  function Excess(g: Gauge, cmd: Command): (x: real)
    ensures x >= 0.0
  {
    match g
    case OpenNotional => Positive(cmd.qty * cmd.price - Positive(Notional(cmd)))
    case OpenPositions => 0.0
  }

  function Surplus(s: State, e: Event, g: Gauge, user: string): (x: real)
    ensures x >= 0.0
  {
    var k := InsertOf(s, e);
    if k.Some? && UserOf(k.value.strat) == user then Excess(g, k.value.cmd) else 0.0
  }

  ghost function Slack(hash: Hash, s: State, e: Event, g: Gauge, user: string): (x: real)
    ensures x >= 0.0
  {
    Raise(hash, s, e, g, user) + Surplus(s, e, g, user)
  }

  ghost function RunSlack(hash: Hash, s: State, es: seq<Event>, g: Gauge, user: string): (x: real)
    ensures x >= 0.0
    decreases |es|
  {
    if es == [] then 0.0
    else Slack(hash, s, es[0], g, user) + RunSlack(hash, Apply(hash, s, es[0]), es[1..], g, user)
  }

  /** What a row still leaves open. */
  function Unfilled(row: Row): real {
    if IsOpen(row.status) then row.qty - row.filled else 0.0
  }

  /** The write neither re-opens the row nor gives it back more to fill; for a negative price, nothing is taken away. */
  predicate Calm(g: Gauge, row: Row, f: Fill) {
    var row' := Patch(row, f);
    match g
    case OpenNotional =>
      && (row.price > 0.0 ==> Unfilled(row') <= Unfilled(row))
      && (row.price < 0.0 ==> Unfilled(row') >= Unfilled(row))
    case OpenPositions => IsOpen(row'.status) ==> IsOpen(row.status)
  }

  /** The limit price is at most the price that the order is checked at. */
  predicate WithinMark(g: Gauge, cmd: Command) {
    g == OpenNotional ==>
      if cmd.qty > 0.0 then cmd.price <= Mark(cmd) else cmd.qty == 0.0 || cmd.price >= 0.0
  }

  predicate Orderly(s: State, e: Event, g: Gauge, user: string) {
    var write, insert := WriteOf(s, e), InsertOf(s, e);
    && (write.Some? && s.log[write.value.0].user == user ==> Calm(g, s.log[write.value.0], write.value.1))
    && (insert.Some? && UserOf(insert.value.strat) == user ==> WithinMark(g, insert.value.cmd))
  }

  ghost predicate OrderlyRun(hash: Hash, s: State, es: seq<Event>, g: Gauge, user: string)
    decreases |es|
  {
    es == [] || (Orderly(s, es[0], g, user) && OrderlyRun(hash, Apply(hash, s, es[0]), es[1..], g, user))
  }

  // ---- What each part of a step does to the ledger ---------------------------------------------

  lemma BookedUpdate(g: Gauge, user: string, log: map<OrderId, Row>, oid: OrderId, row: Row)
    ensures Booked(g, user, log[oid := row])
            == Booked(g, user, log) - (if oid in log then RowWeight(g, user, log[oid]) else 0.0)
               + RowWeight(g, user, row)
  {
    assert Weights(g, user, log[oid := row]) == Weights(g, user, log)[oid := RowWeight(g, user, row)];
    TotalUpdate(Weights(g, user, log), oid, RowWeight(g, user, row));
  }

  lemma PendingsUpdate(g: Gauge, user: string, ws: seq<Worker>, w: nat, k: Worker)
    requires w < |ws|
    ensures Sum(Pendings(g, user, ws[w := k]))
            == Sum(Pendings(g, user, ws)) - Pending(g, user, ws[w]) + Pending(g, user, k)
  {
    assert Pendings(g, user, ws[w := k]) == Pendings(g, user, ws)[w := Pending(g, user, k)];
    SumUpdate(Pendings(g, user, ws), w, Pending(g, user, k));
  }

  lemma PendingInRange(s: State, g: Gauge, user: string, top: real, w: nat)
    requires Ready(s, g, user, top) && w < |s.workers|
    ensures 0.0 <= Pending(g, user, s.workers[w]) <= Unit(g, top)
  {
  }

  lemma OthersBound(s: State, g: Gauge, user: string, top: real, w: nat)
    requires Ready(s, g, user, top) && w < |s.workers|
    ensures Sum(Pendings(g, user, s.workers)) - Pending(g, user, s.workers[w]) <= Times(|s.workers| - 1, Unit(g, top))
  {
    forall v | 0 <= v < |s.workers| ensures Pendings(g, user, s.workers)[v] <= Unit(g, top) {
      PendingInRange(s, g, user, top, v);
    }
    SumOthersBound(Pendings(g, user, s.workers), w, Unit(g, top));
  }

  /** A fresh row is booked at no more than it was checked at, plus the excess. */
  lemma FreshRowFits(g: Gauge, user: string, cmd: Command, strat: Strategy)
    requires UserOf(strat) == user
    ensures RowWeight(g, user, FreshRow(cmd, strat)) <= Positive(Checked(g, cmd)) + Excess(g, cmd)
  {
  }

  /** A read leaves the worker ready, and puts it past the portfolio check only from that check. */
  lemma CheckStaysReady(s: State, g: Gauge, user: string, top: real, w: nat, r: Reply)
    requires Ready(s, g, user, top) && w < |s.workers|
    ensures var k := s.workers[w];
            var k' := StepCheck(s, k, r);
            && WorkerReady(s.cfg, user, top, k')
            && k'.cmd == k.cmd
            && (k.pc == ReadLimits ==> UserOf(k.strat) == user ==> !IsPending(k'))
            && (k.pc == ReadLoss ==> !IsPending(k'))
  {
    var k := s.workers[w];
    if k.pc == ReadLimits && g == OpenPositions {
      assert LimitsOf(s.cfg, user).maxOpenPositions > 0;
    }
  }

  lemma PendingOnlyAfterCheck(s: State, g: Gauge, user: string, top: real, w: nat, r: Reply)
    requires Ready(s, g, user, top) && w < |s.workers|
    ensures var k := s.workers[w];
            var k' := StepCheck(s, k, r);
            || Pending(g, user, k') <= Pending(g, user, k)
            || (&& k.pc == ReadOpen && UserOf(k.strat) == user
                && Booked(g, user, s.log) + Pending(g, user, k') <= Cap(g, LimitsOf(s.cfg, user)))
  {
    var k := s.workers[w];
    CheckStaysReady(s, g, user, top, w, r);
    PendingInRange(s, g, user, top, w);
  }

  /** A step of one worker keeps the state ready, and moves the sum of pending orders by that worker's part. */
  lemma Moved(s: State, s': State, g: Gauge, user: string, top: real, w: nat, k: Worker)
    requires Ready(s, g, user, top) && w < |s.workers|
    requires s'.wiring == s.wiring && s'.cfg == s.cfg && s'.workers == s.workers[w := k]
    requires WorkerReady(s.cfg, user, top, k)
    ensures Ready(s', g, user, top)
    ensures Sum(Pendings(g, user, s'.workers))
            == Sum(Pendings(g, user, s.workers)) - Pending(g, user, s.workers[w]) + Pending(g, user, k)
  {
    PendingsUpdate(g, user, s.workers, w, k);
  }

  /** One worker's pending part changes: either it does not grow, or it fits under the cap on top of what is booked. */
  lemma GapLedger(s: State, g: Gauge, user: string, top: real, w: nat, k: Worker)
    requires Ready(s, g, user, top) && w < |s.workers| && WorkerReady(s.cfg, user, top, k)
    requires Pending(g, user, k) <= Pending(g, user, s.workers[w])
             || Booked(g, user, s.log) + Pending(g, user, k) <= Cap(g, LimitsOf(s.cfg, user))
    ensures Ready(Move(s, w, k), g, user, top)
    ensures Ledger(g, user, Move(s, w, k)) <= Ledger(g, user, s)
            || Ledger(g, user, Move(s, w, k)) <= CapBound(s, g, user, top)
  {
    OthersBound(s, g, user, top, w);
    Moved(s, Move(s, w, k), g, user, top, w, k);
  }

  lemma CheckLedger(s: State, g: Gauge, user: string, top: real, w: nat, r: Reply)
    requires Ready(s, g, user, top) && w < |s.workers|
    ensures var s' := Move(s, w, StepCheck(s, s.workers[w], r));
            Ready(s', g, user, top)
            && (Ledger(g, user, s') <= Ledger(g, user, s) || Ledger(g, user, s') <= CapBound(s, g, user, top))
  {
    CheckStaysReady(s, g, user, top, w, r);
    PendingOnlyAfterCheck(s, g, user, top, w, r);
    GapLedger(s, g, user, top, w, StepCheck(s, s.workers[w], r));
  }

  lemma InsertLedger(s: State, g: Gauge, user: string, top: real, w: nat, r: Reply)
    requires Ready(s, g, user, top) && w < |s.workers| && s.workers[w].pc == Insert
    ensures var s' := StepInsert(s, w, r);
            Ready(s', g, user, top) && Ledger(g, user, s') <= Ledger(g, user, s) + Surplus(s, Step(w, r), g, user)
  {
    var k := s.workers[w];
    var s' := StepInsert(s, w, r);
    PendingInRange(s, g, user, top, w);
    Moved(s, s', g, user, top, w, s'.workers[w]);
    BookedUpdate(g, user, s.log, k.oid, FreshRow(k.cmd, k.strat));
    if UserOf(k.strat) == user {
      FreshRowFits(g, user, k.cmd, k.strat);
    }
  }

  /** Deriving the identifier and calling the exchange touch no row. */
  lemma DeriveLedger(hash: Hash, s: State, g: Gauge, user: string, top: real, w: nat, r: Reply)
    requires Ready(s, g, user, top) && w < |s.workers| && s.workers[w].pc == Derive
    ensures var s' := StepDerive(hash, s, w, r);
            Ready(s', g, user, top) && Ledger(g, user, s') == Ledger(g, user, s)
  {
    var s' := StepDerive(hash, s, w, r);
    Moved(s, s', g, user, top, w, s'.workers[w]);
  }

  lemma PlaceLedger(s: State, g: Gauge, user: string, top: real, w: nat, r: Reply)
    requires Ready(s, g, user, top) && w < |s.workers| && s.workers[w].pc == Place
    ensures var s' := StepPlace(s, w, r);
            Ready(s', g, user, top) && Ledger(g, user, s') == Ledger(g, user, s)
  {
    var s' := StepPlace(s, w, r);
    Moved(s, s', g, user, top, w, s'.workers[w]);
  }

  lemma FinishLedger(s: State, g: Gauge, user: string, top: real, w: nat, f: Fill, outcome: Outcome)
    requires Ready(s, g, user, top) && w < |s.workers|
    requires s.workers[w].pc == Record || s.workers[w].pc == Reject
    ensures var s' := StepFinish(s, w, f, outcome);
            Ready(s', g, user, top)
            && Ledger(g, user, s') - Ledger(g, user, s) == Booked(g, user, s'.log) - Booked(g, user, s.log)
  {
    var s' := StepFinish(s, w, f, outcome);
    Moved(s, s', g, user, top, w, s'.workers[w]);
  }

  lemma SlackOfInsert(hash: Hash, s: State, g: Gauge, user: string, w: nat, r: Reply)
    requires w < |s.workers| && s.workers[w].pc == Insert
    ensures Slack(hash, s, Step(w, r), g, user) == Surplus(s, Step(w, r), g, user)
  {
  }

  lemma SlackOfFinish(hash: Hash, s: State, g: Gauge, user: string, w: nat, r: Reply)
    requires w < |s.workers| && (s.workers[w].pc == Record || s.workers[w].pc == Reject)
    ensures Booked(g, user, StepFinish(s, w, FinalFill(s.workers[w]), r.outcome).log) - Booked(g, user, s.log)
            <= Slack(hash, s, Step(w, r), g, user)
  {
    assert StepWorker(hash, s, w, r) == StepFinish(s, w, FinalFill(s.workers[w]), r.outcome);
    assert Apply(hash, s, Step(w, r)) == StepWorker(hash, s, w, r);
  }

  lemma StepLedger(hash: Hash, s: State, g: Gauge, user: string, top: real, w: nat, r: Reply)
    requires Ready(s, g, user, top) && w < |s.workers|
    ensures var s' := StepWorker(hash, s, w, r);
            && Ready(s', g, user, top)
            && (Ledger(g, user, s') <= Ledger(g, user, s) + Slack(hash, s, Step(w, r), g, user)
                || Ledger(g, user, s') <= CapBound(s, g, user, top))
  {
    var slack := Slack(hash, s, Step(w, r), g, user);
    assert slack >= 0.0;
    match s.workers[w].pc
    case Insert =>
      InsertLedger(s, g, user, top, w, r);
      SlackOfInsert(hash, s, g, user, w, r);
    case Derive => DeriveLedger(hash, s, g, user, top, w, r);
    case Place => PlaceLedger(s, g, user, top, w, r);
    case Record =>
      FinishLedger(s, g, user, top, w, FinalFill(s.workers[w]), r.outcome);
      SlackOfFinish(hash, s, g, user, w, r);
    case Reject =>
      FinishLedger(s, g, user, top, w, FinalFill(s.workers[w]), r.outcome);
      SlackOfFinish(hash, s, g, user, w, r);
    case _ => CheckLedger(s, g, user, top, w, r);
  }

  lemma TakeLedger(s: State, g: Gauge, user: string, top: real, w: nat, cmd: Command)
    requires Ready(s, g, user, top)
    ensures var s' := TakeCommand(s, w, cmd);
            Ready(s', g, user, top) && Ledger(g, user, s') == Ledger(g, user, s)
  {
    if w < |s.workers| && s.workers[w].pc == Idle {
      var s' := TakeCommand(s, w, cmd);
      Moved(s, s', g, user, top, w, s'.workers[w]);
    }
  }

  lemma SwitchLedger(s: State, g: Gauge, user: string, top: real, halted: bool)
    requires Ready(s, g, user, top)
    ensures var s' := s.(cfg := s.cfg.(halted := halted));
            && Ready(s', g, user, top)
            && Ledger(g, user, s') == Ledger(g, user, s)
  {
  }

  lemma WriteLedger(s: State, g: Gauge, user: string, top: real, oid: OrderId, f: Fill)
    requires Ready(s, g, user, top)
    ensures var s' := ForeignWrite(s, oid, f);
            && Ready(s', g, user, top)
            && Ledger(g, user, s') - Ledger(g, user, s) == Booked(g, user, s'.log) - Booked(g, user, s.log)
  {
  }

  lemma BoundStays(hash: Hash, s: State, e: Event, g: Gauge, user: string, top: real)
    requires Steady(e) && |s.workers| > 0
    ensures |Apply(hash, s, e).workers| > 0
    ensures CapBound(Apply(hash, s, e), g, user, top) == CapBound(s, g, user, top)
  {
    ApplyKeepsShape(hash, s, e);
    if !e.Halt? && !e.Resume? {
      OrderSafety.StepKeepsConfig(hash, s, e);
    }
  }

  lemma ApplyLedger(hash: Hash, s: State, g: Gauge, user: string, top: real, e: Event, slack: real)
    requires Ready(s, g, user, top) && Steady(e)
    requires slack >= 0.0 && Ledger(g, user, s) <= CapBound(s, g, user, top) + slack
    ensures var s' := Apply(hash, s, e);
            && Ready(s', g, user, top)
            && Ledger(g, user, s') <= CapBound(s, g, user, top) + slack + Slack(hash, s, e, g, user)
  {
    match e
    case Take(w, cmd) => TakeLedger(s, g, user, top, w, cmd);
    case Step(w, r) => if w < |s.workers| { StepLedger(hash, s, g, user, top, w, r); }
    case Halt => SwitchLedger(s, g, user, top, true);
    case Resume => SwitchLedger(s, g, user, top, false);
    case Write(oid, f) => WriteLedger(s, g, user, top, oid, f);
  }

  lemma {:induction false} RunLedger(hash: Hash, s: State, g: Gauge, user: string, top: real, es: seq<Event>,
                                     slack: real)
    requires Ready(s, g, user, top) && forall e <- es :: Steady(e)
    requires slack >= 0.0 && Ledger(g, user, s) <= CapBound(s, g, user, top) + slack
    ensures var s' := Run(hash, s, es);
            && Ready(s', g, user, top)
            && Ledger(g, user, s') <= CapBound(s, g, user, top) + slack + RunSlack(hash, s, es, g, user)
    decreases |es|
  {
    if es != [] {
      ApplyLedger(hash, s, g, user, top, es[0], slack);
      BoundStays(hash, s, es[0], g, user, top);
      RunLedger(hash, Apply(hash, s, es[0]), g, user, top, es[1..], slack + Slack(hash, s, es[0], g, user));
    }
  }

  lemma BookedIsInLedger(s: State, g: Gauge, user: string, top: real)
    requires Ready(s, g, user, top)
    ensures Booked(g, user, s.log) <= Ledger(g, user, s)
  {
    forall w | 0 <= w < |s.workers| ensures Pendings(g, user, s.workers)[w] >= 0.0 {
      PendingInRange(s, g, user, top, w);
    }
    SumNonNegative(Pendings(g, user, s.workers));
  }

  lemma StartsInBound(s: State, g: Gauge, user: string, top: real)
    requires |s.workers| > 0 && top >= 0.0
    requires forall k <- s.workers :: !IsPending(k)
    requires Booked(g, user, s.log) <= Cap(g, LimitsOf(s.cfg, user))
    ensures Ledger(g, user, s) <= CapBound(s, g, user, top)
  {
    SumBound(Pendings(g, user, s.workers), 0.0);
    TimesIsProduct(|s.workers|, 0.0);
    TimesNonNegative(|s.workers| - 1, Unit(g, top));
  }

  /**
   The overshoot of a cap. From any state within the cap and with no order in the gap, whatever the
   interleaving, what the store books for the user is at most the cap, plus one order for each further
   worker (`CapBound`), plus what status writes raised and orders above their mark price exceeded.
   */
  lemma CapOvershoot(hash: Hash, s: State, g: Gauge, user: string, top: real, es: seq<Event>)
    requires Ready(s, g, user, top)
    requires forall k <- s.workers :: !IsPending(k)
    requires Booked(g, user, s.log) <= Cap(g, LimitsOf(s.cfg, user))
    requires forall e <- es :: Steady(e)
    ensures Booked(g, user, Run(hash, s, es).log) <= CapBound(s, g, user, top) + RunSlack(hash, s, es, g, user)
  {
    StartsInBound(s, g, user, top);
    RunLedger(hash, s, g, user, top, es, 0.0);
    BookedIsInLedger(Run(hash, s, es), g, user, top);
  }

  // ---- Exactly when there is nothing beyond --------------------------------------------------------

  lemma ProductSign(x: real, p: real)
    ensures x * p > 0.0 <==> (x > 0.0 && p > 0.0) || (x < 0.0 && p < 0.0)
  {
  }

  lemma WriteIs(hash: Hash, s: State, e: Event)
    requires WriteOf(s, e).Some?
    ensures var (oid, f) := WriteOf(s, e).value;
            oid in s.log && Apply(hash, s, e).log == s.log[oid := Patch(s.log[oid], f)]
  {
  }

  lemma WriteWeighs(g: Gauge, user: string, row: Row, f: Fill)
    requires row.user == user
    ensures RowWeight(g, user, Patch(row, f)) <= RowWeight(g, user, row) <==> Calm(g, row, f)
  {
    var more := Unfilled(Patch(row, f)) - Unfilled(row);
    ProductSign(more, row.price);
    if g == OpenNotional {
      assert RowWeight(g, user, row) == Unfilled(row) * row.price;
      assert RowWeight(g, user, Patch(row, f)) == Unfilled(Patch(row, f)) * row.price;
      assert RowWeight(g, user, Patch(row, f)) - RowWeight(g, user, row) == more * row.price;
    }
  }

  /** A write to one of the user's rows raises what is booked exactly if it is not calm; to others' rows, never. */
  lemma RaiseIff(hash: Hash, s: State, e: Event, g: Gauge, user: string)
    ensures Raise(hash, s, e, g, user) == 0.0 <==>
            var write := WriteOf(s, e);
            (write.Some? && s.log[write.value.0].user == user ==> Calm(g, s.log[write.value.0], write.value.1))
  {
    var write := WriteOf(s, e);
    if write.Some? {
      var (oid, f) := write.value;
      WriteIs(hash, s, e);
      BookedUpdate(g, user, s.log, oid, Patch(s.log[oid], f));
      if s.log[oid].user == user {
        WriteWeighs(g, user, s.log[oid], f);
      }
    }
  }

  /** Of an order that passes the risk gate, the store books more than was checked exactly if it is above its mark. */
  lemma ExcessIff(g: Gauge, cmd: Command)
    requires Mark(cmd) > 0.0
    ensures Excess(g, cmd) == 0.0 <==> WithinMark(g, cmd)
  {
    ProductSign(cmd.qty, Mark(cmd));
    ProductSign(cmd.qty, cmd.price);
    ProductSign(cmd.qty, cmd.price - Mark(cmd));
    assert cmd.qty * (cmd.price - Mark(cmd)) == cmd.qty * cmd.price - Notional(cmd);
  }

  lemma SlackIff(hash: Hash, s: State, e: Event, g: Gauge, user: string, top: real)
    requires Ready(s, g, user, top)
    ensures Slack(hash, s, e, g, user) == 0.0 <==> Orderly(s, e, g, user)
  {
    RaiseIff(hash, s, e, g, user);
    var insert := InsertOf(s, e);
    if insert.Some? && UserOf(insert.value.strat) == user {
      assert WorkerReady(s.cfg, user, top, s.workers[e.w]);
      ExcessIff(g, insert.value.cmd);
    }
  }

  lemma ApplyStaysReady(hash: Hash, s: State, g: Gauge, user: string, top: real, e: Event)
    requires Ready(s, g, user, top) && Steady(e)
    ensures Ready(Apply(hash, s, e), g, user, top)
  {
    ApplyLedger(hash, s, g, user, top, e, Positive(Ledger(g, user, s) - CapBound(s, g, user, top)));
  }

  /** A run adds nothing to the bound exactly if each of its writes is calm and each insert is within the mark. */
  lemma {:induction false} RunSlackIff(hash: Hash, s: State, es: seq<Event>, g: Gauge, user: string, top: real)
    requires Ready(s, g, user, top) && forall e <- es :: Steady(e)
    ensures RunSlack(hash, s, es, g, user) == 0.0 <==> OrderlyRun(hash, s, es, g, user)
    decreases |es|
  {
    if es != [] {
      SlackIff(hash, s, es[0], g, user, top);
      ApplyStaysReady(hash, s, g, user, top, es[0]);
      RunSlackIff(hash, Apply(hash, s, es[0]), es[1..], g, user, top);
    }
  }

  /** With W workers and an orderly run, the overshoot is at most one order for each further worker. */
  lemma OrderlyOvershoot(hash: Hash, s: State, g: Gauge, user: string, top: real, es: seq<Event>)
    requires Ready(s, g, user, top)
    requires forall k <- s.workers :: !IsPending(k)
    requires Booked(g, user, s.log) <= Cap(g, LimitsOf(s.cfg, user))
    requires forall e <- es :: Steady(e)
    requires OrderlyRun(hash, s, es, g, user)
    ensures Booked(g, user, Run(hash, s, es).log) <= CapBound(s, g, user, top)
  {
    CapOvershoot(hash, s, g, user, top, es);
    RunSlackIff(hash, s, es, g, user, top);
  }

  /** With one worker and an orderly run the cap itself is kept. */
  lemma OneWorkerKeepsTheCap(hash: Hash, s: State, g: Gauge, user: string, top: real, es: seq<Event>)
    requires Ready(s, g, user, top) && |s.workers| == 1
    requires forall k <- s.workers :: !IsPending(k)
    requires Booked(g, user, s.log) <= Cap(g, LimitsOf(s.cfg, user))
    requires forall e <- es :: Steady(e)
    requires OrderlyRun(hash, s, es, g, user)
    ensures Booked(g, user, Run(hash, s, es).log) <= Cap(g, LimitsOf(s.cfg, user))
  {
    OrderlyOvershoot(hash, s, g, user, top, es);
  }

  // ---- The engine's own writes are orderly -----------------------------------------------------------

  /** A command that the submit call and the comparison of its two prices let through. */
  predicate Sound(cmd: Command) {
    cmd.qty >= 0.0 && 0.0 <= cmd.price <= Mark(cmd)
  }

  predicate Opening(row: Row) {
    row.status == New && row.filled == 0.0 && row.qty >= 0.0 && row.price >= 0.0
  }

  /** Rows were inserted for sound commands, and no row that a worker still has to settle was touched by others. */
  predicate Books(s: State) {
    && (forall id <- s.hist.inserted :: Opening(s.hist.inserted[id]))
    && s.hist.foreign <= s.log.Keys
    && (forall w :: 0 <= w < |s.workers| && s.workers[w].pc != Idle ==> Sound(s.workers[w].cmd))
    && (forall w :: 0 <= w < |s.workers| && OrderSafety.Holding(s.workers[w]) ==> s.workers[w].oid !in s.hist.foreign)
  }

  /** A sound command, or any event that is neither a command nor a status write from outside the engine. */
  predicate OwnEvent(e: Event) {
    !e.Write? && (e.Take? ==> Sound(e.cmd))
  }

  lemma OwnEventIsOrderly(hash: Hash, s: State, e: Event, g: Gauge, user: string)
    requires OrderSafety.Inv(hash, s) && Books(s) && OwnEvent(e)
    ensures Orderly(s, e, g, user)
  {
    if WriteOf(s, e).Some? {
      var k := s.workers[e.w];
      assert OrderSafety.Holding(k);
      assert s.log[k.oid] == s.hist.inserted[k.oid];
    }
  }

  lemma OwnInsertKeepsBooks(s: State, w: nat, r: Reply)
    requires Books(s) && w < |s.workers| && s.workers[w].pc == Insert
    ensures Books(StepInsert(s, w, r))
  {
  }

  lemma OwnMoveKeepsBooks(s: State, s': State, w: nat, k: Worker)
    requires Books(s) && w < |s.workers| && s.workers[w].pc != Idle
    requires s'.workers == s.workers[w := k] && k.cmd == s.workers[w].cmd
    requires OrderSafety.Holding(k) ==> OrderSafety.Holding(s.workers[w]) && k.oid == s.workers[w].oid
    requires s'.hist.inserted == s.hist.inserted && s'.hist.foreign == s.hist.foreign && s'.log.Keys == s.log.Keys
    ensures Books(s')
  {
  }

  lemma OwnStepKeepsBooks(hash: Hash, s: State, w: nat, r: Reply)
    requires Books(s) && w < |s.workers|
    ensures Books(StepWorker(hash, s, w, r))
  {
    var k, s' := s.workers[w], StepWorker(hash, s, w, r);
    match k.pc
    case Insert => OwnInsertKeepsBooks(s, w, r);
    case Idle => assert s'.workers == s.workers;
    case Derive => OwnMoveKeepsBooks(s, s', w, s'.workers[w]);
    case Place => OwnMoveKeepsBooks(s, s', w, s'.workers[w]);
    case Record => OwnMoveKeepsBooks(s, s', w, At(k, Idle));
    case Reject => OwnMoveKeepsBooks(s, s', w, At(k, Idle));
    case _ =>
      OrderSafety.CheckFacts(s, k, r);
      OwnMoveKeepsBooks(s, s', w, StepCheck(s, k, r));
  }

  lemma OwnEventKeepsBooks(hash: Hash, s: State, e: Event)
    requires Books(s) && OwnEvent(e)
    ensures Books(Apply(hash, s, e))
  {
    if e.Step? && e.w < |s.workers| {
      OwnStepKeepsBooks(hash, s, e.w, e.reply);
    }
  }

  lemma {:induction false} OwnRunIsOrderly(hash: Hash, s: State, es: seq<Event>, g: Gauge, user: string)
    requires OrderSafety.Inv(hash, s) && Books(s) && forall e <- es :: OwnEvent(e)
    ensures OrderlyRun(hash, s, es, g, user)
    decreases |es|
  {
    if es != [] {
      OwnEventIsOrderly(hash, s, es[0], g, user);
      OwnEventKeepsBooks(hash, s, es[0]);
      OrderSafety.ApplyKeeps(hash, s, es[0]);
      OwnRunIsOrderly(hash, Apply(hash, s, es[0]), es[1..], g, user);
    }
  }

  /**
   From the first start, with no writer but the engine itself, and orders priced between zero and their
   mark: W workers exceed a cap by at most W - 1 orders, so that one worker keeps it.
   */
  lemma EngineAloneOvershoot(hash: Hash, s: State, g: Gauge, user: string, top: real, es: seq<Event>)
    requires Initial(s) && Ready(s, g, user, top)
    requires forall e <- es :: Steady(e) && OwnEvent(e)
    ensures Booked(g, user, Run(hash, s, es).log) <= CapBound(s, g, user, top)
    ensures |s.workers| == 1 ==> Booked(g, user, Run(hash, s, es).log) <= Cap(g, LimitsOf(s.cfg, user))
  {
    assert Weights(g, user, s.log) == map[];
    OwnRunIsOrderly(hash, s, es, g, user);
    OrderlyOvershoot(hash, s, g, user, top, es);
  }

  // ---- Where the bound does not help -----------------------------------------------------------

  /** The store books a fresh order at its checked notional exactly when it is checked at its own price. */
  lemma BookedAtCheckedNotional(cmd: Command, strat: Strategy)
    requires cmd.qty > 0.0
    ensures RowWeight(OpenNotional, UserOf(strat), FreshRow(cmd, strat)) == Notional(cmd)
            <==> cmd.markPrice == 0.0 || cmd.markPrice == cmd.price
  {
    if cmd.markPrice != 0.0 && cmd.markPrice != cmd.price {
      assert cmd.qty * (cmd.markPrice - cmd.price) != 0.0;
    }
  }

  /** An order without a limit price is not booked at all: inserting it never changes what the next check sees. */
  lemma MarketOrdersAreNotBooked(user: string, log: map<OrderId, Row>, oid: OrderId, cmd: Command, strat: Strategy)
    requires oid !in log && cmd.price == 0.0
    ensures Booked(OpenNotional, user, log[oid := FreshRow(cmd, strat)]) == Booked(OpenNotional, user, log)
  {
    BookedUpdate(OpenNotional, user, log, oid, FreshRow(cmd, strat));
  }

  /**
   A status write takes no check. Re-opening an order whose row had left the open set raises what is
   booked by the order's whole remainder, with every worker idle and the cap already used up.
   */
  lemma ReopeningOvershoots(hash: Hash, s: State, g: Gauge, oid: OrderId)
    requires oid in s.log && !IsOpen(s.log[oid].status)
    requires s.log[oid].qty > s.log[oid].filled && s.log[oid].price > 0.0
    ensures var user := s.log[oid].user;
            var reopened := Write(oid, Fill(Partial, "", 0.0, 0.0));
            && Booked(g, user, Apply(hash, s, reopened).log)
               == Booked(g, user, s.log) + RowWeight(g, user, s.log[oid].(status := Partial))
            && Raise(hash, s, reopened, g, user) == RowWeight(g, user, s.log[oid].(status := Partial)) > 0.0
  {
    var row := s.log[oid];
    BookedUpdate(g, row.user, s.log, oid, Patch(row, Fill(Partial, "", 0.0, 0.0)));
    assert (row.qty - row.filled) * row.price > 0.0;
  }
}
