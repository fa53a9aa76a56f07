/** Every order that reaches an exchange passed the gate of a configured strategy, and is the order that was checked. */
module OrderGates {
  import opened Prelude
  import opened OrderTypes
  import opened OrderEngine
  import opened OrderSafety
  import Precision

  /** Strategies as they were configured at some time, by identifier. */
  type Known = set<(string, Strategy)>

  /** The quantity and price of the command, or both rounded to the precision of metadata whose minimum it meets. */
  predicate AdjustedBy(cmd: Command, qty: real, price: real, meta: Option<Meta>) {
    match meta
    case None => qty == cmd.qty && price == cmd.price
    case Some(m) =>
      && (m.minNotionalUsd > 0.0 ==> Notional(cmd) >= m.minNotionalUsd)
      && qty == Precision.RoundToPrecision(cmd.qty, m.qtyPrecision)
      && price == if cmd.price > 0.0 then Precision.RoundToPrecision(cmd.price, m.pricePrecision) else cmd.price
  }

  ghost predicate Adjusted(cmd: Command, qty: real, price: real) {
    exists meta :: AdjustedBy(cmd, qty, price, meta)
  }

  /** What the gate asks of a command, and the row it was inserted as. */
  predicate VettedBy(known: Known, h: History, c: Call, strat: Strategy) {
    && (c.cmd.strategy, strat) in known
    && PassesRiskGate(c.cmd, strat)
    && c.oid in h.inserted && h.inserted[c.oid] == FreshRow(c.cmd, strat)
  }

  ghost predicate Vetted(known: Known, h: History, c: Call) {
    Adjusted(c.cmd, c.qty, c.price) && exists strat :: VettedBy(known, h, c, strat)
  }

  /** Past the strategy read the worker holds a strategy whose gate its command passed. */
  predicate Cleared(known: Known, k: Worker) {
    k.pc != Idle && k.pc != ReadHalt && k.pc != ReadStrategy ==>
      (k.cmd.strategy, k.strat) in known && PassesRiskGate(k.cmd, k.strat)
  }

  predicate OnRow(h: History, k: Worker) {
    Unsent(k) ==> k.oid in h.inserted && h.inserted[k.oid] == FreshRow(k.cmd, k.strat)
  }

  ghost predicate Sized(k: Worker) {
    k.pc == Place ==> Adjusted(k.cmd, k.qty, k.price)
  }

  ghost predicate Passed(known: Known, h: History, k: Worker) {
    Cleared(known, k) && OnRow(h, k) && Sized(k)
  }

  predicate Covers(known: Known, cfg: Config) {
    forall id <- cfg.strategies :: (id, cfg.strategies[id]) in known
  }

  ghost predicate GateInv(known: Known, s: State) {
    && Covers(known, s.cfg)
    && (forall w :: 0 <= w < |s.workers| ==> Passed(known, s.hist, s.workers[w]))
    && (forall i :: 0 <= i < |s.hist.calls| ==> Vetted(known, s.hist, s.hist.calls[i]))
  }

  // ---- One step ------------------------------------------------------------------------------------

  /** Only worker `w` moves, and no order on which another worker or an earlier call rests is inserted anew. */
  lemma OneMoves(known: Known, s: State, s': State, w: nat, k: Worker)
    requires GateInv(known, s) && w < |s.workers|
    requires s'.cfg == s.cfg && s'.workers == s.workers[w := k] && s'.hist.inserted == s.hist.inserted
    requires s'.hist.calls == s.hist.calls && Passed(known, s.hist, k)
    ensures GateInv(known, s')
  {
    forall i | 0 <= i < |s'.hist.calls| ensures Vetted(known, s'.hist, s'.hist.calls[i]) {
      var c := s.hist.calls[i];
      assert Vetted(known, s.hist, c);
      var strat :| VettedBy(known, s.hist, c, strat);
      assert VettedBy(known, s'.hist, c, strat);
    }
  }

  lemma CheckPasses(known: Known, s: State, k: Worker, r: Reply)
    requires Covers(known, s.cfg) && Passed(known, s.hist, k)
    ensures Passed(known, s.hist, StepCheck(s, k, r))
  {
    if k.pc == ReadMeta {
      var k' := StepCheck(s, k, r);
      var meta := if s.wiring.meta && r.outcome == Done then r.meta else None;
      assert k'.pc == Place ==> AdjustedBy(k'.cmd, k'.qty, k'.price, meta);
    }
  }

  lemma InsertPasses(hash: Hash, known: Known, s: State, w: nat, r: Reply)
    requires Inv(hash, s) && GateInv(known, s) && w < |s.workers| && s.workers[w].pc == Insert
    ensures GateInv(known, StepInsert(s, w, r))
  {
    var s', k := StepInsert(s, w, r), s.workers[w];
    if s'.hist.inserted == s.hist.inserted {
      OneMoves(known, s, s', w, s'.workers[w]);
    } else {
      forall v | 0 <= v < |s'.workers| ensures Passed(known, s'.hist, s'.workers[v]) {
        assert Passed(known, s.hist, s.workers[v]);
        if v != w && Holding(s.workers[v]) {
          assert s.workers[v].oid in s.log;
        }
      }
      forall i | 0 <= i < |s'.hist.calls| ensures Vetted(known, s'.hist, s'.hist.calls[i]) {
        var c := s.hist.calls[i];
        assert Vetted(known, s.hist, c);
        var strat :| VettedBy(known, s.hist, c, strat);
        assert c.oid in s.log;
        assert VettedBy(known, s'.hist, c, strat);
      }
    }
  }

  lemma PlacePasses(known: Known, s: State, w: nat, r: Reply)
    requires GateInv(known, s) && w < |s.workers| && s.workers[w].pc == Place
    ensures GateInv(known, StepPlace(s, w, r))
  {
    var s', k := StepPlace(s, w, r), s.workers[w];
    assert Passed(known, s.hist, k);
    var c := Call(k.oid, k.cmd, k.qty, k.price);
    var front := s'.(hist := s'.hist.(calls := s.hist.calls));
    OneMoves(known, s, front, w, s'.workers[w]);
    assert VettedBy(known, s'.hist, c, k.strat);
    forall i | 0 <= i < |s'.hist.calls| ensures Vetted(known, s'.hist, s'.hist.calls[i]) {
      if i < |s.hist.calls| {
        assert Vetted(known, front.hist, front.hist.calls[i]);
        var strat :| VettedBy(known, front.hist, front.hist.calls[i], strat);
        assert VettedBy(known, s'.hist, s'.hist.calls[i], strat);
      }
    }
  }

  lemma FinishPasses(known: Known, s: State, w: nat, f: Fill, outcome: Outcome)
    requires GateInv(known, s) && w < |s.workers|
    ensures GateInv(known, StepFinish(s, w, f, outcome))
  {
    OneMoves(known, s, StepFinish(s, w, f, outcome), w, At(s.workers[w], Idle));
  }

  lemma DerivePasses(hash: Hash, known: Known, s: State, w: nat, r: Reply)
    requires GateInv(known, s) && w < |s.workers| && s.workers[w].pc == Derive
    ensures GateInv(known, StepDerive(hash, s, w, r))
  {
    var s' := StepDerive(hash, s, w, r);
    assert Passed(known, s.hist, s.workers[w]);
    OneMoves(known, s, s', w, s'.workers[w]);
  }

  lemma StepPasses(hash: Hash, known: Known, s: State, w: nat, r: Reply)
    requires Inv(hash, s) && GateInv(known, s) && w < |s.workers|
    ensures GateInv(known, StepWorker(hash, s, w, r))
  {
    var k := s.workers[w];
    assert Passed(known, s.hist, k);
    match k.pc {
      case Insert => InsertPasses(hash, known, s, w, r);
      case Place => PlacePasses(known, s, w, r);
      case Derive => DerivePasses(hash, known, s, w, r);
      case Record => FinishPasses(known, s, w, FinalFill(k), r.outcome);
      case Reject => FinishPasses(known, s, w, FinalFill(k), r.outcome);
      case _ =>
        CheckPasses(known, s, k, r);
        OneMoves(known, s, Move(s, w, StepCheck(s, k, r)), w, StepCheck(s, k, r));
    }
  }

  /** The event configures only strategies that are known. */
  predicate Admits(known: Known, e: Event) {
    e.SetStrategy? ==> (e.id, e.strat) in known
  }

  lemma SameWorkersPass(known: Known, s: State, s': State)
    requires GateInv(known, s) && Covers(known, s'.cfg) && s'.workers == s.workers
    requires s'.hist.inserted == s.hist.inserted && s'.hist.calls == s.hist.calls
    ensures GateInv(known, s')
  {
    forall w | 0 <= w < |s'.workers| ensures Passed(known, s'.hist, s'.workers[w]) {
      assert Passed(known, s.hist, s.workers[w]);
    }
    forall i | 0 <= i < |s'.hist.calls| ensures Vetted(known, s'.hist, s'.hist.calls[i]) {
      assert Vetted(known, s.hist, s.hist.calls[i]);
      var strat :| VettedBy(known, s.hist, s.hist.calls[i], strat);
      assert VettedBy(known, s'.hist, s'.hist.calls[i], strat);
    }
  }

  lemma ApplyPasses(hash: Hash, known: Known, s: State, e: Event)
    requires Inv(hash, s) && GateInv(known, s) && Admits(known, e)
    ensures GateInv(known, Apply(hash, s, e))
  {
    match e {
      case Take(w, cmd) =>
        if w < |s.workers| && s.workers[w].pc == Idle {
          OneMoves(known, s, TakeCommand(s, w, cmd), w, s.workers[w].(pc := ReadHalt, cmd := cmd));
        }
      case Step(w, r) => if w < |s.workers| { StepPasses(hash, known, s, w, r); }
      case _ => SameWorkersPass(known, s, Apply(hash, s, e));
    }
  }

  lemma {:induction false} RunPasses(hash: Hash, known: Known, s: State, es: seq<Event>)
    requires Inv(hash, s) && GateInv(known, s) && forall e <- es :: Admits(known, e)
    ensures GateInv(known, Run(hash, s, es))
    decreases |es|
  {
    if es != [] {
      assert es[0] in es;
      ApplyKeeps(hash, s, es[0]);
      ApplyPasses(hash, known, s, es[0]);
      RunPasses(hash, known, Apply(hash, s, es[0]), es[1..]);
    }
  }

  /** What being vetted means in numbers. */
  lemma VettedFits(known: Known, h: History, c: Call, strat: Strategy)
    requires VettedBy(known, h, c, strat)
    ensures strat.live && strat.account != "" && strat.risk.Some?
    ensures var risk := strat.risk.value;
      risk.maxPositionUsd > 0.0 && risk.maxLeverage > 0.0 && risk.dailyLossCapUsd > 0.0
    ensures var mark := if c.cmd.markPrice == 0.0 then c.cmd.price else c.cmd.markPrice;
      mark > 0.0 && c.cmd.qty * mark <= strat.risk.value.maxPositionUsd
    ensures c.oid in h.inserted && h.inserted[c.oid] == Row(
      if strat.user == "" then "default" else strat.user, c.cmd.strategy, strat.account, c.cmd.symbol, strat.mode,
      c.cmd.qty, c.cmd.price, New, "", 0.0, 0.0)
  {
  }

  /**
   In every run, every call carries a command that passed the gate of its strategy as configured at some
   time, for which a row of that strategy's user and account was inserted; and its quantity and price are
   the command's own, up to the rounding of venue metadata whose minimum it meets.
   */
  lemma EveryCallIsVetted(hash: Hash, known: Known, s: State, es: seq<Event>, i: nat)
    returns (c: Call, strat: Strategy)
    requires Initial(s) && Covers(known, s.cfg) && (forall e <- es :: Admits(known, e))
    requires i < |Run(hash, s, es).hist.calls|
    ensures c == Run(hash, s, es).hist.calls[i]
    ensures VettedBy(known, Run(hash, s, es).hist, c, strat) && Adjusted(c.cmd, c.qty, c.price)
    ensures strat.live && strat.account != "" && strat.risk.Some?
    ensures var risk := strat.risk.value;
      risk.maxPositionUsd > 0.0 && risk.maxLeverage > 0.0 && risk.dailyLossCapUsd > 0.0
    ensures var mark := if c.cmd.markPrice == 0.0 then c.cmd.price else c.cmd.markPrice;
      mark > 0.0 && c.cmd.qty * mark <= strat.risk.value.maxPositionUsd
    ensures var inserted := Run(hash, s, es).hist.inserted;
      c.oid in inserted && inserted[c.oid] == Row(
        if strat.user == "" then "default" else strat.user, c.cmd.strategy, strat.account, c.cmd.symbol, strat.mode,
        c.cmd.qty, c.cmd.price, New, "", 0.0, 0.0)
  {
    RunPasses(hash, known, s, es);
    var h := Run(hash, s, es).hist;
    c := h.calls[i];
    assert Vetted(known, h, c);
    strat :| VettedBy(known, h, c, strat);
    VettedFits(known, h, c, strat);
  }
}
