/**
 One command processed from start to end, in the engine's own straight-line form, and proved to take
 exactly the steps that the protocol in `OrderEngine` gives to one worker when nobody interferes.
 */
module OrderProcess {
  import opened Prelude
  import opened OrderTypes
  import opened Sums
  import opened OrderEngine
  import OrderBooks
  import ClientOrderId
  import Precision
  import OrderSafety

  /** How the environment answers: each external call is made at most once per command. */
  type Env = Pc -> Reply

  /** Program order. */
  function Rank(pc: Pc): nat {
    match pc
    case ReadHalt => 13 case ReadStrategy => 12 case ReadLoss => 11 case ReadLimits => 10
    case ReadOpen => 9 case ReadPortfolioLoss => 8 case Derive => 7 case Insert => 6 case Build => 5
    case ReadMeta => 4 case Place => 3 case Record => 2 case Reject => 1 case Idle => 0
  }

  ghost function StepAlone(hash: Hash, s: State, env: Env): State
    requires |s.workers| == 1
  {
    StepWorker(hash, s, 0, env(s.workers[0].pc))
  }

  lemma StepsForward(hash: Hash, s: State, env: Env)
    requires |s.workers| == 1 && s.workers[0].pc != Idle
    ensures |StepAlone(hash, s, env).workers| == 1
    ensures Rank(StepAlone(hash, s, env).workers[0].pc) < Rank(s.workers[0].pc)
  {
  }

  /** The protocol's single worker, stepped until its command is finished. */
  ghost function Solo(hash: Hash, s: State, env: Env): State
    requires |s.workers| == 1
    decreases Rank(s.workers[0].pc)
  {
    if s.workers[0].pc == Idle then s
    else
      StepsForward(hash, s, env);
      Solo(hash, StepAlone(hash, s, env), env)
  }

  /** Processing a command alone is one of the protocol's runs, so every result about runs applies to it. */
  lemma {:induction false} SoloIsARun(hash: Hash, s: State, env: Env) returns (es: seq<Event>)
    requires |s.workers| == 1
    ensures Solo(hash, s, env) == Run(hash, s, es)
    decreases Rank(s.workers[0].pc)
  {
    if s.workers[0].pc == Idle {
      es := [];
    } else {
      var e := Step(0, env(s.workers[0].pc));
      StepsForward(hash, s, env);
      var rest := SoloIsARun(hash, StepAlone(hash, s, env), env);
      es := [e] + rest;
      assert es[1..] == rest;
    }
  }

  // ---- What one command leaves behind ----------------------------------------------------------

  /** Nothing happened: no row, no call. */
  predicate NoTrace(s0: State, s: State) {
    s.log == s0.log && s.hist == s0.hist
  }

  /** A new row, and no call yet. */
  predicate NewRow(s0: State, s: State, oid: OrderId) {
    && oid !in s0.log && oid in s.log
    && s.log == s0.log[oid := s.log[oid]]
    && s.log[oid].status == New && s.log[oid].filled == 0.0
    && s.hist.calls == s0.hist.calls && s.hist.acks == s0.hist.acks
  }

  /** A rejected row; at most one call, never acknowledged. */
  predicate RowRejected(s0: State, s: State, oid: OrderId) {
    && oid !in s0.log && oid in s.log
    && s.log == s0.log[oid := s.log[oid]]
    && s.log[oid].status == Rejected && s.log[oid].filled == 0.0
    && (s.hist.calls == s0.hist.calls || CalledOnce(s0, s, oid))
    && s.hist.acks == s0.hist.acks
  }

  predicate CalledOnce(s0: State, s: State, oid: OrderId) {
    |s.hist.calls| == |s0.hist.calls| + 1 && s0.hist.calls <= s.hist.calls && s.hist.calls[|s0.hist.calls|].oid == oid
  }

  /** One call, acknowledged, and the acknowledged result in the row. */
  predicate ResultRecorded(s0: State, s: State, oid: OrderId) {
    && oid !in s0.log && oid in s.log
    && s.log == s0.log[oid := s.log[oid]]
    && CalledOnce(s0, s, oid)
    && oid in s.hist.acks && s.hist.acks == s0.hist.acks[oid := s.hist.acks[oid]]
    && Shows(s.log[oid], s.hist.acks[oid])
  }

  /** A fresh row on which a result was recorded. Zero-valued fields of the result leave the fresh values. */
  predicate Shows(row: Row, f: Fill) {
    && row.status == (if f.status == Blank then New else f.status)
    && row.filled == (if f.filled > 0.0 then f.filled else 0.0)
    && row.avgPrice == (if f.avgPrice > 0.0 then f.avgPrice else 0.0)
    && row.exchangeId == f.exchangeId
  }

  predicate Fresh(row: Row) {
    row.status == New && row.filled == 0.0 && row.avgPrice == 0.0 && row.exchangeId == ""
  }

  /** Where a command stands on its way from `s0`. */
  predicate Progress(s0: State, s: State) {
    && |s.workers| == 1
    && var k := s.workers[0];
       match k.pc
       case Idle => NoTrace(s0, s) || RowRejected(s0, s, k.oid) || ResultRecorded(s0, s, k.oid)
       case Build => NewRow(s0, s, k.oid) && Fresh(s.log[k.oid])
       case ReadMeta => NewRow(s0, s, k.oid) && Fresh(s.log[k.oid])
       case Place => NewRow(s0, s, k.oid) && Fresh(s.log[k.oid])
       case Record =>
         && k.oid !in s0.log && k.oid in s.log && s.log == s0.log[k.oid := s.log[k.oid]] && Fresh(s.log[k.oid])
         && CalledOnce(s0, s, k.oid) && s.hist.acks == s0.hist.acks[k.oid := k.fill]
       case Reject =>
         && k.oid !in s0.log && k.oid in s.log && s.log == s0.log[k.oid := s.log[k.oid]] && Fresh(s.log[k.oid])
         && (s.hist.calls == s0.hist.calls || CalledOnce(s0, s, k.oid)) && s.hist.acks == s0.hist.acks
       case _ => NoTrace(s0, s)
  }

  /** Store writes succeed: no insert is torn, and no final write is lost. */
  predicate CleanEnv(env: Env) {
    env(Insert).outcome != Torn && env(Record).outcome != Failed && env(Reject).outcome != Failed
  }

  lemma ProgressChecks(s0: State, s: State, r: Reply)
    requires Progress(s0, s)
    requires var pc := s.workers[0].pc; pc != Insert && pc != Derive && pc != Place && pc != Record && pc != Reject
    ensures Progress(s0, Move(s, 0, StepCheck(s, s.workers[0], r)))
  {
    OrderSafety.CheckFacts(s, s.workers[0], r);
  }

  lemma ProgressPlace(s0: State, s: State, r: Reply)
    requires Progress(s0, s) && s.workers[0].pc == Place
    ensures Progress(s0, StepPlace(s, 0, r))
  {
  }

  lemma ProgressFinish(s0: State, s: State, outcome: Outcome)
    requires Progress(s0, s) && (s.workers[0].pc == Record || s.workers[0].pc == Reject) && outcome != Failed
    ensures Progress(s0, StepFinish(s, 0, FinalFill(s.workers[0]), outcome))
  {
  }

  lemma ProgressInsert(s0: State, s: State, r: Reply)
    requires Progress(s0, s) && s.workers[0].pc == Insert && r.outcome != Torn
    ensures Progress(s0, StepInsert(s, 0, r))
  {
  }

  lemma {:induction false} ProgressToTheEnd(hash: Hash, s0: State, s: State, env: Env)
    requires Progress(s0, s) && CleanEnv(env)
    ensures Progress(s0, Solo(hash, s, env))
    ensures Solo(hash, s, env).workers[0].pc == Idle
    decreases Rank(s.workers[0].pc)
  {
    var pc := s.workers[0].pc;
    if pc != Idle {
      StepsForward(hash, s, env);
      match pc {
        case Derive =>
        case Insert => ProgressInsert(s0, s, env(pc));
        case Place => ProgressPlace(s0, s, env(pc));
        case Record => ProgressFinish(s0, s, env(pc).outcome);
        case Reject => ProgressFinish(s0, s, env(pc).outcome);
        case _ => ProgressChecks(s0, s, env(pc));
      }
      ProgressToTheEnd(hash, s0, StepAlone(hash, s, env), env);
    }
  }

  /**
   A command processed alone, when store writes succeed, leaves one of three things: no trace at all,
   one new rejected row without an acknowledged placement, or one new row with its one acknowledged
   placement and the acknowledged result in it. Every other row stays as it was.
   */
  lemma CommandOutcome(hash: Hash, s: State, cmd: Command, env: Env)
    requires |s.workers| == 1 && s.workers[0].pc == Idle && CleanEnv(env)
    ensures var s' := Solo(hash, Apply(hash, s, Take(0, cmd)), env);
            && |s'.workers| == 1
            && var oid := s'.workers[0].oid;
               NoTrace(s, s') || RowRejected(s, s', oid) || ResultRecorded(s, s', oid)
  {
    var s1 := TakeCommand(s, 0, cmd);
    ProgressToTheEnd(hash, s, s1, env);
  }

  class Engine {
    const hash: Hash
    const wiring: Wiring
    var cfg: Config
    var log: map<OrderId, Row>
    var nonce: nat
    ghost var hist: History

    constructor (hash: Hash, wiring: Wiring, cfg: Config)
      ensures this.hash == hash && this.wiring == wiring && this.cfg == cfg
      ensures log == map[] && nonce == 0 && hist == EMPTY
    {
      this.hash, this.wiring, this.cfg := hash, wiring, cfg;
      log, nonce, hist := map[], 0, EMPTY;
    }

    /** This engine's stores are those of `s`, and `s` has one worker, which is `k`. */
    ghost predicate Is(s: State, k: Worker)
      reads this
    {
      s == State(wiring, cfg, log, nonce, [k], hist)
    }

    /** The portfolio query: one pass over the log. */
    method SumOpen(user: string) returns (notional: real, count: real)
      ensures notional == Booked(OpenNotional, user, log)
      ensures count == Booked(OpenPositions, user, log)
      ensures notional ==
        Total(map id | id in log && log[id].user == user && (log[id].status == New || log[id].status == Partial)
                :: (log[id].qty - log[id].filled) * log[id].price)
      ensures count ==
        |set id | id in log && log[id].user == user && (log[id].status == New || log[id].status == Partial)| as real
    {
      OrderBooks.NotionalIsSummed(user, log);
      OrderBooks.PositionsAreCounted(user, log);
      notional, count := 0.0, 0.0;
      var rest := log;
      while rest != map[]
        invariant notional + Booked(OpenNotional, user, rest) == Booked(OpenNotional, user, log)
        invariant count + Booked(OpenPositions, user, rest) == Booked(OpenPositions, user, log)
        decreases |rest|
      {
        var id :| id in rest;
        ghost var before := rest;
        notional := notional + RowWeight(OpenNotional, user, rest[id]);
        count := count + RowWeight(OpenPositions, user, rest[id]);
        rest := rest - {id};
        assert forall g :: Weights(g, user, rest) == Weights(g, user, before) - {id};
        TotalRemove(Weights(OpenNotional, user, before), id);
        TotalRemove(Weights(OpenPositions, user, before), id);
      }
    }

    /** The kill switch and the strategy's own risk gate. */
    method RiskGate(cmd: Command, env: Env, ghost s: State, ghost k: Worker)
      returns (pass: bool, strat: Strategy, ghost s': State, ghost k': Worker)
      requires Is(s, k) && k.pc == ReadHalt && k.cmd == cmd
      ensures Is(s', k') && Solo(hash, s', env) == Solo(hash, s, env)
      ensures k'.pc == if !pass then Idle else if wiring.system && wiring.stats then ReadLimits else Derive
      ensures k'.cmd == cmd && (pass ==> k'.strat == strat)
      ensures pass <==>
        && (wiring.system ==> env(ReadHalt).outcome == Done && !cfg.halted)
        && env(ReadStrategy).outcome == Done && cmd.strategy in cfg.strategies
        && var found := cfg.strategies[cmd.strategy];
        && found.live && found.account != "" && found.risk.Some?
        && found.risk.value.maxPositionUsd > 0.0 && found.risk.value.maxLeverage > 0.0
        && found.risk.value.dailyLossCapUsd > 0.0
        && Mark(cmd) > 0.0 && Notional(cmd) <= found.risk.value.maxPositionUsd
        && env(ReadLoss).outcome == Done && env(ReadLoss).amount > -found.risk.value.dailyLossCapUsd
      ensures pass ==> strat == cfg.strategies[cmd.strategy]
    {
      pass, s', k' := false, s, k;
      strat := Strategy("", false, "", Unset, None);
      if wiring.system {
        if env(ReadHalt).outcome != Done || cfg.halted {
          s', k' := Advance(env, s', k', At(k', Idle));
          return;
        }
      }
      s', k' := Advance(env, s', k', At(k', ReadStrategy));
      if env(ReadStrategy).outcome != Done || cmd.strategy !in cfg.strategies {
        s', k' := Advance(env, s', k', At(k', Idle));
        return;
      }
      strat := cfg.strategies[cmd.strategy];
      if !PassesRiskGate(cmd, strat) {
        s', k' := Advance(env, s', k', At(k', Idle));
        return;
      }
      s', k' := Advance(env, s', k', k'.(pc := ReadLoss, strat := strat));
      if env(ReadLoss).outcome != Done || env(ReadLoss).amount <= -strat.risk.value.dailyLossCapUsd {
        s', k' := Advance(env, s', k', At(k', Idle));
        return;
      }
      s', k' := Advance(env, s', k', At(k', if wiring.system && wiring.stats then ReadLimits else Derive));
      pass := true;
    }

    /** One step of the protocol in which only the worker changes. */
    ghost method Advance(env: Env, s: State, k: Worker, next: Worker) returns (s': State, k': Worker)
      requires Is(s, k) && k.pc != Idle
      requires StepAlone(hash, s, env) == Move(s, 0, next)
      ensures k' == next && Is(s', k') && Solo(hash, s', env) == Solo(hash, s, env)
    {
      StepsForward(hash, s, env);
      s', k' := Move(s, 0, next), next;
    }

    /** The portfolio caps, checked against one query. */
    method CapsGate(cmd: Command, user: string, lim: Limits, env: Env, ghost s: State, ghost k: Worker)
      returns (pass: bool, ghost s': State, ghost k': Worker)
      requires Is(s, k) && k.pc == ReadOpen && k.cmd == cmd && UserOf(k.strat) == user && k.limits == lim
      ensures Is(s', k') && Solo(hash, s', env) == Solo(hash, s, env)
      ensures k' == At(k, if pass then AfterOpen(lim) else Idle)
      ensures pass <==>
        && env(ReadOpen).outcome == Done
        && (lim.maxOpenNotionalUsd > 0.0 ==>
              Booked(OpenNotional, user, log) + Notional(cmd) <= lim.maxOpenNotionalUsd)
        && (lim.maxOpenPositions > 0 ==>
              Booked(OpenPositions, user, log) + 1.0 <= lim.maxOpenPositions as real)
    {
      var notional, count := SumOpen(user);
      pass := env(ReadOpen).outcome == Done && FitsCaps(cmd, lim, notional, count);
      s', k' := Advance(env, s, k, At(k, if pass then AfterOpen(lim) else Idle));
    }

    /** The portfolio caps and the portfolio's daily loss. */
    method PortfolioGate(cmd: Command, strat: Strategy, env: Env, ghost s: State, ghost k: Worker)
      returns (pass: bool, ghost s': State, ghost k': Worker)
      requires Is(s, k) && k.pc == ReadLimits && k.cmd == cmd && k.strat == strat
      ensures Is(s', k') && Solo(hash, s', env) == Solo(hash, s, env)
      ensures k'.pc == if pass then Derive else Idle
      ensures k'.cmd == cmd && k'.strat == strat
      ensures var user := if strat.user == "" then "default" else strat.user;
        var lim := if user in cfg.limits then cfg.limits[user] else Limits(0.0, 0, 0.0);
        pass <==>
        && env(ReadLimits).outcome == Done
        && (lim.maxOpenNotionalUsd > 0.0 || lim.maxOpenPositions > 0 ==> env(ReadOpen).outcome == Done)
        && (lim.maxOpenNotionalUsd > 0.0 ==>
              Booked(OpenNotional, user, log) + Notional(cmd) <= lim.maxOpenNotionalUsd)
        && (lim.maxOpenPositions > 0 ==>
              Booked(OpenPositions, user, log) + 1.0 <= lim.maxOpenPositions as real)
        && (lim.maxDailyLossUsd > 0.0 ==>
              env(ReadPortfolioLoss).outcome == Done && env(ReadPortfolioLoss).amount > -lim.maxDailyLossUsd)
    {
      pass, s', k' := false, s, k;
      var user := UserOf(strat);
      if env(ReadLimits).outcome != Done {
        s', k' := Advance(env, s', k', At(k', Idle));
        return;
      }
      var lim := LimitsOf(cfg, user);
      s', k' := Advance(env, s', k', k'.(pc := AfterLimits(lim), limits := lim));
      if lim.maxOpenNotionalUsd > 0.0 || lim.maxOpenPositions > 0 {
        var fits;
        fits, s', k' := CapsGate(cmd, user, lim, env, s', k');
        if !fits {
          return;
        }
      }
      if lim.maxDailyLossUsd > 0.0 {
        if env(ReadPortfolioLoss).outcome != Done || env(ReadPortfolioLoss).amount <= -lim.maxDailyLossUsd {
          s', k' := Advance(env, s', k', At(k', Idle));
          return;
        }
        s', k' := Advance(env, s', k', At(k', Derive));
      }
      pass := true;
    }

    /** The unique insert; only the caller whose insert succeeded goes on. */
    method InsertRow(cmd: Command, strat: Strategy, env: Env, ghost s: State, ghost k: Worker)
      returns (inserted: bool, oid: OrderId, ghost s': State, ghost k': Worker)
      requires Is(s, k) && k.pc == Derive && k.cmd == cmd && k.strat == strat
      modifies this`log, this`nonce, this`hist
      ensures Is(s', k') && Solo(hash, s', env) == Solo(hash, s, env)
      ensures k'.pc == if inserted then Build else Idle
      ensures k'.cmd == cmd && k'.oid == oid
      ensures oid == hash(ClientOrderId.CommandPreImage(cmd, nonce, env(Derive).stamp))
      ensures inserted <==> env(Insert).outcome == Done && oid !in old(log)
      ensures log == if env(Insert).outcome == Failed || oid in old(log) then old(log)
                     else old(log)[oid := Row(if strat.user == "" then "default" else strat.user, cmd.strategy,
                                              strat.account, cmd.symbol, strat.mode, cmd.qty, cmd.price,
                                              New, "", 0.0, 0.0)]
    {
      StepsForward(hash, s, env);
      if cmd.key == "" {
        nonce := (nonce + 1) % ClientOrderId.NONCE_WRAP;
      }
      oid := hash(ClientOrderId.CommandPreImage(cmd, nonce, env(Derive).stamp));
      k' := k.(pc := Insert, oid := oid);
      s' := Move(s, 0, k').(nonce := nonce);
      assert StepAlone(hash, s, env) == s';

      StepsForward(hash, s', env);
      var outcome := env(Insert).outcome;
      inserted := outcome == Done && oid !in log;
      ghost var s1, k1 := s', k';
      if outcome != Failed && oid !in log {
        log := log[oid := FreshRow(cmd, strat)];
        hist := hist.(inserted := hist.inserted[oid := FreshRow(cmd, strat)], commands := hist.commands[oid := cmd]);
      }
      k' := At(k1, if inserted then Build else Idle);
      s' := StepInsert(s1, 0, env(Insert));
    }

    /** The engine's status write, whose failure it only logs. */
    method UpdateStatus(oid: OrderId, f: Fill, outcome: Outcome, ghost env: Env, ghost s: State, ghost k: Worker)
      returns (ghost s': State)
      requires Is(s, k) && (k.pc == Record || k.pc == Reject)
      requires k.oid == oid && f == FinalFill(k) && outcome == env(k.pc).outcome
      modifies this`log, this`hist
      ensures Is(s', At(k, Idle)) && Solo(hash, s, env) == s'
      ensures hist.calls == old(hist.calls)
      ensures log.Keys == old(log).Keys && forall id <- log :: id != oid ==> log[id] == old(log)[id]
      ensures oid in old(log) ==>
        var was, now := old(log)[oid], log[oid];
        if outcome == Failed then now == was
        else now == was.(
          status := if f.status == Blank then was.status else f.status,
          exchangeId := if f.exchangeId == "" then was.exchangeId else f.exchangeId,
          filled := if f.filled <= 0.0 then was.filled else f.filled,
          avgPrice := if f.avgPrice <= 0.0 then was.avgPrice else f.avgPrice)
    {
      StepsForward(hash, s, env);
      if outcome != Failed && oid in log {
        log := log[oid := Patch(log[oid], f)];
        hist := hist.(finals := hist.finals[oid := f]);
      }
      s' := StepFinish(s, 0, f, outcome);
    }

    /** `PlaceOrder` under this identifier: the one exchange call of the command. */
    method PlaceOrder(oid: OrderId, cmd: Command, qty: real, price: real, reply: Reply,
                      ghost env: Env, ghost s: State, ghost k: Worker)
      returns (acked: bool, ghost s': State, ghost k': Worker)
      requires Is(s, k) && k.pc == Place && reply == env(Place)
      requires k.oid == oid && k.cmd == cmd && k.qty == qty && k.price == price
      modifies this`hist
      ensures acked == (reply.outcome == Done)
      ensures hist.calls == old(hist.calls) + [Call(oid, cmd, qty, price)]
      ensures Is(s', k') && Solo(hash, s', env) == Solo(hash, s, env)
      ensures k'.oid == oid && k'.pc == (if acked then Record else Reject) && (acked ==> k'.fill == reply.fill)
    {
      StepsForward(hash, s, env);
      acked := reply.outcome == Done;
      hist := hist.(calls := hist.calls + [Call(oid, cmd, qty, price)],
                    acks := if acked then hist.acks[oid := reply.fill] else hist.acks);
      k' := if acked then k.(pc := Record, fill := reply.fill) else At(k, Reject);
      s' := StepPlace(s, 0, reply);
    }

    /** Validation against the venue's metadata; a missing row or a failed lookup forwards the order unchanged. */
    method ApplyMeta(cmd: Command, reply: Reply, ghost env: Env, ghost s: State, ghost k: Worker)
      returns (pass: bool, qty: real, price: real, ghost s': State, ghost k': Worker)
      requires Is(s, k) && k.pc == ReadMeta && k.cmd == cmd && reply == env(ReadMeta)
      ensures Is(s', k') && Solo(hash, s', env) == Solo(hash, s, env)
      ensures k'.oid == k.oid && k'.cmd == cmd && k'.pc == if pass then Place else Reject
      ensures pass ==> k'.qty == qty && k'.price == price
      ensures var meta := if wiring.meta && reply.outcome == Done then reply.meta else None;
        if meta.None? then pass && qty == cmd.qty && price == cmd.price
        else
          && (pass <==> meta.value.minNotionalUsd <= 0.0 || Notional(cmd) >= meta.value.minNotionalUsd)
          && (pass ==> qty == Precision.RoundToPrecision(cmd.qty, meta.value.qtyPrecision))
          && (pass && cmd.price > 0.0 ==> price == Precision.RoundToPrecision(cmd.price, meta.value.pricePrecision))
          && (cmd.price <= 0.0 ==> price == cmd.price)
    {
      pass, qty, price := true, cmd.qty, cmd.price;
      if wiring.meta && reply.outcome == Done && reply.meta.Some? {
        var meta := reply.meta.value;
        if TooSmall(cmd, meta) {
          pass := false;
          s', k' := Advance(env, s, k, At(k, Reject));
          return;
        }
        qty := Precision.RoundToPrecision(qty, meta.qtyPrecision);
        if price > 0.0 {
          price := Precision.RoundToPrecision(price, meta.pricePrecision);
        }
      }
      s', k' := Advance(env, s, k, k.(pc := Place, qty := qty, price := price));
    }

    /** The call, and the write of its result. */
    method CallAndRecord(oid: OrderId, cmd: Command, qty: real, price: real, env: Env, ghost s: State, ghost k: Worker)
      returns (ghost s': State)
      requires Is(s, k) && k.pc == Place && k.oid == oid && k.cmd == cmd && k.qty == qty && k.price == price
      modifies this`log, this`hist
      ensures |s'.workers| == 1 && Is(s', s'.workers[0]) && s' == Solo(hash, s, env)
      ensures hist.calls == old(hist.calls) + [Call(oid, cmd, qty, price)]
      ensures log.Keys == old(log).Keys && forall id <- log :: id != oid ==> log[id] == old(log)[id]
    {
      ghost var k';
      var acked;
      acked, s', k' := PlaceOrder(oid, cmd, qty, price, env(Place), env, s, k);
      if acked {
        s' := UpdateStatus(oid, env(Place).fill, env(Record).outcome, env, s', k');
      } else {
        s' := UpdateStatus(oid, REJECTION, env(Reject).outcome, env, s', k');
      }
    }

    /** What follows a successful insert: exactly a built adapter and an order that the venue takes lead to a call. */
    method Submit(cmd: Command, oid: OrderId, env: Env, ghost s: State, ghost k: Worker)
      returns (ghost s': State)
      requires Is(s, k) && k.pc == Build && k.cmd == cmd && k.oid == oid
      modifies this`log, this`hist
      ensures |s'.workers| == 1 && Is(s', s'.workers[0]) && s' == Solo(hash, s, env)
      ensures var meta := if wiring.meta && env(ReadMeta).outcome == Done then env(ReadMeta).meta else None;
        if env(Build).outcome == Done
           && (meta.None? || meta.value.minNotionalUsd <= 0.0 || Notional(cmd) >= meta.value.minNotionalUsd)
        then exists qty, price :: hist.calls == old(hist.calls) + [Call(oid, cmd, qty, price)]
        else hist.calls == old(hist.calls)
      ensures log.Keys == old(log).Keys && forall id <- log :: id != oid ==> log[id] == old(log)[id]
    {
      ghost var k';
      if env(Build).outcome != Done {
        s', k' := Advance(env, s, k, At(k, Reject));
        s' := UpdateStatus(oid, REJECTION, env(Reject).outcome, env, s', k');
        return;
      }
      s', k' := Advance(env, s, k, At(k, ReadMeta));
      var pass, qty, price;
      pass, qty, price, s', k' := ApplyMeta(cmd, env(ReadMeta), env, s', k');
      if !pass {
        s' := UpdateStatus(oid, REJECTION, env(Reject).outcome, env, s', k');
        return;
      }
      s' := CallAndRecord(oid, cmd, qty, price, env, s', k');
    }

    /**
     One command from delivery to its final write. `s` is the protocol state this engine is in with
     its one worker idle; the engine ends in the state the protocol gives to the same replies.
     */
    method ProcessCommand(cmd: Command, env: Env, ghost s: State)
      requires |s.workers| == 1 && s.workers[0].pc == Idle && Is(s, s.workers[0])
      modifies this`log, this`nonce, this`hist
      ensures var s' := Solo(hash, Apply(hash, s, Take(0, cmd)), env);
              |s'.workers| == 1 && Is(s', s'.workers[0])
    {
      ghost var s0 := Apply(hash, s, Take(0, cmd));
      var pass, strat;
      ghost var s1, k1;
      pass, strat, s1, k1 := RiskGate(cmd, env, s0, s0.workers[0]);
      if !pass {
        return;
      }
      if wiring.system && wiring.stats {
        pass, s1, k1 := PortfolioGate(cmd, strat, env, s1, k1);
        if !pass {
          return;
        }
      }
      var inserted, oid;
      inserted, oid, s1, k1 := InsertRow(cmd, strat, env, s1, k1);
      if !inserted {
        return;
      }
      s1 := Submit(cmd, oid, env, s1, k1);
    }
  }
}
