/**
 Runs that do reach an exchange, a full set of armed workers, or a store above its cap: the safety results
 are not vacuous, and their bounds are reached.
 */
module OrderPaths {
  import opened Prelude
  import opened OrderTypes
  import opened Sums
  import opened OrderEngine
  import opened OrderSafety
  import OrderCaps

  // ---- One unhindered command ------------------------------------------------------------------------

  /** Every answer is good, there is no loss today, and the venue publishes no metadata. */
  const SMOOTH := Reply(Done, 0.0, None, Fill(Filled, "", 0.0, 0.0), "")

  /** Nothing stands in the way of this command: the switch is off, its strategy exists, and the caps leave room. */
  ghost predicate Unhindered(s: State, cmd: Command) {
    && !(s.wiring.system && s.cfg.halted)
    && cmd.key != ""
    && cmd.strategy in s.cfg.strategies
    && PassesRiskGate(cmd, s.cfg.strategies[cmd.strategy])
    && (s.wiring.system && s.wiring.stats ==>
          var user := UserOf(s.cfg.strategies[cmd.strategy]);
          FitsCaps(cmd, LimitsOf(s.cfg, user), Booked(OpenNotional, user, s.log), Booked(OpenPositions, user, s.log)))
  }

  /** The worker once all reads have let its command pass. */
  function Vetted(s: State, k: Worker, cmd: Command): Worker
    requires cmd.strategy in s.cfg.strategies
  {
    var strat := s.cfg.strategies[cmd.strategy];
    k.(pc := Derive, cmd := cmd, strat := strat,
       limits := if s.wiring.system && s.wiring.stats then LimitsOf(s.cfg, UserOf(strat)) else k.limits)
  }

  /** Commands delivered and good answers only: no administration, and no writer but the engine. */
  predicate Plain(es: seq<Event>) {
    forall e <- es :: e.Take? || e.Step?
  }

  lemma RunSnoc(hash: Hash, s: State, es: seq<Event>, e: Event)
    ensures Run(hash, s, es + [e]) == Apply(hash, Run(hash, s, es), e)
  {
    RunSplits(hash, s, es, [e]);
    assert [e][1..] == [];
    assert Run(hash, Apply(hash, Run(hash, s, es), e), []) == Apply(hash, Run(hash, s, es), e);
  }

  /** One more good answer to a worker that so far only read. */
  lemma ReadMore(hash: Hash, s: State, w: nat, es: seq<Event>, k: Worker) returns (longer: seq<Event>)
    requires w < |s.workers| && Plain(es) && Run(hash, s, es) == Move(s, w, k)
    requires k.pc in {ReadHalt, ReadStrategy, ReadLoss, ReadLimits, ReadOpen, ReadPortfolioLoss, Build, ReadMeta}
    ensures Plain(longer) && Run(hash, s, longer) == Move(s, w, StepCheck(s, k, SMOOTH))
  {
    var e := Step(w, SMOOTH);
    longer := es + [e];
    RunSnoc(hash, s, es, e);
    var s1 := Move(s, w, k);
    assert Apply(hash, s1, e) == Move(s1, w, StepCheck(s1, k, SMOOTH));
    assert StepCheck(s1, k, SMOOTH) == StepCheck(s, k, SMOOTH);
    assert Move(s1, w, StepCheck(s, k, SMOOTH)) == Move(s, w, StepCheck(s, k, SMOOTH));
  }

  /** The kill switch, the strategy and its losses. */
  lemma PastTheGate(hash: Hash, s: State, w: nat, cmd: Command) returns (es: seq<Event>)
    requires w < |s.workers| && s.workers[w].pc == Idle && Unhindered(s, cmd)
    ensures Plain(es)
    ensures Run(hash, s, es) == Move(s, w, s.workers[w].(
              pc := if s.wiring.system && s.wiring.stats then ReadLimits else Derive,
              cmd := cmd, strat := s.cfg.strategies[cmd.strategy]))
  {
    var k := s.workers[w].(pc := ReadHalt, cmd := cmd);
    es := [Take(w, cmd)];
    RunSnoc(hash, s, [], Take(w, cmd));
    assert [] + es == es;
    assert Run(hash, s, es) == Move(s, w, k);
    es := ReadMore(hash, s, w, es, k);
    es := ReadMore(hash, s, w, es, At(k, ReadStrategy));
    es := ReadMore(hash, s, w, es, k.(pc := ReadLoss, strat := s.cfg.strategies[cmd.strategy]));
  }

  lemma CapsLetPass(s: State, k: Worker, cmd: Command)
    requires Unhindered(s, cmd) && s.wiring.system && s.wiring.stats
    requires k.pc == ReadOpen && k.cmd == cmd && k.strat == s.cfg.strategies[cmd.strategy]
    requires k.limits == LimitsOf(s.cfg, UserOf(k.strat))
    ensures StepCheck(s, k, SMOOTH) == At(k, AfterOpen(k.limits))
  {
  }

  /** Good answers bring an unhindered command to the derivation of its identifier. */
  lemma PastTheChecks(hash: Hash, s: State, w: nat, cmd: Command) returns (es: seq<Event>)
    requires w < |s.workers| && s.workers[w].pc == Idle && Unhindered(s, cmd)
    ensures Plain(es) && Run(hash, s, es) == Move(s, w, Vetted(s, s.workers[w], cmd))
  {
    es := PastTheGate(hash, s, w, cmd);
    if s.wiring.system && s.wiring.stats {
      var strat := s.cfg.strategies[cmd.strategy];
      var lim := LimitsOf(s.cfg, UserOf(strat));
      var k := s.workers[w].(pc := ReadLimits, cmd := cmd, strat := strat);
      es := ReadMore(hash, s, w, es, k);
      k := k.(pc := AfterLimits(lim), limits := lim);
      if k.pc == ReadOpen {
        CapsLetPass(s, k, cmd);
        es := ReadMore(hash, s, w, es, k);
        k := At(k, AfterOpen(lim));
      }
      if k.pc == ReadPortfolioLoss {
        es := ReadMore(hash, s, w, es, k);
      }
    }
  }

  /** The state after this worker's own unique insert. */
  function Inserted(hash: Hash, s: State, w: nat): State
    requires w < |s.workers|
  {
    var k := s.workers[w];
    var oid, row := KeyedId(hash, k.cmd), FreshRow(k.cmd, k.strat);
    s.(workers := s.workers[w := k.(pc := Build, oid := oid)],
       log := s.log[oid := row],
       hist := s.hist.(inserted := s.hist.inserted[oid := row], commands := s.hist.commands[oid := k.cmd]))
  }

  lemma InsertsFresh(hash: Hash, s: State, w: nat) returns (es: seq<Event>)
    requires w < |s.workers| && s.workers[w].pc == Derive && s.workers[w].cmd.key != ""
    requires KeyedId(hash, s.workers[w].cmd) !in s.log
    ensures Plain(es) && Run(hash, s, es) == Inserted(hash, s, w)
  {
    var e := Step(w, SMOOTH);
    es := [e, e];
    RunSnoc(hash, s, [], e);
    RunSnoc(hash, s, [e], e);
    assert [] + [e] == [e] && [e] + [e] == es;
    var s1 := StepDerive(hash, s, w, SMOOTH);
    assert Apply(hash, s, e) == s1;
    assert s1.workers[w].oid == KeyedId(hash, s.workers[w].cmd);
    assert Apply(hash, s1, e) == StepInsert(s1, w, SMOOTH);
    assert StepInsert(s1, w, SMOOTH).workers == Inserted(hash, s, w).workers;
  }

  /** An inserted order is brought to the point of its call. */
  function Loaded(k: Worker): Worker {
    k.(pc := Place, qty := k.cmd.qty, price := k.cmd.price)
  }

  lemma ReachesTheCall(hash: Hash, s: State, w: nat) returns (es: seq<Event>)
    requires w < |s.workers| && s.workers[w].pc == Build
    ensures Plain(es) && Run(hash, s, es) == Move(s, w, Loaded(s.workers[w]))
  {
    var k := s.workers[w];
    assert Run(hash, s, []) == Move(s, w, k);
    es := ReadMore(hash, s, w, [], k);
    es := ReadMore(hash, s, w, es, At(k, ReadMeta));
  }

  /** An unhindered new command does reach the exchange, once, whatever is wired. */
  lemma UnhinderedIsPlaced(hash: Hash, s: State, w: nat, cmd: Command)
    returns (es: seq<Event>)
    requires w < |s.workers| && s.workers[w].pc == Idle && Unhindered(s, cmd) && KeyedId(hash, cmd) !in s.log
    ensures Plain(es)
    ensures Run(hash, s, es).hist.calls == s.hist.calls + [Call(KeyedId(hash, cmd), cmd, cmd.qty, cmd.price)]
  {
    var checks := PastTheChecks(hash, s, w, cmd);
    var s1 := Run(hash, s, checks);
    var insert := InsertsFresh(hash, s1, w);
    var s2 := Run(hash, s1, insert);
    var load := ReachesTheCall(hash, s2, w);
    var s3 := Run(hash, s2, load);
    RunSplits(hash, s, checks, insert);
    RunSplits(hash, s, checks + insert, load);
    var e := Step(w, SMOOTH);
    es := checks + insert + load + [e];
    RunSnoc(hash, s, checks + insert + load, e);
    assert Apply(hash, s3, e) == StepPlace(s3, w, SMOOTH);
  }

  /**
   The wiring condition of `HaltBoundsPlacements` is exact: without the system repository the switch
   is never read, and a halted engine whose workers are all idle places a fresh command.
   */
  lemma HaltNeedsTheSystemRepository(hash: Hash, s: State, w: nat, cmd: Command)
    returns (es: seq<Event>)
    requires !s.wiring.system && s.cfg.halted
    requires CountArmed(s.workers) == 0 && w < |s.workers| && s.workers[w].pc == Idle
    requires cmd.key != "" && cmd.strategy in s.cfg.strategies && PassesRiskGate(cmd, s.cfg.strategies[cmd.strategy])
    requires KeyedId(hash, cmd) !in s.log
    ensures Resume !in es
    ensures |Run(hash, s, es).hist.calls| - |s.hist.calls| > CountArmed(s.workers)
  {
    es := UnhinderedIsPlaced(hash, s, w, cmd);
  }

  /** What administrators set is what the next command meets: the strategy, its user's limits, and the switch. */
  lemma AdministrationTakesEffect(hash: Hash, s: State, w: nat, cmd: Command, strat: Strategy, lim: Limits)
    returns (es: seq<Event>)
    requires w < |s.workers| && s.workers[w].pc == Idle && cmd.key != "" && KeyedId(hash, cmd) !in s.log
    requires PassesRiskGate(cmd, strat)
    requires FitsCaps(cmd, lim, Booked(OpenNotional, UserOf(strat), s.log), Booked(OpenPositions, UserOf(strat), s.log))
    ensures var orders := [Halt, SetStrategy(cmd.strategy, strat), SetLimits(UserOf(strat), lim), Resume];
            && Run(hash, s, [Halt]).cfg.halted
            && Plain(es)
            && |Run(hash, s, orders + es).hist.calls| == |s.hist.calls| + 1
  {
    var orders := [Halt, SetStrategy(cmd.strategy, strat), SetLimits(UserOf(strat), lim), Resume];
    var cfg := Config(false, s.cfg.strategies[cmd.strategy := strat], s.cfg.limits[UserOf(strat) := lim]);
    var s4 := s.(cfg := cfg);
    RunSnoc(hash, s, [], Halt);
    RunSnoc(hash, s, [Halt], orders[1]);
    RunSnoc(hash, s, [Halt, orders[1]], orders[2]);
    RunSnoc(hash, s, [Halt, orders[1], orders[2]], Resume);
    assert [] + [Halt] == [Halt] && [Halt] + [orders[1]] == [Halt, orders[1]];
    assert [Halt, orders[1]] + [orders[2]] == [Halt, orders[1], orders[2]];
    assert [Halt, orders[1], orders[2]] + [Resume] == orders;
    assert Run(hash, s, orders) == s4;
    es := UnhinderedIsPlaced(hash, s4, w, cmd);
    RunSplits(hash, s, orders, es);
  }

  // ---- All workers at once ---------------------------------------------------------------------------

  /** One command for each worker, all idle, each unhindered, and no two with the same identifier. */
  ghost predicate Muster(hash: Hash, s: State, cmds: seq<Command>) {
    && |cmds| == |s.workers|
    && (forall w :: 0 <= w < |cmds| ==> s.workers[w].pc == Idle && Unhindered(s, cmds[w]))
    && (forall w :: 0 <= w < |cmds| ==> KeyedId(hash, cmds[w]) !in s.log)
    && (forall v, w :: 0 <= v < w < |cmds| ==> KeyedId(hash, cmds[v]) != KeyedId(hash, cmds[w]))
  }

  /** The first `n` workers are past all checks, and nothing else has changed. */
  ghost predicate Checked(s: State, cmds: seq<Command>, n: nat, r: State)
    requires n <= |cmds| == |s.workers|
  {
    && r == s.(workers := r.workers) && |r.workers| == |s.workers|
    && (forall w :: 0 <= w < n ==> Unhindered(s, cmds[w]) && r.workers[w] == Vetted(s, s.workers[w], cmds[w]))
    && (forall w :: n <= w < |s.workers| ==> r.workers[w] == s.workers[w])
  }

  lemma SameConditions(s: State, r: State, cmd: Command)
    requires Unhindered(s, cmd) && r == s.(workers := r.workers)
    ensures Unhindered(r, cmd) && forall k :: Vetted(r, k, cmd) == Vetted(s, k, cmd)
  {
  }

  lemma {:induction false} AllChecked(hash: Hash, s: State, cmds: seq<Command>, n: nat) returns (es: seq<Event>)
    requires Muster(hash, s, cmds) && n <= |cmds|
    ensures Plain(es) && Checked(s, cmds, n, Run(hash, s, es))
  {
    es := [];
    if n > 0 {
      var w := n - 1;
      es := AllChecked(hash, s, cmds, w);
      var r := Run(hash, s, es);
      SameConditions(s, r, cmds[w]);
      var more := PastTheChecks(hash, r, w, cmds[w]);
      RunSplits(hash, s, es, more);
      es := es + more;
    }
  }

  /** Every order books `unit` for the user. */
  predicate Books(g: Gauge, user: string, unit: real, k: Worker) {
    RowWeight(g, user, FreshRow(k.cmd, k.strat)) == unit
  }

  /** All workers stand before the derivation with distinct new identifiers. */
  ghost predicate Ready(hash: Hash, s: State, g: Gauge, user: string, unit: real) {
    && (forall w :: 0 <= w < |s.workers| ==> s.workers[w].pc == Derive && s.workers[w].cmd.key != ""
                                             && KeyedId(hash, s.workers[w].cmd) !in s.log
                                             && Books(g, user, unit, s.workers[w]))
    && (forall v, w :: 0 <= v < w < |s.workers| ==>
          KeyedId(hash, s.workers[v].cmd) != KeyedId(hash, s.workers[w].cmd))
  }

  /** The first `n` of them have inserted their rows. */
  ghost predicate Filed(hash: Hash, s: State, n: nat, r: State, g: Gauge, user: string, unit: real) {
    && |r.workers| == |s.workers| && r.cfg == s.cfg && r.wiring == s.wiring
    && r.hist.calls == s.hist.calls && r.hist.finals == s.hist.finals && r.hist.foreign == s.hist.foreign
    && (forall w :: 0 <= w < n && w < |s.workers| ==>
          r.workers[w] == s.workers[w].(pc := Build, oid := KeyedId(hash, s.workers[w].cmd)))
    && (forall w :: n <= w < |s.workers| ==>
          r.workers[w] == s.workers[w] && KeyedId(hash, s.workers[w].cmd) !in r.log)
    && Booked(g, user, r.log) == Booked(g, user, s.log) + Times(n, unit)
  }

  lemma InsertBooks(hash: Hash, s: State, w: nat, g: Gauge, user: string)
    requires w < |s.workers| && KeyedId(hash, s.workers[w].cmd) !in s.log
    ensures var k := s.workers[w];
            Booked(g, user, Inserted(hash, s, w).log)
            == Booked(g, user, s.log) + RowWeight(g, user, FreshRow(k.cmd, k.strat))
  {
    var k := s.workers[w];
    OrderCaps.BookedUpdate(g, user, s.log, KeyedId(hash, k.cmd), FreshRow(k.cmd, k.strat));
  }

  lemma OneMoreFiled(hash: Hash, s: State, w: nat, r: State, g: Gauge, user: string, unit: real)
    requires Ready(hash, s, g, user, unit) && w < |s.workers| && Filed(hash, s, w, r, g, user, unit)
    ensures Filed(hash, s, w + 1, Inserted(hash, r, w), g, user, unit)
  {
    InsertBooks(hash, r, w, g, user);
    assert Books(g, user, unit, s.workers[w]);
    var r' := Inserted(hash, r, w);
    forall v | w < v < |s.workers| ensures r'.workers[v] == s.workers[v] && KeyedId(hash, s.workers[v].cmd) !in r'.log {
      assert KeyedId(hash, s.workers[w].cmd) != KeyedId(hash, s.workers[v].cmd);
    }
  }

  lemma {:induction false} AllInserted(hash: Hash, s: State, n: nat, g: Gauge, user: string, unit: real)
    returns (es: seq<Event>)
    requires Ready(hash, s, g, user, unit) && n <= |s.workers|
    ensures Plain(es) && Filed(hash, s, n, Run(hash, s, es), g, user, unit)
  {
    es := [];
    if n > 0 {
      var w := n - 1;
      es := AllInserted(hash, s, w, g, user, unit);
      var r := Run(hash, s, es);
      var more := InsertsFresh(hash, r, w);
      OneMoreFiled(hash, s, w, r, g, user, unit);
      RunSplits(hash, s, es, more);
      es := es + more;
    }
  }

  /** The first `n` workers stand before their call. */
  predicate LoadedUpTo(s: State, n: nat, r: State) {
    && r == s.(workers := r.workers) && |r.workers| == |s.workers|
    && (forall w :: 0 <= w < n && w < |s.workers| ==> r.workers[w] == Loaded(s.workers[w]))
    && (forall w :: n <= w < |s.workers| ==> r.workers[w] == s.workers[w])
  }

  lemma {:induction false} AllLoaded(hash: Hash, s: State, n: nat) returns (es: seq<Event>)
    requires n <= |s.workers| && forall k <- s.workers :: k.pc == Build
    ensures Plain(es) && LoadedUpTo(s, n, Run(hash, s, es))
  {
    es := [];
    if n > 0 {
      var w := n - 1;
      es := AllLoaded(hash, s, w);
      var r := Run(hash, s, es);
      assert r.workers[w] == s.workers[w];
      var more := ReachesTheCall(hash, r, w);
      RunSplits(hash, s, es, more);
      es := es + more;
    }
  }

  /** From idle workers to rows inserted by all of them. */
  lemma AllFile(hash: Hash, s: State, cmds: seq<Command>, g: Gauge, user: string, unit: real)
    returns (es: seq<Event>, r: State)
    requires Muster(hash, s, cmds)
    requires forall w :: 0 <= w < |cmds| ==>
               RowWeight(g, user, FreshRow(cmds[w], s.cfg.strategies[cmds[w].strategy])) == unit
    ensures Plain(es) && r == Run(hash, s, es)
    ensures |r.workers| == |s.workers| && r.cfg == s.cfg && r.wiring == s.wiring
    ensures r.hist.calls == s.hist.calls && r.hist.finals == s.hist.finals && r.hist.foreign == s.hist.foreign
    ensures forall k <- r.workers :: k.pc == Build
    ensures Booked(g, user, r.log) == Booked(g, user, s.log) + Times(|s.workers|, unit)
  {
    var checks := AllChecked(hash, s, cmds, |cmds|);
    var s1 := Run(hash, s, checks);
    var inserts := AllInserted(hash, s1, |cmds|, g, user, unit);
    RunSplits(hash, s, checks, inserts);
    es := checks + inserts;
    r := Run(hash, s1, inserts);
  }

  // ---- The bounds are reached --------------------------------------------------------------------------

  /** The same step taken by workers `w`, `w + 1`, and so on. */
  function Volley(w: nat, n: nat, r: Reply): seq<Event>
    requires w <= n
    decreases n - w
  {
    if w == n then [] else [Step(w, r)] + Volley(w + 1, n, r)
  }

  lemma {:induction false} AllCall(hash: Hash, s: State, w: nat, r: Reply)
    requires w <= |s.workers|
    requires forall v :: w <= v < |s.workers| ==> s.workers[v].pc == Place
    ensures Resume !in Volley(w, |s.workers|, r)
    ensures |Run(hash, s, Volley(w, |s.workers|, r)).hist.calls| == |s.hist.calls| + |s.workers| - w
    decreases |s.workers| - w
  {
    if w < |s.workers| {
      var s' := Apply(hash, s, Step(w, r));
      StepMovesOne(hash, s, w, r);
      assert |s'.hist.calls| == |s.hist.calls| + 1;
      AllCall(hash, s', w + 1, r);
      assert Volley(w, |s.workers|, r)[1..] == Volley(w + 1, |s.workers|, r);
    }
  }

  /**
   The halt bound is reached, whatever is wired: from idle workers with one unhindered command each, a run
   without halt or resume leads to a state in which, once a halt is committed, every worker still places an order.
   */
  lemma HaltBoundIsTight(hash: Hash, s: State, cmds: seq<Command>) returns (before: seq<Event>, after: seq<Event>)
    requires Muster(hash, s, cmds)
    ensures Plain(before) && Resume !in after
    ensures var halted := Run(hash, s, before + [Halt]);
            && halted.cfg.halted && halted.wiring == s.wiring && halted.hist.calls == s.hist.calls
            && |Run(hash, halted, after).hist.calls| - |halted.hist.calls| == |s.workers|
  {
    var filing, r := AllFile(hash, s, cmds, OpenNotional, "", 0.0);
    var loading := AllLoaded(hash, r, |r.workers|);
    RunSplits(hash, s, filing, loading);
    before := filing + loading;
    RunSnoc(hash, s, before, Halt);
    var halted := Run(hash, s, before + [Halt]);
    after := Volley(0, |halted.workers|, SMOOTH);
    AllCall(hash, halted, 0, SMOOTH);
  }

  /**
   The cap bound is reached in the store itself. When one order of the largest size just fits, workers that
   all query before any of them inserts all pass, and what is then booked is the cap and one order for each
   further worker; no row was written to after its insert.
   */
  lemma OvershootIsReached(hash: Hash, s: State, cmds: seq<Command>, g: Gauge, user: string, top: real)
    returns (es: seq<Event>)
    requires Muster(hash, s, cmds) && |s.workers| > 0
    requires forall w :: 0 <= w < |cmds| ==>
               RowWeight(g, user, FreshRow(cmds[w], s.cfg.strategies[cmds[w].strategy])) == OrderCaps.Unit(g, top)
    requires Booked(g, user, s.log) == OrderCaps.Cap(g, LimitsOf(s.cfg, user)) - OrderCaps.Unit(g, top)
    ensures Plain(es)
    ensures var r := Run(hash, s, es);
            && r.hist.finals == s.hist.finals && r.hist.foreign == s.hist.foreign
            && Booked(g, user, r.log) == OrderCaps.CapBound(s, g, user, top)
            && (|s.workers| > 1 && OrderCaps.Unit(g, top) > 0.0 ==>
                  Booked(g, user, r.log) > OrderCaps.Cap(g, LimitsOf(s.cfg, user)))
  {
    var r;
    es, r := AllFile(hash, s, cmds, g, user, OrderCaps.Unit(g, top));
    if |s.workers| > 1 && OrderCaps.Unit(g, top) > 0.0 {
      TimesNonNegative(|s.workers| - 2, OrderCaps.Unit(g, top));
    }
  }

  lemma FreshWeight(cmd: Command, strat: Strategy)
    ensures RowWeight(OpenNotional, UserOf(strat), FreshRow(cmd, strat)) == cmd.qty * cmd.price
  {
    assert cmd.qty - 0.0 == cmd.qty;
  }

  /** One unhindered command is inserted, and booked at its own price. */
  lemma OneFiled(hash: Hash, s: State, w: nat, cmd: Command) returns (es: seq<Event>, r: State)
    requires w < |s.workers| && s.workers[w].pc == Idle && Unhindered(s, cmd) && KeyedId(hash, cmd) !in s.log
    ensures Plain(es) && r == Run(hash, s, es)
    ensures r.hist.finals == s.hist.finals && r.hist.foreign == s.hist.foreign
    ensures var strat := s.cfg.strategies[cmd.strategy];
            Booked(OpenNotional, UserOf(strat), r.log)
            == Booked(OpenNotional, UserOf(strat), s.log) + RowWeight(OpenNotional, UserOf(strat), FreshRow(cmd, strat))
  {
    var checks := PastTheChecks(hash, s, w, cmd);
    var s1 := Run(hash, s, checks);
    assert s1 == Move(s, w, Vetted(s, s.workers[w], cmd));
    var insert := InsertsFresh(hash, s1, w);
    RunSplits(hash, s, checks, insert);
    InsertBooks(hash, s1, w, OpenNotional, UserOf(s.cfg.strategies[cmd.strategy]));
    es, r := checks + insert, Run(hash, s1, insert);
  }

  lemma PriceDecides(cmd: Command)
    requires cmd.qty > 0.0
    ensures cmd.qty * cmd.price <= Notional(cmd) <==>
            cmd.price <= if cmd.markPrice == 0.0 then cmd.price else cmd.markPrice
  {
    OrderCaps.ProductSign(cmd.qty, cmd.price - Mark(cmd));
    assert cmd.qty * (cmd.price - Mark(cmd)) == cmd.qty * cmd.price - Notional(cmd);
  }

  /**
   One command of one worker against a cap that leaves exactly the room it is checked at: the check passes and
   the cap survives the insert exactly if the limit price is at most the price that the order was checked at.
   No status is written at all.
   */
  lemma PriceAboveMarkOvershoots(hash: Hash, s: State, w: nat, cmd: Command) returns (es: seq<Event>, r: State)
    requires w < |s.workers| && s.workers[w].pc == Idle && Unhindered(s, cmd) && KeyedId(hash, cmd) !in s.log
    requires cmd.qty > 0.0
    requires var user := UserOf(s.cfg.strategies[cmd.strategy]);
             Booked(OpenNotional, user, s.log) + Notional(cmd) == LimitsOf(s.cfg, user).maxOpenNotionalUsd
    ensures Plain(es) && r == Run(hash, s, es)
    ensures r.hist.finals == s.hist.finals && r.hist.foreign == s.hist.foreign
    ensures var user := UserOf(s.cfg.strategies[cmd.strategy]);
            Booked(OpenNotional, user, r.log) <= LimitsOf(s.cfg, user).maxOpenNotionalUsd <==>
            cmd.markPrice == 0.0 || cmd.price <= cmd.markPrice
  {
    es, r := OneFiled(hash, s, w, cmd);
    FreshWeight(cmd, s.cfg.strategies[cmd.strategy]);
    PriceDecides(cmd);
  }
}
