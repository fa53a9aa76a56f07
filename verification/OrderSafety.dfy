/**
 Safety of the order engine over every run: idempotent placement, the row written before the call,
 the outcome of every inserted order, and the bound on placements after a halt.
 */
module OrderSafety {
  import opened Prelude
  import opened OrderTypes
  import opened OrderEngine
  import ClientOrderId

  // ---- The inductive invariant -----------------------------------------------------------------

  /** The worker's own insert succeeded and its final write is still to come. */
  predicate Holding(k: Worker) {
    k.pc == Build || k.pc == ReadMeta || k.pc == Place || k.pc == Record || k.pc == Reject
  }

  predicate Unsent(k: Worker) {
    k.pc == Build || k.pc == ReadMeta || k.pc == Place
  }

  /** Every holder has its row, and no two workers hold the same order. */
  predicate Ownership(s: State) {
    && (forall w :: 0 <= w < |s.workers| && Holding(s.workers[w]) ==> s.workers[w].oid in s.log)
    && (forall v, w :: 0 <= v < w < |s.workers| && Holding(s.workers[v]) && Holding(s.workers[w])
          ==> s.workers[v].oid != s.workers[w].oid)
  }

  predicate CallsDistinct(h: History) {
    forall i, j :: 0 <= i < j < |h.calls| ==> h.calls[i].oid != h.calls[j].oid
  }

  predicate Uncalled(h: History, oid: OrderId) {
    forall i :: 0 <= i < |h.calls| ==> h.calls[i].oid != oid
  }

  /** No order is called twice, every called order has a row, and a worker about to call is the first to do so. */
  predicate Sends(s: State) {
    && CallsDistinct(s.hist)
    && (forall i :: 0 <= i < |s.hist.calls| ==> s.hist.calls[i].oid in s.log)
    && (forall w :: 0 <= w < |s.workers| && Unsent(s.workers[w]) ==> Uncalled(s.hist, s.workers[w].oid))
  }

  /** The engine's final write is the acknowledged result when there was one, and a rejection otherwise. */
  predicate Settlement(s: State) {
    && s.hist.inserted.Keys == s.log.Keys
    && s.hist.finals.Keys <= s.log.Keys
    && (forall id <- s.hist.finals ::
          s.hist.finals[id] == if id in s.hist.acks then s.hist.acks[id] else REJECTION)
    && (forall id <- s.hist.acks :: !Uncalled(s.hist, id))
    && (forall w :: 0 <= w < |s.workers| && Holding(s.workers[w]) ==>
          && s.workers[w].oid !in s.hist.finals
          && (s.workers[w].oid in s.hist.acks <==> s.workers[w].pc == Record)
          && (s.workers[w].pc == Record ==> s.hist.acks[s.workers[w].oid] == s.workers[w].fill))
  }

  /** An order nobody else has touched shows exactly its insert and the engine's final write. */
  predicate Faithful(s: State) {
    && s.hist.inserted.Keys == s.log.Keys
    && forall id <- s.log :: id !in s.hist.foreign ==>
         s.log[id] == if id in s.hist.finals then Patch(s.hist.inserted[id], s.hist.finals[id]) else s.hist.inserted[id]
  }

  /** The identifier of a command with a producer key depends on the command alone. */
  function KeyedId(hash: Hash, cmd: Command): OrderId {
    hash(ClientOrderId.CommandPreImage(cmd, 0, ""))
  }

  predicate Derived(k: Worker) {
    k.pc == Insert || Holding(k)
  }

  ghost predicate Keyed(hash: Hash, s: State) {
    && (forall w :: 0 <= w < |s.workers| && Derived(s.workers[w]) && s.workers[w].cmd.key != ""
          ==> s.workers[w].oid == KeyedId(hash, s.workers[w].cmd))
    && (forall i :: 0 <= i < |s.hist.calls| && s.hist.calls[i].cmd.key != ""
          ==> s.hist.calls[i].oid == KeyedId(hash, s.hist.calls[i].cmd))
  }

  ghost predicate Inv(hash: Hash, s: State) {
    Ownership(s) && Sends(s) && Settlement(s) && Faithful(s) && Keyed(hash, s)
  }

  // ---- Every step keeps it -----------------------------------------------------------------------

  /** A read keeps the order and the command, never acknowledges, and rejects only before the call. */
  lemma CheckFacts(s: State, k: Worker, r: Reply)
    ensures var k' := StepCheck(s, k, r);
            && k'.oid == k.oid
            && k'.cmd == k.cmd
            && (k.pc == Build || k.pc == ReadMeta ==> Holding(k') && k'.pc != Record)
            && (Unsent(k') && k' != k ==> Unsent(k))
            && (Holding(k') && k' != k ==> Unsent(k))
            && (k'.pc == Record || k'.pc == Insert ==> k' == k)
  {
  }

  lemma CheckKeeps(hash: Hash, s: State, w: nat, r: Reply)
    requires Inv(hash, s) && w < |s.workers|
    ensures Inv(hash, Move(s, w, StepCheck(s, s.workers[w], r)))
  {
    CheckFacts(s, s.workers[w], r);
  }

  lemma DeriveKeeps(hash: Hash, s: State, w: nat, r: Reply)
    requires Inv(hash, s) && w < |s.workers| && s.workers[w].pc == Derive
    ensures Inv(hash, StepDerive(hash, s, w, r))
  {
    var k := s.workers[w];
    if k.cmd.key != "" {
      assert ClientOrderId.CommandPreImage(k.cmd, s.nonce, r.stamp) == ClientOrderId.CommandPreImage(k.cmd, 0, "");
    }
  }

  lemma InsertKeepsSends(s: State, w: nat, r: Reply)
    requires Ownership(s) && Sends(s) && w < |s.workers| && s.workers[w].pc == Insert
    ensures Ownership(StepInsert(s, w, r)) && Sends(StepInsert(s, w, r))
  {
  }

  lemma InsertKeepsSettlement(s: State, w: nat, r: Reply)
    requires Ownership(s) && Sends(s) && Settlement(s) && Faithful(s)
    requires w < |s.workers| && s.workers[w].pc == Insert
    ensures Settlement(StepInsert(s, w, r)) && Faithful(StepInsert(s, w, r))
  {
    assert forall id <- s.hist.acks :: id in s.log;
  }

  lemma InsertKeeps(hash: Hash, s: State, w: nat, r: Reply)
    requires Inv(hash, s) && w < |s.workers| && s.workers[w].pc == Insert
    ensures Inv(hash, StepInsert(s, w, r))
  {
    InsertKeepsSends(s, w, r);
    InsertKeepsSettlement(s, w, r);
  }

  lemma PlaceKeepsSends(s: State, w: nat, r: Reply)
    requires Ownership(s) && Sends(s) && w < |s.workers| && s.workers[w].pc == Place
    ensures Ownership(StepPlace(s, w, r)) && Sends(StepPlace(s, w, r))
  {
  }

  lemma CallsKeepCalled(h: History, h': History, id: OrderId)
    requires h.calls <= h'.calls && !Uncalled(h, id)
    ensures !Uncalled(h', id)
  {
    var i :| 0 <= i < |h.calls| && h.calls[i].oid == id;
    assert h'.calls[i].oid == id;
  }

  lemma PlaceKeepsSettlement(s: State, w: nat, r: Reply)
    requires Ownership(s) && Settlement(s) && Faithful(s)
    requires w < |s.workers| && s.workers[w].pc == Place
    ensures Settlement(StepPlace(s, w, r)) && Faithful(StepPlace(s, w, r))
  {
    var h, h' := s.hist, StepPlace(s, w, r).hist;
    assert h'.calls[|h.calls|].oid == s.workers[w].oid;
    forall id <- h.acks ensures !Uncalled(h', id) {
      CallsKeepCalled(h, h', id);
    }
  }

  lemma PlaceKeeps(hash: Hash, s: State, w: nat, r: Reply)
    requires Inv(hash, s) && w < |s.workers| && s.workers[w].pc == Place
    ensures Inv(hash, StepPlace(s, w, r))
  {
    PlaceKeepsSends(s, w, r);
    PlaceKeepsSettlement(s, w, r);
  }

  lemma FinishKeepsSends(s: State, w: nat, f: Fill, outcome: Outcome)
    requires Ownership(s) && Sends(s) && w < |s.workers|
    ensures Ownership(StepFinish(s, w, f, outcome)) && Sends(StepFinish(s, w, f, outcome))
  {
  }

  lemma FinishKeepsSettlement(s: State, w: nat, outcome: Outcome)
    requires Ownership(s) && Settlement(s)
    requires w < |s.workers| && (s.workers[w].pc == Record || s.workers[w].pc == Reject)
    ensures Settlement(StepFinish(s, w, FinalFill(s.workers[w]), outcome))
  {
  }

  lemma FinishKeepsFaithful(s: State, w: nat, outcome: Outcome)
    requires Settlement(s) && Faithful(s)
    requires w < |s.workers| && (s.workers[w].pc == Record || s.workers[w].pc == Reject)
    ensures Faithful(StepFinish(s, w, FinalFill(s.workers[w]), outcome))
  {
  }

  lemma FinishKeeps(hash: Hash, s: State, w: nat, r: Reply)
    requires Inv(hash, s) && w < |s.workers|
    requires s.workers[w].pc == Record || s.workers[w].pc == Reject
    ensures Inv(hash, StepFinish(s, w, FinalFill(s.workers[w]), r.outcome))
  {
    FinishKeepsSends(s, w, FinalFill(s.workers[w]), r.outcome);
    FinishKeepsSettlement(s, w, r.outcome);
    FinishKeepsFaithful(s, w, r.outcome);
  }

  lemma StepKeeps(hash: Hash, s: State, w: nat, r: Reply)
    requires Inv(hash, s) && w < |s.workers|
    ensures Inv(hash, StepWorker(hash, s, w, r))
  {
    match s.workers[w].pc
    case Derive => DeriveKeeps(hash, s, w, r);
    case Insert => InsertKeeps(hash, s, w, r);
    case Place => PlaceKeeps(hash, s, w, r);
    case Record => FinishKeeps(hash, s, w, r);
    case Reject => FinishKeeps(hash, s, w, r);
    case _ => CheckKeeps(hash, s, w, r);
  }

  lemma TakeKeeps(hash: Hash, s: State, w: nat, cmd: Command)
    requires Inv(hash, s)
    ensures Inv(hash, TakeCommand(s, w, cmd))
  {
  }

  lemma ForeignKeeps(hash: Hash, s: State, oid: OrderId, f: Fill)
    requires Inv(hash, s)
    ensures Inv(hash, ForeignWrite(s, oid, f))
  {
  }

  lemma ConfigKeeps(hash: Hash, s: State, cfg: Config)
    requires Inv(hash, s)
    ensures Inv(hash, s.(cfg := cfg))
  {
  }

  lemma ApplyKeeps(hash: Hash, s: State, e: Event)
    requires Inv(hash, s)
    ensures Inv(hash, Apply(hash, s, e))
  {
    match e
    case Take(w, cmd) => TakeKeeps(hash, s, w, cmd);
    case Step(w, r) => if w < |s.workers| { StepKeeps(hash, s, w, r); }
    case Write(oid, f) => ForeignKeeps(hash, s, oid, f);
    case _ => ConfigKeeps(hash, s, Apply(hash, s, e).cfg);
  }

  lemma {:induction false} RunKeeps(hash: Hash, s: State, es: seq<Event>)
    requires Inv(hash, s)
    ensures Inv(hash, Run(hash, s, es))
    decreases |es|
  {
    if es != [] {
      ApplyKeeps(hash, s, es[0]);
      RunKeeps(hash, Apply(hash, s, es[0]), es[1..]);
    }
  }

  // ---- Idempotent placement and the write-ahead row -------------------------------------------

  /** Whatever is delivered, re-sent or interleaved, no order identifier reaches an exchange twice. */
  lemma PlacedAtMostOnce(hash: Hash, s: State, es: seq<Event>)
    requires Initial(s)
    ensures CallsDistinct(Run(hash, s, es).hist)
  {
    RunKeeps(hash, s, es);
  }

  predicate SameIdentity(c: Command, c': Command) {
    c.strategy == c'.strategy && c.key == c'.key && c.symbol == c'.symbol && c.side == c'.side
  }

  lemma IdentityGivesId(hash: Hash, c: Command, c': Command)
    ensures c.key != "" && SameIdentity(c, c') ==> KeyedId(hash, c) == KeyedId(hash, c')
  {
  }

  /** The order of a call with a producer key is the hash of that command's four fields, and of nothing else. */
  lemma CallsUseTheirIdentity(hash: Hash, s: State, es: seq<Event>, i: nat)
    requires Initial(s) && i < |Run(hash, s, es).hist.calls|
    ensures var c := Run(hash, s, es).hist.calls[i];
            c.cmd.key != "" ==>
              c.oid == hash(c.cmd.strategy + "|" + c.cmd.key + "|" + c.cmd.symbol + "|" + c.cmd.side)
  {
    RunKeeps(hash, s, es);
  }

  /** A command that carries a producer key is placed at most once, however often it is delivered. */
  lemma PlacedOncePerCommand(hash: Hash, s: State, es: seq<Event>, i: nat, j: nat)
    requires Initial(s)
    requires i < j < |Run(hash, s, es).hist.calls|
    requires Run(hash, s, es).hist.calls[i].cmd.key != ""
    ensures !SameIdentity(Run(hash, s, es).hist.calls[i].cmd, Run(hash, s, es).hist.calls[j].cmd)
  {
    RunKeeps(hash, s, es);
    var calls := Run(hash, s, es).hist.calls;
    IdentityGivesId(hash, calls[i].cmd, calls[j].cmd);
  }

  lemma CallsGrowByOne(hash: Hash, s: State, e: Event)
    ensures var s' := Apply(hash, s, e);
            || s'.hist.calls == s.hist.calls
            || (&& e.Step? && e.w < |s.workers| && s.workers[e.w].pc == Place
                && |s'.hist.calls| == |s.hist.calls| + 1
                && s.hist.calls == s'.hist.calls[..|s.hist.calls|]
                && s'.hist.calls[|s.hist.calls|].oid == s.workers[e.w].oid)
  {
    if e.Step? && e.w < |s.workers| {
      var _ := s.workers[e.w].pc;
    }
  }

  /**
   At the moment an order is sent its row is already in the log, and shows the freshly inserted
   order unless some other writer has touched it.
   */
  lemma WrittenAhead(hash: Hash, s: State, es: seq<Event>, e: Event)
    requires Initial(s)
    ensures var before, after := Run(hash, s, es), Apply(hash, Run(hash, s, es), e);
            after.hist.calls != before.hist.calls ==>
              && |after.hist.calls| == |before.hist.calls| + 1
              && var oid := after.hist.calls[|before.hist.calls|].oid;
                 && oid in before.log
                 && oid in before.hist.inserted
                 && (oid !in before.hist.foreign ==> before.log[oid] == before.hist.inserted[oid])
  {
    RunKeeps(hash, s, es);
    CallsGrowByOne(hash, Run(hash, s, es), e);
  }

  // ---- Outcomes ---------------------------------------------------------------------------------

  /** The stores answer truly at this event: no insert is torn, and no final write is lost. */
  predicate Clean(s: State, e: Event) {
    e.Step? && e.w < |s.workers| ==>
      && (s.workers[e.w].pc == Insert ==> e.reply.outcome != Torn)
      && (s.workers[e.w].pc == Record || s.workers[e.w].pc == Reject ==> e.reply.outcome != Failed)
  }

  ghost predicate CleanRun(hash: Hash, s: State, es: seq<Event>)
    decreases |es|
  {
    es != [] ==> Clean(s, es[0]) && CleanRun(hash, Apply(hash, s, es[0]), es[1..])
  }

  predicate InFlight(s: State, oid: OrderId) {
    exists w :: 0 <= w < |s.workers| && Holding(s.workers[w]) && s.workers[w].oid == oid
  }

  /** Rejected without an acknowledged placement. */
  predicate RejectedOrder(s: State, oid: OrderId) {
    oid in s.hist.finals && oid !in s.hist.acks && s.hist.finals[oid] == REJECTION
  }

  /** Acknowledged by the exchange, called exactly once, and its result recorded. */
  predicate AcknowledgedOrder(s: State, oid: OrderId) {
    oid in s.hist.finals && oid in s.hist.acks && s.hist.finals[oid] == s.hist.acks[oid] && !Uncalled(s.hist, oid)
  }

  predicate AllAccountedFor(s: State) {
    forall id <- s.log :: id in s.hist.finals || InFlight(s, id)
  }

  lemma StepMovesOne(hash: Hash, s: State, w: nat, r: Reply)
    requires w < |s.workers|
    ensures |StepWorker(hash, s, w, r).workers| == |s.workers|
    ensures forall v :: 0 <= v < |s.workers| && v != w ==> StepWorker(hash, s, w, r).workers[v] == s.workers[v]
  {
  }

  /** What a step does to the log, the finals and the stepping worker's hold, in a clean run. */
  lemma StepAccounts(hash: Hash, s: State, w: nat, r: Reply)
    requires Ownership(s) && w < |s.workers| && Clean(s, Step(w, r))
    ensures var s', k, k' := StepWorker(hash, s, w, r), s.workers[w], StepWorker(hash, s, w, r).workers[w];
            && s.hist.finals.Keys <= s'.hist.finals.Keys
            && (s'.log.Keys == s.log.Keys || (s'.log.Keys == s.log.Keys + {k'.oid} && Holding(k')))
            && (Holding(k) ==> (Holding(k') && k'.oid == k.oid) || k.oid in s'.hist.finals)
  {
    CheckFacts(s, s.workers[w], r);
  }

  lemma StepKeepsAccounts(hash: Hash, s: State, w: nat, r: Reply)
    requires Ownership(s) && AllAccountedFor(s) && w < |s.workers| && Clean(s, Step(w, r))
    ensures AllAccountedFor(StepWorker(hash, s, w, r))
  {
    var s' := StepWorker(hash, s, w, r);
    StepMovesOne(hash, s, w, r);
    StepAccounts(hash, s, w, r);
    forall id <- s'.log ensures id in s'.hist.finals || InFlight(s', id) {
      if id !in s.log {
        assert Holding(s'.workers[w]) && s'.workers[w].oid == id;
      } else if id !in s.hist.finals {
        var v :| 0 <= v < |s.workers| && Holding(s.workers[v]) && s.workers[v].oid == id;
        assert v != w ==> s'.workers[v] == s.workers[v];
      }
    }
  }

  lemma TakeKeepsAccounts(s: State, w: nat, cmd: Command)
    requires AllAccountedFor(s)
    ensures AllAccountedFor(TakeCommand(s, w, cmd))
  {
    var s' := TakeCommand(s, w, cmd);
    forall id <- s'.log ensures id in s'.hist.finals || InFlight(s', id) {
      if id !in s.hist.finals {
        var v :| 0 <= v < |s.workers| && Holding(s.workers[v]) && s.workers[v].oid == id;
        assert s'.workers[v] == s.workers[v];
      }
    }
  }

  lemma SameWorkersKeepAccounts(s: State, s': State)
    requires AllAccountedFor(s)
    requires s'.workers == s.workers && s'.log.Keys == s.log.Keys && s'.hist.finals == s.hist.finals
    ensures AllAccountedFor(s')
  {
    forall id <- s'.log ensures id in s'.hist.finals || InFlight(s', id) {
      assert id in s.log;
      if InFlight(s, id) {
        var v :| 0 <= v < |s.workers| && Holding(s.workers[v]) && s.workers[v].oid == id;
        assert Holding(s'.workers[v]) && s'.workers[v].oid == id;
      }
    }
  }

  lemma ApplyKeepsAccounts(hash: Hash, s: State, e: Event)
    requires Ownership(s) && AllAccountedFor(s) && Clean(s, e)
    ensures AllAccountedFor(Apply(hash, s, e))
  {
    match e
    case Take(w, cmd) => TakeKeepsAccounts(s, w, cmd);
    case Step(w, r) => if w < |s.workers| { StepKeepsAccounts(hash, s, w, r); }
    case _ => SameWorkersKeepAccounts(s, Apply(hash, s, e));
  }

  lemma {:induction false} RunKeepsAccounts(hash: Hash, s: State, es: seq<Event>)
    requires Inv(hash, s) && AllAccountedFor(s) && CleanRun(hash, s, es)
    ensures AllAccountedFor(Run(hash, s, es))
    decreases |es|
  {
    if es != [] {
      ApplyKeeps(hash, s, es[0]);
      ApplyKeepsAccounts(hash, s, es[0]);
      RunKeepsAccounts(hash, Apply(hash, s, es[0]), es[1..]);
    }
  }

  /**
   When store writes succeed, every inserted order is in exactly one of three places: still with its
   worker, rejected with no acknowledged placement, or placed once with its result recorded. An
   order that was never inserted was never sent.
   */
  lemma OutcomesAreConserved(hash: Hash, s: State, es: seq<Event>)
    requires Initial(s) && CleanRun(hash, s, es)
    ensures var r := Run(hash, s, es);
            && (forall id <- r.log ::
                  && (InFlight(r, id) || RejectedOrder(r, id) || AcknowledgedOrder(r, id))
                  && !(InFlight(r, id) && RejectedOrder(r, id))
                  && !(InFlight(r, id) && AcknowledgedOrder(r, id))
                  && !(RejectedOrder(r, id) && AcknowledgedOrder(r, id)))
            && (forall id :: id !in r.log ==> Uncalled(r.hist, id) && id !in r.hist.acks)
  {
    RunKeeps(hash, s, es);
    RunKeepsAccounts(hash, s, es);
  }

  /** The row itself shows that outcome, until another writer touches it. */
  lemma RowShowsOutcome(hash: Hash, s: State, es: seq<Event>, id: OrderId)
    requires Initial(s) && id in Run(hash, s, es).log && id !in Run(hash, s, es).hist.foreign
    ensures var r := Run(hash, s, es);
            && id in r.hist.inserted
            && (RejectedOrder(r, id) ==> r.log[id] == r.hist.inserted[id].(status := Rejected))
            && (AcknowledgedOrder(r, id) ==> r.log[id] == Patch(r.hist.inserted[id], r.hist.acks[id]))
            && (InFlight(r, id) ==> r.log[id] == r.hist.inserted[id])
  {
    RunKeeps(hash, s, es);
  }

  // ---- The kill switch --------------------------------------------------------------------------

  /** Past the kill-switch read, and still able to reach the exchange. */
  predicate Armed(k: Worker) {
    k.pc != Idle && k.pc != ReadHalt && k.pc != Record && k.pc != Reject
  }

  function CountArmed(ws: seq<Worker>): (n: nat)
    ensures n <= |ws|
  {
    if ws == [] then 0 else (if Armed(ws[0]) then 1 else 0) + CountArmed(ws[1..])
  }

  lemma {:induction false} CountArmedUpdate(ws: seq<Worker>, w: nat, k: Worker)
    requires w < |ws|
    ensures CountArmed(ws[w := k]) == CountArmed(ws) - (if Armed(ws[w]) then 1 else 0) + (if Armed(k) then 1 else 0)
  {
    if w > 0 {
      CountArmedUpdate(ws[1..], w - 1, k);
      assert ws[w := k][1..] == ws[1..][w - 1 := k];
    } else {
      assert ws[w := k][1..] == ws[1..];
    }
  }

  /** While trading is halted, a step disarms its worker or keeps it as it was; a call always disarms. */
  lemma HaltedStep(hash: Hash, s: State, w: nat, r: Reply)
    requires w < |s.workers| && s.wiring.system && s.cfg.halted
    ensures var s' := StepWorker(hash, s, w, r);
            && s'.workers == s.workers[w := s'.workers[w]]
            && (Armed(s'.workers[w]) ==> Armed(s.workers[w]) && s'.hist.calls == s.hist.calls)
            && (s'.hist.calls != s.hist.calls ==>
                  Armed(s.workers[w]) && |s'.hist.calls| == |s.hist.calls| + 1)
  {
  }

  lemma StepKeepsConfig(hash: Hash, s: State, e: Event)
    requires !e.Halt? && !e.Resume? && !e.SetStrategy? && !e.SetLimits?
    ensures Apply(hash, s, e).cfg == s.cfg
  {
  }

  lemma HaltedApply(hash: Hash, s: State, e: Event)
    requires s.wiring.system && s.cfg.halted && e != Resume
    ensures var s' := Apply(hash, s, e);
            && s'.wiring.system && s'.cfg.halted
            && |s'.hist.calls| + CountArmed(s'.workers) <= |s.hist.calls| + CountArmed(s.workers)
  {
    ApplyKeepsShape(hash, s, e);
    var s' := Apply(hash, s, e);
    match e
    case Take(w, cmd) =>
      if w < |s.workers| {
        CountArmedUpdate(s.workers, w, s'.workers[w]);
      }
    case Step(w, r) =>
      if w < |s.workers| {
        HaltedStep(hash, s, w, r);
        CountArmedUpdate(s.workers, w, s'.workers[w]);
      }
    case _ =>
  }

  lemma {:induction false} HaltLedger(hash: Hash, s: State, es: seq<Event>)
    requires s.wiring.system && s.cfg.halted && Resume !in es
    ensures |Run(hash, s, es).hist.calls| + CountArmed(Run(hash, s, es).workers)
            <= |s.hist.calls| + CountArmed(s.workers)
    decreases |es|
  {
    if es != [] {
      HaltedApply(hash, s, es[0]);
      HaltLedger(hash, Apply(hash, s, es[0]), es[1..]);
    }
  }

  /**
   From the moment a halt is committed until the next resume, the number of further placements is at
   most the number of workers that had already read the switch, whatever is queued and whatever fails.
   */
  lemma HaltBoundsPlacements(hash: Hash, s: State, es: seq<Event>)
    requires s.wiring.system && s.cfg.halted && Resume !in es
    ensures |Run(hash, s, es).hist.calls| - |s.hist.calls| <= CountArmed(s.workers) <= |s.workers|
  {
    HaltLedger(hash, s, es);
  }
}
