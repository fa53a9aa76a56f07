/**
 What a refused duplicate means. With a hash free of collisions and fields free of bars, an insert of a command
 with a producer key is refused exactly if a command of the same identity was inserted before.
 */
module OrderIdentity {
  import opened OrderTypes
  import opened OrderEngine
  import opened OrderSafety
  import ClientOrderId

  ghost predicate Injective(hash: Hash) {
    forall a, b :: hash(a) == hash(b) ==> a == b
  }

  predicate PlainCommand(c: Command) {
    ClientOrderId.Plain(c.strategy) && ClientOrderId.Plain(c.symbol) && ClientOrderId.Plain(c.side)
  }

  /** The identifier was derived from this command, with its own key or with some nonce and time stamp. */
  ghost predicate DerivedFrom(hash: Hash, id: OrderId, c: Command) {
    exists nonce: nat, stamp :: id == hash(ClientOrderId.CommandPreImage(c, nonce, stamp))
  }

  ghost predicate Traced(hash: Hash, s: State) {
    && s.hist.commands.Keys == s.log.Keys
    && (forall id <- s.hist.commands ::
          PlainCommand(s.hist.commands[id]) && DerivedFrom(hash, id, s.hist.commands[id]))
    && (forall w :: 0 <= w < |s.workers| && s.workers[w].pc != Idle ==> PlainCommand(s.workers[w].cmd))
    && (forall w :: 0 <= w < |s.workers| && s.workers[w].pc == Insert ==>
          DerivedFrom(hash, s.workers[w].oid, s.workers[w].cmd))
  }

  predicate Admits(e: Event) {
    e.Take? ==> PlainCommand(e.cmd)
  }

  lemma WorkerMoves(hash: Hash, s: State, s': State, w: nat, k: Worker)
    requires Traced(hash, s) && w < |s.workers| && s'.workers == s.workers[w := k]
    requires s'.log.Keys == s.log.Keys && s'.hist.commands == s.hist.commands
    requires k.pc != Idle ==> PlainCommand(k.cmd)
    requires k.pc == Insert ==> DerivedFrom(hash, k.oid, k.cmd)
    ensures Traced(hash, s')
  {
  }

  lemma DeriveTraces(hash: Hash, s: State, w: nat, r: Reply)
    requires Traced(hash, s) && w < |s.workers| && s.workers[w].pc == Derive
    ensures Traced(hash, StepDerive(hash, s, w, r))
  {
    var k, s' := s.workers[w], StepDerive(hash, s, w, r);
    assert s'.workers[w].oid == hash(ClientOrderId.CommandPreImage(k.cmd, s'.nonce, r.stamp));
    WorkerMoves(hash, s, s', w, s'.workers[w]);
  }

  lemma InsertTraces(hash: Hash, s: State, w: nat, r: Reply)
    requires Traced(hash, s) && w < |s.workers| && s.workers[w].pc == Insert
    ensures Traced(hash, StepInsert(s, w, r))
  {
  }

  lemma StepTraces(hash: Hash, s: State, w: nat, r: Reply)
    requires Traced(hash, s) && w < |s.workers|
    ensures Traced(hash, StepWorker(hash, s, w, r))
  {
    var k, s' := s.workers[w], StepWorker(hash, s, w, r);
    match k.pc
    case Derive => DeriveTraces(hash, s, w, r);
    case Insert => InsertTraces(hash, s, w, r);
    case Idle => assert s'.workers == s.workers;
    case Place => WorkerMoves(hash, s, s', w, s'.workers[w]);
    case Record => WorkerMoves(hash, s, s', w, At(k, Idle));
    case Reject => WorkerMoves(hash, s, s', w, At(k, Idle));
    case _ =>
      CheckFacts(s, k, r);
      WorkerMoves(hash, s, s', w, StepCheck(s, k, r));
  }

  lemma ApplyTraces(hash: Hash, s: State, e: Event)
    requires Traced(hash, s) && Admits(e)
    ensures Traced(hash, Apply(hash, s, e))
  {
    match e
    case Step(w, r) => if w < |s.workers| { StepTraces(hash, s, w, r); }
    case Take(w, cmd) =>
      if w < |s.workers| && s.workers[w].pc == Idle {
        WorkerMoves(hash, s, TakeCommand(s, w, cmd), w, s.workers[w].(pc := ReadHalt, cmd := cmd));
      }
    case _ =>
  }

  lemma {:induction false} RunTraces(hash: Hash, s: State, es: seq<Event>)
    requires Traced(hash, s) && forall e <- es :: Admits(e)
    ensures Traced(hash, Run(hash, s, es))
    decreases |es|
  {
    if es != [] {
      assert es[0] in es;
      ApplyTraces(hash, s, es[0]);
      RunTraces(hash, Apply(hash, s, es[0]), es[1..]);
    }
  }

  /** The key could be one that the engine makes up: a number, a colon and anything. */
  ghost predicate LooksGenerated(key: string) {
    exists nonce: nat, stamp :: key == ClientOrderId.Decimal(nonce) + ":" + stamp
  }

  /** Two plain commands that derive the same identifier agree in strategy, symbol and side, and in the key used. */
  lemma SameIdSameFields(hash: Hash, id: OrderId, c: Command, c': Command)
    requires Injective(hash) && PlainCommand(c) && PlainCommand(c')
    requires DerivedFrom(hash, id, c) && DerivedFrom(hash, id, c')
    ensures c.strategy == c'.strategy && c.symbol == c'.symbol && c.side == c'.side
    ensures c.key != "" && !LooksGenerated(c.key) ==> c'.key == c.key
  {
    var n: nat, t :| id == hash(ClientOrderId.CommandPreImage(c, n, t));
    var n': nat, t' :| id == hash(ClientOrderId.CommandPreImage(c', n', t'));
    ClientOrderId.PreImageInjective(c.strategy, ClientOrderId.KeyOf(c, n, t), c.symbol, c.side,
                                    c'.strategy, ClientOrderId.KeyOf(c', n', t'), c'.symbol, c'.side);
  }

  /**
   A worker that is about to insert a command with a producer key is refused as a duplicate exactly if a command
   with the same strategy, key, symbol and side was inserted before: no other order can stand in its way.
   */
  lemma RefusedIffSameIdentity(hash: Hash, s: State, es: seq<Event>, w: nat)
    requires Initial(s) && Injective(hash) && forall e <- es :: Admits(e)
    requires var r := Run(hash, s, es);
             && w < |r.workers| && r.workers[w].pc == Insert
             && r.workers[w].cmd.key != "" && !LooksGenerated(r.workers[w].cmd.key)
    ensures var r := Run(hash, s, es);
            r.workers[w].oid in r.log <==>
            exists id <- r.hist.commands :: SameIdentity(r.hist.commands[id], r.workers[w].cmd)
  {
    assert Traced(hash, s);
    RunTraces(hash, s, es);
    RunKeeps(hash, s, es);
    var r := Run(hash, s, es);
    var k := r.workers[w];
    if k.oid in r.log {
      SameIdSameFields(hash, k.oid, k.cmd, r.hist.commands[k.oid]);
    }
    if id :| id in r.hist.commands && SameIdentity(r.hist.commands[id], k.cmd) {
      var c := r.hist.commands[id];
      var n: nat, t :| id == hash(ClientOrderId.CommandPreImage(c, n, t));
      assert k.oid == KeyedId(hash, k.cmd);
      assert ClientOrderId.CommandPreImage(c, n, t) == ClientOrderId.CommandPreImage(k.cmd, 0, "");
    }
  }

  // ---- Commands without a producer key -----------------------------------------------------------------

  /** The identifier was derived with one of the nonces drawn so far. */
  ghost predicate Drawn(hash: Hash, id: OrderId, c: Command, upto: nat) {
    c.key == "" && exists n: nat, stamp :: n <= upto && id == hash(ClientOrderId.CommandPreImage(c, n, stamp))
  }

  predicate Keyless(k: Worker) {
    k.pc == Insert && k.cmd.key == ""
  }

  ghost predicate DistinctKey(c: Command) {
    !LooksGenerated(c.key)
  }

  ghost predicate KnownKeys(hash: Hash, h: History, nonce: nat) {
    forall id <- h.commands ::
      DistinctKey(h.commands[id]) && (h.commands[id].key == "" ==> Drawn(hash, id, h.commands[id], nonce))
  }

  /** The identifier that a worker is about to insert without a key is drawn, and not taken. */
  ghost predicate Untaken(hash: Hash, s: State, k: Worker) {
    && (k.pc != Idle ==> DistinctKey(k.cmd))
    && (Keyless(k) ==> Drawn(hash, k.oid, k.cmd, s.nonce) && k.oid !in s.log)
  }

  predicate Apart(ws: seq<Worker>) {
    forall v, w :: 0 <= v < w < |ws| && Keyless(ws[v]) && Keyless(ws[w]) ==> ws[v].oid != ws[w].oid
  }

  ghost predicate Nonced(hash: Hash, s: State) {
    && KnownKeys(hash, s.hist, s.nonce)
    && (forall w :: 0 <= w < |s.workers| ==> Untaken(hash, s, s.workers[w]))
    && Apart(s.workers)
  }

  lemma KeyedIsNotDrawn(hash: Hash, id: OrderId, c: Command, c': Command)
    requires Injective(hash) && PlainCommand(c) && PlainCommand(c') && DistinctKey(c)
    requires DerivedFrom(hash, id, c) && DerivedFrom(hash, id, c') && c'.key == ""
    ensures c.key == ""
  {
    if c.key != "" {
      SameIdSameFields(hash, id, c, c');
    }
  }

  /** A nonce above all that were drawn gives an identifier that no command has. */
  lemma NextIsNew(hash: Hash, id: OrderId, c: Command, n: nat, stamp: string, id': OrderId, c': Command)
    requires Injective(hash) && PlainCommand(c) && PlainCommand(c') && DistinctKey(c')
    requires c.key == "" && id == hash(ClientOrderId.CommandPreImage(c, n + 1, stamp))
    requires DerivedFrom(hash, id', c') && (c'.key == "" ==> Drawn(hash, id', c', n))
    ensures id != id'
  {
    if id == id' {
      assert DerivedFrom(hash, id, c);
      KeyedIsNotDrawn(hash, id, c', c);
      var m: nat, t :| m <= n && id' == hash(ClientOrderId.CommandPreImage(c', m, t));
      ClientOrderId.NonceSeparates(c, n + 1, stamp, c', m, t);
    }
  }

  lemma DrawnGrows(hash: Hash, id: OrderId, c: Command, n: nat, m: nat)
    requires Drawn(hash, id, c, n) && n <= m
    ensures Drawn(hash, id, c, m)
  {
    var i: nat, stamp :| i <= n && id == hash(ClientOrderId.CommandPreImage(c, i, stamp));
    assert i <= m;
  }

  lemma KnownKeysGrow(hash: Hash, h: History, n: nat, m: nat)
    requires KnownKeys(hash, h, n) && n <= m
    ensures KnownKeys(hash, h, m)
  {
    forall id | id in h.commands && h.commands[id].key == "" ensures Drawn(hash, id, h.commands[id], m) {
      DrawnGrows(hash, id, h.commands[id], n, m);
    }
  }

  /** A freshly derived identifier without a key is taken by no row, and by no worker about to insert. */
  lemma DerivedIsNew(hash: Hash, s: State, c: Command, stamp: string, id: OrderId)
    requires Injective(hash) && Traced(hash, s) && Nonced(hash, s) && PlainCommand(c) && c.key == ""
    requires id == hash(ClientOrderId.CommandPreImage(c, s.nonce + 1, stamp))
    ensures id !in s.log && forall k <- s.workers :: Keyless(k) ==> k.oid != id
  {
    if id in s.log {
      NextIsNew(hash, id, c, s.nonce, stamp, id, s.hist.commands[id]);
    }
    forall w | 0 <= w < |s.workers| && Keyless(s.workers[w]) ensures s.workers[w].oid != id {
      assert Untaken(hash, s, s.workers[w]);
      NextIsNew(hash, id, c, s.nonce, stamp, s.workers[w].oid, s.workers[w].cmd);
    }
  }

  lemma DeriveNonced(hash: Hash, s: State, w: nat, r: Reply)
    requires Injective(hash) && Traced(hash, s) && Nonced(hash, s) && w < |s.workers| && s.workers[w].pc == Derive
    requires s.nonce + 1 < ClientOrderId.NONCE_WRAP
    ensures Nonced(hash, StepDerive(hash, s, w, r))
  {
    var k, s' := s.workers[w], StepDerive(hash, s, w, r);
    var k' := s'.workers[w];
    KnownKeysGrow(hash, s.hist, s.nonce, s'.nonce);
    assert Untaken(hash, s, k);
    if k.cmd.key == "" {
      assert k'.oid == hash(ClientOrderId.CommandPreImage(k.cmd, s.nonce + 1, r.stamp));
      DerivedIsNew(hash, s, k.cmd, r.stamp, k'.oid);
      assert Drawn(hash, k'.oid, k.cmd, s'.nonce);
    }
    forall v | 0 <= v < |s'.workers| ensures Untaken(hash, s', s'.workers[v]) {
      assert Untaken(hash, s, s.workers[v]);
      if v != w && Keyless(s.workers[v]) {
        DrawnGrows(hash, s.workers[v].oid, s.workers[v].cmd, s.nonce, s'.nonce);
      }
    }
    assert Keyless(k') ==> forall v :: 0 <= v < |s.workers| && Keyless(s.workers[v]) ==> s.workers[v].oid != k'.oid;
  }

  lemma InsertNonced(hash: Hash, s: State, w: nat, r: Reply)
    requires Injective(hash) && Traced(hash, s) && Nonced(hash, s) && w < |s.workers| && s.workers[w].pc == Insert
    ensures Nonced(hash, StepInsert(s, w, r))
  {
    var k, s' := s.workers[w], StepInsert(s, w, r);
    assert Untaken(hash, s, k);
    forall v | 0 <= v < |s'.workers| ensures Untaken(hash, s', s'.workers[v]) {
      assert Untaken(hash, s, s.workers[v]);
      if v != w && Keyless(s.workers[v]) && s.workers[v].oid == k.oid {
        KeyedIsNotDrawn(hash, k.oid, k.cmd, s.workers[v].cmd);
      }
    }
  }

  lemma MoveNonced(hash: Hash, s: State, s': State, w: nat, k: Worker)
    requires Nonced(hash, s) && w < |s.workers| && s'.workers == s.workers[w := k]
    requires s'.log.Keys == s.log.Keys && s'.hist.commands == s.hist.commands && s'.nonce == s.nonce
    requires k.pc != Idle ==> DistinctKey(k.cmd)
    requires k.pc == Insert ==> k == s.workers[w]
    ensures Nonced(hash, s')
  {
    forall v | 0 <= v < |s'.workers| ensures Untaken(hash, s', s'.workers[v]) {
      assert Untaken(hash, s, s.workers[v]);
    }
  }

  lemma CheckNonced(hash: Hash, s: State, w: nat, r: Reply)
    requires Nonced(hash, s) && w < |s.workers| && s.workers[w].pc != Insert
    ensures Nonced(hash, Move(s, w, StepCheck(s, s.workers[w], r)))
  {
    var k := s.workers[w];
    assert Untaken(hash, s, k);
    CheckFacts(s, k, r);
    MoveNonced(hash, s, Move(s, w, StepCheck(s, k, r)), w, StepCheck(s, k, r));
  }

  lemma FinishNonced(hash: Hash, s: State, w: nat, f: Fill, outcome: Outcome)
    requires Nonced(hash, s) && w < |s.workers|
    ensures Nonced(hash, StepFinish(s, w, f, outcome))
  {
    MoveNonced(hash, s, StepFinish(s, w, f, outcome), w, At(s.workers[w], Idle));
  }

  lemma PlaceNonced(hash: Hash, s: State, w: nat, r: Reply)
    requires Nonced(hash, s) && w < |s.workers| && s.workers[w].pc == Place
    ensures Nonced(hash, StepPlace(s, w, r))
  {
    assert Untaken(hash, s, s.workers[w]);
    MoveNonced(hash, s, StepPlace(s, w, r), w, StepPlace(s, w, r).workers[w]);
  }

  lemma StepNonced(hash: Hash, s: State, w: nat, r: Reply)
    requires Injective(hash) && Traced(hash, s) && Nonced(hash, s) && w < |s.workers|
    requires s.nonce + 1 < ClientOrderId.NONCE_WRAP
    ensures Nonced(hash, StepWorker(hash, s, w, r))
  {
    var k := s.workers[w];
    match k.pc
    case Derive => DeriveNonced(hash, s, w, r);
    case Insert => InsertNonced(hash, s, w, r);
    case Place => PlaceNonced(hash, s, w, r);
    case Record => FinishNonced(hash, s, w, FinalFill(k), r.outcome);
    case Reject => FinishNonced(hash, s, w, FinalFill(k), r.outcome);
    case _ => CheckNonced(hash, s, w, r);
  }

  ghost predicate AdmitsKeys(e: Event) {
    Admits(e) && (e.Take? ==> DistinctKey(e.cmd))
  }

  lemma ApplyNonced(hash: Hash, s: State, e: Event)
    requires Injective(hash) && Traced(hash, s) && Nonced(hash, s) && AdmitsKeys(e)
    requires s.nonce + 1 < ClientOrderId.NONCE_WRAP
    ensures Nonced(hash, Apply(hash, s, e)) && Apply(hash, s, e).nonce <= s.nonce + 1
  {
    match e
    case Step(w, r) => if w < |s.workers| { StepNonced(hash, s, w, r); }
    case Take(w, cmd) =>
      if w < |s.workers| && s.workers[w].pc == Idle {
        MoveNonced(hash, s, TakeCommand(s, w, cmd), w, s.workers[w].(pc := ReadHalt, cmd := cmd));
      }
    case _ =>
  }

  lemma {:induction false} RunNonced(hash: Hash, s: State, es: seq<Event>)
    requires Injective(hash) && Traced(hash, s) && Nonced(hash, s) && (forall e <- es :: AdmitsKeys(e))
    requires s.nonce + |es| < ClientOrderId.NONCE_WRAP
    ensures Nonced(hash, Run(hash, s, es))
    decreases |es|
  {
    if es != [] {
      assert es[0] in es;
      ApplyTraces(hash, s, es[0]);
      ApplyNonced(hash, s, es[0]);
      RunNonced(hash, Apply(hash, s, es[0]), es[1..]);
    }
  }

  /**
   A command without a producer key gets a new identifier on every delivery: as long as the 64-bit nonce has not
   wrapped around, its insert is never refused as a duplicate.
   */
  lemma KeylessIsNeverRefused(hash: Hash, s: State, es: seq<Event>, w: nat)
    requires Initial(s) && Injective(hash) && forall e <- es :: AdmitsKeys(e)
    requires s.nonce + |es| < 0x1_0000_0000_0000_0000
    requires var r := Run(hash, s, es);
             w < |r.workers| && r.workers[w].pc == Insert && r.workers[w].cmd.key == ""
    ensures Run(hash, s, es).workers[w].oid !in Run(hash, s, es).log
  {
    assert Traced(hash, s) && Nonced(hash, s);
    RunNonced(hash, s, es);
    var r := Run(hash, s, es);
    assert Untaken(hash, r, r.workers[w]);
  }
}
