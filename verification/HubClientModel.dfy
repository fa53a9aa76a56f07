/**
 The browser's hub client: listeners per topic, one socket that is re-created after a close, and the commands
 that each socket was sent. Event handlers and timers of older sockets may fire at any time, and they act on
 whatever socket the client currently holds.
 */
module HubClientModel {
  import opened Prelude

  datatype Topic = Account | Backtest | Strategy | Optimization

  datatype Meta = Meta(topic: Topic, id: string)

  datatype ReadyState = Connecting | Open | Closing | Closed

  datatype Command = Subscribe(m: Meta) | Unsubscribe(m: Meta)

  datatype Socket = Socket(state: ReadyState, sent: seq<Command>)

  const MIN_BACKOFF := 500
  const MAX_BACKOFF := 30_000

  /** `subscribed` is in insertion order, as it is iterated on reconnect. */
  datatype Client = Client(listeners: map<string, set<nat>>, subscribed: seq<string>, meta: map<string, Meta>,
                           backoff: nat, closing: bool)

  /** The client, the socket it holds, every socket ever created, and the reconnect timers not yet fired. */
  datatype World = World(c: Client, ws: Option<nat>, sockets: seq<Socket>, timers: nat)

  const START := World(Client(map[], [], map[], MIN_BACKOFF, false), None, [], 0)

  datatype Event =
    | Attach(m: Meta, listener: nat)
    | Detach(m: Meta, listener: nat)
    | Opens(i: nat)
    | StartsClosing(i: nat)
    | Closes(i: nat)
    | Fails(i: nat)
    | TimerFires
    | Shutdown

  function Name(t: Topic): string {
    match t
    case Account => "account"
    case Backtest => "backtest"
    case Strategy => "strategy"
    case Optimization => "optimization"
  }

  function Key(m: Meta): string {
    Name(m.topic) + ":" + m.id
  }

  function Min(a: nat, b: nat): nat {
    if a < b then a else b
  }

  function Without(keys: seq<string>, key: string): seq<string> {
    if keys == [] then []
    else if keys[0] == key then Without(keys[1..], key)
    else [keys[0]] + Without(keys[1..], key)
  }

  predicate Holds(w: World) {
    w.ws.Some? ==> w.ws.value < |w.sockets|
  }

  // ---- Operations ---------------------------------------------------------------------------------------

  function Connect(w: World): World {
    if w.c.closing then w
    else w.(ws := Some(|w.sockets|), sockets := w.sockets + [Socket(Connecting, [])])
  }

  function Send(w: World, c: Command): World
    requires Holds(w)
  {
    if w.ws.Some? && w.sockets[w.ws.value].state == Open then
      var i := w.ws.value;
      w.(sockets := w.sockets[i := w.sockets[i].(sent := w.sockets[i].sent + [c])])
    else w
  }

  function Resubscribe(w: World, keys: seq<string>): (w': World)
    requires Holds(w)
    ensures Holds(w')
    decreases |keys|
  {
    if keys == [] then w
    else
      var w' := Resubscribe(w, keys[..|keys| - 1]);
      var key := keys[|keys| - 1];
      if key in w'.c.meta then Send(w', Subscribe(w'.c.meta[key])) else w'
  }

  function Listeners(c: Client, key: string): set<nat> {
    if key in c.listeners then c.listeners[key] else {}
  }

  predicate IsNew(c: Client, m: Meta) {
    Key(m) !in c.subscribed
  }

  function Listen(c: Client, key: string, listener: nat): Client {
    c.(listeners := c.listeners[key := Listeners(c, key) + {listener}])
  }

  function Added(c: Client, m: Meta, listener: nat): Client {
    var c' := Listen(c, Key(m), listener);
    if IsNew(c, m) then c'.(subscribed := c.subscribed + [Key(m)], meta := c.meta[Key(m) := m]) else c'
  }

  predicate IsLast(c: Client, m: Meta, listener: nat) {
    Key(m) in c.listeners && c.listeners[Key(m)] - {listener} == {}
  }

  function Removed(c: Client, m: Meta, listener: nat): Client {
    var key := Key(m);
    if key !in c.listeners then c
    else if IsLast(c, m, listener) then
      c.(listeners := c.listeners - {key}, subscribed := Without(c.subscribed, key), meta := c.meta - {key})
    else c.(listeners := c.listeners[key := c.listeners[key] - {listener}])
  }

  function AttachTo(w: World, m: Meta, listener: nat): World
    requires Holds(w)
  {
    var w := if w.ws.None? then Connect(w) else w;
    var w' := w.(c := Added(w.c, m, listener));
    if IsNew(w.c, m) then Send(w', Subscribe(m)) else w'
  }

  function DetachFrom(w: World, m: Meta, listener: nat): World
    requires Holds(w)
  {
    var w' := w.(c := Removed(w.c, m, listener));
    if IsLast(w.c, m, listener) then Send(w', Unsubscribe(m)) else w'
  }

  function SetState(w: World, i: nat, s: ReadyState): World
    requires i < |w.sockets|
  {
    w.(sockets := w.sockets[i := w.sockets[i].(state := s)])
  }

  /** `close()` on the held socket. */
  function CloseHeld(w: World): World
    requires Holds(w)
  {
    if w.ws.Some? && w.sockets[w.ws.value].state in {Connecting, Open} then SetState(w, w.ws.value, Closing) else w
  }

  function OnOpen(w: World): World
    requires Holds(w)
  {
    Resubscribe(w.(c := w.c.(backoff := MIN_BACKOFF)), w.c.subscribed)
  }

  function OnClose(w: World): World {
    if w.c.closing then w.(ws := None)
    else w.(ws := None, timers := w.timers + 1, c := w.c.(backoff := Min(w.c.backoff * 2, MAX_BACKOFF)))
  }

  /** An event that a browser cannot raise in this state changes nothing. */
  function Step(w: World, e: Event): World
    requires Holds(w)
  {
    match e
    case Attach(m, l) => AttachTo(w, m, l)
    case Detach(m, l) => DetachFrom(w, m, l)
    case Opens(i) =>
      if i < |w.sockets| && w.sockets[i].state == Connecting then OnOpen(SetState(w, i, Open)) else w
    case StartsClosing(i) =>
      if i < |w.sockets| && w.sockets[i].state in {Connecting, Open} then SetState(w, i, Closing) else w
    case Closes(i) =>
      if i < |w.sockets| && w.sockets[i].state != Closed then OnClose(SetState(w, i, Closed)) else w
    case Fails(i) => CloseHeld(w)
    case TimerFires => if w.timers > 0 then Connect(w.(timers := w.timers - 1)) else w
    case Shutdown => CloseHeld(w.(c := w.c.(closing := true)))
  }

  // ---- Invariants ----------------------------------------------------------------------------------------

  /** What the commands amount to at the other end. */
  function Folded(sent: seq<Command>): set<Meta> {
    if sent == [] then {}
    else
      var before, c := Folded(sent[..|sent| - 1]), sent[|sent| - 1];
      if c.Subscribe? then before + {c.m} else before - {c.m}
  }

  predicate Distinct(keys: seq<string>) {
    forall i, j | 0 <= i < j < |keys| :: keys[i] != keys[j]
  }

  function Elements(keys: seq<string>): set<string> {
    set k | k in keys
  }

  /** The three collections have the same keys, and no key is without a listener. */
  predicate InStep(c: Client) {
    && Distinct(c.subscribed)
    && Elements(c.subscribed) == c.listeners.Keys == c.meta.Keys
    && (forall k <- c.listeners :: c.listeners[k] != {})
    && (forall k <- c.meta :: Key(c.meta[k]) == k)
  }

  function Wanted(c: Client): set<Meta> {
    set k <- c.meta :: c.meta[k]
  }

  predicate Agreed(w: World)
    requires Holds(w)
  {
    w.ws.Some? && w.sockets[w.ws.value].state == Open ==> Folded(w.sockets[w.ws.value].sent) == Wanted(w.c)
  }

  /** The held socket is the last one created, and a socket is sent nothing before it opens. */
  predicate Sockets(w: World)
    requires Holds(w)
  {
    && (w.ws.Some? ==> w.ws.value + 1 == |w.sockets| && w.sockets[w.ws.value].state != Closed)
    && (forall i | 0 <= i < |w.sockets| :: w.sockets[i].state == Connecting ==> w.sockets[i].sent == [])
  }

  predicate Inv(w: World) {
    Holds(w) && InStep(w.c) && Sockets(w) && Agreed(w)
  }

  // ---- Keys ------------------------------------------------------------------------------------------------

  lemma KeyIsInjective(a: Meta, b: Meta)
    requires Key(a) == Key(b)
    ensures a == b
  {
    var n, m := |Name(a.topic)|, |Name(b.topic)|;
    assert Key(a)[n] == ':' && Key(b)[m] == ':';
    assert Name(a.topic) == Key(a)[..n] && Name(b.topic) == Key(b)[..m];
    assert a.id == Key(a)[n + 1..] && b.id == Key(b)[m + 1..];
    assert n == m;
  }

  lemma {:induction false} WithoutKeeps(keys: seq<string>, key: string)
    requires Distinct(keys)
    ensures Elements(Without(keys, key)) == Elements(keys) - {key}
    ensures Distinct(Without(keys, key))
  {
    if keys != [] {
      var t := Without(keys[1..], key);
      WithoutKeeps(keys[1..], key);
      assert Elements(keys) == {keys[0]} + Elements(keys[1..]);
      assert keys[0] !in Elements(keys[1..]);
      if keys[0] != key {
        assert Elements([keys[0]] + t) == {keys[0]} + Elements(t);
        forall j | 0 <= j < |t| ensures t[j] != keys[0] {
          assert t[j] in Elements(t);
        }
      }
    }
  }

  lemma SnocElements(keys: seq<string>, key: string)
    requires Distinct(keys)
    ensures Elements(keys + [key]) == Elements(keys) + {key}
    ensures key !in keys ==> Distinct(keys + [key])
  {
  }

  // ---- Sending -----------------------------------------------------------------------------------------------

  lemma FoldedSnoc(sent: seq<Command>, c: Command)
    ensures Folded(sent + [c]) == if c.Subscribe? then Folded(sent) + {c.m} else Folded(sent) - {c.m}
  {
    assert (sent + [c])[..|sent|] == sent;
  }

  /** Sending touches only the held socket, and there only what an open socket was sent. */
  lemma SendKeeps(w: World, c: Command)
    requires Holds(w) && Sockets(w)
    ensures var w' := Send(w, c);
      Holds(w') && Sockets(w') && w' == w.(sockets := w'.sockets) && |w'.sockets| == |w.sockets|
  {
  }

  predicate OpenNow(w: World)
    requires Holds(w)
  {
    w.ws.Some? && w.sockets[w.ws.value].state == Open
  }

  function Held(w: World): set<Meta>
    requires Holds(w) && OpenNow(w)
  {
    Folded(w.sockets[w.ws.value].sent)
  }

  lemma SendFolds(w: World, c: Command)
    requires Holds(w) && OpenNow(w)
    ensures var w' := Send(w, c);
      Holds(w') && OpenNow(w') && Held(w') == if c.Subscribe? then Held(w) + {c.m} else Held(w) - {c.m}
  {
    FoldedSnoc(w.sockets[w.ws.value].sent, c);
  }

  function Named(c: Client, keys: seq<string>): set<Meta> {
    set k | k in keys && k in c.meta :: c.meta[k]
  }

  lemma {:induction false} ResubscribeFolds(w: World, keys: seq<string>)
    requires Holds(w) && Sockets(w)
    ensures var w' := Resubscribe(w, keys);
      Sockets(w') && w' == w.(sockets := w'.sockets) && |w'.sockets| == |w.sockets|
    ensures OpenNow(w) <==> OpenNow(Resubscribe(w, keys))
    ensures OpenNow(w) ==> Held(Resubscribe(w, keys)) == Held(w) + Named(w.c, keys)
    decreases |keys|
  {
    if keys != [] {
      var front, key := keys[..|keys| - 1], keys[|keys| - 1];
      ResubscribeFolds(w, front);
      var w' := Resubscribe(w, front);
      assert keys == front + [key];
      if key in w.c.meta {
        assert Named(w.c, keys) == Named(w.c, front) + {w.c.meta[key]};
        SendKeeps(w', Subscribe(w.c.meta[key]));
        if OpenNow(w) {
          SendFolds(w', Subscribe(w.c.meta[key]));
        }
      } else {
        assert Named(w.c, keys) == Named(w.c, front);
      }
    }
  }

  // ---- Every step keeps the invariant --------------------------------------------------------------------------

  lemma NewKeeps(c: Client, key: string, m: Meta, l: nat)
    requires InStep(c) && key == Key(m) && key !in c.subscribed
    ensures var c' := Listen(c, key, l).(subscribed := c.subscribed + [key], meta := c.meta[key := m]);
      InStep(c')
  {
    var subscribed, listeners, meta := c.subscribed + [key], Listen(c, key, l).listeners, c.meta[key := m];
    assert key !in Elements(c.subscribed);
    SnocElements(c.subscribed, key);
    assert listeners.Keys == c.listeners.Keys + {key};
    assert meta.Keys == c.meta.Keys + {key};
    assert forall k <- listeners :: listeners[k] != {} by {
      assert l in listeners[key];
    }
    assert forall k <- meta :: Key(meta[k]) == k;
  }

  lemma AddedKeeps(c: Client, m: Meta, l: nat)
    requires InStep(c)
    ensures InStep(Added(c, m, l))
    ensures Wanted(Added(c, m, l)) == if IsNew(c, m) then Wanted(c) + {m} else Wanted(c)
  {
    if IsNew(c, m) {
      NewKeeps(c, Key(m), m, l);
      assert Key(m) !in Elements(c.subscribed);
      WantedKey(c, m);
    } else {
      assert Key(m) in Elements(c.subscribed);
      assert Added(c, m, l).listeners.Keys == c.listeners.Keys;
    }
  }

  lemma WantedKey(c: Client, m: Meta)
    requires Key(m) !in c.meta
    ensures Wanted(c.(meta := c.meta[Key(m) := m])) == Wanted(c) + {m}
  {
    var meta := c.meta[Key(m) := m];
    assert meta[Key(m)] == m;
    assert forall k <- c.meta :: meta[k] == c.meta[k];
  }

  lemma UnwantedKey(c: Client, m: Meta)
    requires InStep(c) && Key(m) in c.meta
    ensures Wanted(c.(meta := c.meta - {Key(m)})) == Wanted(c) - {m}
  {
    var key, meta := Key(m), c.meta - {Key(m)};
    KeyIsInjective(m, c.meta[key]);
    forall k | k in c.meta && c.meta[k] == m ensures k == key {}
    assert forall k <- meta :: meta[k] == c.meta[k];
    forall x | x in Wanted(c) - {m} ensures x in Wanted(c.(meta := meta)) {
      var k :| k in c.meta && c.meta[k] == x;
      assert k in meta;
    }
  }

  lemma RemovedKeeps(c: Client, m: Meta, l: nat)
    requires InStep(c)
    ensures InStep(Removed(c, m, l))
    ensures Wanted(Removed(c, m, l)) == if IsLast(c, m, l) then Wanted(c) - {m} else Wanted(c)
  {
    if IsLast(c, m, l) {
      var key, c' := Key(m), Removed(c, m, l);
      WithoutKeeps(c.subscribed, key);
      assert c'.listeners.Keys == c.listeners.Keys - {key};
      assert c'.meta.Keys == c.meta.Keys - {key};
      UnwantedKey(c, m);
    }
  }

  lemma ConnectKeeps(w: World)
    requires Inv(w)
    ensures Inv(Connect(w)) && Connect(w).c == w.c
  {
  }

  /** The client's collections change and the one command that tells of the change goes out. */
  lemma TellKeeps(w: World, c: Client, cmd: Command)
    requires Inv(w) && InStep(c)
    requires Wanted(c) == if cmd.Subscribe? then Wanted(w.c) + {cmd.m} else Wanted(w.c) - {cmd.m}
    ensures Inv(Send(w.(c := c), cmd))
  {
    SendKeeps(w.(c := c), cmd);
    if OpenNow(w) {
      SendFolds(w.(c := c), cmd);
    }
  }

  lemma AttachKeeps(w: World, m: Meta, l: nat)
    requires Inv(w)
    ensures Inv(AttachTo(w, m, l))
  {
    ConnectKeeps(w);
    AddedKeeps(w.c, m, l);
    if IsNew(w.c, m) {
      TellKeeps(if w.ws.None? then Connect(w) else w, Added(w.c, m, l), Subscribe(m));
    }
  }

  lemma DetachKeeps(w: World, m: Meta, l: nat)
    requires Inv(w)
    ensures Inv(DetachFrom(w, m, l))
  {
    RemovedKeeps(w.c, m, l);
    if IsLast(w.c, m, l) {
      TellKeeps(w, Removed(w.c, m, l), Unsubscribe(m));
    }
  }

  lemma OpensKeeps(w: World, i: nat)
    requires Inv(w) && i < |w.sockets| && w.sockets[i].state == Connecting
    ensures Inv(OnOpen(SetState(w, i, Open)))
  {
    var w1 := SetState(w, i, Open);
    var w2 := w1.(c := w1.c.(backoff := MIN_BACKOFF));
    assert Sockets(w2);
    ResubscribeFolds(w2, w2.c.subscribed);
    assert Named(w2.c, w2.c.subscribed) == Wanted(w2.c);
    assert Wanted(w2.c) == Wanted(w.c);
    if OpenNow(w2) && w2.ws.value == i {
      assert Held(w2) == {};
    }
  }

  lemma StepKeepsInv(w: World, e: Event)
    requires Inv(w)
    ensures Inv(Step(w, e))
  {
    match e {
      case Attach(m, l) => AttachKeeps(w, m, l);
      case Detach(m, l) => DetachKeeps(w, m, l);
      case Opens(i) => if i < |w.sockets| && w.sockets[i].state == Connecting { OpensKeeps(w, i); }
      case TimerFires => if w.timers > 0 { ConnectKeeps(w.(timers := w.timers - 1)); }
      case _ =>
    }
  }
}
