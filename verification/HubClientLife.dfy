/** That the browser's client connects, reconnects, tells a new socket everything, and stops when shut down. */
module HubClientLife {
  import opened Prelude
  import opened HubClientModel
  import opened HubClientRuns

  /** An opening socket resets the back-off and leaves the collections, the hold and the timers alone. */
  lemma OpensKeepsHold(w: World, i: nat)
    requires Inv(w)
    ensures var w' := Step(w, Opens(i));
      w'.ws == w.ws && w'.timers == w.timers && |w'.sockets| == |w.sockets|
      && w'.c == w.c.(backoff := w'.c.backoff)
      && (w.ws.Some? && w.sockets[w.ws.value].state == Connecting && w.ws.value == i ==> OpenNow(w'))
  {
    if i < |w.sockets| && w.sockets[i].state == Connecting {
      var w1 := SetState(w, i, Open);
      var w2 := w1.(c := w1.c.(backoff := MIN_BACKOFF));
      assert Sockets(w2);
      ResubscribeFolds(w2, w2.c.subscribed);
    }
  }

  /** After a subscription a client that is not shut down holds a socket: the one it had, or a new one. */
  lemma SubscribingConnects(w: World, m: Meta, l: nat)
    requires Inv(w) && !w.c.closing
    ensures var w' := Step(w, Attach(m, l));
      Inv(w') && w'.ws == (if w.ws.Some? then w.ws else Some(|w.sockets|))
      && w'.ws.value < |w'.sockets| && w'.timers == w.timers && !w'.c.closing
      && (w.ws.None? ==> |w'.sockets| == |w.sockets| + 1 && w'.sockets[|w.sockets|] == Socket(Connecting, []))
  {
    AttachKeeps(w, m, l);
  }

  /** The held socket's close is followed by a reconnect, unless the client is shut down. */
  lemma ClosingSchedules(w: World, i: nat)
    requires Inv(w) && i < |w.sockets| && w.sockets[i].state != Closed
    ensures var w' := Step(w, Closes(i));
      Inv(w') && w'.ws.None? && w'.timers == (if w.c.closing then w.timers else w.timers + 1)
      && w'.c == w.c.(backoff := w'.c.backoff) && |w'.sockets| == |w.sockets| && w'.sockets[i].state == Closed
  {
    StepKeepsInv(w, Closes(i));
  }

  lemma TimersConnect(w: World)
    requires Inv(w) && w.timers > 0 && !w.c.closing
    ensures var w' := Step(w, TimerFires);
      Inv(w') && w'.ws == Some(|w.sockets|) && w'.sockets == w.sockets + [Socket(Connecting, [])]
      && w'.timers == w.timers - 1 && w'.c == w.c
  {
    StepKeepsInv(w, TimerFires);
  }

  lemma StepStaysConnected(w: World, e: Event)
    requires Inv(w) && !w.c.closing && e != Shutdown
    ensures var w' := Step(w, e);
      !w'.c.closing
      && (w.ws.Some? || w.timers > 0 || e.Attach? ==> w'.ws.Some? || w'.timers > 0)
  {
    match e {
      case Attach(m, l) => SubscribingConnects(w, m, l);
      case Opens(i) => OpensKeepsHold(w, i);
      case _ =>
    }
  }

  /** From the first subscription on, a client that is not shut down holds a socket or has a reconnect coming. */
  lemma {:induction false} AlwaysConnecting(es: seq<Event>)
    requires Shutdown !in es
    ensures !Run(es).c.closing
    ensures (exists e <- es :: e.Attach?) ==> Run(es).ws.Some? || Run(es).timers > 0
  {
    if es != [] {
      var front, e := es[..|es| - 1], es[|es| - 1];
      assert es == front + [e];
      AlwaysConnecting(front);
      StepStaysConnected(Run(front), e);
    }
  }

  lemma {:induction false} ListeningMeansAttached(es: seq<Event>, m: Meta, l: nat)
    requires Listening(es, m, l)
    ensures exists e <- es :: e.Attach?
  {
    var front, e := es[..|es| - 1], es[|es| - 1];
    assert e in es;
    if !e.Attach? {
      ListeningMeansAttached(front, m, l);
      var a :| a in front && a.Attach?;
      assert a in es;
    }
  }

  /** Whenever someone listens to a topic, the client holds a socket or is about to reconnect. */
  lemma ListenersAreServed(es: seq<Event>, m: Meta, l: nat)
    requires Shutdown !in es && Listening(es, m, l)
    ensures Run(es).ws.Some? || Run(es).timers > 0
  {
    ListeningMeansAttached(es, m, l);
    AlwaysConnecting(es);
  }

  /** Once the held socket closed, the timer fired and the new socket opened, it was told of all that is listened to. */
  lemma ReconnectTellsEverything(w: World, i: nat, w1: World, w2: World, w3: World)
    requires Inv(w) && w.ws == Some(i) && !w.c.closing
    requires w1 == Step(w, Closes(i))
    requires Holds(w1) && w2 == Step(w1, TimerFires)
    requires Holds(w2) && w3 == Step(w2, Opens(|w.sockets|))
    ensures Inv(w3) && OpenNow(w3) && w3.ws == Some(|w.sockets|) && Held(w3) == Wanted(w.c)
  {
    ClosingSchedules(w, i);
    TimersConnect(w1);
    OpensKeepsHold(w2, |w.sockets|);
    StepKeepsInv(w2, Opens(|w.sockets|));
  }

  /** The first subscription of a new client opens a socket, which is told of that topic once it is open. */
  lemma FirstSubscriptionIsTold(m: Meta, l: nat)
    ensures var w := Run([Attach(m, l), Opens(0)]);
      OpenNow(w) && Held(w) == {m}
  {
    var a, es := [Attach(m, l)], [Attach(m, l), Opens(0)];
    assert es[..1] == a && a[..0] == [];
    assert Run([]) == START;
    SubscribingConnects(START, m, l);
    assert Run(a) == Step(START, Attach(m, l));
    OpensKeepsHold(Run(a), 0);
    assert Run(es) == Step(Run(a), Opens(0));
    AddedKeeps(START.c, m, l);
    assert Wanted(Run(a).c) == {m};
    assert Wanted(Run(es).c) == Wanted(Run(a).c);
  }

  /** An error on any socket, and a shutdown, start closing the held one. */
  lemma ErrorsCloseTheHeld(w: World, e: Event)
    requires Inv(w) && (e.Fails? || e == Shutdown) && w.ws.Some?
    ensures var w' := Step(w, e);
      w'.ws == w.ws && |w'.sockets| == |w.sockets| && w'.sockets[w.ws.value].state in {Closing, Closed}
  {
  }

  lemma StepStaysShut(w: World, e: Event)
    requires Inv(w) && w.c.closing
    ensures var w' := Step(w, e);
      w'.c.closing && |w'.sockets| == |w.sockets| && w'.timers <= w.timers
  {
    match e {
      case Opens(i) => OpensKeepsHold(w, i);
      case _ =>
    }
  }

  /** After a shutdown no socket is ever created again, and no reconnect is scheduled. */
  lemma {:induction false} ShutdownIsFinal(es: seq<Event>, more: seq<Event>)
    requires Run(es).c.closing || (es != [] && es[|es| - 1] == Shutdown)
    ensures var w, w' := Run(es), Run(es + more);
      w'.c.closing && |w'.sockets| == |w.sockets| && w'.timers <= w.timers
    decreases |more|
  {
    if more == [] {
      assert es + more == es;
    } else {
      var front := more[..|more| - 1];
      ShutdownIsFinal(es, front);
      assert (es + more)[..|es + more| - 1] == es + front;
      StepStaysShut(Run(es + front), more[|more| - 1]);
    }
  }

  // ---- No more commands than needed --------------------------------------------------------------------------

  /** A further listener of a topic, and one of several that leaves, are not told to anyone. */
  lemma OnlyFirstAndLastAreTold(w: World, m: Meta, l: nat)
    requires Inv(w) && w.ws.Some?
    ensures Listeners(w.c, Key(m)) != {} ==> Step(w, Attach(m, l)).sockets == w.sockets
    ensures Listeners(w.c, Key(m)) - {l} != {} ==> Step(w, Detach(m, l)).sockets == w.sockets
    ensures Listeners(w.c, Key(m)) == {} ==> Step(w, Detach(m, l)).sockets == w.sockets
  {
    assert Key(m) in w.c.subscribed <==> Key(m) in Elements(w.c.subscribed);
  }

  /** The subscriptions, in the order in which they were made. */
  function Wishes(c: Client, keys: seq<string>): seq<Command>
    requires forall k <- keys :: k in c.meta
  {
    if keys == [] then []
    else Wishes(c, keys[..|keys| - 1]) + [Command.Subscribe(c.meta[keys[|keys| - 1]])]
  }

  lemma {:induction false} ResubscribeSendsEach(w: World, keys: seq<string>)
    requires Holds(w) && OpenNow(w) && forall k <- keys :: k in w.c.meta
    ensures var w' := Resubscribe(w, keys);
      w'.ws == w.ws && w'.c == w.c && OpenNow(w')
      && w'.sockets[w.ws.value].sent == w.sockets[w.ws.value].sent + Wishes(w.c, keys)
    decreases |keys|
  {
    if keys != [] {
      ResubscribeSendsEach(w, keys[..|keys| - 1]);
      assert keys[|keys| - 1] in keys;
    }
  }

  /** A socket that opens while it is held is sent exactly one subscription per topic, in their order. */
  lemma OpeningSendsEachOnce(w: World, i: nat)
    requires Inv(w) && w.ws == Some(i) && w.sockets[i].state == Connecting
    ensures var w' := Step(w, Opens(i));
      (forall k <- w.c.subscribed :: k in w.c.meta)
      && i < |w'.sockets| && w'.sockets[i].sent == Wishes(w.c, w.c.subscribed)
  {
    OpensKeepsHold(w, i);
    var w1 := SetState(w, i, Open);
    var w2 := w1.(c := w1.c.(backoff := MIN_BACKOFF));
    forall k <- w.c.subscribed ensures k in w.c.meta {
      assert k in Elements(w.c.subscribed);
    }
    ResubscribeSendsEach(w2, w2.c.subscribed);
    SameWishes(w.c, w2.c, w.c.subscribed);
  }

  lemma {:induction false} SameWishes(c: Client, c': Client, keys: seq<string>)
    requires c'.meta == c.meta && forall k <- keys :: k in c.meta
    ensures Wishes(c', keys) == Wishes(c, keys)
  {
    if keys != [] {
      SameWishes(c, c', keys[..|keys| - 1]);
    }
  }
}
