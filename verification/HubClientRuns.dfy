/** The browser's hub client over whole runs. */
module HubClientRuns {
  import opened Prelude
  import opened HubClientModel
  function Run(es: seq<Event>): (w: World)
    ensures Inv(w)
  {
    if es == [] then START
    else
      var w := Run(es[..|es| - 1]);
      StepKeepsInv(w, es[|es| - 1]);
      Step(w, es[|es| - 1])
  }

  // ---- Who listens ----------------------------------------------------------------------------------------

  /** The last call that this listener made about the topic was to subscribe. */
  predicate Listening(es: seq<Event>, m: Meta, l: nat) {
    if es == [] then false
    else
      var e := es[|es| - 1];
      if e == Attach(m, l) then true
      else if e == Detach(m, l) then false
      else Listening(es[..|es| - 1], m, l)
  }

  lemma AddedListeners(c: Client, m': Meta, l': nat, m: Meta, l: nat)
    ensures l in Listeners(Added(c, m', l'), Key(m)) <==> (m' == m && l' == l) || l in Listeners(c, Key(m))
  {
    if Key(m') == Key(m) {
      KeyIsInjective(m', m);
    }
  }

  lemma RemovedListeners(c: Client, m': Meta, l': nat, m: Meta, l: nat)
    ensures l in Listeners(Removed(c, m', l'), Key(m)) <==> !(m' == m && l' == l) && l in Listeners(c, Key(m))
  {
    if Key(m') == Key(m) {
      KeyIsInjective(m', m);
      if IsLast(c, m', l') && l in c.listeners[Key(m)] {
        assert l != l' ==> l in c.listeners[Key(m)] - {l'};
      }
    }
  }

  lemma StepClient(w: World, e: Event)
    requires Inv(w)
    ensures var c := Step(w, e).c;
      match e
      case Attach(m, l) => c == Added(w.c, m, l)
      case Detach(m, l) => c == Removed(w.c, m, l)
      case _ => c.listeners == w.c.listeners
  {
    match e {
      case Opens(i) =>
        if i < |w.sockets| && w.sockets[i].state == Connecting {
          var w1 := SetState(w, i, Open);
          var w2 := w1.(c := w1.c.(backoff := MIN_BACKOFF));
          assert Sockets(w2);
          ResubscribeFolds(w2, w2.c.subscribed);
        }
      case _ =>
    }
  }

  lemma StepListeners(w: World, e: Event, m: Meta, l: nat)
    requires Inv(w)
    ensures l in Listeners(Step(w, e).c, Key(m)) <==>
      e == Attach(m, l) || (e != Detach(m, l) && l in Listeners(w.c, Key(m)))
  {
    StepClient(w, e);
    match e {
      case Attach(m', l') => AddedListeners(w.c, m', l', m, l);
      case Detach(m', l') => RemovedListeners(w.c, m', l', m, l);
      case _ =>
    }
  }

  /** The client wants a topic exactly if some listener subscribed to it and has not unsubscribed since. */
  lemma {:induction false} ListenersAreThoseOfTheHistory(es: seq<Event>, m: Meta, l: nat)
    ensures l in Listeners(Run(es).c, Key(m)) <==> Listening(es, m, l)
  {
    if es != [] {
      var front := es[..|es| - 1];
      ListenersAreThoseOfTheHistory(front, m, l);
      StepListeners(Run(front), es[|es| - 1], m, l);
    }
  }

  lemma WantedIffListenedTo(c: Client, m: Meta)
    requires InStep(c)
    ensures m in Wanted(c) <==> Listeners(c, Key(m)) != {}
  {
    if Key(m) in c.meta {
      KeyIsInjective(m, c.meta[Key(m)]);
    }
    if m in Wanted(c) {
      var k :| k in c.meta && c.meta[k] == m;
      assert Key(m) == k;
    }
  }

  /** An open held socket was told of a topic exactly if someone listens to it. */
  lemma ToldIffListening(es: seq<Event>, m: Meta)
    requires OpenNow(Run(es))
    ensures m in Held(Run(es)) <==> exists l: nat :: Listening(es, m, l)
  {
    WantedIffListenedTo(Run(es).c, m);
    var ls := Listeners(Run(es).c, Key(m));
    if ls != {} {
      var l :| l in ls;
      ListenersAreThoseOfTheHistory(es, m, l);
    }
    if l: nat :| Listening(es, m, l) {
      ListenersAreThoseOfTheHistory(es, m, l);
    }
  }

  // ---- One live socket ------------------------------------------------------------------------------------

  /** A subscription that finds no socket while a reconnect is already due opens a socket of its own. */
  predicate Strays(w: World, e: Event) {
    e.Attach? && w.ws.None? && w.timers > 0 && !w.c.closing
  }

  /** At most the held socket is not closed, and a reconnect is due only when there is none. */
  predicate Single(w: World)
    requires Holds(w)
  {
    && (forall i | 0 <= i < |w.sockets| :: w.ws == Some(i) || w.sockets[i].state == Closed)
    && w.timers <= 1
    && (w.timers > 0 ==> w.ws.None?)
  }

  lemma SendIsSingle(w: World, c: Command)
    requires Holds(w)
    ensures Holds(Send(w, c)) && (Single(w) <==> Single(Send(w, c)))
  {
    var w' := Send(w, c);
    assert forall i | 0 <= i < |w.sockets| :: w'.sockets[i].state == w.sockets[i].state;
  }

  lemma {:induction false} ResubscribeIsSingle(w: World, keys: seq<string>)
    requires Holds(w) && Single(w)
    ensures Single(Resubscribe(w, keys))
    decreases |keys|
  {
    if keys != [] {
      ResubscribeIsSingle(w, keys[..|keys| - 1]);
      var w', key := Resubscribe(w, keys[..|keys| - 1]), keys[|keys| - 1];
      if key in w'.c.meta {
        SendIsSingle(w', Subscribe(w'.c.meta[key]));
      }
    }
  }

  lemma AttachIsSingle(w: World, m: Meta, l: nat)
    requires Inv(w) && Single(w)
    ensures Holds(AttachTo(w, m, l)) && (Single(AttachTo(w, m, l)) <==> !Strays(w, Attach(m, l)))
  {
    var w0 := if w.ws.None? then Connect(w) else w;
    assert Single(w0) <==> !Strays(w, Attach(m, l));
    var w1 := w0.(c := Added(w0.c, m, l));
    SendIsSingle(w1, Subscribe(m));
  }

  lemma StepIsSingleIff(w: World, e: Event)
    requires Inv(w) && Single(w)
    ensures Holds(Step(w, e)) && (Single(Step(w, e)) <==> !Strays(w, e))
  {
    StepKeepsInv(w, e);
    match e {
      case Attach(m, l) => AttachIsSingle(w, m, l);
      case Detach(m, l) => SendIsSingle(w.(c := Removed(w.c, m, l)), Unsubscribe(m));
      case Opens(i) =>
        if i < |w.sockets| && w.sockets[i].state == Connecting {
          var w1 := SetState(w, i, Open);
          ResubscribeIsSingle(w1.(c := w1.c.(backoff := MIN_BACKOFF)), w.c.subscribed);
        }
      case _ =>
    }
  }

  ghost predicate NoStray(es: seq<Event>) {
    forall n | 0 <= n < |es| :: !Strays(Run(es[..n]), es[n])
  }

  /** Without such a subscription, there is at most one socket that is not closed, and it is the held one. */
  lemma {:induction false} OneLiveSocket(es: seq<Event>)
    requires NoStray(es)
    ensures Single(Run(es))
  {
    if es != [] {
      var front := es[..|es| - 1];
      forall n | 0 <= n < |front| ensures !Strays(Run(front[..n]), front[n]) {
        assert front[..n] == es[..n];
      }
      OneLiveSocket(front);
      assert !Strays(Run(es[..|es| - 1]), es[|es| - 1]);
      StepIsSingleIff(Run(front), es[|es| - 1]);
    }
  }

  function Live(w: World): set<nat> {
    set i: nat | i < |w.sockets| && w.sockets[i].state != Closed
  }

  lemma StrayConnects(w: World, m: Meta, l: nat)
    requires Inv(w) && Strays(w, Attach(m, l))
    ensures var w' := AttachTo(w, m, l);
      w'.sockets == w.sockets + [Socket(Connecting, [])] && w'.timers == w.timers && !w'.c.closing
  {
  }

  lemma TimerConnects(w: World)
    requires w.timers > 0 && !w.c.closing && Holds(w)
    ensures var w' := Step(w, TimerFires);
      w'.sockets == w.sockets + [Socket(Connecting, [])] && w'.ws == Some(|w.sockets|)
  {
  }

  lemma TwoAreLive(w: World, w2: World, socket: Socket)
    requires Inv(w) && Single(w) && w.ws.None? && socket.state != Closed
    requires w2.sockets == w.sockets + [socket] + [socket]
    ensures Live(w2) == {|w.sockets|, |w.sockets| + 1}
  {
    assert w2.sockets[|w.sockets|] == w2.sockets[|w.sockets| + 1] == socket;
  }

  /** Such a subscription always leads to two live sockets once the timer fires, and the second is the held one. */
  lemma StrayMakesTwo(w: World, m: Meta, l: nat, w1: World, w2: World)
    requires Inv(w) && Single(w) && Strays(w, Attach(m, l))
    requires Holds(w1) && w1 == Step(w, Attach(m, l)) && w2 == Step(w1, TimerFires)
    ensures Live(w2) == {|w.sockets|, |w.sockets| + 1} && w2.ws == Some(|w.sockets| + 1)
  {
    StrayConnects(w, m, l);
    TimerConnects(w1);
    TwoAreLive(w, w2, Socket(Connecting, []));
  }

  /** A socket that is not the held one is left alone by a step, and does not become the held one. */
  lemma StaysAbandoned(w: World, e: Event, i: nat)
    requires Inv(w) && i < |w.sockets| && w.ws != Some(i)
    ensures var w' := Step(w, e);
      Inv(w') && i < |w'.sockets| && w'.ws != Some(i)
      && w'.sockets[i].sent == w.sockets[i].sent
      && (e !in {Opens(i), StartsClosing(i), Closes(i)} ==> w'.sockets[i] == w.sockets[i])
  {
    StepKeepsInv(w, e);
    match e {
      case Opens(j) =>
        if j < |w.sockets| && w.sockets[j].state == Connecting {
          var w1 := SetState(w, j, Open);
          OnlyHeldIsSent(w1.(c := w1.c.(backoff := MIN_BACKOFF)), w.c.subscribed, i);
        }
      case _ =>
    }
  }

  lemma {:induction false} OnlyHeldIsSent(w: World, keys: seq<string>, i: nat)
    requires Holds(w) && i < |w.sockets| && w.ws != Some(i)
    ensures var w' := Resubscribe(w, keys);
      w'.ws == w.ws && |w'.sockets| == |w.sockets| && w'.sockets[i] == w.sockets[i]
    decreases |keys|
  {
    if keys != [] {
      OnlyHeldIsSent(w, keys[..|keys| - 1], i);
    }
  }

  /**
   A socket that the client no longer holds is never held again in any later run, nothing more is sent on it, and
   only its own events change its state: the client never closes it.
   */
  lemma {:induction false} AbandonedForGood(es: seq<Event>, more: seq<Event>, i: nat)
    requires i < |Run(es).sockets| && Run(es).ws != Some(i)
    ensures var w, w' := Run(es), Run(es + more);
      i < |w'.sockets| && w'.ws != Some(i) && w'.sockets[i].sent == w.sockets[i].sent
      && ((forall e <- more :: e !in {Opens(i), StartsClosing(i), Closes(i)}) ==> w'.sockets[i] == w.sockets[i])
    decreases |more|
  {
    if more == [] {
      assert es + more == es;
    } else {
      var front := more[..|more| - 1];
      AbandonedForGood(es, front, i);
      StaysAbandoned(Run(es + front), more[|more| - 1], i);
      assert (es + more)[..|es + more| - 1] == es + front;
      assert forall e <- front :: e in more;
      assert more[|more| - 1] in more;
    }
  }

  // ---- Back-off -------------------------------------------------------------------------------------------

  /** Closes since the last socket opened, as long as the client is not shut down. */
  function Failures(es: seq<Event>): nat {
    if es == [] then 0
    else
      var front, e := es[..|es| - 1], es[|es| - 1];
      var w, w' := Run(front), Run(es);
      if w'.timers > w.timers then Failures(front) + 1
      else if e.Opens? && e.i < |w.sockets| && w.sockets[e.i].state == Connecting then 0
      else Failures(front)
  }

  /** Half a second, doubled with every failure, up to thirty seconds. */
  function DelayAfter(failures: nat): nat {
    if failures >= 6 then 30_000 else [500, 1_000, 2_000, 4_000, 8_000, 16_000][failures]
  }

  lemma StepBackoff(w: World, e: Event)
    requires Inv(w)
    ensures var w' := Step(w, e);
      (if w'.timers > w.timers then w'.c.backoff == Min(2 * w.c.backoff, MAX_BACKOFF)
       else if e.Opens? && e.i < |w.sockets| && w.sockets[e.i].state == Connecting then w'.c.backoff == MIN_BACKOFF
       else w'.c.backoff == w.c.backoff)
  {
    match e {
      case Opens(i) =>
        if i < |w.sockets| && w.sockets[i].state == Connecting {
          var w1 := SetState(w, i, Open);
          var w2 := w1.(c := w1.c.(backoff := MIN_BACKOFF));
          assert Sockets(w2);
          ResubscribeFolds(w2, w2.c.subscribed);
        }
      case _ =>
    }
  }

  /** The delay before the next reconnect doubles from half a second with every failure, up to thirty seconds. */
  lemma {:induction false} BackoffDoubles(es: seq<Event>)
    ensures Run(es).c.backoff == DelayAfter(Failures(es))
  {
    if es != [] {
      var front := es[..|es| - 1];
      BackoffDoubles(front);
      StepBackoff(Run(front), es[|es| - 1]);
    }
  }
}
