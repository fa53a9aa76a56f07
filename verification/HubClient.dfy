/** The browser's hub client as an object. Each method is one step of the model in `HubClientModel`. */
module HubClients {
  import opened Prelude
  import opened HubClientModel

  class WebSocket {
    var readyState: ReadyState
    var sent: seq<Command>

    constructor ()
      ensures readyState == Connecting && sent == []
    {
      readyState, sent := Connecting, [];
    }
  }

  class HubClient {
    var ws: WebSocket?
    var listeners: map<string, set<nat>>
    var subscribed: seq<string>
    var subscribedMeta: map<string, Meta>
    var backoff: nat
    var closing: bool
    /** Reconnect timers set and not yet fired. */
    var timers: nat
    /** Every socket ever created, oldest first; the client itself only keeps the last. */
    ghost var all: seq<WebSocket>

    ghost predicate Is(w: World)
      reads this, all
    {
      && w.c == Client(listeners, subscribed, subscribedMeta, backoff, closing)
      && w.timers == timers
      && |all| == |w.sockets|
      && (forall i, j | 0 <= i < j < |all| :: all[i] != all[j])
      && (forall i | 0 <= i < |all| :: w.sockets[i] == Socket(all[i].readyState, all[i].sent))
      && Holds(w)
      && (w.ws.None? <==> ws == null)
      && (w.ws.Some? ==> ws == all[w.ws.value])
    }

    constructor ()
      ensures Is(START)
    {
      ws := null;
      listeners, subscribed, subscribedMeta := map[], [], map[];
      backoff, closing, timers := MIN_BACKOFF, false, 0;
      all := [];
    }

    method Open(ghost w: World)
      requires Is(w)
      modifies this
      ensures Is(Connect(w)) && (w.ws.Some? && closing ==> ws != null)
      ensures all == old(all) || (|all| == |old(all)| + 1 && all[..|old(all)|] == old(all) && fresh(all[|old(all)|]))
    {
      if closing {
        return;
      }
      var socket := new WebSocket();
      ws := socket;
      all := all + [socket];
    }

    method Tell(c: Command, ghost w: World)
      requires Is(w)
      modifies all
      ensures Is(Send(w, c))
    {
      if ws != null && ws.readyState == ReadyState.Open {
        ws.sent := ws.sent + [c];
      }
    }

    method Subscribe(m: Meta, listener: nat, ghost w: World)
      requires Is(w)
      modifies this, all
      ensures Is(Step(w, Attach(m, listener)))
      ensures forall s <- all :: s in old(all) || fresh(s)
    {
      ghost var w0 := w;
      if ws == null {
        Open(w);
        w0 := Connect(w);
      }
      assert Is(w0);
      var known := Remember(m, listener, w0);
      if !known {
        Tell(Command.Subscribe(m), w0.(c := Added(w0.c, m, listener)));
      }
    }

    method Remember(m: Meta, listener: nat, ghost w: World) returns (known: bool)
      requires Is(w)
      modifies this`listeners, this`subscribed, this`subscribedMeta
      ensures Is(w.(c := Added(w.c, m, listener))) && known == !IsNew(w.c, m)
    {
      var key := Key(m);
      known := key in subscribed;
      var these := if key in listeners then listeners[key] else {};
      listeners := listeners[key := these + {listener}];
      if !known {
        subscribed := subscribed + [key];
        subscribedMeta := subscribedMeta[key := m];
      }
    }

    method Drop(key: string)
      modifies this`subscribed
      ensures subscribed == Without(old(subscribed), key)
    {
      var kept, i := [], 0;
      while i < |subscribed|
        invariant i <= |subscribed|
        invariant Without(subscribed, key) == kept + Without(subscribed[i..], key)
      {
        if subscribed[i] != key {
          kept := kept + [subscribed[i]];
        }
        assert subscribed[i..][1..] == subscribed[i + 1..];
        i := i + 1;
      }
      subscribed := kept;
    }

    /** The function that `Subscribe` returned, for this topic and listener. */
    method Unsubscribe(m: Meta, listener: nat, ghost w: World)
      requires Is(w)
      modifies this, all
      ensures Is(Step(w, Detach(m, listener))) && all == old(all)
    {
      var key := Key(m);
      if key !in listeners {
        return;
      }
      var left := listeners[key] - {listener};
      if left == {} {
        listeners := listeners - {key};
        Drop(key);
        subscribedMeta := subscribedMeta - {key};
        assert Is(w.(c := Removed(w.c, m, listener)));
        Tell(Command.Unsubscribe(m), w.(c := Removed(w.c, m, listener)));
      } else {
        listeners := listeners[key := left];
      }
    }

    method SetReadyState(ghost i: nat, socket: WebSocket, s: ReadyState, ghost w: World)
      requires Is(w) && i < |all| && all[i] == socket
      modifies socket
      ensures Is(SetState(w, i, s))
    {
      socket.readyState := s;
    }

    method HandleOpen(ghost i: nat, socket: WebSocket, ghost w: World)
      requires Is(w) && i < |all| && all[i] == socket && socket.readyState == Connecting
      modifies this, all
      ensures Is(Step(w, Opens(i))) && all == old(all)
    {
      SetReadyState(i, socket, ReadyState.Open, w);
      backoff := MIN_BACKOFF;
      ghost var w0 := SetState(w, i, ReadyState.Open);
      w0 := w0.(c := w0.c.(backoff := MIN_BACKOFF));
      Resend(w0);
    }

    method Resend(ghost w: World)
      requires Is(w)
      modifies all
      ensures Is(Resubscribe(w, w.c.subscribed))
    {
      var k := 0;
      assert Is(Resubscribe(w, subscribed[..0]));
      while k < |subscribed|
        invariant k <= |subscribed| && Is(Resubscribe(w, subscribed[..k]))
      {
        ghost var w' := Resubscribe(w, subscribed[..k]);
        assert subscribed[..k + 1][..k] == subscribed[..k];
        if subscribed[k] in subscribedMeta {
          Tell(Command.Subscribe(subscribedMeta[subscribed[k]]), w');
        }
        k := k + 1;
      }
      assert subscribed[..|subscribed|] == subscribed;
    }

    method HandleClose(ghost i: nat, socket: WebSocket, ghost w: World) returns (delay: Option<nat>)
      requires Is(w) && i < |all| && all[i] == socket && socket.readyState != Closed
      modifies this, all
      ensures Is(Step(w, Closes(i))) && all == old(all)
      ensures delay == if w.c.closing then None else Some(Min(w.c.backoff, MAX_BACKOFF))
    {
      SetReadyState(i, socket, Closed, w);
      ws := null;
      if closing {
        return None;
      }
      delay := Some(Min(backoff, MAX_BACKOFF));
      backoff := Min(backoff * 2, MAX_BACKOFF);
      timers := timers + 1;
    }

    method HandleError(ghost i: nat, ghost w: World)
      requires Is(w)
      modifies all
      ensures Is(Step(w, Fails(i)))
    {
      if ws != null && (ws.readyState == Connecting || ws.readyState == ReadyState.Open) {
        ws.readyState := Closing;
      }
    }

    method HandleTimer(ghost w: World)
      requires Is(w) && timers > 0
      modifies this
      ensures Is(Step(w, TimerFires))
    {
      timers := timers - 1;
      Open(w.(timers := w.timers - 1));
    }

    method Close(ghost w: World)
      requires Is(w)
      modifies this, all
      ensures Is(Step(w, Shutdown)) && all == old(all)
    {
      closing := true;
      HandleError(0, w.(c := w.c.(closing := true)));
    }
  }
}
