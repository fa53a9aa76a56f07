/**
 The WebSocket hub as a state machine. Sessions list their topics, topics list their sessions, and every
 upstream ever created keeps its place in `all`, so that a fan-out goroutine may still hold an old one.
 Each event is one critical section; `Subscribe` is two of them, with the owner lookup in between.
 */
module HubModel {

  type SessionId = string

  datatype Kind = Account | Backtest | Strategy | Optimization | Prediction | Other(name: string)

  datatype TopicKey = TopicKey(kind: Kind, id: string)

  const ADMIN := "admin"

  datatype Session = Session(user: string, role: string, subs: set<TopicKey>)

  /** One generation of a topic's event source, with counters for what its owner did to it. */
  datatype Upstream = Upstream(key: TopicKey, subs: set<SessionId>, stopped: bool, cancels: nat, closes: nat)

  /** `live` is the hub's topic map; its values are positions in `all`. */
  datatype Tables = Tables(sessions: map<SessionId, Session>, live: map<TopicKey, nat>, all: seq<Upstream>)

  // ---- The critical sections ---------------------------------------------------------------------

  function Register(t: Tables, id: SessionId, user: string, role: string): Tables {
    t.(sessions := t.sessions[id := Session(user, role, {})])
  }

  function Stop(up: Upstream): Upstream {
    up.(stopped := true, cancels := up.cancels + 1, closes := up.closes + 1)
  }

  function Without(up: Upstream, id: SessionId): Upstream {
    var up' := up.(subs := up.subs - {id});
    if up'.subs == {} then Stop(up') else up'
  }

  /** `live` points into `all`, at an upstream of the same key. */
  predicate Indexed(t: Tables) {
    forall k <- t.live :: t.live[k] < |t.all| && t.all[t.live[k]].key == k
  }

  /** Takes a session out of a topic, and tears the upstream down when it was the last one. */
  function Detach(t: Tables, id: SessionId, key: TopicKey): Tables
    requires Indexed(t)
  {
    if key !in t.live then t
    else
      var g := t.live[key];
      var up := Without(t.all[g], id);
      t.(all := t.all[g := up], live := if up.subs == {} then t.live - {key} else t.live)
  }

  /** `Detach` for a set of topics at once. */
  function DetachAll(t: Tables, id: SessionId, keys: set<TopicKey>): Tables
    requires Indexed(t)
  {
    t.(all := seq(|t.all|, g requires 0 <= g < |t.all| =>
                     if t.all[g].key in keys && t.all[g].key in t.live && t.live[t.all[g].key] == g
                     then Without(t.all[g], id) else t.all[g]),
       live := map k | k in t.live && !(k in keys && Without(t.all[t.live[k]], id).subs == {}) :: t.live[k])
  }

  function Unregister(t: Tables, id: SessionId): Tables
    requires Indexed(t)
  {
    if id !in t.sessions then t
    else DetachAll(t, id, t.sessions[id].subs).(sessions := t.sessions - {id})
  }

  function Unsubscribe(t: Tables, id: SessionId, key: TopicKey): Tables
    requires Indexed(t)
  {
    if id !in t.sessions || key !in t.sessions[id].subs then t
    else Detach(t, id, key).(sessions := t.sessions[id := t.sessions[id].(subs := t.sessions[id].subs - {key})])
  }

  /** How the factory answers when a topic needs a new upstream. */
  datatype Start = Started | NoFactory | StartFailed | Retired

  datatype Reply = Ok | UnknownSession | UnknownKind | NotStarted(why: Start)

  function AddSub(t: Tables, id: SessionId, key: TopicKey): Tables
    requires id in t.sessions && key in t.live && t.live[key] < |t.all|
  {
    var g := t.live[key];
    t.(all := t.all[g := t.all[g].(subs := t.all[g].subs + {id})],
       sessions := t.sessions[id := t.sessions[id].(subs := t.sessions[id].subs + {key})])
  }

  function NewUpstream(t: Tables, key: TopicKey): Tables {
    t.(all := t.all + [Upstream(key, {}, false, 0, 0)], live := t.live[key := |t.all|])
  }

  /** The second critical section of `Subscribe`: the session is looked up again. */
  function Commit(t: Tables, id: SessionId, key: TopicKey, start: Start): (Reply, Tables)
    requires Indexed(t)
  {
    if id !in t.sessions then (UnknownSession, t)
    else if key in t.sessions[id].subs then (Ok, t)
    else if key in t.live then (Ok, AddSub(t, id, key))
    else if key.kind.Other? then (UnknownKind, t)
    else if start != Started then (NotStarted(start), t)
    else (Ok, AddSub(NewUpstream(t, key), id, key))
  }

  /** The sessions with one topic taken out of the given ones. */
  function Forgotten(ss: map<SessionId, Session>, ids: set<SessionId>, key: TopicKey): map<SessionId, Session> {
    map id | id in ss :: if id in ids then ss[id].(subs := ss[id].subs - {key}) else ss[id]
  }

  /** A fan-out goroutine finds its upstream finished, whichever generation it holds. */
  function End(t: Tables, g: nat): Tables
    requires g < |t.all|
  {
    var up := t.all[g];
    if up.stopped then t
    else
      Tables(Forgotten(t.sessions, up.subs, up.key), t.live - {up.key}, t.all[g := Stop(up)])
  }

  /** Whom an event of this topic is written to. */
  function Recipients(t: Tables, key: TopicKey): set<SessionId>
    requires Indexed(t)
  {
    if key !in t.live then {} else t.all[t.live[key]].subs * t.sessions.Keys
  }

  // ---- The agreement of the two indexes ----------------------------------------------------------

  predicate Generations(t: Tables) {
    && (forall g :: 0 <= g < |t.all| ==> (!t.all[g].stopped <==> t.all[g].key in t.live && t.live[t.all[g].key] == g))
    && (forall g :: 0 <= g < |t.all| ==> t.all[g].cancels == t.all[g].closes == if t.all[g].stopped then 1 else 0)
  }

  predicate Agreement(t: Tables) {
    && (forall k <- t.live ::
          t.live[k] < |t.all| && t.all[t.live[k]].subs != {} && t.all[t.live[k]].subs <= t.sessions.Keys)
    && (forall id <- t.sessions, k <- t.live ::
          t.live[k] < |t.all| ==> (k in t.sessions[id].subs <==> id in t.all[t.live[k]].subs))
    && (forall id <- t.sessions :: t.sessions[id].subs <= t.live.Keys)
  }

  predicate Good(t: Tables) {
    Indexed(t) && Generations(t) && Agreement(t)
  }

  lemma RegisterKeeps(t: Tables, id: SessionId, user: string, role: string)
    requires Good(t) && id !in t.sessions
    ensures Good(Register(t, id, user, role))
  {
  }

  lemma UnregisterKeepsGenerations(t: Tables, id: SessionId)
    requires Good(t)
    ensures Indexed(Unregister(t, id)) && Generations(Unregister(t, id))
  {
  }

  lemma UnregisterKeeps(t: Tables, id: SessionId)
    requires Good(t)
    ensures Good(Unregister(t, id))
  {
    UnregisterKeepsGenerations(t, id);
  }

  /** Taking one subscription out of both indexes. */
  lemma DetachKeepsGenerations(t: Tables, id: SessionId, key: TopicKey)
    requires Good(t)
    ensures Indexed(Detach(t, id, key)) && Generations(Detach(t, id, key))
  {
  }

  /** An upstream goes away only with its last subscriber. */
  lemma OnlyTheLastLeaves(t: Tables, id: SessionId, key: TopicKey, j: SessionId)
    requires Good(t) && key in t.live && key !in Detach(t, id, key).live
    requires j in t.sessions && j != id
    ensures key !in t.sessions[j].subs
  {
    var subs := t.all[t.live[key]].subs;
    assert subs - {id} == {};
    assert j in subs ==> j in subs - {id};
  }

  lemma UnsubscribeAgrees(t: Tables, id: SessionId, key: TopicKey)
    requires Good(t) && id in t.sessions && key in t.sessions[id].subs
    ensures Agreement(Unsubscribe(t, id, key))
  {
    var t' := Unsubscribe(t, id, key);
    DetachKeepsGenerations(t, id, key);
    forall j <- t'.sessions, k <- t'.live
      ensures k in t'.sessions[j].subs <==> j in t'.all[t'.live[k]].subs
    {
      assert k in t.sessions[j].subs <==> j in t.all[t.live[k]].subs;
    }
    forall j <- t'.sessions ensures t'.sessions[j].subs <= t'.live.Keys {
      if key !in t'.live && j != id {
        OnlyTheLastLeaves(t, id, key, j);
      }
    }
  }

  lemma UnsubscribeKeeps(t: Tables, id: SessionId, key: TopicKey)
    requires Good(t)
    ensures Good(Unsubscribe(t, id, key))
  {
    if id in t.sessions && key in t.sessions[id].subs {
      DetachKeepsGenerations(t, id, key);
      UnsubscribeAgrees(t, id, key);
    }
  }

  lemma AddSubKeeps(t: Tables, id: SessionId, key: TopicKey)
    requires Good(t) && id in t.sessions && key in t.live
    ensures Good(AddSub(t, id, key))
  {
  }

  lemma StartKeeps(t: Tables, id: SessionId, key: TopicKey)
    requires Good(t) && id in t.sessions && key !in t.live
    ensures Indexed(AddSub(NewUpstream(t, key), id, key)) && Generations(AddSub(NewUpstream(t, key), id, key))
    ensures Agreement(AddSub(NewUpstream(t, key), id, key))
  {
    forall k <- t.sessions ensures key !in t.sessions[k].subs {
    }
  }

  lemma CommitKeeps(t: Tables, id: SessionId, key: TopicKey, start: Start)
    requires Good(t)
    ensures Good(Commit(t, id, key, start).1)
  {
    if id in t.sessions {
      if key in t.live {
        AddSubKeeps(t, id, key);
      } else {
        StartKeeps(t, id, key);
      }
    }
  }

  lemma EndKeeps(t: Tables, g: nat)
    requires Good(t) && g < |t.all|
    ensures Good(End(t, g))
  {
  }
}
