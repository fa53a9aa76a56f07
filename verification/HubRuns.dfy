/**
 The hub over whole runs: any interleaving of registrations, both halves of `Subscribe`, unsubscribes,
 disconnects, resolver changes, and fan-out goroutines that find their upstream, old or new, finished.
 */
module HubRuns {
  import opened HubModel

  datatype Answer = Owner(user: string) | LookupFailed

  /** What the first half of a `Subscribe` saw: the session's identity, and the resolver's answer if one was asked. */
  datatype Grant = Grant(id: SessionId, key: TopicKey, user: string, role: string, resolver: bool, answer: Answer)

  /** The ownership rule. */
  predicate Justified(g: Grant) {
    || !g.resolver
    || g.role == ADMIN
    || (g.answer.Owner? && g.answer.user != "" && g.answer.user == g.user)
  }

  /** The tables, which kinds have a resolver, every session id ever used, and every check that passed. */
  datatype State = State(t: Tables, resolvers: set<Kind>, used: set<SessionId>, grants: set<Grant>)

  datatype Event =
    | Register(id: SessionId, user: string, role: string)
    | Unregister(id: SessionId)
    | Check(id: SessionId, key: TopicKey, answer: Answer)
    | Commit(id: SessionId, key: TopicKey, start: Start)
    | Unsubscribe(id: SessionId, key: TopicKey)
    | End(g: nat)
    | SetResolver(kind: Kind, on: bool)

  function GrantOf(s: State, id: SessionId, key: TopicKey, answer: Answer): Grant
    requires id in s.t.sessions
  {
    Grant(id, key, s.t.sessions[id].user, s.t.sessions[id].role, key.kind in s.resolvers, answer)
  }

  predicate Granted(s: State, id: SessionId, key: TopicKey) {
    exists g <- s.grants :: g.id == id && g.key == key
  }

  function Apply(s: State, e: Event): State
    requires Indexed(s.t)
  {
    match e
    case Register(id, user, role) => s.(t := HubModel.Register(s.t, id, user, role), used := s.used + {id})
    case Unregister(id) => s.(t := HubModel.Unregister(s.t, id))
    case Check(id, key, answer) =>
      if id in s.t.sessions && Justified(GrantOf(s, id, key, answer))
      then s.(grants := s.grants + {GrantOf(s, id, key, answer)}) else s
    case Commit(id, key, start) =>
      if Granted(s, id, key) then s.(t := HubModel.Commit(s.t, id, key, start).1) else s
    case Unsubscribe(id, key) => s.(t := HubModel.Unsubscribe(s.t, id, key))
    case End(g) => if g < |s.t.all| then s.(t := HubModel.End(s.t, g)) else s
    case SetResolver(kind, on) => s.(resolvers := if on then s.resolvers + {kind} else s.resolvers - {kind})
  }

  /** Session ids are never used twice. */
  predicate Fresh(s: State, e: Event) {
    e.Register? ==> e.id !in s.used
  }

  lemma ApplyKeepsGood(s: State, e: Event)
    requires Good(s.t) && (e.Register? ==> e.id !in s.t.sessions)
    ensures Good(Apply(s, e).t)
  {
    match e
    case Register(id, user, role) => RegisterKeeps(s.t, id, user, role);
    case Unregister(id) => UnregisterKeeps(s.t, id);
    case Commit(id, key, start) => CommitKeeps(s.t, id, key, start);
    case Unsubscribe(id, key) => UnsubscribeKeeps(s.t, id, key);
    case End(g) => if g < |s.t.all| { EndKeeps(s.t, g); }
    case _ =>
  }

  // ---- Authorisation -------------------------------------------------------------------------------

  /** The grant is sound and belongs to the session's own identity. */
  predicate Backs(s: State, g: Grant, id: SessionId, key: TopicKey) {
    g in s.grants && g.id == id && g.key == key && Justified(g)
    && id in s.t.sessions && g.user == s.t.sessions[id].user && g.role == s.t.sessions[id].role
  }

  predicate Authorised(s: State) {
    && s.t.sessions.Keys <= s.used
    && (forall g <- s.grants :: Justified(g) && g.id in s.used)
    && (forall g <- s.grants :: g.id in s.t.sessions ==>
          g.user == s.t.sessions[g.id].user && g.role == s.t.sessions[g.id].role)
    && (forall id <- s.t.sessions, key <- s.t.sessions[id].subs :: Granted(s, id, key))
  }

  /** No critical section but `Register` changes an identity, and only a granted commit adds a topic. */
  predicate OnlyLoses(t: Tables, t': Tables) {
    && t'.sessions.Keys <= t.sessions.Keys
    && forall id <- t'.sessions ::
         t'.sessions[id].user == t.sessions[id].user && t'.sessions[id].role == t.sessions[id].role
         && t'.sessions[id].subs <= t.sessions[id].subs
  }

  lemma LosingKeepsAuthorised(s: State, t': Tables)
    requires Authorised(s) && OnlyLoses(s.t, t')
    ensures Authorised(s.(t := t'))
  {
    forall id <- t'.sessions, key <- t'.sessions[id].subs ensures Granted(s.(t := t'), id, key) {
      assert key in s.t.sessions[id].subs;
      var g :| g in s.grants && g.id == id && g.key == key;
    }
  }

  lemma CommitKeepsAuthorised(s: State, id: SessionId, key: TopicKey, start: Start)
    requires Indexed(s.t) && Authorised(s) && Granted(s, id, key)
    ensures Authorised(s.(t := HubModel.Commit(s.t, id, key, start).1))
  {
    var s' := s.(t := HubModel.Commit(s.t, id, key, start).1);
    forall j <- s'.t.sessions, k <- s'.t.sessions[j].subs ensures Granted(s', j, k) {
      if k !in s.t.sessions[j].subs {
        assert j == id && k == key;
      }
      var g :| g in s.grants && g.id == j && g.key == k;
    }
  }

  lemma CheckKeepsAuthorised(s: State, g: Grant)
    requires Authorised(s) && g.id in s.t.sessions && Justified(g)
    requires g.user == s.t.sessions[g.id].user && g.role == s.t.sessions[g.id].role
    ensures Authorised(s.(grants := s.grants + {g}))
  {
    var s' := s.(grants := s.grants + {g});
    forall j <- s'.t.sessions, k <- s'.t.sessions[j].subs ensures Granted(s', j, k) {
      var h :| h in s.grants && h.id == j && h.key == k;
      assert h in s'.grants;
    }
  }

  lemma RegisterKeepsAuthorised(s: State, id: SessionId, user: string, role: string)
    requires Authorised(s) && id !in s.used
    ensures Authorised(s.(t := HubModel.Register(s.t, id, user, role), used := s.used + {id}))
  {
    var s' := s.(t := HubModel.Register(s.t, id, user, role), used := s.used + {id});
    forall j <- s'.t.sessions, k <- s'.t.sessions[j].subs ensures Granted(s', j, k) {
      assert j != id;
      var h :| h in s.grants && h.id == j && h.key == k;
    }
  }

  lemma ApplyKeepsAuthorised(s: State, e: Event)
    requires Good(s.t) && Authorised(s) && Fresh(s, e)
    ensures Authorised(Apply(s, e))
  {
    match e
    case Register(id, user, role) => RegisterKeepsAuthorised(s, id, user, role);
    case Unregister(id) => LosingKeepsAuthorised(s, HubModel.Unregister(s.t, id));
    case Check(id, key, answer) =>
      if id in s.t.sessions && Justified(GrantOf(s, id, key, answer)) {
        CheckKeepsAuthorised(s, GrantOf(s, id, key, answer));
      }
    case Commit(id, key, start) => if Granted(s, id, key) { CommitKeepsAuthorised(s, id, key, start); }
    case Unsubscribe(id, key) => LosingKeepsAuthorised(s, HubModel.Unsubscribe(s.t, id, key));
    case End(g) => if g < |s.t.all| { LosingKeepsAuthorised(s, HubModel.End(s.t, g)); }
    case SetResolver(kind, on) =>
  }

  // ---- Runs -----------------------------------------------------------------------------------------

  predicate Inv(s: State) {
    Good(s.t) && Authorised(s)
  }

  const EMPTY := State(Tables(map[], map[], []), {}, {}, {})

  /** `s'` is reached from `s` by `es`, with fresh session ids throughout. */
  predicate Runs(s: State, es: seq<Event>, s': State)
    decreases |es|
  {
    if es == [] then s == s'
    else Indexed(s.t) && Fresh(s, es[0]) && Runs(Apply(s, es[0]), es[1..], s')
  }

  lemma {:induction false} RunKeepsInv(s: State, es: seq<Event>, s': State)
    requires Inv(s) && Runs(s, es, s')
    ensures Inv(s')
    decreases |es|
  {
    if es != [] {
      assert es[0].Register? ==> es[0].id !in s.t.sessions;
      ApplyKeepsGood(s, es[0]);
      ApplyKeepsAuthorised(s, es[0]);
      RunKeepsInv(Apply(s, es[0]), es[1..], s');
    }
  }

  /** The two indexes agree after every run, and every topic in the map has a live subscriber. */
  lemma IndexesAgree(es: seq<Event>, s: State, id: SessionId, key: TopicKey)
    requires Runs(EMPTY, es, s)
    ensures Indexed(s.t)
    ensures id in s.t.sessions && key in s.t.sessions[id].subs <==> id in Recipients(s.t, key)
    ensures key in s.t.live ==> Recipients(s.t, key) != {}
  {
    RunKeepsInv(EMPTY, es, s);
    if key in s.t.live {
      var subs := s.t.all[s.t.live[key]].subs;
      assert subs * s.t.sessions.Keys == subs;
    }
  }

  /**
   Whoever is about to receive an event of a topic, also one read from an old upstream, passed the
   ownership check for that topic under the very identity its session has now.
   */
  lemma DeliveryIsAuthorised(es: seq<Event>, s: State, id: SessionId, key: TopicKey) returns (g: Grant)
    requires Runs(EMPTY, es, s)
    requires Indexed(s.t) && id in Recipients(s.t, key)
    ensures Backs(s, g, id, key)
    ensures id in s.t.sessions && g.user == s.t.sessions[id].user && g.role == s.t.sessions[id].role
    ensures !g.resolver || g.role == "admin" || (g.user != "" && g.answer == Owner(g.user))
  {
    RunKeepsInv(EMPTY, es, s);
    IndexesAgree(es, s, id, key);
    assert Granted(s, id, key);
    g :| g in s.grants && g.id == id && g.key == key;
  }

  // ---- Generations ----------------------------------------------------------------------------------

  /** Upstreams are never forgotten, and keep their topic. */
  predicate Extends(t: Tables, t': Tables) {
    |t.all| <= |t'.all| && forall g :: 0 <= g < |t.all| ==> t'.all[g].key == t.all[g].key
  }

  lemma {:induction false} RunExtends(s: State, es: seq<Event>, s': State)
    requires Runs(s, es, s')
    ensures Extends(s.t, s'.t)
    decreases |es|
  {
    if es != [] {
      RunExtends(Apply(s, es[0]), es[1..], s');
    }
  }

  /** After every run an upstream is running exactly if it is the one stored under its topic. */
  lemma RunningIffStored(es: seq<Event>, s: State, g: nat)
    requires Runs(EMPTY, es, s) && g < |s.t.all|
    ensures var up := s.t.all[g]; !up.stopped <==> up.key in s.t.live && s.t.live[up.key] == g
  {
    RunKeepsInv(EMPTY, es, s);
  }

  /** A goroutine that holds an upstream which is no longer the one in the map changes nothing. */
  lemma StaleGenerationsAreInert(es: seq<Event>, s: State, g: nat)
    requires Runs(EMPTY, es, s) && g < |s.t.all|
    requires s.t.all[g].key in s.t.live ==> s.t.live[s.t.all[g].key] != g
    ensures HubModel.End(s.t, g) == s.t
  {
    RunKeepsInv(EMPTY, es, s);
  }

  /**
   An upstream that is in the map has been neither cancelled nor closed. Once it has left the map it has
   been cancelled and closed exactly once, however many runs, goroutines and newer generations follow.
   */
  lemma ClosedExactlyOnce(s: State, es: seq<Event>, s': State, key: TopicKey)
    requires Inv(s) && Runs(s, es, s') && key in s.t.live
    ensures var g := s.t.live[key];
            && g < |s'.t.all| && s'.t.all[g].key == key
            && s'.t.all[g].cancels == s'.t.all[g].closes
               == if key in s'.t.live && s'.t.live[key] == g then 0 else 1
  {
    RunKeepsInv(s, es, s');
    RunExtends(s, es, s');
  }

  // ---- Subscribe and unsubscribe ---------------------------------------------------------------------

  /** A `Subscribe` that fails leaves everything as it was; one that succeeds makes the session a recipient. */
  lemma SubscribeIsAllOrNothing(t: Tables, id: SessionId, key: TopicKey, start: Start)
    requires Good(t)
    ensures var (r, t') := HubModel.Commit(t, id, key, start);
            (r != Ok ==> t' == t)
            && Indexed(t') && (r == Ok ==> id in Recipients(t', key))
            && forall k :: k != key ==> Recipients(t', k) == Recipients(t, k)
  {
    CommitKeeps(t, id, key, start);
  }

  lemma UndoesShared(t: Tables, id: SessionId, key: TopicKey)
    requires Good(t) && id in t.sessions && key !in t.sessions[id].subs && key in t.live
    ensures Indexed(AddSub(t, id, key)) && HubModel.Unsubscribe(AddSub(t, id, key), id, key) == t
  {
    var up := t.all[t.live[key]];
    assert id !in up.subs;
    assert up.subs + {id} - {id} == up.subs;
    assert t.sessions[id].subs + {key} - {key} == t.sessions[id].subs;
  }

  lemma UndoesStarted(t: Tables, id: SessionId, key: TopicKey)
    requires Good(t) && id in t.sessions && key !in t.sessions[id].subs && key !in t.live
    ensures var t1 := AddSub(NewUpstream(t, key), id, key);
            Indexed(t1) && HubModel.Unsubscribe(t1, id, key) == t.(all := t.all + [Upstream(key, {}, true, 1, 1)])
  {
    var t1 := AddSub(NewUpstream(t, key), id, key);
    assert t.sessions[id].subs + {key} - {key} == t.sessions[id].subs;
    assert {} + {id} == {id} && {id} - {id} == {};
    assert t1.live - {key} == t.live;
  }

  /** Unsubscribing undoes a new subscription: both maps return, and an upstream started for it stays behind stopped. */
  lemma UnsubscribeUndoesSubscribe(t: Tables, id: SessionId, key: TopicKey, start: Start)
    requires Good(t) && id in t.sessions && key !in t.sessions[id].subs
    requires HubModel.Commit(t, id, key, start).0 == Ok
    ensures Indexed(HubModel.Commit(t, id, key, start).1)
    ensures var t' := HubModel.Unsubscribe(HubModel.Commit(t, id, key, start).1, id, key);
            && t'.sessions == t.sessions && t'.live == t.live
            && t'.all == if key in t.live then t.all else t.all + [Upstream(key, {}, true, 1, 1)]
  {
    if key in t.live {
      UndoesShared(t, id, key);
    } else {
      UndoesStarted(t, id, key);
    }
  }

  // ---- Where fresh ids matter ------------------------------------------------------------------------

  /** Registering an id again keeps the indexes in agreement exactly when the id has no topics. */
  lemma ReRegistering(t: Tables, id: SessionId, user: string, role: string)
    requires Good(t)
    ensures Good(HubModel.Register(t, id, user, role)) <==> id !in t.sessions || t.sessions[id].subs == {}
  {
    if id in t.sessions && t.sessions[id].subs != {} {
      var key :| key in t.sessions[id].subs;
      assert id in t.all[t.live[key]].subs;
      assert key !in HubModel.Register(t, id, user, role).sessions[id].subs;
    }
  }

  /** With a re-used id, a `Subscribe` whose check passed for the former session completes for any new identity. */
  lemma FreshIdsAreNeeded(s: State, id: SessionId, key: TopicKey, user: string, role: string)
    requires Good(s.t) && id !in s.t.sessions && Granted(s, id, key) && !key.kind.Other?
    ensures var s1 := Apply(s, Register(id, user, role));
            && Indexed(s1.t) && Indexed(Apply(s1, Commit(id, key, Started)).t)
            && id in Recipients(Apply(s1, Commit(id, key, Started)).t, key)
            && Apply(s1, Commit(id, key, Started)).t.sessions[id].user == user
  {
    RegisterKeeps(s.t, id, user, role);
    var s1 := Apply(s, Register(id, user, role));
    var g :| g in s.grants && g.id == id && g.key == key;
    assert g in s1.grants;
    SubscribeIsAllOrNothing(s1.t, id, key, Started);
  }
}
