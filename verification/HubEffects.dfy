/** What each event does to the hub, said in terms of who is registered and who receives what. */
module HubEffects {
  import opened HubModel
  import opened HubRuns

  /** A registration adds the session under its own identity, and nothing else. */
  lemma RegisteredStartsEmpty(s: State, id: SessionId, user: string, role: string)
    requires Good(s.t) && id !in s.t.sessions
    ensures var t' := Apply(s, Register(id, user, role)).t;
            Indexed(t') && t' == s.t.(sessions := s.t.sessions[id := Session(user, role, {})])
            && forall k :: Recipients(t', k) == Recipients(s.t, k) && id !in Recipients(t', k)
  {
    forall k ensures id !in Recipients(s.t, k) {}
  }

  /** A disconnected session is gone from both indexes, and takes along exactly the topics it was the last to follow. */
  lemma UnregisteredIsGone(s: State, id: SessionId)
    requires Good(s.t)
    ensures var t, t' := s.t, Apply(s, Unregister(id)).t;
            && Indexed(t') && t'.sessions == t.sessions - {id}
            && (forall k :: Recipients(t', k) == Recipients(t, k) - {id})
            && (forall k :: k in t'.live <==> k in t.live && Recipients(t, k) != {id})
  {
    var t, t' := s.t, Apply(s, Unregister(id)).t;
    UnregisterKeepsGenerations(t, id);
    forall k ensures Recipients(t', k) == Recipients(t, k) - {id}
      ensures k in t'.live <==> k in t.live && Recipients(t, k) != {id}
    {
      TopicAfterDetachAll(t, id, k);
    }
  }

  lemma TopicAfterDetachAll(t: Tables, id: SessionId, k: TopicKey)
    requires Good(t)
    ensures var t' := HubModel.Unregister(t, id);
            && Indexed(t') && Recipients(t', k) == Recipients(t, k) - {id}
            && (k in t'.live <==> k in t.live && Recipients(t, k) != {id})
  {
    UnregisterKeepsGenerations(t, id);
    if k in t.live {
      var subs := t.all[t.live[k]].subs;
      assert Recipients(t, k) == subs;
      assert subs - {id} == {} <==> subs == {id};
    }
  }

  /** The upstreams of the topics that went with it were cancelled and closed; the others go on as they were. */
  lemma UnregisterClosesTheLast(s: State, id: SessionId, k: TopicKey)
    requires Good(s.t) && k in s.t.live
    ensures var t, t' := s.t, Apply(s, Unregister(id)).t;
            var g := t.live[k];
            && g < |t'.all| && t'.all[g].key == k
            && (if Recipients(t, k) == {id} then t'.all[g].stopped && t'.all[g].cancels == t'.all[g].closes == 1
                else k in t'.live && t'.live[k] == g && !t'.all[g].stopped)
  {
    UnregisterKeeps(s.t, id);
    TopicAfterDetachAll(s.t, id, k);
  }

  /** An unsubscription takes out one session from one topic, which ends with its last follower. */
  lemma UnsubscribedIsOut(s: State, id: SessionId, key: TopicKey)
    requires Good(s.t)
    ensures var t, t' := s.t, Apply(s, Unsubscribe(id, key)).t;
            && Indexed(t') && t'.sessions.Keys == t.sessions.Keys
            && (forall j <- t.sessions ::
                  t'.sessions[j]
                  == if j == id then t.sessions[j].(subs := t.sessions[j].subs - {key}) else t.sessions[j])
            && (forall k :: Recipients(t', k) == if k == key then Recipients(t, k) - {id} else Recipients(t, k))
            && (forall k :: k in t'.live <==> k in t.live && !(k == key && Recipients(t, k) == {id}))
  {
    var t, t' := s.t, Apply(s, Unsubscribe(id, key)).t;
    DetachKeepsGenerations(t, id, key);
    if id in t.sessions && key in t.sessions[id].subs {
      forall k ensures Recipients(t', k) == if k == key then Recipients(t, k) - {id} else Recipients(t, k)
        ensures k in t'.live <==> k in t.live && !(k == key && Recipients(t, k) == {id})
      {
        TopicAfterDetach(t, id, key, k);
      }
    } else {
      assert id !in Recipients(t, key);
    }
  }

  lemma TopicAfterDetach(t: Tables, id: SessionId, key: TopicKey, k: TopicKey)
    requires Good(t) && id in t.sessions && key in t.sessions[id].subs
    ensures var t' := HubModel.Unsubscribe(t, id, key);
            && Indexed(t') && Recipients(t', k) == (if k == key then Recipients(t, k) - {id} else Recipients(t, k))
            && (k in t'.live <==> k in t.live && !(k == key && Recipients(t, k) == {id}))
  {
    DetachKeepsGenerations(t, id, key);
    if k in t.live {
      var subs := t.all[t.live[k]].subs;
      assert Recipients(t, k) == subs;
      assert subs - {id} == {} <==> subs == {id};
    }
  }

  /** The check passes exactly without a resolver, for an administrator, or for the resource's own non-empty owner. */
  lemma CheckPassesIff(s: State, id: SessionId, key: TopicKey, answer: Answer)
    requires Indexed(s.t) && id in s.t.sessions
    ensures var user, role := s.t.sessions[id].user, s.t.sessions[id].role;
            var resolver := key.kind in s.resolvers;
            Apply(s, Check(id, key, answer)) ==
              if !resolver || role == "admin" || (user != "" && answer == Owner(user))
              then s.(grants := s.grants + {Grant(id, key, user, role, resolver, answer)})
              else s
  {
  }

  lemma TopicAfterCommit(t: Tables, id: SessionId, key: TopicKey, start: Start, k: TopicKey)
    requires Good(t)
    ensures var (r, t') := HubModel.Commit(t, id, key, start);
            && Indexed(t')
            && Recipients(t', k) == if k == key && r == Ok then Recipients(t, k) + {id} else Recipients(t, k)
  {
    CommitKeeps(t, id, key, start);
    if id in t.sessions && key in t.sessions[id].subs {
      assert id in t.all[t.live[key]].subs;
    }
  }

  lemma SessionsAfterCommit(t: Tables, id: SessionId, key: TopicKey, start: Start)
    requires Good(t)
    ensures var (r, t') := HubModel.Commit(t, id, key, start);
            t'.sessions == if r == Ok then t.sessions[id := t.sessions[id].(subs := t.sessions[id].subs + {key})]
                           else t.sessions
  {
    if id in t.sessions && key in t.sessions[id].subs {
      assert t.sessions[id].subs + {key} == t.sessions[id].subs;
    }
  }

  /** A granted subscription succeeds exactly for a live session and a topic that is there or can be started. */
  lemma CommitSucceedsIff(s: State, id: SessionId, key: TopicKey, start: Start)
    requires Good(s.t) && Granted(s, id, key)
    ensures var t, t' := s.t, Apply(s, Commit(id, key, start)).t;
            var succeeds := id in t.sessions && (key in t.live || (!key.kind.Other? && start == Started));
            && (HubModel.Commit(t, id, key, start).0 == Ok <==> succeeds)
            && Indexed(t') && t'.sessions.Keys == t.sessions.Keys
            && (!succeeds ==> t' == t)
            && (succeeds ==> t'.sessions == t.sessions[id := t.sessions[id].(subs := t.sessions[id].subs + {key})])
            && (succeeds ==> forall k ::
                  Recipients(t', k) == if k == key then Recipients(t, k) + {id} else Recipients(t, k))
  {
    var t, t' := s.t, Apply(s, Commit(id, key, start)).t;
    assert t' == HubModel.Commit(t, id, key, start).1;
    CommitKeeps(t, id, key, start);
    SessionsAfterCommit(t, id, key, start);
    forall k ensures HubModel.Commit(t, id, key, start).0 == Ok ==>
      Recipients(t', k) == if k == key then Recipients(t, k) + {id} else Recipients(t, k)
    {
      TopicAfterCommit(t, id, key, start, k);
    }
  }

  /** A session that may follow a topic does receive it after both halves of `Subscribe`. */
  lemma SubscribeReaches(s: State, id: SessionId, key: TopicKey)
    requires Inv(s) && id in s.t.sessions && s.t.sessions[id].user != "" && !key.kind.Other?
    ensures var s1 := Apply(s, Check(id, key, Owner(s.t.sessions[id].user)));
            Inv(s1) && (var s2 := Apply(s1, Commit(id, key, Started));
                        Indexed(s2.t) && id in Recipients(s2.t, key))
  {
    var e := Check(id, key, Owner(s.t.sessions[id].user));
    var s1 := Apply(s, e);
    CheckPassesIff(s, id, key, e.answer);
    ApplyKeepsGood(s, e);
    ApplyKeepsAuthorised(s, e);
    var g := Grant(id, key, s.t.sessions[id].user, s.t.sessions[id].role, key.kind in s.resolvers, e.answer);
    assert g in s1.grants;
    CommitSucceedsIff(s1, id, key, Started);
  }

  /** The end of a running upstream forgets its topic everywhere and closes it; the end of any other changes nothing. */
  lemma EndedIsForgotten(s: State, g: nat)
    requires Good(s.t) && g < |s.t.all|
    ensures var t, t', up := s.t, Apply(s, End(g)).t, s.t.all[g];
            if up.key in t.live && t.live[up.key] == g then
              && Indexed(t') && t'.live == t.live - {up.key} && t'.sessions.Keys == t.sessions.Keys
              && (forall j <- t.sessions ::
                    t'.sessions[j] == t.sessions[j].(subs := t.sessions[j].subs - {up.key}))
              && (forall k :: Recipients(t', k) == if k == up.key then {} else Recipients(t, k))
              && t'.all == t.all[g := up.(stopped := true, cancels := 1, closes := 1)]
            else t' == t
  {
    var t, t', up := s.t, Apply(s, End(g)).t, s.t.all[g];
    if up.key in t.live && t.live[up.key] == g {
      forall j <- t.sessions
        ensures t'.sessions[j] == t.sessions[j].(subs := t.sessions[j].subs - {up.key})
      {
        if j !in up.subs {
          assert up.key !in t.sessions[j].subs;
          assert t.sessions[j].subs - {up.key} == t.sessions[j].subs;
        }
      }
      EndKeeps(t, g);
    }
  }
}
