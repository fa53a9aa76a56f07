/**
 The hub as the program has it: session and upstream objects on the heap, shared between two maps and
 the fan-out goroutines. Every critical section is proved to do to the heap what `HubModel` does to its tables.
 */
module Hub {
  import M = HubModel
  import R = HubRuns

  type SessionId = M.SessionId
  type TopicKey = M.TopicKey

  class Session {
    const id: SessionId
    const user: string
    const role: string
    var subs: set<TopicKey>

    constructor (id: SessionId, user: string, role: string)
      ensures this.id == id && this.user == user && this.role == role && subs == {}
    {
      this.id, this.user, this.role, subs := id, user, role, {};
    }

    function View(): M.Session
      reads this
    {
      M.Session(user, role, subs)
    }
  }

  class Upstream {
    const key: TopicKey
    ghost const gen: nat
    var subs: set<SessionId>
    var stopped: bool
    var cancels: nat
    var closes: nat

    constructor (key: TopicKey, ghost gen: nat)
      ensures this.key == key && this.gen == gen && View() == M.Upstream(key, {}, false, 0, 0)
    {
      this.key, this.gen := key, gen;
      subs, stopped, cancels, closes := {}, false, 0, 0;
    }

    function View(): M.Upstream
      reads this
    {
      M.Upstream(key, subs, stopped, cancels, closes)
    }

    /** Marks the upstream stopped, cancels its context and closes its source. */
    method Stop()
      modifies this
      ensures View() == M.Stop(old(View()))
    {
      stopped := true;
      cancels := cancels + 1;
      closes := closes + 1;
    }
  }

  class Hub {
    var sessions: map<SessionId, Session>
    var upstream: map<TopicKey, Upstream>
    /** Every upstream ever created, in order. */
    ghost var all: seq<Upstream>

    /** The heap is in order, and shows exactly the tables `t`. */
    ghost predicate Is(t: M.Tables)
      reads this, sessions.Values, upstream.Values, all
    {
      IsSessions(t.sessions) && IsUpstreams(t.live, t.all)
    }

    ghost predicate IsSessions(ss: map<SessionId, M.Session>)
      reads this`sessions, sessions.Values
    {
      && sessions.Keys == ss.Keys
      && (forall a, b :: a in sessions && b in sessions && a != b ==> sessions[a] != sessions[b])
      && (forall id <- sessions :: sessions[id].View() == ss[id])
    }

    ghost predicate IsUpstreams(live: map<TopicKey, nat>, ups: seq<M.Upstream>)
      reads this`upstream, this`all, upstream.Values, all
    {
      && |all| == |ups|
      && (forall g :: 0 <= g < |all| ==> all[g].gen == g && all[g].View() == ups[g])
      && upstream.Keys == live.Keys
      && (forall k <- upstream :: live[k] < |all| && all[live[k]] == upstream[k] && upstream[k].key == k)
    }

    constructor ()
      ensures Is(M.Tables(map[], map[], []))
    {
      sessions, upstream, all := map[], map[], [];
    }

    method RegisterAuthed(id: SessionId, user: string, role: string, ghost t: M.Tables)
      requires Is(t)
      modifies this`sessions
      ensures Is(M.Register(t, id, user, role))
    {
      var s := new Session(id, user, role);
      sessions := sessions[id := s];
    }

    method DetachLocked(id: SessionId, key: TopicKey, ghost t: M.Tables)
      requires IsUpstreams(t.live, t.all) && M.Indexed(t)
      modifies this`upstream, upstream.Values
      ensures IsUpstreams(M.Detach(t, id, key).live, M.Detach(t, id, key).all)
      ensures upstream.Values <= old(upstream.Values)
    {
      if key !in upstream {
        return;
      }
      var up := upstream[key];
      up.subs := up.subs - {id};
      if up.subs == {} {
        up.Stop();
        upstream := upstream - {key};
      }
    }

    method Unsubscribe(id: SessionId, key: TopicKey, ghost t: M.Tables)
      requires Is(t) && M.Indexed(t)
      modifies this`upstream, upstream.Values, sessions.Values
      ensures Is(M.Unsubscribe(t, id, key))
    {
      if id !in sessions {
        return;
      }
      var s := sessions[id];
      if key !in s.subs {
        return;
      }
      ghost var ss := t.sessions[id := t.sessions[id].(subs := t.sessions[id].subs - {key})];
      SetTopics(s, id, s.subs - {key}, t);
      assert IsUpstreams(t.live, t.all);
      DetachLocked(id, key, t);
      assert IsSessions(ss);
    }

    method Unregister(id: SessionId, ghost t: M.Tables)
      requires Is(t) && M.Indexed(t)
      modifies this`sessions, this`upstream, upstream.Values
      ensures Is(M.Unregister(t, id))
    {
      if id !in sessions {
        return;
      }
      DetachEach(id, sessions[id].subs, t);
      sessions := sessions - {id};
    }

    method DetachEach(id: SessionId, keys: set<TopicKey>, ghost t: M.Tables)
      requires IsUpstreams(t.live, t.all) && M.Indexed(t)
      modifies this`upstream, upstream.Values
      ensures IsUpstreams(M.DetachAll(t, id, keys).live, M.DetachAll(t, id, keys).all)
    {
      var rest := keys;
      ghost var walked, now := {}, t;
      DetachNone(t, id);
      while rest != {}
        invariant walked !! rest && walked + rest == keys
        invariant now == M.DetachAll(t, id, walked) && M.Indexed(now)
        invariant IsUpstreams(now.live, now.all)
        invariant upstream.Values <= old(upstream.Values)
      {
        var key :| key in rest;
        rest := rest - {key};
        now := DetachNext(id, key, walked, t, now);
        walked := walked + {key};
      }
    }

    method DetachNext(id: SessionId, key: TopicKey, ghost walked: set<TopicKey>, ghost t: M.Tables, ghost now: M.Tables)
      returns (ghost then': M.Tables)
      requires M.Indexed(t) && key !in walked
      requires now == M.DetachAll(t, id, walked) && M.Indexed(now) && IsUpstreams(now.live, now.all)
      modifies this`upstream, upstream.Values
      ensures then' == M.DetachAll(t, id, walked + {key}) && M.Indexed(then') && IsUpstreams(then'.live, then'.all)
      ensures upstream.Values <= old(upstream.Values)
    {
      DetachOneMore(t, id, walked, key);
      DetachLocked(id, key, now);
      then' := M.Detach(now, id, key);
    }

    /** The first half of `Subscribe`: an ownership check on a snapshot of the session, under no lock. */
    method CheckSubscribe(id: SessionId, key: TopicKey, resolver: bool, answer: R.Answer) returns (allowed: bool)
      ensures allowed <==> id in sessions
                           && R.Justified(R.Grant(id, key, sessions[id].user, sessions[id].role, resolver, answer))
      ensures allowed <==> id in sessions
                           && (!resolver || sessions[id].role == "admin"
                               || (sessions[id].user != "" && answer == R.Owner(sessions[id].user)))
    {
      if id !in sessions {
        return false;
      }
      var user, role := sessions[id].user, sessions[id].role;
      if resolver && role != M.ADMIN {
        if answer.LookupFailed? {
          return false;
        }
        if answer.user == "" || answer.user != user {
          return false;
        }
      }
      return true;
    }

    /** The second half of `Subscribe`: the session is looked up again, and a missing upstream started. */
    method CommitSubscribe(id: SessionId, key: TopicKey, start: M.Start, ghost t: M.Tables) returns (r: M.Reply)
      requires Is(t) && M.Indexed(t)
      modifies this`upstream, this`all, upstream.Values, sessions.Values
      ensures r == M.Commit(t, id, key, start).0 && Is(M.Commit(t, id, key, start).1)
      ensures old(all) <= all
    {
      if id !in sessions {
        return M.UnknownSession;
      }
      var s := sessions[id];
      if key in s.subs {
        return M.Ok;
      }
      ghost var now := t;
      if key !in upstream {
        if key.kind.Other? {
          return M.UnknownKind;
        }
        if start != M.Started {
          return M.NotStarted(start);
        }
        StartUpstream(key, t);
        now := M.NewUpstream(t, key);
        assert IsSessions(t.sessions);
      }
      Bind(s, id, key, now);
      return M.Ok;
    }

    method StartUpstream(key: TopicKey, ghost t: M.Tables)
      requires IsUpstreams(t.live, t.all) && key !in t.live
      modifies this`upstream, this`all
      ensures IsUpstreams(M.NewUpstream(t, key).live, M.NewUpstream(t, key).all)
      ensures old(all) <= all && key in upstream && fresh(upstream[key])
      ensures upstream == old(upstream)[key := upstream[key]]
    {
      var started := new Upstream(key, |all|);
      all := all + [started];
      upstream := upstream[key := started];
    }

    /** Enters a subscription in both indexes. */
    method Bind(s: Session, id: SessionId, key: TopicKey, ghost t: M.Tables)
      requires Is(t) && id in sessions && sessions[id] == s && key in upstream
      modifies s, upstream[key]
      ensures Is(M.AddSub(t, id, key))
    {
      ghost var ups := M.AddSub(t, id, key).all;
      AddSubscriber(upstream[key], id, key, t);
      assert IsSessions(t.sessions);
      SetTopics(s, id, s.subs + {key}, t);
      assert IsUpstreams(t.live, ups);
    }

    method SetTopics(s: Session, id: SessionId, subs: set<TopicKey>, ghost t: M.Tables)
      requires IsSessions(t.sessions) && id in sessions && sessions[id] == s
      modifies s
      ensures IsSessions(t.sessions[id := t.sessions[id].(subs := subs)])
    {
      s.subs := subs;
    }

    method AddSubscriber(up: Upstream, id: SessionId, key: TopicKey, ghost t: M.Tables)
      requires IsUpstreams(t.live, t.all) && key in upstream && upstream[key] == up
      modifies up
      ensures var g := t.live[key]; IsUpstreams(t.live, t.all[g := t.all[g].(subs := t.all[g].subs + {id})])
    {
      up.subs := up.subs + {id};
    }

    /** What a fan-out goroutine does when its source has ended; `up` may be of any generation. */
    method HandleUpstreamEnd(up: Upstream, ghost t: M.Tables)
      requires Is(t) && up in all
      modifies this`upstream, up, sessions.Values
      ensures Is(M.End(t, up.gen))
    {
      if up.stopped {
        return;
      }
      Forget(up.subs, up.key, t);
      upstream := upstream - {up.key};
      up.Stop();
    }

    /** Takes a topic out of the given sessions. */
    method Forget(ids: set<SessionId>, key: TopicKey, ghost t: M.Tables)
      requires IsSessions(t.sessions)
      modifies sessions.Values
      ensures IsSessions(M.Forgotten(t.sessions, ids, key))
    {
      var rest := ids;
      while rest != {}
        invariant rest <= ids
        invariant IsSessions(M.Forgotten(t.sessions, ids - rest, key))
      {
        var id :| id in rest;
        ForgetOne(id, key, M.Forgotten(t.sessions, ids - rest, key));
        ForgottenOneMore(t.sessions, ids - rest, id, key);
        rest := rest - {id};
        assert ids - rest == ids - (rest + {id}) + {id};
      }
    }

    method ForgetOne(id: SessionId, key: TopicKey, ghost ss: map<SessionId, M.Session>)
      requires IsSessions(ss)
      modifies sessions.Values
      ensures IsSessions(M.Forgotten(ss, {id}, key))
    {
      if id in sessions {
        sessions[id].subs := sessions[id].subs - {key};
      }
    }

    /** The sessions to which the next event of a topic is written, each once. */
    method SnapshotSinks(key: TopicKey, ghost t: M.Tables) returns (sinks: seq<Session>)
      requires Is(t) && M.Indexed(t)
      ensures forall i, j :: 0 <= i < j < |sinks| ==> sinks[i] != sinks[j]
      ensures forall id <- sessions :: id in M.Recipients(t, key) <==> sessions[id] in sinks
      ensures forall s <- sinks :: s in sessions.Values
    {
      sinks := [];
      if key !in upstream {
        return;
      }
      var subs := upstream[key].subs;
      var rest := subs;
      while rest != {}
        invariant rest <= subs
        invariant forall i, j :: 0 <= i < j < |sinks| ==> sinks[i] != sinks[j]
        invariant forall id <- sessions :: id in subs - rest <==> sessions[id] in sinks
        invariant forall s <- sinks :: s in sessions.Values
      {
        var id :| id in rest;
        rest := rest - {id};
        if id in sessions {
          assert sessions[id] !in sinks;
          sinks := sinks + [sessions[id]];
        }
      }
    }
  }

  lemma DetachNone(t: M.Tables, id: SessionId)
    requires M.Indexed(t)
    ensures M.DetachAll(t, id, {}) == t
  {
    assert M.DetachAll(t, id, {}).all == t.all;
  }

  /** Detaching topics one by one is detaching them all. */
  lemma DetachOneMore(t: M.Tables, id: SessionId, keys: set<TopicKey>, key: TopicKey)
    requires M.Indexed(t) && key !in keys
    ensures M.Indexed(M.DetachAll(t, id, keys))
    ensures M.Detach(M.DetachAll(t, id, keys), id, key) == M.DetachAll(t, id, keys + {key})
  {
    var t1, t2 := M.DetachAll(t, id, keys), M.DetachAll(t, id, keys + {key});
    assert M.Detach(t1, id, key).all == t2.all;
    assert M.Detach(t1, id, key).live == t2.live;
  }

  lemma ForgottenOneMore(ss: map<SessionId, M.Session>, ids: set<SessionId>, id: SessionId, key: TopicKey)
    requires id !in ids
    ensures M.Forgotten(M.Forgotten(ss, ids, key), {id}, key) == M.Forgotten(ss, ids + {id}, key)
  {
  }
}
