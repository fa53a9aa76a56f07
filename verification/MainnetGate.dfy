/**
 The mainnet gate: one-shot tokens that live for ten minutes, and one register that keeps mainnet open for an
 hour after the last confirmation. The store keeps neither the tokens it has confirmed nor the times at which
 it did; the laws say that its register still agrees with the whole history.
 */
module MainnetGate {
  import opened Prelude

  /** Times are nanoseconds. */
  const SECOND: int := 1_000_000_000
  const REQUEST_TTL: int := 600 * SECOND
  const CONFIRMED_TTL: int := 3600 * SECOND

  /**
   One call under the store's lock, with the clock readings it makes: a request stamps the token and then
   sweeps, a confirmation checks the token and then stamps the window.
   */
  datatype Event =
    | Request(tok: string, at: int, later: int)
    | Confirm(tok: string, at: int, later: int)
    | Ask(at: int)

  datatype Reply = Issued | Confirmed | EnvDisabled | TokenUnknown | Allowed(yes: bool)

  datatype Store = Store(requested: map<string, int>, expiry: Option<int>)

  const EMPTY := Store(map[], None)

  function Swept(requested: map<string, int>, now: int): map<string, int> {
    map t | t in requested && now <= requested[t] :: requested[t]
  }

  function Answer(env: bool, s: Store, e: Event): Reply {
    match e
    case Request(_, _, _) => if env then Issued else EnvDisabled
    case Confirm(tok, at, _) =>
      if !env then EnvDisabled
      else if tok !in s.requested || at > s.requested[tok] then TokenUnknown
      else Confirmed
    case Ask(at) => Allowed(env && s.expiry.Some? && at < s.expiry.value)
  }

  /** `sweeps` is false for a store that never sweeps, which the code is compared with. */
  function Step(env: bool, sweeps: bool, s: Store, e: Event): Store {
    match e
    case Request(tok, at, later) =>
      var requested := s.requested[tok := at + REQUEST_TTL];
      if !env then s else s.(requested := if sweeps then Swept(requested, later) else requested)
    case Confirm(tok, _, later) =>
      if !env then s
      else Store(s.requested - {tok}, if Answer(env, s, e) == Confirmed then Some(later + CONFIRMED_TTL) else s.expiry)
    case Ask(_) => s
  }

  function After(env: bool, sweeps: bool, h: seq<Event>, n: nat): Store
    requires n <= |h|
  {
    if n == 0 then EMPTY else Step(env, sweeps, After(env, sweeps, h, n - 1), h[n - 1])
  }

  /** What call `k` of the history answered. */
  function Said(env: bool, sweeps: bool, h: seq<Event>, k: nat): Reply
    requires k < |h|
  {
    Answer(env, After(env, sweeps, h, k), h[k])
  }

  // ---- The store itself -------------------------------------------------------------------------------

  class TokenStore {
    const envEnabled: bool
    var requested: map<string, int>
    var confirmedExpiry: Option<int>

    ghost predicate Is(s: Store)
      reads this
    {
      requested == s.requested && confirmedExpiry == s.expiry
    }

    constructor (env: bool)
      ensures Is(EMPTY) && envEnabled == env
    {
      envEnabled := env;
      requested := map[];
      confirmedExpiry := None;
    }

    method CleanLocked(now: int)
      modifies this`requested
      ensures requested == Swept(old(requested), now)
      ensures requested.Keys <= old(requested).Keys && forall t <- requested :: requested[t] == old(requested)[t]
      ensures forall t <- old(requested) :: t in requested <==> old(requested)[t] >= now
    {
      var todo := requested.Keys;
      while todo != {}
        invariant todo <= requested.Keys <= old(requested).Keys
        invariant forall t <- requested :: requested[t] == old(requested)[t]
        invariant forall t <- old(requested) :: t !in todo ==> (t in requested <==> now <= old(requested)[t])
        decreases |todo|
      {
        var tok :| tok in todo;
        if now > requested[tok] {
          requested := requested - {tok};
        }
        todo := todo - {tok};
      }
    }

    method RequestToken(random: string, now: int, sweepNow: int, ghost s: Store) returns (r: Reply)
      requires Is(s)
      modifies this
      ensures Is(Step(envEnabled, true, s, Request(random, now, sweepNow)))
      ensures r == Answer(envEnabled, s, Request(random, now, sweepNow))
    {
      if !envEnabled {
        return EnvDisabled;
      }
      requested := requested[random := now + REQUEST_TTL];
      CleanLocked(sweepNow);
      return Issued;
    }

    method Redeem(token: string, now: int, openNow: int, ghost s: Store) returns (r: Reply)
      requires Is(s)
      modifies this
      ensures Is(Step(envEnabled, true, s, Confirm(token, now, openNow)))
      ensures r == Answer(envEnabled, s, Confirm(token, now, openNow))
    {
      if !envEnabled {
        return EnvDisabled;
      }
      if token !in requested || now > requested[token] {
        requested := requested - {token};
        return TokenUnknown;
      }
      requested := requested - {token};
      confirmedExpiry := Some(openNow + CONFIRMED_TTL);
      return Confirmed;
    }

    method IsAllowed(now: int, ghost s: Store) returns (yes: bool)
      requires Is(s)
      ensures Allowed(yes) == Answer(envEnabled, s, Ask(now))
    {
      if !envEnabled {
        return false;
      }
      yes := confirmedExpiry.Some? && now < confirmedExpiry.value;
    }
  }

  // ---- What the history says --------------------------------------------------------------------------

  predicate Mentions(e: Event, tok: string) {
    !e.Ask? && e.tok == tok
  }

  /** Request `j` is the last call about the token before confirmation `k`, and at most ten minutes old there. */
  predicate Redeems(h: seq<Event>, j: nat, k: nat) {
    && j < k < |h| && h[j].Request? && h[k].Confirm? && h[j].tok == h[k].tok
    && h[k].at <= h[j].at + 600_000_000_000
    && forall i | j < i < k :: !Mentions(h[i], h[k].tok)
  }

  ghost predicate Granted(h: seq<Event>, k: nat) {
    exists j: nat :: Redeems(h, j, k)
  }

  function End(e: Event): int {
    if e.Ask? then e.at else e.later
  }

  /**
   The clock does not run backwards, within a call or from one call to the next. The program's clock keeps this:
   its times never leave the process, so that they are compared by their monotonic readings, in the order of the lock.
   */
  predicate Forward(h: seq<Event>) {
    && (forall i | 0 <= i < |h| :: h[i].at <= End(h[i]))
    && (forall i, j | 0 <= i < j < |h| :: End(h[i]) <= h[j].at)
  }

  // ---- The token map without sweeping -------------------------------------------------------------------

  ghost predicate Pending(h: seq<Event>, n: nat, j: nat, tok: string) {
    && j < n <= |h| && h[j].Request? && h[j].tok == tok
    && forall i | j < i < n :: !Mentions(h[i], tok)
  }

  /** A token is in the map exactly if the last call about it was a request, with that request's expiry. */
  lemma {:induction false} TokensArePending(h: seq<Event>, n: nat, tok: string)
    requires n <= |h|
    ensures var r := After(true, false, h, n).requested;
      && (forall j: nat | Pending(h, n, j, tok) :: tok in r && r[tok] == h[j].at + REQUEST_TTL)
      && (tok in r ==> exists j: nat :: Pending(h, n, j, tok))
  {
    if n > 0 {
      TokensArePending(h, n - 1, tok);
      var e := h[n - 1];
      forall j: nat | Pending(h, n, j, tok) && j < n - 1 ensures Pending(h, n - 1, j, tok) {}
      if e.Request? && e.tok == tok {
        assert Pending(h, n, n - 1, tok);
      } else if tok in After(true, false, h, n).requested {
        var j: nat :| Pending(h, n - 1, j, tok);
        assert Pending(h, n, j, tok);
      }
    }
  }

  lemma UnsweptConfirms(h: seq<Event>, k: nat)
    requires k < |h| && h[k].Confirm?
    ensures Said(true, false, h, k) == Confirmed <==> Granted(h, k)
  {
    var tok := h[k].tok;
    TokensArePending(h, k, tok);
    if Said(true, false, h, k) == Confirmed {
      var j: nat :| Pending(h, k, j, tok);
      assert Redeems(h, j, k);
    }
    if Granted(h, k) {
      var j: nat :| Redeems(h, j, k);
      assert Pending(h, k, j, tok);
    }
  }

  // ---- Sweeping changes no answer --------------------------------------------------------------------------

  /** Only tokens that no later confirmation could redeem are missing. */
  predicate Trimmed(s: Store, u: Store, now: int) {
    && s.expiry == u.expiry
    && s.requested.Keys <= u.requested.Keys
    && (forall t <- s.requested :: s.requested[t] == u.requested[t])
    && (forall t <- u.requested :: t !in s.requested ==> u.requested[t] < now)
  }

  lemma StepTrims(env: bool, s: Store, u: Store, e: Event, now: int)
    requires Trimmed(s, u, now) && now <= e.at <= End(e)
    ensures Trimmed(Step(env, true, s, e), Step(env, false, u, e), End(e))
    ensures Answer(env, s, e) == Answer(env, u, e)
  {
  }

  lemma {:induction false} SweptIsTrimmed(env: bool, h: seq<Event>, n: nat)
    requires n <= |h| && Forward(h)
    ensures n == 0 ==> After(env, true, h, n) == After(env, false, h, n)
    ensures n > 0 ==> Trimmed(After(env, true, h, n), After(env, false, h, n), End(h[n - 1]))
  {
    if n > 0 {
      SweptIsTrimmed(env, h, n - 1);
      var now := if n == 1 then h[0].at else End(h[n - 2]);
      StepTrims(env, After(env, true, h, n - 1), After(env, false, h, n - 1), h[n - 1], now);
    }
  }

  /** With a clock that does not run backwards, sweeping never changes an answer. */
  lemma SweepingIsUnobservable(env: bool, h: seq<Event>, k: nat)
    requires k < |h| && Forward(h)
    ensures Said(env, true, h, k) == Said(env, false, h, k)
  {
    SweptIsTrimmed(env, h, k);
    var now := if k == 0 then h[0].at else End(h[k - 1]);
    StepTrims(env, After(env, true, h, k), After(env, false, h, k), h[k], now);
  }

  // ---- The laws ----------------------------------------------------------------------------------------------

  /** A confirmation succeeds exactly if an unconsumed request of its token, at most ten minutes old, precedes it. */
  lemma ConfirmedIffRequested(env: bool, h: seq<Event>, k: nat)
    requires k < |h| && Forward(h) && h[k].Confirm?
    ensures Said(env, true, h, k) == Confirmed <==> env && Granted(h, k)
    ensures Said(env, true, h, k) != Confirmed ==> Said(env, true, h, k) == if env then TokenUnknown else EnvDisabled
  {
    SweepingIsUnobservable(env, h, k);
    if env {
      UnsweptConfirms(h, k);
    }
  }

  /** Different successful confirmations redeem different requests: no request opens the gate twice. */
  lemma NoRequestIsRedeemedTwice(h: seq<Event>, j: nat, j': nat, k: nat, k': nat)
    requires Redeems(h, j, k) && Redeems(h, j', k') && k < k'
    ensures j != j'
    ensures h[k].tok == h[k'].tok ==> k < j'
  {
    if h[k].tok == h[k'].tok && j' <= k {
      assert j' < k;
      assert Mentions(h[k], h[k'].tok);
    }
  }

  /** The register without any assumption on the clock: it is the expiry of the last successful confirmation. */
  lemma {:induction false} RegisterIsTheLastConfirmation(env: bool, h: seq<Event>, n: nat) returns (last: Option<nat>)
    requires n <= |h|
    ensures match last
      case None => After(env, true, h, n).expiry == None && forall k | 0 <= k < n :: Said(env, true, h, k) != Confirmed
      case Some(k) =>
        && k < n && Said(env, true, h, k) == Confirmed && h[k].Confirm?
        && After(env, true, h, n).expiry == Some(h[k].later + 3_600_000_000_000)
        && forall i | k < i < n :: Said(env, true, h, i) != Confirmed
  {
    if n == 0 {
      last := None;
    } else {
      last := RegisterIsTheLastConfirmation(env, h, n - 1);
      if Said(env, true, h, n - 1) == Confirmed {
        last := Some(n - 1);
      }
    }
  }

  ghost predicate OpenAt(env: bool, h: seq<Event>, k: nat, t: int) {
    k < |h| && env && h[k].Confirm? && Granted(h, k) && t < h[k].later + 3_600_000_000_000
  }

  /** The gate is open exactly if the environment allows it and some confirmation succeeded within the last hour. */
  lemma OpenIffConfirmedWithinTheHour(env: bool, h: seq<Event>, n: nat)
    requires n < |h| && Forward(h) && h[n].Ask?
    ensures Said(env, true, h, n) == Allowed(true) <==> exists k: nat :: k < n && OpenAt(env, h, k, h[n].at)
  {
    var last := RegisterIsTheLastConfirmation(env, h, n);
    forall k: nat | k < n && h[k].Confirm?
      ensures Said(env, true, h, k) == Confirmed <==> env && Granted(h, k)
    {
      ConfirmedIffRequested(env, h, k);
    }
    if last.Some? {
      assert Said(env, true, h, n) == Allowed(true) ==> OpenAt(env, h, last.value, h[n].at);
    }
    forall k: nat | k < n && OpenAt(env, h, k, h[n].at) ensures Said(env, true, h, n) == Allowed(true) {
      assert Said(env, true, h, k) == Confirmed;
      assert k <= last.value;
    }
  }

  /** Without the environment's consent nothing is ever issued, kept, confirmed or allowed. */
  lemma {:induction false} DisabledKeepsNothing(sweeps: bool, h: seq<Event>, n: nat)
    requires n <= |h|
    ensures After(false, sweeps, h, n) == EMPTY
    ensures n < |h| ==> Said(false, sweeps, h, n) == if h[n].Ask? then Allowed(false) else EnvDisabled
  {
    if n > 0 {
      DisabledKeepsNothing(sweeps, h, n - 1);
    }
  }

  /** With it every request is issued, and can be confirmed at once. */
  lemma RequestedCanBeConfirmed(h: seq<Event>, k: nat)
    requires k + 1 < |h| && Forward(h) && h[k].Request? && h[k + 1].Confirm? && h[k + 1].tok == h[k].tok
    requires h[k + 1].at <= h[k].at + 600_000_000_000
    ensures Said(true, true, h, k) == Issued && Said(true, true, h, k + 1) == Confirmed
  {
    assert Redeems(h, k, k + 1);
    ConfirmedIffRequested(true, h, k + 1);
  }
}
