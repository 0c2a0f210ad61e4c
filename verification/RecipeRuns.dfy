/** The store's protocol together with the recipes it calls. */
module RecipeRuns {
  import opened Basics
  import opened Sessions
  import opened Protocol
  import opened ProtocolInvariant
  import opened ProtocolTheorems
  import opened Serving
  import opened Recipes
  import M = MultiStep
  import H = Headers
  import Limiter

  // ---- OAuth2 identities ----

  function ArgSession(e: Event, heap: seq<Session>): Option<Session> {
    if e.arg.Some? && e.arg.value < |heap| then Some(heap[e.arg.value]) else None
  }

  /** What OAuth2 does in the recipe call `e` when the endpoint answers `x`. */
  function OAuthCall(id: string, e: Event, x: Exchange, heap: seq<Session>): (Option<Session>, seq<Post>) {
    if Establishes(e) then OAuthEstablish(id, x) else OAuthRefresh(id, ArgSession(e, heap), x)
  }

  /** Every recipe call in the log is OAuth2 talking to an endpoint that gives these answers. */
  ghost predicate OAuthLog(id: string, s: State, xs: seq<Exchange>) {
    |xs| == |s.log| && forall i {:trigger OAuthEvent(id, s, i, xs[i])} :: 0 <= i < |s.log| ==> OAuthEvent(id, s, i, xs[i])
  }

  ghost predicate OAuthEvent(id: string, s: State, i: nat, x: Exchange)
    requires i < |s.log|
  {
    GrantLogged(s, i, OAuthCall(id, s.log[i], x, s.heap).0)
  }

  /** All token requests of the first `n` recipe calls, in order. */
  function Posts(id: string, s: State, xs: seq<Exchange>, n: nat): seq<Post>
    requires n <= |s.log| && n <= |xs|
  {
    if n == 0 then [] else Posts(id, s, xs, n - 1) + OAuthCall(id, s.log[n - 1], xs[n - 1], s.heap).1
  }

  /** The refresh token in the session at version `ver`. */
  function TokenAt(s: State, ver: nat): string
    requires ver <= |s.writes|
  {
    var p := PtrAt(s.writes, ver);
    if p.Some? && p.value < |s.heap| then s.heap[p.value].refreshToken else ""
  }

  lemma {:induction false} ReachableEvent(s: State, i: nat)
    requires Reachable(s) && i < |s.log|
    ensures EventOk(s, i)
  {
    ReachableInv(s);
  }

  lemma {:induction false} ReachableCopy(s: State, k: nat)
    requires Reachable(s) && k < |s.writes|
    ensures CopyOf(s, k)
  {
    ReachableInv(s);
  }

  lemma {:induction false} TokenTracks(id: string, s: State, xs: seq<Exchange>, n: nat)
    requires Reachable(s) && OAuthLog(id, s, xs) && n <= |s.log| && WriteCount(s.log[..n]) <= |s.writes|
    ensures TokenHeld(id, s, xs, n)
  {
    if n > 0 {
      CountAfter(s.log, n);
      TokenTracks(id, s, xs, n - 1);
      LoggedTokenStep(id, s, xs, n);
    }
  }

  /** After `n` recipe calls and their writes the session holds what their token requests call for. */
  ghost predicate TokenHeld(id: string, s: State, xs: seq<Exchange>, n: nat)
    requires n <= |s.log| == |xs| && WriteCount(s.log[..n]) <= |s.writes|
  {
    TokenAt(s, WriteCount(s.log[..n])) == Held(Posts(id, s, xs, n))
  }

  lemma {:induction false} CountAfter(log: seq<Event>, n: nat)
    requires 0 < n <= |log|
    ensures WriteCount(log[..n]) == WriteCount(log[..n - 1]) + if Writes(log[n - 1]) then 1 else 0
  {
    assert log[..n][..n - 1] == log[..n - 1];
  }

  lemma {:induction false} LoggedTokenStep(id: string, s: State, xs: seq<Exchange>, n: nat)
    requires Reachable(s) && OAuthLog(id, s, xs) && 0 < n <= |s.log|
    requires WriteCount(s.log[..n - 1]) <= WriteCount(s.log[..n]) <= |s.writes| && TokenHeld(id, s, xs, n - 1)
    ensures TokenHeld(id, s, xs, n)
  {
    var e, x, earlier := s.log[n - 1], xs[n - 1], Posts(id, s, xs, n - 1);
    CountAfter(s.log, n);
    ReachableEvent(s, n - 1);
    assert OAuthEvent(id, s, n - 1, x);
    TokenStep(id, s, n - 1, x, earlier);
  }

  lemma {:induction false} TokenStep(id: string, s: State, i: nat, x: Exchange, earlier: seq<Post>)
    requires Reachable(s) && i < |s.log| && EventOk(s, i) && OAuthEvent(id, s, i, x)
    requires var e := s.log[i]; e.ver + (if Writes(e) then 1 else 0) <= |s.writes| && TokenAt(s, e.ver) == Held(earlier)
    ensures var e := s.log[i];
      TokenAt(s, e.ver + if Writes(e) then 1 else 0) == Held(earlier + OAuthCall(id, e, x, s.heap).1)
  {
    var e := s.log[i];
    assert Establishes(e) ==> OAuthCall(id, e, x, s.heap) == OAuthRefresh(id, None, x);
    RefreshHolds(id, ArgSession(e, s.heap), x, earlier);
    if Writes(e) && e.reply.Refused? { ReachableCopy(s, e.ver); }
  }

  /**
   * The refresh token held for an OAuth2 identity is, whenever no flight is open, exactly what its
   * token requests call for, through answers that do not rotate it, failed grants, fallbacks to the
   * password grant, and expired copies (section 6 of RFC 6749).
   */
  lemma {:induction false} RefreshTokenTracked(id: string, s: State, xs: seq<Exchange>)
    requires Reachable(s) && s.flight.None? && OAuthLog(id, s, xs)
    ensures TokenAt(s, |s.writes|) == Held(Posts(id, s, xs, |s.log|))
    ensures s.cur.Some? ==> s.cur.value < |s.heap| && s.heap[s.cur.value].refreshToken == Held(Posts(id, s, xs, |s.log|))
  {
    ReachableInv(s);
    assert s.log[..|s.log|] == s.log;
    TokenTracks(id, s, xs, |s.log|);
  }

  /** Token requests made by the renewals among the first `n` calls that were admitted in [from, to). */
  function RenewalPosts(id: string, s: State, xs: seq<Exchange>, n: nat, from: Time, to: Time): nat
    requires n <= |s.log| && n <= |xs|
  {
    if n == 0 then 0
    else
      var e := s.log[n - 1];
      RenewalPosts(id, s, xs, n - 1, from, to)
      + if !Establishes(e) && from <= e.at < to then |OAuthCall(id, e, xs[n - 1], s.heap).1| else 0
  }

  lemma {:induction false} PostsPerRenewal(id: string, s: State, xs: seq<Exchange>, n: nat, from: Time, to: Time)
    requires n <= |s.log| && n <= |xs|
    ensures RenewalPosts(id, s, xs, n, from, to) <= 2 * Limiter.Count(Renewals(s.log[..n]), from, to)
  {
    if n > 0 {
      PostsPerRenewal(id, s, xs, n - 1, from, to);
      RenewalCounted(s.log, n, from, to);
      AtMostTwoPosts(id, s.log[n - 1], xs[n - 1], s.heap);
    }
  }

  lemma {:induction false} RenewalCounted(log: seq<Event>, n: nat, from: Time, to: Time)
    requires 0 < n <= |log|
    ensures var e := log[n - 1];
      Limiter.Count(Renewals(log[..n]), from, to)
        == Limiter.Count(Renewals(log[..n - 1]), from, to) + if !Establishes(e) && from <= e.at < to then 1 else 0
  {
    var before, e := Renewals(log[..n - 1]), log[n - 1];
    assert log[..n][..n - 1] == log[..n - 1];
    if !Establishes(e) {
      assert (before + [e.at])[..|before|] == before;
    }
  }

  lemma {:induction false} AtMostTwoPosts(id: string, e: Event, x: Exchange, heap: seq<Session>)
    ensures 1 <= |OAuthCall(id, e, x, heap).1| <= 2
  {
  }

  /**
   * However many requests run into a logout signal, an established OAuth2 identity causes at most
   * two token requests for each refresh admitted in a window, and Get no longer logs in from nothing.
   */
  lemma {:induction false} AuthTrafficBound(id: string, s: State, xs: seq<Exchange>, from: Time)
    requires Reachable(s) && |xs| == |s.log|
    ensures RenewalPosts(id, s, xs, |s.log|, from, from + s.cfg.window) <= 2 * s.cfg.maxBurst
    ensures forall i :: 0 <= i < |s.log| && s.log[i].ver > 0 ==> !Establishes(s.log[i])
  {
    assert s.log[..|s.log|] == s.log;
    PostsPerRenewal(id, s, xs, |s.log|, from, from + s.cfg.window);
    RateBound(s, from, s.cfg.window);
    NoLoginOnceEstablished(s);
  }

  lemma {:induction false} NoLoginOnceEstablished(s: State)
    requires Reachable(s)
    ensures forall i :: 0 <= i < |s.log| && s.log[i].ver > 0 ==> !Establishes(s.log[i])
  {
    ReachableInv(s);
    forall i | 0 <= i < |s.log| && s.log[i].ver > 0 ensures !Establishes(s.log[i]) {
      assert EventOk(s, i);
    }
  }

  // ---- What the upstream is shown ----

  /** The CSRF policy sets none of the headers that a session sets. */
  predicate Aside(csrfHeader: string, csrfToken: string) {
    csrfHeader != "" && csrfToken != "" ==> H.Canon(csrfHeader) !in {"Cookie", "Authorization", "X-Csrf-Token"}
  }

  /** With a session that OAuth2 was granted, the upstream is shown the access token of the very answer that granted it. */
  lemma {:induction false} OAuthAuthorizes(id: string, reply: TokenReply, prev: Option<Session>, now: Time,
                                           client: H.Header, csrfHeader: string, csrfToken: string)
    requires Token(id, reply, prev, now).Some? && Aside(csrfHeader, csrfToken)
    ensures reply.Reply? && reply.status < 400 && reply.accessToken != ""
    ensures H.Outbound(client, Token(id, reply, prev, now), csrfHeader, csrfToken, "Authorization") == ["Bearer " + reply.accessToken]
  {
    H.SessionCarried(client, Token(id, reply, prev, now).value, csrfHeader, csrfToken);
  }

  /** With a session from a form login, it is shown the answer's access token, if any, and, after the client's, the answer's cookies. */
  lemma {:induction false} FormAuthorizes(id: string, reply: FormReply, now: Time,
                                          client: H.Header, csrfHeader: string, csrfToken: string)
    requires FormEstablish(id, reply, now).Some? && Aside(csrfHeader, csrfToken)
    ensures reply.FormReply? && reply.status < 400
    ensures reply.accessToken != "" ==>
      H.Outbound(client, FormEstablish(id, reply, now), csrfHeader, csrfToken, "Authorization") == ["Bearer " + reply.accessToken]
    ensures reply.cookies != [] && (forall c :: c in reply.cookies ==> H.Readable(c)) ==>
      var cookie := H.Outbound(client, FormEstablish(id, reply, now), csrfHeader, csrfToken, "Cookie");
      |cookie| == 1 && H.ParseCookies(cookie[0]) == H.ParseCookies(H.First(H.Values(H.EndToEnd(client), "Cookie"))) + reply.cookies
    ensures FormEstablish(id, reply, now).value.expiresAt == ExpiresAt(reply.expiresIn, now)
  {
    var sess := FormEstablish(id, reply, now).value;
    if forall c :: c in sess.cookies ==> H.Readable(c) {
      H.SessionCarried(client, sess, csrfHeader, csrfToken);
    } else {
      H.SessionCarried(client, sess.(cookies := []), csrfHeader, csrfToken);
    }
  }

  // ---- Session material ----

  /**
   * If every session that the recipe grants carries a cookie or a bearer token, then so does every
   * session that the entry ever holds, expired copies included.
   */
  lemma {:induction false} StoredMaterial(s: State, k: nat)
    requires Reachable(s) && k < |s.writes|
    requires forall i :: 0 <= i < |s.log| && s.log[i].reply.Fresh? && s.log[i].reply.p < |s.heap| ==>
               HasMaterial(s.heap[s.log[i].reply.p])
    ensures s.writes[k].p < |s.heap| && (s.heap[s.writes[k].p].cookies != [] || s.heap[s.writes[k].p].bearer != "")
  {
    ReachableInv(s);
    assert CopyOf(s, k);
    if s.writes[k].Invalidated? {
      StoredMaterial(s, k - 1);
    } else {
      var i := WritingCall(s.log, k);
      assert EventOk(s, i);
    }
  }

  /** An OAuth2 identity never holds a session without a bearer token. */
  lemma {:induction false} OAuthStoresMaterial(id: string, s: State, xs: seq<Exchange>, k: nat)
    requires Reachable(s) && OAuthLog(id, s, xs) && k < |s.writes|
    ensures s.writes[k].p < |s.heap| && (s.heap[s.writes[k].p].cookies != [] || s.heap[s.writes[k].p].bearer != "")
  {
    forall i | 0 <= i < |s.log| && s.log[i].reply.Fresh? && s.log[i].reply.p < |s.heap|
      ensures HasMaterial(s.heap[s.log[i].reply.p])
    {
      assert OAuthEvent(id, s, i, xs[i]);
    }
    StoredMaterial(s, k);
  }

  /** Every recipe call in the log is a form login that the endpoint answers with `xs[i]` at `at[i]`. */
  ghost predicate FormLog(id: string, s: State, xs: seq<FormReply>, at: seq<Time>) {
    |xs| == |at| == |s.log| && forall i :: 0 <= i < |s.log| ==> GrantLogged(s, i, FormEstablish(id, xs[i], at[i]))
  }

  /** Recipe call `i` granted just `sess`, or failed. */
  ghost predicate GrantLogged(s: State, i: nat, sess: Option<Session>)
    requires i < |s.log|
  {
    var e := s.log[i];
    if sess.None? then e.reply.Refused? else e.reply.Fresh? && e.reply.p < |s.heap| && s.heap[e.reply.p] == sess.value
  }

  /** Nor does a form identity hold a session without a cookie and without a token. */
  lemma {:induction false} FormStoresMaterial(id: string, s: State, xs: seq<FormReply>, at: seq<Time>, k: nat)
    requires Reachable(s) && FormLog(id, s, xs, at) && k < |s.writes|
    ensures s.writes[k].p < |s.heap| && (s.heap[s.writes[k].p].cookies != [] || s.heap[s.writes[k].p].bearer != "")
  {
    forall i | 0 <= i < |s.log| && s.log[i].reply.Fresh? && s.log[i].reply.p < |s.heap|
      ensures HasMaterial(s.heap[s.log[i].reply.p])
    {
      assert GrantLogged(s, i, FormEstablish(id, xs[i], at[i]));
    }
    StoredMaterial(s, k);
  }

  /** Every recipe call in the log runs the flow `fs[i]` and comes to `rs[i]`. */
  ghost predicate MultiStepLog(id: string, s: State, fs: seq<M.Flow>, rs: seq<Option<Session>>) {
    && |fs| == |rs| == |s.log|
    && forall i :: 0 <= i < |s.log| ==> |fs[i].steps| == |fs[i].replies| && M.Yields(id, fs[i], rs[i]) && GrantLogged(s, i, rs[i])
  }

  /** Nor does a multistep identity. */
  lemma {:induction false} MultiStepStoresMaterial(id: string, s: State, fs: seq<M.Flow>, rs: seq<Option<Session>>, k: nat)
    requires Reachable(s) && MultiStepLog(id, s, fs, rs) && k < |s.writes|
    ensures s.writes[k].p < |s.heap| && (s.heap[s.writes[k].p].cookies != [] || s.heap[s.writes[k].p].bearer != "")
  {
    forall i | 0 <= i < |s.log| && s.log[i].reply.Fresh? && s.log[i].reply.p < |s.heap|
      ensures HasMaterial(s.heap[s.log[i].reply.p])
    {
      assert GrantLogged(s, i, rs[i]);
      M.YieldsMaterial(id, fs[i], rs[i]);
    }
    StoredMaterial(s, k);
  }

  // ---- Expiry ----

  /** What a recipe was answered when it granted a session. */
  datatype Login = TokenGrant(reply: TokenReply, prev: Option<Session>) | FormLogin(form: FormReply) | StepLogin(flow: M.Flow)

  /** The session that a recipe makes of the answer `how` at `now`. */
  ghost predicate Makes(id: string, how: Login, now: Time, sess: Session) {
    match how
    case TokenGrant(reply, prev) => Token(id, reply, prev, now) == Some(sess)
    case FormLogin(reply) => FormEstablish(id, reply, now) == Some(sess)
    case StepLogin(f) => |f.steps| == |f.replies| && M.Yields(id, f, Some(sess))
  }

  lemma {:induction false} MadeUnexpired(id: string, how: Login, now: Time, sess: Session)
    requires Makes(id, how, now, sess) && now > LONG_AGO
    ensures InTime(sess, now)
  {
    match how
    case TokenGrant(reply, prev) => if reply.expiresIn > 0 { ExpiresLater(reply.expiresIn, reply.expiresIn, now); }
    case FormLogin(reply) => if reply.expiresIn > 0 { ExpiresLater(reply.expiresIn, reply.expiresIn, now); }
    case StepLogin(f) =>
  }

  /** Whatever a call of thread `t` is granted comes from one of these recipes, dated by the clock of the run. */
  ghost predicate GrantsMade(states: seq<State>, acts: seq<Action>, t: Tid, id: string, hows: seq<Login>)
    requires |states| == |acts| + 1
  {
    && |hows| == |acts|
    && forall c {:trigger Grants(states, acts, c, t)} :: 0 <= c < |acts| && Grants(states, acts, c, t) ==> Makes(id, hows[c], states[c].clock, acts[c].answer.sess)
  }

  /** With OAuth2, form and multistep logins, Get only ever returns a session that was live inside the call. */
  lemma {:induction false} RecipesServeLive(states: seq<State>, acts: seq<Action>, j: nat, t: Tid, id: string, hows: seq<Login>)
    requires Run(states, acts) && j < |states| && t < |states[j].threads|
    requires var th := states[j].threads[t]; th.kind.Get? && th.pc.Done? && th.pc.result.Ok?
    requires GrantsMade(states, acts, t, id, hows)
    ensures LiveInside(states, t, states[j].threads[t].pc.result.sess, j)
  {
    forall c | 0 <= c < j && Grants(states, acts, c, t) ensures InTime(acts[c].answer.sess, states[c].clock) {
      RunClock(states, acts, c);
      MadeUnexpired(id, hows[c], states[c].clock, acts[c].answer.sess);
    }
    GetLiveExactly(states, acts, j, t);
  }

  /**
   * A session that OAuth2 was granted is served by every Get that looks at the entry from then on,
   * without a recipe call, until its lifetime has passed, or for good if the answer named none,
   * unless a Refresh intervenes.
   */
  lemma {:induction false} ServedForItsLifetime(states: seq<State>, acts: seq<Action>, i: nat, j: nat, t: Tid,
                                                id: string, reply: TokenReply, prev: Option<Session>, grantedAt: Time)
    requires Run(states, acts) && i <= j < |states|
    requires states[i].cur.Some? && !Pending(Holder(states[i])) && states[i].cur.value < |states[i].heap|
    requires Token(id, reply, prev, grantedAt) == Some(states[i].heap[states[i].cur.value])
    requires reply.expiresIn > 0 ==> states[j].clock <= ExpiresAt(reply.expiresIn, grantedAt)
    requires forall k :: |states[i].log| <= k < |states[j].log| ==> states[j].log[k].kind.Get?
    requires t < |states[i].threads| ==> states[i].threads[t].pc.Snap?
    ensures states[j].log == states[i].log && ServedFromEntry(states[j], t, states[i].cur)
  {
    CachedSessionServed(states, acts, i, j, t);
  }
}
