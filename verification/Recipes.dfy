/** Login recipes that make one or two token requests (internal/recipe). The target's answers are inputs. */
module Recipes {
  import opened Basics
  import opened Sessions

  // ---- Expiry (recipe.go) ----

  type Int64 = x: int | -0x8000_0000_0000_0000 <= x < 0x8000_0000_0000_0000

  /** Two's complement wrap-around of a 64-bit result. */
  function Wrap64(x: int): Int64 {
    (x + 0x8000_0000_0000_0000) % 0x1_0000_0000_0000_0000 - 0x8000_0000_0000_0000
  }

  const MAX_SECONDS: Int64 := 0x4000_0000_0000_0000 / SECOND

  function ExpiresAt(expiresIn: Int64, now: Time): Time {
    if expiresIn <= 0 then ZERO_TIME
    else
      var s: Int64 := if expiresIn > MAX_SECONDS then MAX_SECONDS else expiresIn;
      now + Wrap64(s * SECOND)
  }

  /** The clamp keeps the product in range: the expiry is later than now, exact up to the clamp, and monotone. */
  lemma ExpiresLater(expiresIn: Int64, longer: Int64, now: Time)
    requires now > LONG_AGO && 0 < expiresIn <= longer
    ensures now < ExpiresAt(expiresIn, now) <= ExpiresAt(longer, now) <= now + 0x4000_0000_0000_0000
    ensures expiresIn <= 4_611_686_018 ==> ExpiresAt(expiresIn, now) == now + expiresIn * SECOND
    ensures ExpiresAt(expiresIn, now) != ZERO_TIME
  {
    assert MAX_SECONDS == 4_611_686_018;
  }

  /** Without the clamp a lifetime sent in milliseconds could wrap to the past. */
  lemma ClampIsNeeded()
    ensures exists expiresIn: Int64 :: expiresIn > 0 && Wrap64(expiresIn * SECOND) < 0
  {
    assert Wrap64(10_000_000_000 * SECOND) < 0;
  }

  // ---- OAuth2 (oauth.go) ----

  /** A token endpoint's answer; NoReply stands for a transport error or a body that does not decode. */
  datatype TokenReply = NoReply | Reply(status: int, accessToken: string, refreshToken: string, expiresIn: Int64)

  datatype Grant = Password | RefreshToken(token: string)

  datatype Post = Post(grant: Grant, reply: TokenReply)

  predicate Accepted(reply: TokenReply) {
    reply.Reply? && reply.status < 400 && reply.accessToken != ""
  }

  function Token(id: string, reply: TokenReply, prev: Option<Session>, now: Time): Option<Session> {
    if !Accepted(reply) then None
    else
      var refreshTok := if reply.refreshToken == "" && prev.Some? then prev.value.refreshToken else reply.refreshToken;
      Some(Session(id, [], reply.accessToken, refreshTok, "", map[], ExpiresAt(reply.expiresIn, now)))
  }

  /** The endpoint's answers to the requests that one recipe call may make, and when they arrive. */
  datatype Exchange = Exchange(first: TokenReply, firstAt: Time, second: TokenReply, secondAt: Time)

  function OAuthEstablish(id: string, x: Exchange): (Option<Session>, seq<Post>) {
    (Token(id, x.first, None, x.firstAt), [Post(Password, x.first)])
  }

  function OAuthRefresh(id: string, cur: Option<Session>, x: Exchange): (Option<Session>, seq<Post>) {
    if cur.None? || cur.value.refreshToken == "" then OAuthEstablish(id, x)
    else
      var renewed, post := Token(id, x.first, cur, x.firstAt), Post(RefreshToken(cur.value.refreshToken), x.first);
      if renewed.Some? then (renewed, [post])
      else (Token(id, x.second, None, x.secondAt), [post, Post(Password, x.second)])
  }

  /** An answer that grants a token: it arrived, its status is below 400, and it names an access token. */
  ghost predicate GrantsToken(reply: TokenReply, access: string) {
    exists status, refresh, expiresIn ::
      reply == Reply(status, access, refresh, expiresIn) && status < 400 && |access| > 0
  }

  /**
   * A refresh with a refresh token in hand. It sends that token first; if the answer grants one, no more
   * is sent. A refused refresh grant is followed by exactly one password grant, whose success is the refresh's.
   */
  lemma {:induction false} RefreshFallsBack(id: string, cur: Session, x: Exchange)
    requires cur.refreshToken != ""
    ensures var (sess, posts) := OAuthRefresh(id, Some(cur), x);
      && posts != [] && posts[0] == Post(RefreshToken(cur.refreshToken), x.first)
      && (|posts| == 1 <==> exists access :: GrantsToken(x.first, access))
      && (|posts| == 1 ==> sess.Some? && GrantsToken(x.first, sess.value.bearer))
      && (|posts| != 1 ==>
            && posts[1..] == [Post(Password, x.second)]
            && (sess.Some? <==> exists access :: GrantsToken(x.second, access))
            && (sess.Some? ==> GrantsToken(x.second, sess.value.bearer)))
  {
    TokenMeans(id, x.first, Some(cur), x.firstAt);
    TokenMeans(id, x.second, None, x.secondAt);
  }

  /** Without a refresh token there is just the password grant. */
  lemma {:induction false} RefreshWithoutToken(id: string, cur: Option<Session>, x: Exchange)
    requires cur.Some? ==> cur.value.refreshToken == ""
    ensures var (sess, posts) := OAuthRefresh(id, cur, x);
      && posts == [Post(Password, x.first)]
      && (sess.Some? <==> exists access :: GrantsToken(x.first, access))
      && (sess.Some? ==> GrantsToken(x.first, sess.value.bearer))
  {
    TokenMeans(id, x.first, None, x.firstAt);
  }

  lemma {:induction false} TokenMeans(id: string, reply: TokenReply, prev: Option<Session>, now: Time)
    ensures Token(id, reply, prev, now).Some? <==> exists access :: GrantsToken(reply, access)
    ensures var sess := Token(id, reply, prev, now);
      sess.Some? ==> GrantsToken(reply, sess.value.bearer) && sess.value.identity == id && sess.value.cookies == []
                     && sess.value.csrf == "" && sess.value.headers == map[]
  {
    if Token(id, reply, prev, now).Some? { assert GrantsToken(reply, reply.accessToken); }
  }

  /**
   * The refresh token a client must hold after these requests: the last non-empty one in an
   * accepted answer since, and including, the last accepted password grant; none if there is none.
   */
  function Held(posts: seq<Post>): string {
    if posts == [] then ""
    else
      var before, p := posts[..|posts| - 1], posts[|posts| - 1];
      if !Accepted(p.reply) then Held(before)
      else if p.reply.refreshToken != "" then p.reply.refreshToken
      else if p.grant.Password? then ""
      else Held(before)
  }

  lemma {:induction false} HeldAfter(posts: seq<Post>, p: Post)
    ensures Held(posts + [p]) ==
      if !Accepted(p.reply) then Held(posts)
      else if p.reply.refreshToken != "" then p.reply.refreshToken
      else if p.grant.Password? then "" else Held(posts)
  {
    assert (posts + [p])[..|posts|] == posts;
  }

  /** One refresh leaves the client holding what the requests say: the new session's token, or the old one if it fails. */
  lemma {:induction false} RefreshHolds(id: string, cur: Option<Session>, x: Exchange, earlier: seq<Post>)
    requires Held(earlier) == if cur.Some? then cur.value.refreshToken else ""
    ensures var (sess, posts) := OAuthRefresh(id, cur, x);
      && 1 <= |posts| <= 2
      && Held(earlier + posts) == (if sess.Some? then sess.value.refreshToken else Held(earlier))
      && (sess.Some? ==> HasMaterial(sess.value))
      && forall k :: 0 <= k < |posts| && posts[k].grant.RefreshToken? ==> posts[k].grant.token == Held(earlier) != ""
  {
    var (sess, posts) := OAuthRefresh(id, cur, x);
    HeldAfter(earlier, posts[0]);
    if |posts| == 2 {
      HeldAfter(earlier + [posts[0]], posts[1]);
      assert earlier + posts == earlier + [posts[0]] + [posts[1]];
    } else {
      assert earlier + posts == earlier + [posts[0]];
    }
  }

  // ---- Form login (formpost.go) ----

  /** A login endpoint's answer; the token fields are what decoding the body left, perhaps nothing. */
  datatype FormReply = NoFormReply
    | FormReply(status: int, cookies: seq<Cookie>, accessToken: string, refreshToken: string, expiresIn: Int64)

  function FormEstablish(id: string, reply: FormReply, now: Time): (sess: Option<Session>)
    ensures sess.Some? ==> sess.value.cookies != [] || sess.value.bearer != ""
    ensures sess.None? <==> reply.NoFormReply? || reply.status >= 400 || (reply.cookies == [] && reply.accessToken == "")
  {
    if reply.NoFormReply? || reply.status >= 400 then None
    else
      var sess := Session(id, reply.cookies, reply.accessToken, reply.refreshToken, "", map[], ExpiresAt(reply.expiresIn, now));
      if sess.cookies == [] && sess.bearer == "" then None else Some(sess)
  }
}
