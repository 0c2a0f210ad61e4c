/**
 * One gateway serving requests one at a time (internal/gateway/gateway.go, retry.go and
 * internal/recipe/signature.go). The store, the upstream and the clock answer as they please.
 */
module Gateway {
  import opened Basics
  import opened Sessions
  import opened Headers
  import Paths

  const CSRF_TTL: Time := 30 * SECOND

  datatype Request = Request(verb: string, url: Paths.Url, query: string, headers: Header, body: string)

  datatype Response = Response(status: int, headers: Header, body: string)

  // ---- Which requests and answers are special ----

  function Upper(s: string): string {
    if s == "" then "" else [CanonChar(s[0], true)] + Upper(s[1..])
  }

  predicate IsIdempotent(verb: string) {
    Upper(verb) in {"GET", "HEAD", "PUT", "DELETE", "OPTIONS", "TRACE"}
  }

  datatype LogoutSignature = LogoutSignature(statusCodes: seq<int>, locationContains: string, bodyContains: string)

  /** Capitals throughout, and nothing else changed. */
  lemma {:induction false} UpperMeans(s: string, i: nat)
    requires i < |s|
    ensures |Upper(s)| == |s| && if 97 <= s[i] as int <= 122 then CapitalOf(s[i], Upper(s)[i]) else Upper(s)[i] == s[i]
  {
    if i > 0 { UpperMeans(s[1..], i - 1); } else if |s| > 1 { UpperMeans(s[1..], 0); }
  }

  lemma {:induction false} UpperLength(s: string)
    ensures |Upper(s)| == |s|
  {
    if s != "" { UpperMeans(s, 0); }
  }

  lemma {:induction false} UpperSame(a: string, b: string)
    ensures Upper(a) == Upper(b) <==> SameIgnoringCase(a, b)
  {
    UpperLength(a);
    UpperLength(b);
    if |a| == |b| {
      forall i | 0 <= i < |a| ensures Upper(a)[i] == Upper(b)[i] <==> SameLetter(a[i], b[i]) {
        UpperMeans(a, i);
        UpperMeans(b, i);
      }
      if SameIgnoringCase(a, b) { assert forall i :: 0 <= i < |a| ==> Upper(a)[i] == Upper(b)[i]; }
    }
  }

  /** The methods that may be retried, in any letter case. */
  predicate SafeMethod(verb: string) {
    || SameIgnoringCase(verb, "GET") || SameIgnoringCase(verb, "HEAD") || SameIgnoringCase(verb, "PUT")
    || SameIgnoringCase(verb, "DELETE") || SameIgnoringCase(verb, "OPTIONS") || SameIgnoringCase(verb, "TRACE")
  }

  predicate PostOrPatch(verb: string) {
    SameIgnoringCase(verb, "POST") || SameIgnoringCase(verb, "PATCH")
  }

  lemma {:induction false} CapitalsMatch(verb: string, m: string)
    requires forall i :: 0 <= i < |m| ==> 65 <= m[i] as int <= 90
    ensures SameIgnoringCase(verb, m) <==> Upper(verb) == m
  {
    UpperLength(m);
    forall i | 0 <= i < |m| ensures Upper(m)[i] == m[i] {
      UpperMeans(m, i);
    }
    assert Upper(m) == m;
    UpperSame(verb, m);
  }

  lemma {:induction false} IdempotentMeans(verb: string)
    ensures IsIdempotent(verb) <==> SafeMethod(verb)
  {
    CapitalsMatch(verb, "GET");
    CapitalsMatch(verb, "HEAD");
    CapitalsMatch(verb, "PUT");
    CapitalsMatch(verb, "DELETE");
    CapitalsMatch(verb, "OPTIONS");
    CapitalsMatch(verb, "TRACE");
  }

  lemma {:induction false} PostNotIdempotent(verb: string)
    requires PostOrPatch(verb)
    ensures !IsIdempotent(verb)
  {
    CapitalsMatch(verb, "POST");
    CapitalsMatch(verb, "PATCH");
    assert "POST"[1] == 'O' && "PATCH"[1] == 'A';
  }

  predicate Contains(s: string, part: string) {
    exists i :: 0 <= i <= |s| && part <= s[i..]
  }

  predicate Matches(sig: LogoutSignature, resp: Response) {
    || resp.status in sig.statusCodes
    || (sig.locationContains != "" && Contains(First(Values(resp.headers, "Location")), sig.locationContains))
    || (sig.bodyContains != "" && Contains(resp.body, sig.bodyContains))
  }

  /** `part` occurs in `s`. */
  ghost predicate Holds(s: string, part: string) {
    exists before, after :: s == before + part + after
  }

  lemma {:induction false} ContainsMeans(s: string, part: string)
    ensures Contains(s, part) <==> Holds(s, part)
  {
    if Contains(s, part) {
      var i :| 0 <= i <= |s| && part <= s[i..];
      assert s == s[..i] + part + s[i + |part|..];
    }
    if Holds(s, part) {
      var before, after :| s == before + part + after;
      assert s[|before|..] == part + after;
    }
  }

  /** An answer looks logged out by its status, by its first Location line, or by its body; an empty criterion never applies. */
  lemma {:induction false} MatchesMeans(sig: LogoutSignature, resp: Response)
    ensures Matches(sig, resp) <==>
      || (exists i :: 0 <= i < |sig.statusCodes| && sig.statusCodes[i] == resp.status)
      || (sig.locationContains != "" && "Location" in resp.headers && resp.headers["Location"] != []
          && Holds(resp.headers["Location"][0], sig.locationContains))
      || (sig.bodyContains != "" && Holds(resp.body, sig.bodyContains))
  {
    ContainsMeans(First(Values(resp.headers, "Location")), sig.locationContains);
    ContainsMeans(resp.body, sig.bodyContains);
  }

  datatype CSRFPolicy = CSRFPolicy(fetchURL: string, pattern: string, header: string, methods: set<string>)

  const STATE_CHANGING: set<string> := {"POST", "PUT", "DELETE", "PATCH"}

  function Normalized(methods: seq<string>): set<string> {
    set m | m in methods && Trim(m) != "" :: Upper(Trim(m))
  }

  /** `compiles` is the verdict on the pattern; one that does not compile is refused. */
  method NewCSRFPolicy(fetchURL: string, pattern: string, compiles: bool, header: string, methods: seq<string>) returns (pol: Option<CSRFPolicy>)
    ensures pol.None? <==> !compiles
    ensures pol.Some? ==>
      && pol.value.fetchURL == fetchURL && pol.value.pattern == pattern && pol.value.header == header && pol.value.methods != {}
      && pol.value.methods == if Normalized(methods) == {} then STATE_CHANGING else Normalized(methods)
  {
    if !compiles { return None; }
    var ms := {};
    for i := 0 to |methods|
      invariant ms == Normalized(methods[..i])
    {
      assert methods[..i + 1] == methods[..i] + [methods[i]];
      var m := Upper(Trim(methods[i]));
      UpperEmpty(Trim(methods[i]));
      if m != "" { ms := ms + {m}; }
    }
    assert methods[..|methods|] == methods;
    if ms == {} {
      ms := STATE_CHANGING;
      assert "POST" in ms;
    }
    pol := Some(CSRFPolicy(fetchURL, pattern, header, ms));
  }

  lemma UpperEmpty(s: string)
    ensures Upper(s) == "" <==> s == ""
  {
  }

  /** A request is covered exactly if its method is configured, up to letter case and surrounding space. */
  lemma {:induction false} NormalizedCovers(methods: seq<string>, verb: string)
    ensures Upper(verb) in Normalized(methods) <==>
      exists i :: 0 <= i < |methods| && Trim(methods[i]) != "" && SameIgnoringCase(Trim(methods[i]), verb)
  {
    if Upper(verb) in Normalized(methods) {
      var m :| m in methods && Trim(m) != "" && Upper(verb) == Upper(Trim(m));
      UpperSame(Trim(m), verb);
    }
    if i :| 0 <= i < |methods| && Trim(methods[i]) != "" && SameIgnoringCase(Trim(methods[i]), verb) {
      UpperSame(Trim(methods[i]), verb);
      assert methods[i] in methods;
    }
  }

  /** By default the four state-changing methods are covered. */
  lemma {:induction false} DefaultCovers(verb: string)
    ensures Upper(verb) in STATE_CHANGING <==>
      || SameIgnoringCase(verb, "POST") || SameIgnoringCase(verb, "PUT")
      || SameIgnoringCase(verb, "DELETE") || SameIgnoringCase(verb, "PATCH")
  {
    CapitalsMatch(verb, "POST");
    CapitalsMatch(verb, "PUT");
    CapitalsMatch(verb, "DELETE");
    CapitalsMatch(verb, "PATCH");
  }

  // ---- The token cache as a log ----

  datatype CachedToken = CachedToken(value: string, at: Time)

  /** What concerns sessions and tokens, in order; `call` numbers the goroutines that call one entry of the store. */
  datatype Event =
    | Got(id: string, call: nat, sess: Option<Session>)  // what a store.Get returned
    | Fetched(id: string, token: CachedToken)            // stored in the cache
    | FetchFailed(id: string, at: Time)
    | Served(id: string, value: string, at: Time)        // returned to a request
    | Reauthenticated(id: string, call: nat)             // a store.Refresh that succeeded

  /** The token fetched last for `id`, unless a reauthentication came later. */
  function LastFetch(log: seq<Event>, id: string): Option<CachedToken> {
    if log == [] then None
    else
      var e := log[|log| - 1];
      if e.Fetched? && e.id == id then Some(e.token)
      else if e.Reauthenticated? && e.id == id then None
      else LastFetch(log[..|log| - 1], id)
  }

  function LastFetchWith(before: seq<Event>, e: Event, id: string): Option<CachedToken> {
    if e.id == id && e.Fetched? then Some(e.token) else if e.id == id && e.Reauthenticated? then None else LastFetch(before, id)
  }

  /** A fetch is tried only when there is no live token; what is served is the live token. */
  ghost predicate EventAllowed(before: seq<Event>, e: Event) {
    var last := LastFetch(before, e.id);
    match e
    case Fetched(_, token) => last.None? || token.at - last.value.at >= CSRF_TTL
    case FetchFailed(_, at) => last.None? || at - last.value.at >= CSRF_TTL
    case Served(_, value, at) => last.Some? && last.value.value == value && at - last.value.at < CSRF_TTL
    case Got(_, _, _) => true
    case Reauthenticated(_, _) => true
  }

  ghost predicate LogAllowed(log: seq<Event>) {
    forall i {:trigger EventAllowed(log[..i], log[i])} :: 0 <= i < |log| ==> EventAllowed(log[..i], log[i])
  }

  /** Where the live token comes from. */
  lemma {:induction false} FetchBehind(log: seq<Event>, n: nat, id: string) returns (f: nat)
    requires n <= |log| && LastFetch(log[..n], id).Some?
    ensures f < n && log[f] == Fetched(id, LastFetch(log[..n], id).value)
    ensures forall k :: f < k < n && log[k].id == id ==> !log[k].Fetched? && !log[k].Reauthenticated?
  {
    var e := log[n - 1];
    assert log[..n][..n - 1] == log[..n - 1] && log[..n][n - 1] == e;
    if e.Fetched? && e.id == id {
      f := n - 1;
    } else {
      f := FetchBehind(log, n - 1, id);
    }
  }

  /** Every token served was fetched less than the lifetime ago, and nobody reauthenticated since. */
  lemma {:induction false} ServedIsLive(log: seq<Event>, i: nat) returns (f: nat)
    requires LogAllowed(log) && i < |log| && log[i].Served?
    ensures f < i && log[f].Fetched? && log[f].id == log[i].id && log[f].token.value == log[i].value
    ensures log[i].at - log[f].token.at < 30_000_000_000
    ensures forall k :: f < k < i ==> !(log[k].Reauthenticated? && log[k].id == log[i].id)
  {
    assert EventAllowed(log[..i], log[i]);
    f := FetchBehind(log, i, log[i].id);
  }

  lemma {:induction false} FetchRemembered(log: seq<Event>, i: nat, n: nat, id: string)
    requires LogAllowed(log) && i < n <= |log| && log[i].Fetched? && log[i].id == id
    requires forall k :: i < k < n ==> !(log[k].Reauthenticated? && log[k].id == id)
    ensures LastFetch(log[..n], id).Some? && LastFetch(log[..n], id).value.at >= log[i].token.at
  {
    var e := log[n - 1];
    assert log[..n][..n - 1] == log[..n - 1] && log[..n][n - 1] == e;
    if i < n - 1 {
      FetchRemembered(log, i, n - 1, id);
      assert EventAllowed(log[..n - 1], e);
    }
  }

  /** Two fetches for one identity are a lifetime apart unless it reauthenticated in between. */
  lemma {:induction false} FetchesApart(log: seq<Event>, i: nat, j: nat)
    requires LogAllowed(log) && i < j < |log| && log[i].Fetched? && log[j].Fetched? && log[i].id == log[j].id
    requires forall k :: i < k < j ==> !(log[k].Reauthenticated? && log[k].id == log[i].id)
    ensures log[j].token.at - log[i].token.at >= 30_000_000_000
  {
    FetchRemembered(log, i, j, log[i].id);
    assert EventAllowed(log[..j], log[j]);
  }

  // ---- What one request may cause ----

  /** What a gateway is set up with. */
  datatype Config = Config(recipes: map<string, LogoutSignature>, csrf: map<string, CSRFPolicy>, target: Paths.Url, audited: bool)
  {
    /** The identity is managed and has a policy that covers the method. */
    predicate Covered(id: string, verb: string) {
      id in recipes && id in csrf && Upper(verb) in csrf[id].methods
    }
  }

  /** A CSRF header and the token to set; both are empty if there is none. */
  datatype Token = Token(header: string, value: string)

  const NO_TOKEN: Token := Token("", "")

  /**
   * What the world does in one attempt: the session and the token that a token fetch would get, whether
   * the request can be built, the session that store.Get would return, and the upstream's answer, None
   * if sending fails or the answer does not arrive whole.
   */
  datatype Env = Env(tokenSession: Option<Session>, tokenValue: Option<string>,
                     built: bool, session: Option<Session>, answer: Option<Response>)

  predicate WellFormed(env: Env) {
    && (env.session.Some? ==> CanonicalNames(env.session.value.headers))
    && (env.answer.Some? ==> CanonicalNames(env.answer.value.headers))
  }

  /** What it does while one request is served: at the first attempt, at the reauthentication, at the retry. */
  datatype World = World(first: Env, renewed: bool, retry: Env)

  /**
   * One attempt to forward: the log when its CSRF token was chosen, that token, the store.Get made for
   * it if any, the session applied, the request if it was sent, and the answer if one came back whole.
   */
  datatype Forward = Forward(env: Env, log: seq<Event>, token: Token, got: seq<Event>, sess: Option<Session>,
                             req: Option<Request>, answer: Option<Response>)

  /** A call of store.Refresh and whether it succeeded. */
  datatype Renewal = Renewal(id: string, call: nat, ok: bool)

  /** The reauthentications in the log, in order. */
  function Reauthed(log: seq<Event>): seq<(string, nat)> {
    if log == [] then []
    else
      var e := log[|log| - 1];
      Reauthed(log[..|log| - 1]) + if e.Reauthenticated? then [(e.id, e.call)] else []
  }

  /** The calls of store.Refresh that succeeded. */
  function Renewed(renewals: seq<Renewal>): seq<(string, nat)> {
    if renewals == [] then []
    else
      var r := renewals[|renewals| - 1];
      Renewed(renewals[..|renewals| - 1]) + if r.ok then [(r.id, r.call)] else []
  }

  datatype Audit = Audit(id: string, verb: string, path: Paths.Bytes, status: int)

  datatype Reply = Forbidden | BadGateway | Passed(resp: Response)

  /** What is sent for `r`, apart from headers: its method, query and body, and the joined path. */
  predicate Delivers(cfg: Config, r: Request, f: Forward) {
    && (f.answer.Some? ==> f.req.Some?)
    && (f.req.Some? ==> var req := f.req.value;
        req.verb == r.verb && req.query == r.query && req.body == r.body && req.url == Paths.JoinPaths(cfg.target, r.url))
  }

  /**
   * The session applied is the one that store.Get has just returned for this attempt, and the headers
   * sent are those of the outbound pipeline for it.
   */
  ghost predicate HeadersBuilt(cfg: Config, r: Request, id: string, f: Forward) {
    && (f.got == [] || (id in cfg.recipes && |f.got| == 1 && f.got[0].Got? && f.got[0].id == id && f.got[0].sess == f.sess))
    && (f.req.Some? ==>
          && f.sess.Some? == (id in cfg.recipes) && (id in cfg.recipes ==> f.got != [])
          && Carries(f.req.value.headers, r.headers, f.sess, f.token.header, f.token.value))
  }

  ghost predicate Carries(sent: Header, client: Header, sess: Option<Session>, csrfHeader: string, csrfToken: string) {
    NoEmpty(sent) && forall k :: Values(sent, k) == Outbound(client, sess, csrfHeader, csrfToken, k)
  }

  /** The token for a request that the policy covers was served just now, or, if that failed, is `given`. */
  ghost predicate Chosen(cfg: Config, id: string, verb: string, given: Token, log: seq<Event>, token: Token) {
    if cfg.Covered(id, verb) then
      && log != [] && var e := log[|log| - 1];
      && e.id == id && ((e.Served? && token == Token(cfg.csrf[id].header, e.value)) || (e.FetchFailed? && token == given))
    else
      token == given
  }

  /**
   * Nothing is left undone: the request is sent if it can be built and, for a managed identity, there is
   * a session; its answer is the upstream's; and a token fetch fails only if the world makes it fail.
   */
  ghost predicate AsPossible(cfg: Config, verb: string, id: string, f: Forward) {
    && (f.got != [] <==> f.env.built && id in cfg.recipes)
    && f.sess == (if f.got != [] then f.env.session else None)
    && (f.req.Some? <==> f.env.built && (id in cfg.recipes ==> f.sess.Some?))
    && f.answer == (if f.req.Some? then f.env.answer else None)
    && (cfg.Covered(id, verb) && f.log != [] && f.log[|f.log| - 1].FetchFailed? ==> FetchFails(f.env))
  }

  predicate FetchFails(env: Env) {
    env.tokenSession.None? || env.tokenValue.None?
  }

  ghost predicate Attempt(cfg: Config, r: Request, id: string, given: Token, f: Forward) {
    && Chosen(cfg, id, r.verb, given, f.log, f.token) && Delivers(cfg, r, f) && HeadersBuilt(cfg, r, id, f)
    && AsPossible(cfg, r.verb, id, f)
  }

  /** The attempts and the reauthentication went as the world would have it. */
  ghost predicate Played(w: World, fs: seq<Forward>, renewals: seq<Renewal>) {
    && (fs != [] ==> fs[0].env == w.first) && (|fs| >= 2 ==> fs[1].env == w.retry)
    && (renewals != [] ==> renewals[0].ok == w.renewed)
  }

  /** The identity is managed and the answer looks logged out. */
  predicate LoggedOut(cfg: Config, id: string, answer: Option<Response>) {
    id in cfg.recipes && answer.Some? && Matches(cfg.recipes[id], answer.value)
  }

  /** The answer to the latest attempt that was answered whole. */
  function LatestAnswer(fs: seq<Forward>): Option<Response> {
    if fs == [] then None
    else if fs[|fs| - 1].answer.Some? then fs[|fs| - 1].answer
    else LatestAnswer(fs[..|fs| - 1])
  }

  /**
   * How often a request is sent to the upstream: `fs` are the attempts to forward it and `renewals`
   * the calls of store.Refresh.
   */
  predicate Sends(cfg: Config, r: Request, id: string, fs: seq<Forward>, renewals: seq<Renewal>) {
    && 1 <= |fs| <= 2 && (forall i :: 0 <= i < |fs| ==> Delivers(cfg, r, fs[i]))
    && |renewals| == (if LoggedOut(cfg, id, fs[0].answer) then 1 else 0)
    && (renewals != [] ==> renewals[0].id == id)
    && (|fs| == 2 <==> renewals != [] && renewals[0].ok && IsIdempotent(r.verb))
  }

  /** Moreover each attempt has its headers and token; a retry chooses its token after the reauthentication. */
  ghost predicate Exchanged(cfg: Config, r: Request, id: string, fs: seq<Forward>, renewals: seq<Renewal>) {
    && Sends(cfg, r, id, fs, renewals)
    && Attempt(cfg, r, id, NO_TOKEN, fs[0])
    && (|fs| == 2 ==> Attempt(cfg, r, id, fs[0].token, fs[1]) && fs[0].log + fs[0].got + [Reauthenticated(id, renewals[0].call)] <= fs[1].log)
  }

  /** The headers of the client's answer: the end-to-end ones of the upstream's. */
  ghost predicate RelaysHeaders(h: Header, upstream: Header) {
    Extends(h, map[], upstream, Dropped(upstream), {})
  }

  /** What the client gets, apart from headers, and the audit records of this request. */
  predicate Answers(cfg: Config, r: Request, id: string, fs: seq<Forward>, audits: seq<Audit>, reply: Reply)
  {
    var last := LatestAnswer(fs);
    if last.None? then
      reply == BadGateway && audits == []
    else
      && reply.Passed? && reply.resp.status == last.value.status && reply.resp.body == last.value.body
      && audits == if cfg.audited then [Audit(id, r.verb, r.url.path, last.value.status)] else []
  }

  ghost predicate Replied(cfg: Config, r: Request, id: string, fs: seq<Forward>, audits: seq<Audit>, reply: Reply)
  {
    && Answers(cfg, r, id, fs, audits, reply)
    && (reply.Passed? && LatestAnswer(fs).Some? ==> RelaysHeaders(reply.resp.headers, LatestAnswer(fs).value.headers))
  }

  /** The outcome of serving `r`. */
  ghost predicate Outcome(cfg: Config, r: Request, id: string,
                          fs: seq<Forward>, renewals: seq<Renewal>, audits: seq<Audit>, reply: Reply)
  {
    if fs == [] then
      renewals == [] && audits == [] && !reply.Passed?
    else
      Exchanged(cfg, r, id, fs, renewals) && Replied(cfg, r, id, fs, audits, reply)
  }

  /** Attempts that reached the upstream. */
  function Deliveries(fs: seq<Forward>): nat {
    if fs == [] then 0 else Deliveries(fs[1..]) + if fs[0].req.Some? then 1 else 0
  }

  /**
   * Over every choice of answers a request is delivered at most twice, and twice only if its method
   * is idempotent, the first answer was a logout signal and the one refresh succeeded; both
   * deliveries then carry the same method, URL, query and body.
   */
  lemma {:induction false} DeliveredOnce(cfg: Config, r: Request, id: string, fs: seq<Forward>, renewals: seq<Renewal>)
    requires Sends(cfg, r, id, fs, renewals)
    ensures 0 <= Deliveries(fs) <= 2 && |renewals| <= 1
    ensures !IsIdempotent(r.verb) ==> Deliveries(fs) <= 1
    ensures Deliveries(fs) == 2 ==>
      && |fs| == 2 && IsIdempotent(r.verb) && LoggedOut(cfg, id, fs[0].answer) && renewals[0].id == id && renewals[0].ok
      && fs[0].req.Some? && fs[1].req.Some?
      && var a, b := fs[0].req.value, fs[1].req.value; SameDelivery(a, b) && a.verb == r.verb && a.body == r.body
  {
    if |fs| == 2 { TwoAttempts(fs); } else { assert fs[1..] == []; }
  }

  /** The retry of a covered request carries a token fetched after the reauthentication, or, if that fetch failed, the first one. */
  lemma {:induction false} RetryToken(cfg: Config, r: Request, id: string, fs: seq<Forward>, renewals: seq<Renewal>)
    returns (fetched: bool, i: nat)
    requires Exchanged(cfg, r, id, fs, renewals) && |fs| == 2 && LogAllowed(fs[1].log) && cfg.Covered(id, r.verb)
    ensures if fetched then
        && |fs[0].log + fs[0].got| < i < |fs[1].log| && fs[1].log[i].Fetched? && fs[1].log[i].id == id
        && fs[1].token == Token(cfg.csrf[id].header, fs[1].log[i].token.value)
      else
        fs[1].token == fs[0].token && fs[1].log[|fs[1].log| - 1].FetchFailed?
  {
    fetched, i := ChosenAfter(cfg, id, r.verb, fs[0].token, fs[0].log + fs[0].got, renewals[0].call, fs[1].log, fs[1].token);
  }

  lemma {:induction false} ChosenAfter(cfg: Config, id: string, verb: string, given: Token,
                                       before: seq<Event>, call: nat, log: seq<Event>, token: Token)
    returns (fetched: bool, i: nat)
    requires LogAllowed(log) && before + [Reauthenticated(id, call)] <= log
    requires cfg.Covered(id, verb) && Chosen(cfg, id, verb, given, log, token)
    ensures if fetched then
        |before| < i < |log| && log[i].Fetched? && log[i].id == id && token == Token(cfg.csrf[id].header, log[i].token.value)
      else
        token == given && log[|log| - 1].FetchFailed?
  {
    fetched, i := log[|log| - 1].Served?, 0;
    if fetched {
      i := ServedIsLive(log, |log| - 1);
      assert log[|before|] == Reauthenticated(id, call);
    }
  }

  /** The two deliveries carry two sessions, one that store.Get returned before the reauthentication and one from after it. */
  lemma {:induction false} RetrySession(cfg: Config, r: Request, id: string, fs: seq<Forward>, renewals: seq<Renewal>,
                                        before: seq<Event>, log: seq<Event>) returns (first: nat, again: nat)
    requires Exchanged(cfg, r, id, fs, renewals) && |fs| == 2 && fs[1].req.Some? && MadeBetween(fs, before, log)
    ensures |before| <= first && first + 1 < again < |log|
    ensures log[first].Got? && log[first].id == id && log[first].sess == fs[0].sess
    ensures log[first + 1].Reauthenticated? && log[first + 1].id == id
    ensures log[again].Got? && log[again].id == id && log[again].sess == fs[1].sess
    ensures Carries(fs[0].req.value.headers, r.headers, fs[0].sess, fs[0].token.header, fs[0].token.value)
    ensures Carries(fs[1].req.value.headers, r.headers, fs[1].sess, fs[1].token.header, fs[1].token.value)
  {
    first, again := |fs[0].log|, |fs[1].log|;
    var start := fs[0].log + fs[0].got + [Reauthenticated(id, renewals[0].call)];
    assert start[first] == fs[0].got[0] && start[first + 1] == Reauthenticated(id, renewals[0].call);
    assert (fs[1].log + fs[1].got)[again] == fs[1].got[0];
  }

  /** POST and PATCH, in any letter case, are delivered once; after a reauthentication the other six are retried, and only they. */
  ghost predicate RetriedByMethod(r: Request, fs: seq<Forward>, renewals: seq<Renewal>) {
    && (PostOrPatch(r.verb) ==> |fs| <= 1 && Deliveries(fs) <= 1)
    && (renewals != [] && renewals[0].ok ==> (|fs| == 2 <==> SafeMethod(r.verb)))
    && (|fs| == 2 ==> renewals != [] && renewals[0].ok)
  }

  lemma {:induction false} MethodsRetried(cfg: Config, r: Request, id: string, fs: seq<Forward>, renewals: seq<Renewal>)
    requires Sends(cfg, r, id, fs, renewals)
    ensures RetriedByMethod(r, fs, renewals)
  {
    DeliveredOnce(cfg, r, id, fs, renewals);
    IdempotentMeans(r.verb);
    if PostOrPatch(r.verb) { PostNotIdempotent(r.verb); }
  }

  predicate SameDelivery(a: Request, b: Request) {
    a.verb == b.verb && a.url == b.url && a.query == b.query && a.body == b.body
  }

  lemma {:induction false} TwoAttempts(fs: seq<Forward>)
    requires |fs| == 2
    ensures Deliveries(fs) == (if fs[0].req.Some? then 1 else 0) + (if fs[1].req.Some? then 1 else 0)
  {
    var rest := fs[1..];
    assert rest[0] == fs[1] && rest[1..] == [];
    assert Deliveries(rest) == Deliveries(rest[1..]) + if rest[0].req.Some? then 1 else 0;
  }

  /** Attempt `i` was answered whole, and no later one was. */
  predicate AnsweredLast(fs: seq<Forward>, i: int) {
    0 <= i < |fs| && fs[i].answer.Some? && forall j :: i < j < |fs| ==> fs[j].answer.None?
  }

  lemma {:induction false} LatestAnswerAt(fs: seq<Forward>) returns (i: nat)
    ensures LatestAnswer(fs).Some? ==> AnsweredLast(fs, i) && LatestAnswer(fs) == fs[i].answer
    ensures LatestAnswer(fs).None? ==> forall j :: 0 <= j < |fs| ==> fs[j].answer.None?
  {
    i := 0;
    if fs != [] {
      if fs[|fs| - 1].answer.Some? {
        i := |fs| - 1;
      } else {
        i := LatestAnswerAt(fs[..|fs| - 1]);
      }
    }
  }

  /**
   * The client gets an answer exactly if some attempt was answered whole; it is the answer to the last
   * such attempt, and the audit record, if any is kept, has its status.
   */
  ghost predicate LastWins(cfg: Config, r: Request, id: string, fs: seq<Forward>, audits: seq<Audit>, reply: Reply) {
    && (reply.Passed? <==> exists i :: AnsweredLast(fs, i))
    && (!reply.Passed? ==> audits == [])
    && forall i :: AnsweredLast(fs, i) ==> PassesOn(cfg, r, id, fs[i].answer.value, audits, reply)
  }

  predicate PassesOn(cfg: Config, r: Request, id: string, resp: Response, audits: seq<Audit>, reply: Reply) {
    && reply.Passed? && reply.resp.status == resp.status && reply.resp.body == resp.body
    && audits == if cfg.audited then [Audit(id, r.verb, r.url.path, resp.status)] else []
  }

  lemma {:induction false} LastDeliveryWins(cfg: Config, r: Request, id: string, fs: seq<Forward>, audits: seq<Audit>, reply: Reply)
    requires Answers(cfg, r, id, fs, audits, reply)
    ensures LastWins(cfg, r, id, fs, audits, reply)
  {
    var n := LatestAnswerAt(fs);
    forall i | AnsweredLast(fs, i) ensures i == n {
    }
  }

  lemma {:induction false} OutcomeLastWins(cfg: Config, r: Request, id: string,
                                           fs: seq<Forward>, renewals: seq<Renewal>, audits: seq<Audit>, reply: Reply)
    requires Outcome(cfg, r, id, fs, renewals, audits, reply)
    ensures LastWins(cfg, r, id, fs, audits, reply)
  {
    if fs != [] { LastDeliveryWins(cfg, r, id, fs, audits, reply); }
  }

  /** The attempts were made while the log grew from `before` to `after`. */
  ghost predicate MadeBetween(fs: seq<Forward>, before: seq<Event>, after: seq<Event>) {
    forall i :: 0 <= i < |fs| ==> before <= fs[i].log && fs[i].log + fs[i].got <= after
  }

  /** The exchange is over: the attempts and renewals it made while the log grew, and the answer it came to. */
  ghost predicate Over(cfg: Config, r: Request, id: string, fs: seq<Forward>, renewals: seq<Renewal>, answer: Option<Response>,
                       before: seq<Event>, after: seq<Event>)
  {
    Exchanged(cfg, r, id, fs, renewals) && MadeBetween(fs, before, after) && answer == LatestAnswer(fs)
  }

  lemma {:induction false} OnceExchanged(cfg: Config, r: Request, id: string, before: seq<Event>, after: seq<Event>, f: Forward)
    requires Attempt(cfg, r, id, NO_TOKEN, f) && !LoggedOut(cfg, id, f.answer) && before <= f.log && f.log + f.got <= after
    ensures Over(cfg, r, id, [f], [], f.answer, before, after)
  {
  }

  /** The log at a retry: the first attempt, the reauthentication, the retry. */
  ghost predicate RetryLogged(id: string, f: Forward, call: nat, g: Forward, after: seq<Event>) {
    f.log + f.got + [Reauthenticated(id, call)] <= g.log && g.log + g.got <= after
  }

  lemma {:induction false} ReauthExchanged(cfg: Config, r: Request, id: string, before: seq<Event>, after: seq<Event>,
                                           f: Forward, renewal: Renewal, again: seq<Forward>)
    requires Attempt(cfg, r, id, NO_TOKEN, f) && LoggedOut(cfg, id, f.answer) && before <= f.log && f.log + f.got <= after
    requires renewal.id == id && |again| == if renewal.ok && IsIdempotent(r.verb) then 1 else 0
    requires again != [] ==> Attempt(cfg, r, id, f.token, again[0]) && RetryLogged(id, f, renewal.call, again[0], after)
    ensures Over(cfg, r, id, [f] + again, [renewal],
                 if again != [] && again[0].answer.Some? then again[0].answer else f.answer, before, after)
  {
    assert LatestAnswer([f]) == f.answer;
    if again == [] {
      assert [f] + again == [f];
    } else {
      assert [f] + again == [f, again[0]] && [f, again[0]][..1] == [f];
      PrefixTransitive(before, f.log, f.log + f.got + [Reauthenticated(id, renewal.call)], again[0].log);
    }
  }

  lemma {:induction false} Associative<T>(a: seq<T>, b: seq<T>, c: seq<T>)
    ensures a + b + c == a + (b + c)
  {
  }

  lemma {:induction false} PrefixTransitive<T>(a: seq<T>, b: seq<T>, c: seq<T>, d: seq<T>)
    requires a <= b <= c <= d
    ensures a <= d
  {
  }

  class Gateway {
    const config: Config
    var csrfCache: map<string, CachedToken>
    var clock: Time
    ghost var forwards: seq<Forward>
    ghost var renewals: seq<Renewal>
    ghost var audits: seq<Audit>
    ghost var events: seq<Event>

    /** The cache holds exactly the live tokens of the log, which has every successful renewal. */
    ghost predicate Valid()
      reads this
    {
      && LogAllowed(events) && Reauthed(events) == Renewed(renewals)
      && forall id :: CacheEntry(id) == LastFetch(events, id)
    }

    /** As Valid, but `id` has just reauthenticated. */
    ghost predicate ValidBut(id: string)
      reads this
    {
      && LogAllowed(events) && Reauthed(events) == Renewed(renewals) && LastFetch(events, id) == None
      && forall id' :: id' != id ==> CacheEntry(id') == LastFetch(events, id')
    }

    ghost function CacheEntry(id: string): Option<CachedToken>
      reads this
    {
      if id in csrfCache then Some(csrfCache[id]) else None
    }

    constructor (config: Config)
      ensures this.config == config && Valid() && events == [] && forwards == [] && renewals == [] && audits == []
    {
      this.config := config;
      csrfCache, clock := map[], 0;
      forwards, renewals, audits, events := [], [], [], [];
    }

    method Now() returns (t: Time)
      modifies this`clock
      ensures t == clock && clock >= old(clock)
    {
      var read: Time := *;
      if read > clock { clock := read; }
      t := clock;
    }

    /** store.Get: a session, or an error. */
    method StoreGet(id: string, answer: Option<Session>) returns (sess: Option<Session>, ghost call: nat)
      requires Valid()
      modifies this`events
      ensures sess == answer
      ensures Valid() && events == old(events) + [Got(id, call, sess)] && LastFetch(events, id) == LastFetch(old(events), id)
    {
      sess := answer;
      call :| call >= 0;
      Note(Got(id, call, sess));
    }

    /** store.Refresh; a success leaves the cached token stale. */
    method StoreRefresh(id: string, renewed: bool) returns (ok: bool, ghost call: nat)
      requires Valid()
      modifies this`renewals, this`events
      ensures ok == renewed && renewals == old(renewals) + [Renewal(id, call, ok)]
      ensures !ok ==> Valid() && events == old(events)
      ensures ok ==> ValidBut(id) && events == old(events) + [Reauthenticated(id, call)]
    {
      ok := renewed;
      call :| call >= 0;
      renewals := renewals + [Renewal(id, call, ok)];
      if ok { Record(Reauthenticated(id, call)); }
    }

    ghost method Record(e: Event)
      requires LogAllowed(events) && EventAllowed(events, e)
      modifies this`events
      ensures events == old(events) + [e] && LogAllowed(events)
      ensures forall id :: LastFetch(events, id) == LastFetchWith(old(events), e, id)
      ensures Reauthed(events) == Reauthed(old(events)) + if e.Reauthenticated? then [(e.id, e.call)] else []
    {
      var before := events;
      events := events + [e];
      assert events[..|before|] == before;
      forall i | 0 <= i < |events| ensures EventAllowed(events[..i], events[i]) {
        if i < |before| { assert events[..i] == before[..i] && EventAllowed(before[..i], before[i]); }
      }
    }

    /** The anti-CSRF token for one request: the cached one while it is young, else a fetched one. */
    method CSRFTokenFor(id: string, env: Env) returns (value: Option<string>)
      requires Valid()
      modifies this`csrfCache, this`clock, this`events
      ensures Valid() && |events| > |old(events)| && old(events) <= events
      ensures var e := events[|events| - 1];
        e.id == id && if value.Some? then e.Served? && e.value == value.value else e.FetchFailed?
      ensures value.None? ==> FetchFails(env)
      ensures value.Some? ==> value == env.tokenValue || (LastFetch(old(events), id).Some? && LastFetch(old(events), id).value.value == value.value)
    {
      var now := Now();
      assert CacheEntry(id) == LastFetch(events, id);
      if id in csrfCache && now - csrfCache[id].at < CSRF_TTL {
        Note(Served(id, csrfCache[id].value, now));
        return Some(csrfCache[id].value);
      }
      var fetched: Option<string> := Fetch(id, env);
      if fetched.None? {
        Note(FetchFailed(id, now));
        return None;
      }
      var at := Now();
      Remember(id, CachedToken(fetched.value, at));
      Note(Served(id, fetched.value, at));
      value := fetched;
    }

    /** An event that leaves the cache as it is. */
    ghost method Note(e: Event)
      requires Valid() && EventAllowed(events, e) && !e.Fetched? && !e.Reauthenticated?
      modifies this`events
      ensures Valid() && events == old(events) + [e] && LastFetch(events, e.id) == LastFetch(old(events), e.id)
    {
      Record(e);
    }

    method Remember(id: string, token: CachedToken)
      requires Valid() && EventAllowed(events, Fetched(id, token))
      modifies this`csrfCache, this`events
      ensures Valid() && events == old(events) + [Fetched(id, token)] && LastFetch(events, id) == Some(token)
    {
      csrfCache := csrfCache[id := token];
      Record(Fetched(id, token));
    }

    /** One request for a token, with the identity's session. */
    method Fetch(id: string, env: Env) returns (value: Option<string>)
      requires Valid()
      modifies this`events
      ensures Valid() && |events| > |old(events)| && old(events) <= events && LastFetch(events, id) == LastFetch(old(events), id)
      ensures value == if FetchFails(env) then None else env.tokenValue
    {
      ghost var call;
      var sess;
      sess, call := StoreGet(id, env.tokenSession);
      value := if sess.None? then None else env.tokenValue;
    }

    method InvalidateCSRF(id: string)
      requires ValidBut(id)
      modifies this`csrfCache
      ensures Valid() && csrfCache == old(csrfCache) - {id}
    {
      csrfCache := csrfCache - {id};
    }

    /** The request for the upstream, with the session applied. */
    method BuildRequest(r: Request, sess: Option<Session>, token: Token) returns (req: Request)
      requires CanonicalNames(r.headers) && (sess.Some? ==> CanonicalNames(sess.value.headers))
      ensures req.verb == r.verb && req.query == r.query && req.body == r.body && req.url == Paths.JoinPaths(config.target, r.url)
      ensures Carries(req.headers, r.headers, sess, token.header, token.value)
    {
      var out := BuildHeaders(r.headers, sess, token.header, token.value);
      req := Request(r.verb, Paths.JoinPaths(config.target, r.url), r.query, out.h, r.body);
    }

    /** Builds and sends one request with the identity applied; it may fail before anything is sent. */
    method ForwardOnce(r: Request, id: string, token: Token, env: Env, ghost given: Token) returns (answer: Option<Response>, ghost f: Forward)
      requires Valid() && CanonicalNames(r.headers) && WellFormed(env) && Chosen(config, id, r.verb, given, events, token)
      requires config.Covered(id, r.verb) && events[|events| - 1].FetchFailed? ==> FetchFails(env)
      modifies this`forwards, this`events
      ensures Valid() && forwards == old(forwards) + [f] && f.log == old(events) && events == f.log + f.got
      ensures Attempt(config, r, id, given, f) && f.env == env && f.answer == answer && f.token == token
      ensures answer.Some? ==> CanonicalNames(answer.value.headers)
    {
      answer := None;
      var sess: Option<Session> := None;
      ghost var got: seq<Event> := [];
      if env.built && id in config.recipes {
        ghost var call;
        sess, call := StoreGet(id, env.session);
        got := [Got(id, call, sess)];
      }
      if !env.built || (id in config.recipes && sess.None?) {
        f := Forward(env, old(events), token, got, sess, None, None);
        forwards := forwards + [f];
        return;
      }
      var req := BuildRequest(r, sess, token);
      answer := env.answer;
      f := Forward(env, old(events), token, got, sess, Some(req), answer);
      forwards := forwards + [f];
    }

    /** The token to set: the one given, unless a covered request gets one now. */
    method ChooseToken(id: string, verb: string, given: Token, env: Env) returns (token: Token)
      requires Valid() && id in config.recipes
      modifies this`csrfCache, this`clock, this`events
      ensures Valid() && old(events) <= events && Chosen(config, id, verb, given, events, token)
      ensures config.Covered(id, verb) && events[|events| - 1].FetchFailed? ==> FetchFails(env)
    {
      token := given;
      if id in config.csrf && Upper(verb) in config.csrf[id].methods {
        var value := CSRFTokenFor(id, env);
        if value.Some? { token := Token(config.csrf[id].header, value.value); }
      }
    }

    /** The retry after the reauthentication `call`, with a new token if one can be had. */
    method Retry(r: Request, id: string, token: Token, env: Env, ghost f: Forward, ghost call: nat) returns (answer: Option<Response>, ghost g: Forward)
      requires Valid() && CanonicalNames(r.headers) && WellFormed(env)
      requires id in config.recipes && events == f.log + f.got + [Reauthenticated(id, call)]
      modifies this`csrfCache, this`clock, this`events, this`forwards
      ensures Valid() && old(events) <= events && (answer.Some? ==> CanonicalNames(answer.value.headers))
      ensures forwards == old(forwards) + [g] && g.answer == answer && g.env == env
      ensures Attempt(config, r, id, token, g) && RetryLogged(id, f, call, g, events)
    {
      var retryToken := ChooseToken(id, r.verb, token, env);
      answer, g := ForwardOnce(r, id, retryToken, env, token);
    }

    /** After the reauthentication `call`: drop the token, and retry if that is safe. */
    method GoOn(r: Request, id: string, token: Token, env: Env, ghost f: Forward, ghost call: nat) returns (answer: Option<Response>, ghost again: seq<Forward>)
      requires ValidBut(id) && CanonicalNames(r.headers) && WellFormed(env)
      requires id in config.recipes && events == f.log + f.got + [Reauthenticated(id, call)]
      modifies this`csrfCache, this`clock, this`events, this`forwards
      ensures Valid() && old(events) <= events && (answer.Some? ==> CanonicalNames(answer.value.headers))
      ensures forwards == old(forwards) + again && |again| == (if IsIdempotent(r.verb) then 1 else 0)
      ensures again == [] ==> answer.None?
      ensures again != [] ==>
        && Attempt(config, r, id, token, again[0]) && again[0].answer == answer && again[0].env == env
        && RetryLogged(id, f, call, again[0], events)
    {
      answer, again := None, [];
      InvalidateCSRF(id);
      if IsIdempotent(r.verb) {
        ghost var g;
        answer, g := Retry(r, id, token, env, f, call);
        again := [g];
      }
    }

    /** What follows an answer that looks logged out: reauthenticate, and retry if that is safe. */
    method Reauth(r: Request, id: string, token: Token, w: World, ghost f: Forward)
      returns (answer: Option<Response>, ghost renewal: Renewal, ghost again: seq<Forward>)
      requires Valid() && CanonicalNames(r.headers) && WellFormed(w.retry) && id in config.recipes && events == f.log + f.got
      modifies this`csrfCache, this`clock, this`events, this`forwards, this`renewals
      ensures Valid() && old(events) <= events && (answer.Some? ==> CanonicalNames(answer.value.headers))
      ensures renewal.id == id && renewal.ok == w.renewed && renewals == old(renewals) + [renewal] && forwards == old(forwards) + again
      ensures |again| == (if renewal.ok && IsIdempotent(r.verb) then 1 else 0)
      ensures again == [] ==> answer.None?
      ensures again != [] ==>
        && Attempt(config, r, id, token, again[0]) && again[0].answer == answer && again[0].env == w.retry
        && RetryLogged(id, f, renewal.call, again[0], events)
      ensures if renewal.ok then old(events) + [Reauthenticated(id, renewal.call)] <= events else events == old(events)
    {
      answer, again := None, [];
      ghost var call;
      var renewed;
      renewed, call := StoreRefresh(id, w.renewed);
      renewal := Renewal(id, call, renewed);
      if renewed {
        ghost var renewedAt := events;
        answer, again := GoOn(r, id, token, w.retry, f, call);
        PrefixTransitive(old(events), old(events), renewedAt, events);
      }
    }

    /** The first attempt, with a CSRF token where the policy covers the request. */
    method ForwardFirst(r: Request, id: string, env: Env) returns (answer: Option<Response>, token: Token, ghost f: Forward)
      requires Valid() && CanonicalNames(r.headers) && WellFormed(env)
      modifies this`csrfCache, this`clock, this`events, this`forwards
      ensures Valid() && old(events) <= events && (answer.Some? ==> CanonicalNames(answer.value.headers))
      ensures forwards == old(forwards) + [f] && f.answer == answer && f.token == token && f.env == env
      ensures old(events) <= f.log && events == f.log + f.got && Attempt(config, r, id, NO_TOKEN, f)
    {
      token := NO_TOKEN;
      if id in config.recipes { token := ChooseToken(id, r.verb, NO_TOKEN, env); }
      answer, f := ForwardOnce(r, id, token, env, NO_TOKEN);
    }

    /** Reauthenticates, and keeps the first answer unless a retry is answered. */
    method Recover(r: Request, id: string, token: Token, first: Response, w: World, ghost f: Forward, ghost before: seq<Event>)
      returns (answer: Option<Response>, ghost again: seq<Forward>, ghost rs: seq<Renewal>)
      requires Valid() && CanonicalNames(r.headers) && CanonicalNames(first.headers) && WellFormed(w.retry)
      requires Attempt(config, r, id, NO_TOKEN, f) && f.answer == Some(first) && f.token == token && LoggedOut(config, id, f.answer)
      requires before <= f.log && events == f.log + f.got
      modifies this`csrfCache, this`clock, this`events, this`forwards, this`renewals
      ensures Valid() && old(events) <= events && (answer.Some? ==> CanonicalNames(answer.value.headers))
      ensures forwards == old(forwards) + again && renewals == old(renewals) + rs
      ensures Over(config, r, id, [f] + again, rs, answer, before, events)
      ensures (again != [] ==> again[0].env == w.retry) && |rs| == 1 && rs[0].ok == w.renewed
    {
      ghost var renewal;
      answer, renewal, again := Reauth(r, id, token, w, f);
      rs := [renewal];
      ReauthExchanged(config, r, id, before, events, f, renewal, again);
      if answer.None? { answer := Some(first); }
    }

    /** Forwards the request and, if the answer looks logged out, reauthenticates. */
    method Exchange(r: Request, id: string, w: World) returns (answer: Option<Response>, ghost fs: seq<Forward>, ghost rs: seq<Renewal>)
      requires Valid() && CanonicalNames(r.headers) && WellFormed(w.first) && WellFormed(w.retry)
      modifies this`csrfCache, this`clock, this`events, this`forwards, this`renewals
      ensures Valid() && old(events) <= events && (answer.Some? ==> CanonicalNames(answer.value.headers))
      ensures forwards == old(forwards) + fs && renewals == old(renewals) + rs
      ensures Over(config, r, id, fs, rs, answer, old(events), events) && RetriedByMethod(r, fs, rs) && Played(w, fs, rs)
    {
      ghost var f: Forward;
      var token;
      answer, token, f := ForwardFirst(r, id, w.first);
      if id in config.recipes && answer.Some? && Matches(config.recipes[id], answer.value) {
        ghost var again;
        answer, again, rs := Recover(r, id, token, answer.value, w, f, old(events));
        fs := [f] + again;
        Associative(old(forwards), [f], again);
      } else {
        OnceExchanged(config, r, id, old(events), events, f);
        fs, rs := [f], [];
      }
      MethodsRetried(config, r, id, fs, rs);
    }

    /**
     * Serves one request. `admitted` is the verdict of the Host, Origin, Sec-Fetch-Site and token
     * guards, `readable` whether the body could be read.
     */
    method Serve(r: Request, id: string, w: World, admitted: bool, readable: bool)
      returns (reply: Reply, ghost fs: seq<Forward>, ghost rs: seq<Renewal>, ghost records: seq<Audit>)
      requires Valid() && CanonicalNames(r.headers) && WellFormed(w.first) && WellFormed(w.retry)
      modifies this
      ensures Valid() && old(events) <= events
      ensures forwards == old(forwards) + fs && renewals == old(renewals) + rs && audits == old(audits) + records
      ensures MadeBetween(fs, old(events), events)
      ensures Outcome(config, r, id, fs, rs, records, reply) && LastWins(config, r, id, fs, records, reply)
      ensures RetriedByMethod(r, fs, rs) && Played(w, fs, rs)
      ensures (reply.Forbidden? <==> !admitted) && (fs == [] <==> !admitted || !readable)
    {
      fs, rs, records := [], [], [];
      if !admitted {
        reply := Forbidden;
      } else if !readable {
        reply := BadGateway;
      } else {
        reply, fs, rs, records := ServeAdmitted(r, id, w);
      }
      OutcomeLastWins(config, r, id, fs, rs, records, reply);
    }

    /** Serves a request whose body has been read. */
    method ServeAdmitted(r: Request, id: string, w: World)
      returns (reply: Reply, ghost fs: seq<Forward>, ghost rs: seq<Renewal>, ghost records: seq<Audit>)
      requires Valid() && CanonicalNames(r.headers) && WellFormed(w.first) && WellFormed(w.retry)
      modifies this
      ensures Valid() && old(events) <= events
      ensures forwards == old(forwards) + fs && renewals == old(renewals) + rs && audits == old(audits) + records
      ensures MadeBetween(fs, old(events), events) && fs != [] && !reply.Forbidden? && RetriedByMethod(r, fs, rs) && Played(w, fs, rs)
      ensures Outcome(config, r, id, fs, rs, records, reply)
    {
      var answer;
      answer, fs, rs := Exchange(r, id, w);
      reply, records := Deliver(r, id, answer, fs);
    }

    /** Passes the answer on, if there is one, and keeps the audit record. */
    method Deliver(r: Request, id: string, answer: Option<Response>, ghost fs: seq<Forward>)
      returns (reply: Reply, ghost records: seq<Audit>)
      requires (answer.Some? ==> CanonicalNames(answer.value.headers)) && answer == LatestAnswer(fs)
      modifies this`audits
      ensures audits == old(audits) + records && Replied(config, r, id, fs, records, reply) && !reply.Forbidden?
    {
      records := [];
      if answer.None? { reply := BadGateway; return; }
      var resp := answer.value;
      if config.audited {
        records := [Audit(id, r.verb, r.url.path, resp.status)];
        audits := audits + [Audit(id, r.verb, r.url.path, resp.status)];
      }
      var headers := RelayHeaders(resp.headers);
      reply := Passed(Response(resp.status, headers, resp.body));
    }

    method RelayHeaders(upstream: Header) returns (h: Header)
      requires CanonicalNames(upstream)
      ensures RelaysHeaders(h, upstream)
    {
      var out := new HeaderMap();
      CopyHeader(out, upstream);
      h := out.h;
    }
  }
}
