/**
 * The outbound header pipeline of the gateway (internal/gateway/gateway.go and Session.Apply in
 * internal/session/session.go). Go maps are iterated in an arbitrary order.
 */
module Headers {
  import opened Basics
  import opened Sessions

  /** http.Header; a name without values is never stored by the operations below. */
  type Header = map<string, seq<string>>

  function Values(h: Header, name: string): seq<string> {
    if name in h then h[name] else []
  }

  /** Header.Get: the first value, or nothing. */
  function First(values: seq<string>): string {
    if values == [] then "" else values[0]
  }

  // ---- Names ----

  predicate Lowercase(c: char) { 'a' <= c <= 'z' }

  predicate Uppercase(c: char) { 'A' <= c <= 'Z' }

  predicate TokenChar(c: char) {
    || Lowercase(c) || Uppercase(c) || '0' <= c <= '9' || '#' <= c <= '\'' || '^' <= c <= '`'
    || c == '!' || c == '*' || c == '+' || c == '-' || c == '.' || c == '|' || c == '~'
  }

  function CanonChar(c: char, upper: bool): char {
    if upper && Lowercase(c) then 'A' + (c - 'a')
    else if !upper && Uppercase(c) then 'a' + (c - 'A') else c
  }

  function CanonFrom(name: string, upper: bool): string {
    if name == "" then "" else [CanonChar(name[0], upper)] + CanonFrom(name[1..], name[0] == '-')
  }

  predicate TokenChars(name: string) {
    forall i :: 0 <= i < |name| ==> TokenChar(name[i])
  }

  /** textproto.CanonicalMIMEHeaderKey: a name with a byte that no header name may hold is left alone. */
  function Canon(name: string): string {
    if TokenChars(name) then CanonFrom(name, true) else name
  }

  lemma {:induction false} CanonFromTwice(name: string, upper: bool)
    ensures CanonFrom(CanonFrom(name, upper), upper) == CanonFrom(name, upper)
    ensures |CanonFrom(name, upper)| == |name|
    ensures TokenChars(name) ==> TokenChars(CanonFrom(name, upper))
  {
    if name != "" {
      CanonFromTwice(name[1..], name[0] == '-');
      var c := CanonFrom(name, upper);
      assert c[1..] == CanonFrom(name[1..], name[0] == '-');
    }
  }

  lemma {:induction false} CanonTwice(name: string)
    ensures Canon(Canon(name)) == Canon(name)
  {
    CanonFromTwice(name, true);
  }

  // ---- Letter case ----

  /** `d` is the capital of the lower-case letter `c`. */
  predicate CapitalOf(c: char, d: char) {
    97 <= c as int <= 122 && d as int == c as int - 32
  }

  predicate SameLetter(c: char, d: char) {
    c == d || CapitalOf(c, d) || CapitalOf(d, c)
  }

  predicate SameIgnoringCase(a: string, b: string) {
    |a| == |b| && forall i :: 0 <= i < |a| ==> SameLetter(a[i], b[i])
  }

  /** The characters of a header name (section 3.2.6 of RFC 7230). */
  lemma {:induction false} TokenCharMeans(c: char)
    ensures TokenChar(c) <==>
      || 48 <= c as int <= 57 || 65 <= c as int <= 90 || 97 <= c as int <= 122
      || c in {'!', '#', '$', '%', '&', '\'', '*', '+', '-', '.', '^', '_', '`', '|', '~'}
  {
  }

  lemma {:induction false} CanonFromAt(name: string, upper: bool, i: nat)
    requires i < |name|
    ensures |CanonFrom(name, upper)| == |name|
    ensures CanonFrom(name, upper)[i] == CanonChar(name[i], if i == 0 then upper else name[i - 1] == '-')
  {
    if i > 0 {
      CanonFromAt(name[1..], name[0] == '-', i - 1);
    } else if |name| > 1 {
      CanonFromAt(name[1..], name[0] == '-', 0);
    }
  }

  /** A canonical name begins each of its dash-separated words with a capital and has no other capitals. */
  lemma {:induction false} CanonMeans(name: string, i: nat)
    requires TokenChars(name) && i < |name|
    ensures |Canon(name)| == |name|
    ensures var c, d, first := name[i], Canon(name)[i], i == 0 || name[i - 1] == '-';
      if first && 97 <= c as int <= 122 then CapitalOf(c, d) else if !first && 65 <= c as int <= 90 then CapitalOf(d, c) else d == c
  {
    CanonFromAt(name, true, i);
  }

  /** Two names denote the same header exactly if they differ at most in letter case. */
  lemma {:induction false} CanonSame(a: string, b: string)
    requires TokenChars(a) && TokenChars(b)
    ensures Canon(a) == Canon(b) <==> SameIgnoringCase(a, b)
  {
    CanonFromSame(a, b, true);
  }

  lemma {:induction false} CanonFromSame(a: string, b: string, upper: bool)
    ensures CanonFrom(a, upper) == CanonFrom(b, upper) <==> SameIgnoringCase(a, b)
  {
    if a != "" && b != "" {
      var x, y := CanonFrom(a, upper), CanonFrom(b, upper);
      assert x[1..] == CanonFrom(a[1..], a[0] == '-') && y[1..] == CanonFrom(b[1..], b[0] == '-');
      assert x == y <==> x[0] == y[0] && x[1..] == y[1..] by {
        assert x == [x[0]] + x[1..] && y == [y[0]] + y[1..];
      }
      assert x[0] == y[0] <==> SameLetter(a[0], b[0]);
      if x[0] == y[0] { CanonFromSame(a[1..], b[1..], a[0] == '-'); }
      TailsSame(a, b);
    }
  }

  lemma {:induction false} TailsSame(a: string, b: string)
    requires a != "" && b != ""
    ensures SameIgnoringCase(a, b) <==> SameLetter(a[0], b[0]) && SameIgnoringCase(a[1..], b[1..])
  {
    if SameLetter(a[0], b[0]) && SameIgnoringCase(a[1..], b[1..]) {
      forall i | 0 <= i < |a| ensures SameLetter(a[i], b[i]) {
        if i > 0 { assert SameLetter(a[1..][i - 1], b[1..][i - 1]); }
      }
    }
  }

  // ---- Hop-by-hop names ----

  predicate Space(c: char) {
    c == ' ' || '\t' <= c <= '\r'
  }

  /** strings.TrimSpace */
  function Trim(s: string): string {
    if s == "" then ""
    else if Space(s[0]) then Trim(s[1..])
    else if Space(s[|s| - 1]) then Trim(s[..|s| - 1])
    else s
  }

  /** strings.Split at commas */
  function Split(s: string): seq<string> {
    if s == "" then [""]
    else
      var rest := Split(s[1..]);
      if s[0] == ',' then [""] + rest else [[s[0]] + rest[0]] + rest[1..]
  }

  const ALWAYS_HOP_BY_HOP: set<string> := {
    "Connection", "Keep-Alive", "Transfer-Encoding", "Te", "Trailer", "Upgrade",
    "Proxy-Connection", "Proxy-Authenticate", "Proxy-Authorization" }

  /** The header names that a list of Connection tokens stands for. */
  function Listed(tokens: seq<string>): set<string> {
    set t | t in tokens && Trim(t) != "" :: Canon(Trim(t))
  }

  function Join(tokens: seq<string>): string
    requires tokens != []
  {
    if |tokens| == 1 then tokens[0] else tokens[0] + "," + Join(tokens[1..])
  }

  lemma {:induction false} SplitToken(token: string)
    requires ',' !in token
    ensures Split(token) == [token]
  {
    if token != "" {
      SplitToken(token[1..]);
      assert token[0] in token && token == [token[0]] + token[1..];
    }
  }

  lemma {:induction false} SplitFirst(token: string, rest: string)
    requires ',' !in token
    ensures Split(token + "," + rest) == [token] + Split(rest)
  {
    var s := token + "," + rest;
    if token == "" {
      assert s[1..] == rest;
    } else {
      SplitFirst(token[1..], rest);
      assert s[0] == token[0] && token[0] in token && s[1..] == token[1..] + "," + rest;
      assert token == [token[0]] + token[1..];
    }
  }

  /** Reading a Connection value back gives the tokens it was written from. */
  lemma {:induction false} SplitJoin(tokens: seq<string>)
    requires tokens != [] && forall t :: t in tokens ==> ',' !in t
    ensures Split(Join(tokens)) == tokens
  {
    if |tokens| == 1 {
      SplitToken(tokens[0]);
    } else {
      SplitJoin(tokens[1..]);
      SplitFirst(tokens[0], Join(tokens[1..]));
    }
  }

  lemma {:induction false} ListedOneMore(tokens: seq<string>, i: nat)
    requires i < |tokens|
    ensures Listed(tokens[..i + 1]) == Listed(tokens[..i]) + if Trim(tokens[i]) != "" then {Canon(Trim(tokens[i]))} else {}
  {
    assert tokens[..i + 1] == tokens[..i] + [tokens[i]];
  }

  /** Trimming takes white space, and only that, from both ends. */
  lemma {:induction false} TrimMeans(s: string) returns (pre: string, post: string)
    ensures s == pre + Trim(s) + post && (forall c :: c in pre || c in post ==> c as int in {9, 10, 11, 12, 13, 32})
    ensures Trim(s) != "" ==> Trim(s)[0] as int !in {9, 10, 11, 12, 13, 32} && Trim(s)[|Trim(s)| - 1] as int !in {9, 10, 11, 12, 13, 32}
    decreases |s|
  {
    pre, post := "", "";
    if s == "" {
    } else if Space(s[0]) {
      pre, post := TrimMeans(s[1..]);
      assert s == [s[0]] + s[1..];
      pre := [s[0]] + pre;
    } else if Space(s[|s| - 1]) {
      pre, post := TrimMeans(s[..|s| - 1]);
      assert s == s[..|s| - 1] + [s[|s| - 1]];
      post := post + [s[|s| - 1]];
    }
  }

  /** Splitting loses nothing: the parts hold no comma and join to the whole. */
  lemma {:induction false} SplitMeans(s: string)
    ensures Split(s) != [] && (forall t :: t in Split(s) ==> ',' !in t) && Join(Split(s)) == s
  {
    if s != "" {
      SplitMeans(s[1..]);
      var rest, parts := Split(s[1..]), Split(s);
      assert s == [s[0]] + s[1..];
      if s[0] == ',' {
        assert parts[1..] == rest;
      } else {
        assert parts[1..] == rest[1..];
        forall t | t in parts ensures ',' !in t {
          assert t == parts[0] || t in rest;
        }
      }
    }
  }

  /** The set of names to drop for one message. */
  method HopByHop(connectionHeader: string) returns (drop: set<string>)
    ensures drop == ALWAYS_HOP_BY_HOP + Listed(Split(connectionHeader))
  {
    drop := ALWAYS_HOP_BY_HOP;
    var tokens := Split(connectionHeader);
    for i := 0 to |tokens|
      invariant drop == ALWAYS_HOP_BY_HOP + Listed(tokens[..i])
    {
      ListedOneMore(tokens, i);
      var tok := Trim(tokens[i]);
      if tok != "" {
        drop := drop + {Canon(tok)};
      }
    }
    assert tokens[..|tokens|] == tokens;
  }

  function Dropped(src: Header): set<string> {
    ALWAYS_HOP_BY_HOP + Listed(Split(First(Values(src, "Connection"))))
  }

  // ---- A mutable header map ----

  function AddCookie(line: string, c: Cookie): string {
    if line == "" then c.name + "=" + c.value else line + "; " + c.name + "=" + c.value
  }

  // ---- Reading a Cookie line ----

  /** The parts of a line between its occurrences of "; ". */
  function CookieParts(line: string): (parts: seq<string>)
    ensures parts != []
  {
    if line == "" then [""]
    else if line[0] == ';' && |line| > 1 && line[1] == ' ' then [""] + CookieParts(line[2..])
    else
      var rest := CookieParts(line[1..]);
      [[line[0]] + rest[0]] + rest[1..]
  }

  /** What stands before and after the first '='. */
  function CookiePair(part: string): Cookie {
    if part == "" then Cookie("", "")
    else if part[0] == '=' then Cookie("", part[1..])
    else
      var rest := CookiePair(part[1..]);
      Cookie([part[0]] + rest.name, rest.value)
  }

  function CookiePairs(parts: seq<string>): seq<Cookie> {
    if parts == [] then [] else [CookiePair(parts[0])] + CookiePairs(parts[1..])
  }

  function ParseCookies(line: string): seq<Cookie> {
    if line == "" then [] else CookiePairs(CookieParts(line))
  }

  lemma {:induction false} PartAlone(part: string)
    requires ';' !in part
    ensures CookieParts(part) == [part]
  {
    if part != "" {
      assert part[0] in part && part == [part[0]] + part[1..];
      PartAlone(part[1..]);
    }
  }

  lemma {:induction false} PartAdded(line: string, part: string)
    requires ';' !in part
    ensures CookieParts(line + "; " + part) == CookieParts(line) + [part]
  {
    var s := line + "; " + part;
    if line == "" {
      PartAlone(part);
      assert s[0] == ';' && s[1] == ' ' && s[2..] == part;
    } else if line[0] == ';' && |line| > 1 && line[1] == ' ' {
      PartAdded(line[2..], part);
      assert s[2..] == line[2..] + "; " + part && s[0] == line[0] && s[1] == line[1];
    } else {
      PartAdded(line[1..], part);
      assert s[1..] == line[1..] + "; " + part && s[0] == line[0];
      assert |line| > 1 ==> s[1] == line[1];
      assert |line| == 1 ==> s[1] == ';';
      var rest := CookieParts(line[1..]);
      assert CookieParts(s) == [[line[0]] + rest[0]] + (rest + [part])[1..];
      assert (rest + [part])[1..] == rest[1..] + [part];
    }
  }

  lemma {:induction false} PairRead(name: string, value: string)
    requires '=' !in name
    ensures CookiePair(name + "=" + value) == Cookie(name, value)
  {
    var part := name + "=" + value;
    if name == "" {
      assert part[0] == '=' && part[1..] == value;
    } else {
      assert name[0] in name && name == [name[0]] + name[1..];
      PairRead(name[1..], value);
      assert part[0] == name[0] && part[1..] == name[1..] + "=" + value;
    }
  }

  lemma {:induction false} PairsAdded(parts: seq<string>, part: string)
    ensures CookiePairs(parts + [part]) == CookiePairs(parts) + [CookiePair(part)]
  {
    if parts == [] {
      assert [part][1..] == [];
    } else {
      PairsAdded(parts[1..], part);
      assert (parts + [part])[1..] == parts[1..] + [part];
    }
  }

  predicate Readable(c: Cookie) {
    '=' !in c.name && ';' !in c.name && ';' !in c.value
  }

  lemma {:induction false} CookieAdded(line: string, c: Cookie)
    requires Readable(c)
    ensures AddCookie(line, c) != "" && ParseCookies(AddCookie(line, c)) == ParseCookies(line) + [c]
  {
    var part := c.name + "=" + c.value;
    assert ';' !in part;
    PairRead(c.name, c.value);
    if line == "" {
      PartAlone(part);
      assert CookiePairs([part]) == [CookiePair(part)] + CookiePairs([part][1..]);
      assert AddCookie(line, c) == part && part != "";
    } else {
      PartAdded(line, part);
      PairsAdded(CookieParts(line), part);
      assert AddCookie(line, c) == line + "; " + part;
    }
  }

  /** Read back, the line holds the cookies that were there and after them the session's, in order. */
  lemma {:induction false} CookieLineReads(line: string, cookies: seq<Cookie>)
    requires forall c :: c in cookies ==> Readable(c)
    ensures ParseCookies(CookieLine(line, cookies)) == ParseCookies(line) + cookies
  {
    if cookies == [] {
      assert ParseCookies(line) + cookies == ParseCookies(line);
    } else {
      var n := |cookies| - 1;
      CookieLineReads(line, cookies[..n]);
      CookieAdded(CookieLine(line, cookies[..n]), cookies[n]);
      assert cookies == cookies[..n] + [cookies[n]];
      assert ParseCookies(line) + cookies[..n] + [cookies[n]] == ParseCookies(line) + cookies;
    }
  }

  /** The Cookie header after AddCookie for each of `cookies`, starting from its first value. */
  function CookieLine(line: string, cookies: seq<Cookie>): string {
    if cookies == [] then line else AddCookie(CookieLine(line, cookies[..|cookies| - 1]), cookies[|cookies| - 1])
  }

  predicate CanonicalNames(h: Header) {
    forall k :: k in h ==> Canon(k) == k
  }

  predicate NoEmpty(h: Header) {
    forall k :: k in h ==> h[k] != []
  }

  /** An outbound message's headers; names are passed in canonical form. */
  class HeaderMap {
    var h: Header

    constructor ()
      ensures h == map[]
    {
      h := map[];
    }

    method Add(name: string, value: string)
      modifies this
      ensures h == old(h)[name := Values(old(h), name) + [value]]
    {
      h := h[name := Values(h, name) + [value]];
    }

    method Set(name: string, value: string)
      modifies this
      ensures h == old(h)[name := [value]]
    {
      h := h[name := [value]];
    }

    method Del(name: string)
      modifies this
      ensures h == old(h) - {name}
    {
      h := h - {name};
    }

    /** Adds all values of one name, in order. */
    method AddAll(name: string, vals: seq<string>)
      requires NoEmpty(h)
      modifies this
      ensures NoEmpty(h) && Values(h, name) == Values(old(h), name) + vals
      ensures forall k :: k != name ==> Values(h, k) == Values(old(h), k)
    {
      for i := 0 to |vals|
        invariant NoEmpty(h) && Values(h, name) == Values(old(h), name) + vals[..i]
        invariant forall k :: k != name ==> Values(h, k) == Values(old(h), k)
      {
        Add(name, vals[i]);
      }
    }
  }

  /** `h` has the values of `base` and, after them, those of `extra` for the names outside `but` and `later`. */
  ghost predicate Extends(h: Header, base: Header, extra: Header, but: set<string>, later: set<string>) {
    NoEmpty(h) && forall k :: Values(h, k) == Values(base, k) + if k in but || k in later then [] else Values(extra, k)
  }

  lemma {:induction false} ExtendsMore(h: Header, h': Header, base: Header, extra: Header, but: set<string>, later: set<string>, name: string)
    requires Extends(h, base, extra, but, later) && name in later && NoEmpty(h')
    requires Values(h', name) == Values(h, name) + if name in but then [] else Values(extra, name)
    requires forall k :: k != name ==> Values(h', k) == Values(h, k)
    ensures Extends(h', base, extra, but, later - {name})
  {
    forall k ensures Values(h', k) == Values(base, k) + if k in but || k in later - {name} then [] else Values(extra, k) {
      assert Values(h, k) == Values(base, k) + if k in but || k in later then [] else Values(extra, k);
      if k == name { assert Values(h, k) == Values(base, k); }
    }
  }

  /** Adds the values of `extra` for all names outside `but`, in whatever order the map yields them. */
  method AddHeaders(dst: HeaderMap, extra: Header, but: set<string>)
    requires NoEmpty(dst.h) && CanonicalNames(extra)
    modifies dst
    ensures Extends(dst.h, old(dst.h), extra, but, {})
  {
    var names := extra.Keys;
    while names != {}
      invariant names <= extra.Keys && Extends(dst.h, old(dst.h), extra, but, names)
      decreases |names|
    {
      var k :| k in names;
      var name := Canon(k);
      ghost var before := dst.h;
      if name !in but {
        dst.AddAll(name, extra[k]);
      }
      ExtendsMore(before, dst.h, old(dst.h), extra, but, names, k);
      names := names - {k};
    }
  }

  /** Copies every end-to-end header. */
  method CopyHeader(dst: HeaderMap, src: Header)
    requires NoEmpty(dst.h) && CanonicalNames(src)
    modifies dst
    ensures Extends(dst.h, old(dst.h), src, Dropped(src), {})
  {
    var drop := HopByHop(First(Values(src, "Connection")));
    AddHeaders(dst, src, drop);
  }

  method AddCookies(req: HeaderMap, cookies: seq<Cookie>)
    requires NoEmpty(req.h)
    modifies req
    ensures req.h == if cookies == [] then old(req.h)
                     else old(req.h)["Cookie" := [CookieLine(First(Values(old(req.h), "Cookie")), cookies)]]
  {
    ghost var line := First(Values(req.h, "Cookie"));
    for i := 0 to |cookies|
      invariant req.h == if i == 0 then old(req.h) else old(req.h)["Cookie" := [CookieLine(line, cookies[..i])]]
    {
      assert cookies[..i + 1][..i] == cookies[..i];
      req.Set("Cookie", AddCookie(First(Values(req.h, "Cookie")), cookies[i]));
    }
    assert cookies[..|cookies|] == cookies;
  }

  /** The part of Session.Apply that replaces values. */
  method SetOwn(sess: Session, req: HeaderMap)
    requires NoEmpty(req.h)
    modifies req
    ensures NoEmpty(req.h) && forall k :: Values(req.h, k) == Own(sess, old(req.h), k)
  {
    if sess.bearer != "" {
      req.Set("Authorization", "Bearer " + sess.bearer);
    }
    AddCookies(req, sess.cookies);
    if sess.csrf != "" {
      req.Set("X-Csrf-Token", sess.csrf);
    }
  }

  /** Session.Apply */
  method Apply(sess: Session, req: HeaderMap)
    requires NoEmpty(req.h) && CanonicalNames(sess.headers)
    modifies req
    ensures NoEmpty(req.h) && forall k :: Values(req.h, k) == Applied(sess, old(req.h), k)
  {
    SetOwn(sess, req);
    AddHeaders(req, sess.headers, {});
  }

  // ---- What the pipeline means, name by name ----

  /** The values of `name` once the session's token, cookies and CSRF value are set on headers `h`. */
  function Own(sess: Session, h: Header, name: string): seq<string> {
    if name == "Authorization" && sess.bearer != "" then ["Bearer " + sess.bearer]
    else if name == "Cookie" && sess.cookies != [] then [CookieLine(First(Values(h, name)), sess.cookies)]
    else if name == "X-Csrf-Token" && sess.csrf != "" then [sess.csrf]
    else Values(h, name)
  }

  /** The values of `name` once the session has been applied to headers `h`. */
  function Applied(sess: Session, h: Header, name: string): seq<string> {
    Own(sess, h, name) + Values(sess.headers, name)
  }

  const INTERNAL: set<string> := {"X-Claviger-Identity", "X-Claviger-Token"}

  /** The client's headers that are passed on. */
  function EndToEnd(client: Header): Header {
    map k | k in client && k !in Dropped(client) && k !in INTERNAL && client[k] != [] :: client[k]
  }

  /** The values of `name` in the request that reaches the upstream. */
  function Outbound(client: Header, sess: Option<Session>, csrfHeader: string, csrfToken: string, name: string): seq<string> {
    if sess.None? then Values(EndToEnd(client), name)
    else if csrfHeader != "" && csrfToken != "" && name == Canon(csrfHeader) then [csrfToken]
    else Applied(sess.value, EndToEnd(client), name)
  }

  method CopyClient(client: Header) returns (req: HeaderMap)
    requires CanonicalNames(client)
    ensures fresh(req) && req.h == EndToEnd(client)
  {
    req := new HeaderMap();
    CopyHeader(req, client);
    req.Del("X-Claviger-Identity");
    req.Del("X-Claviger-Token");
    forall k ensures Values(req.h, k) == Values(EndToEnd(client), k) {
    }
    SameHeaders(req.h, EndToEnd(client));
  }

  /** Headers without empty entries are determined by their values. */
  lemma {:induction false} SameHeaders(h: Header, h': Header)
    requires NoEmpty(h) && NoEmpty(h') && forall k :: Values(h, k) == Values(h', k)
    ensures h == h'
  {
    assert forall k :: k in h <==> Values(h, k) != [];
    assert forall k :: k in h' <==> Values(h', k) != [];
  }

  /** The header part of forward: copy, delete the internal names, apply the session, set the policy token. */
  method BuildHeaders(client: Header, sess: Option<Session>, csrfHeader: string, csrfToken: string) returns (req: HeaderMap)
    requires CanonicalNames(client) && (sess.Some? ==> CanonicalNames(sess.value.headers))
    ensures fresh(req) && NoEmpty(req.h)
    ensures forall k :: Values(req.h, k) == Outbound(client, sess, csrfHeader, csrfToken, k)
  {
    req := CopyClient(client);
    if sess.Some? {
      Apply(sess.value, req);
      if csrfHeader != "" && csrfToken != "" {
        req.Set(Canon(csrfHeader), csrfToken);
      }
    }
  }

  /**
   * The upstream gets one Cookie line; read back, it holds the client's cookies and then the session's.
   * A bearer token and a CSRF value replace what the client sent.
   */
  lemma {:induction false} SessionCarried(client: Header, sess: Session, csrfHeader: string, csrfToken: string)
    requires sess.headers == map[] && forall c :: c in sess.cookies ==> Readable(c)
    requires csrfHeader != "" && csrfToken != "" ==> Canon(csrfHeader) !in {"Cookie", "Authorization", "X-Csrf-Token"}
    ensures sess.cookies != [] ==>
      && var cookie := Outbound(client, Some(sess), csrfHeader, csrfToken, "Cookie");
      && |cookie| == 1 && ParseCookies(cookie[0]) == ParseCookies(First(Values(EndToEnd(client), "Cookie"))) + sess.cookies
    ensures Outbound(client, Some(sess), csrfHeader, csrfToken, "Authorization")
      == if sess.bearer != "" then ["Bearer " + sess.bearer] else Values(EndToEnd(client), "Authorization")
    ensures Outbound(client, Some(sess), csrfHeader, csrfToken, "X-Csrf-Token")
      == if sess.csrf != "" then [sess.csrf] else Values(EndToEnd(client), "X-Csrf-Token")
  {
    CookieLineReads(First(Values(EndToEnd(client), "Cookie")), sess.cookies);
  }

  predicate KeptBack(name: string) {
    name in {"Connection", "Keep-Alive", "Transfer-Encoding", "Te", "Trailer", "Upgrade", "Proxy-Connection",
             "Proxy-Authenticate", "Proxy-Authorization", "X-Claviger-Identity", "X-Claviger-Token"}
  }

  /**
   * The connection-scoped names of section 6.1 of RFC 7230 and the gateway's own are never passed on;
   * without a Connection header every other one is.
   */
  lemma {:induction false} NeverForwarded(client: Header, name: string)
    ensures KeptBack(name) ==> Values(EndToEnd(client), name) == []
    ensures !KeptBack(name) && "Connection" !in client ==> Values(EndToEnd(client), name) == Values(client, name)
  {
    assert Split("") == [""] && Trim("") == "";
    assert Listed([""]) == {};
  }

  /**
   * What is passed on, for a Connection header written as a list of comma-free tokens: every header
   * but the hop-by-hop ones, those that the list names, and the gateway's own.
   */
  lemma {:induction false} PassedOn(client: Header, tokens: seq<string>, name: string)
    requires tokens != [] && (forall t :: t in tokens ==> ',' !in t) && First(Values(client, "Connection")) == Join(tokens)
    ensures Values(EndToEnd(client), name) ==
      if name in ALWAYS_HOP_BY_HOP || name in Listed(tokens) || name in INTERNAL then [] else Values(client, name)
  {
    SplitJoin(tokens);
  }

  /** The names that all lines of a repeated Connection header list. */
  function AllListed(lines: seq<string>): set<string> {
    set i, t | 0 <= i < |lines| && t in Split(lines[i]) && Trim(t) != "" :: Canon(Trim(t))
  }

  ghost predicate AllListedAreDropped(lines: seq<string>) {
    AllListed(lines) <= Dropped(map["Connection" := lines])
  }

  lemma {:induction false} LoneX()
    ensures Split("X") == ["X"] && Trim("X") == "X" && Canon("X") == "X"
  {
    var x := "X";
    assert x[1..] == "" && Split(x[1..]) == [""] && CanonFrom(x[1..], false) == "";
    assert x[0] == 'X' && |x| == 1;
    assert Split(x) == [[x[0]] + ""];
    assert CanonFrom(x, true) == ['X'];
  }

  /** Only the first Connection line is read, so every listed name is dropped for certain only if there is at most one. */
  lemma {:induction false} OneConnectionLine(n: nat)
    ensures (forall lines :: |lines| == n ==> AllListedAreDropped(lines)) <==> n <= 1
  {
    if n <= 1 {
      forall lines: seq<string> | |lines| == n ensures AllListedAreDropped(lines) {
        forall name | name in AllListed(lines) ensures name in Dropped(map["Connection" := lines]) {
          var i, t :| 0 <= i < |lines| && t in Split(lines[i]) && Trim(t) != "" && name == Canon(Trim(t));
          assert lines[i] == First(lines);
        }
      }
    } else {
      var lines := seq(n, i => if i == 1 then "X" else "");
      LoneX();
      assert lines[1] == "X" && "X" in Split(lines[1]);
      assert "X" in AllListed(lines);
      assert Split("") == [""] && Trim("") == "";
      assert First(Values(map["Connection" := lines], "Connection")) == "";
      assert Listed(Split("")) == {};
      assert !AllListedAreDropped(lines);
    }
  }

  /**
   * One request loses every name it lists exactly if what its later Connection lines list is always
   * hop-by-hop or listed on the first line too.
   */
  lemma {:induction false} LaterLinesCovered(lines: seq<string>)
    ensures AllListedAreDropped(lines) <==>
      forall i :: 1 <= i < |lines| ==> Listed(Split(lines[i])) <= ALWAYS_HOP_BY_HOP + Listed(Split(lines[0]))
  {
    if lines == [] {
      assert AllListed(lines) == {};
    } else {
      DroppedByFirst(lines);
      ListedByLines(lines, ALWAYS_HOP_BY_HOP + Listed(Split(lines[0])));
    }
  }

  lemma {:induction false} DroppedByFirst(lines: seq<string>)
    requires lines != []
    ensures Dropped(map["Connection" := lines]) == ALWAYS_HOP_BY_HOP + Listed(Split(lines[0]))
  {
  }

  /** All lines together list what each of them lists. */
  lemma {:induction false} ListedByLines(lines: seq<string>, names: set<string>)
    ensures AllListed(lines) <= names <==> forall i :: 0 <= i < |lines| ==> Listed(Split(lines[i])) <= names
  {
    if AllListed(lines) <= names {
      forall i, name | 0 <= i < |lines| && name in Listed(Split(lines[i])) ensures name in names {
        assert name in AllListed(lines);
      }
    }
    if forall i :: 0 <= i < |lines| ==> Listed(Split(lines[i])) <= names {
      forall name | name in AllListed(lines) ensures name in names {
        var i, t :| 0 <= i < |lines| && t in Split(lines[i]) && Trim(t) != "" && name == Canon(Trim(t));
        assert name in Listed(Split(lines[i]));
      }
    }
  }
}
