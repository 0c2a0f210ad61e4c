/** How the gateway joins the target's path and the client's (internal/gateway/gateway.go), with net/url's escaping rules. */
module Paths {
  import opened Basics

  /** Go strings are byte sequences. */
  newtype Byte = x: int | 0 <= x < 256

  type Bytes = seq<Byte>

  const SLASH: Byte := 47
  const PERCENT: Byte := 37

  function HexValue(c: Byte): Option<Byte> {
    if 48 <= c <= 57 then Some(c - 48)
    else if 65 <= c <= 70 then Some(c - 55)
    else if 97 <= c <= 102 then Some(c - 87)
    else None
  }

  function HexDigit(n: Byte): Byte
    requires n < 16
  {
    if n < 10 then n + 48 else n + 55
  }

  /** How many characters stand for the first byte of a non-empty escaped string; 0 if they are malformed. */
  function Width(s: Bytes): nat
    requires s != []
  {
    if s[0] != PERCENT then 1
    else if |s| < 3 || HexValue(s[1]).None? || HexValue(s[2]).None? then 0 else 3
  }

  function FirstByte(s: Bytes): Byte
    requires s != [] && Width(s) > 0
  {
    if s[0] == PERCENT then HexValue(s[1]).value * 16 + HexValue(s[2]).value else s[0]
  }

  /** url.PathUnescape: None if a percent sign is not followed by two hexadecimal digits. */
  function Decode(s: Bytes): Option<Bytes> {
    if s == [] then Some([])
    else if Width(s) == 0 then None
    else
      match Decode(s[Width(s)..])
      case None => None
      case Some(rest) => Some([FirstByte(s)] + rest)
  }

  predicate Letter(c: Byte) { 65 <= c <= 90 || 97 <= c <= 122 }

  predicate Digit(c: Byte) { 48 <= c <= 57 }

  /** Characters that a path may hold unescaped: letters, digits, - _ . ~ and $ & + , / : ; = @ */
  predicate Unescaped(c: Byte) {
    Letter(c) || Digit(c) || c in {45, 95, 46, 126, 36, 38, 43, 44, 47, 58, 59, 61, 64}
  }

  /** Characters that are accepted in an already escaped path: those, the percent sign and ! ' ( ) * [ ] */
  predicate AllowedEncoded(c: Byte) {
    Unescaped(c) || c == PERCENT || c in {33, 39, 40, 41, 42, 91, 93}
  }

  predicate ValidEncoded(s: Bytes) {
    forall i :: 0 <= i < |s| ==> AllowedEncoded(s[i])
  }

  function EscapeByte(c: Byte): Bytes {
    if Unescaped(c) then [c] else [PERCENT, HexDigit(c / 16), HexDigit(c % 16)]
  }

  function Escape(path: Bytes): Bytes {
    if path == [] then [] else EscapeByte(path[0]) + Escape(path[1..])
  }

  const STAR: Bytes := [42]

  /** URL.EscapedPath: the raw form if it is a valid encoding of the path, else a computed one. */
  function EscapedPath(path: Bytes, raw: Bytes): Bytes {
    if raw != [] && ValidEncoded(raw) && Decode(raw) == Some(path) then raw
    else if path == STAR then STAR
    else Escape(path)
  }

  /** strings.TrimRight(s, "/") */
  function TrimSlashes(s: Bytes): Bytes {
    if s != [] && s[|s| - 1] == SLASH then TrimSlashes(s[..|s| - 1]) else s
  }

  // ---- The tables ----

  /** The bytes that a path shows as they are (section 3.3 of RFC 3986, and the slash). */
  predicate PlainByte(c: Byte) {
    || 65 <= c <= 90 || 97 <= c <= 122 || 48 <= c <= 57
    || c as char in {'-', '_', '.', '~', '$', '&', '+', ',', '/', ':', ';', '=', '@'}
  }

  predicate PlainBytes(s: Bytes) {
    forall i :: 0 <= i < |s| ==> PlainByte(s[i])
  }

  /** Two capital hexadecimal digits stand for any other byte. */
  lemma {:induction false} EscapeByteMeans(c: Byte)
    ensures if PlainByte(c) then EscapeByte(c) == [c]
            else |EscapeByte(c)| == 3 && EscapeByte(c)[0] as char == '%'
                 && EscapeByte(c)[1] as char == "0123456789ABCDEF"[c / 16] && EscapeByte(c)[2] as char == "0123456789ABCDEF"[c % 16]
  {
    assert Unescaped(c) <==> PlainByte(c);
    HexDigitMeans(c / 16);
    HexDigitMeans(c % 16);
  }

  lemma {:induction false} HexDigitMeans(n: Byte)
    requires n < 16
    ensures HexDigit(n) as char == "0123456789ABCDEF"[n]
  {
  }

  /** Digits of either case are read; nothing else is. */
  lemma {:induction false} HexValueMeans(c: Byte, n: Byte)
    requires n < 16
    ensures HexValue(c) == Some(n) <==> c as char == "0123456789ABCDEF"[n] || c as char == "0123456789abcdef"[n]
  {
  }

  /** What may stand in an already escaped path: also the percent sign, the reserved marks and the brackets. */
  lemma {:induction false} AllowedEncodedMeans(c: Byte)
    ensures AllowedEncoded(c) <==> PlainByte(c) || c as char in {'%', '!', '\'', '(', ')', '*', '[', ']'}
  {
  }

  lemma {:induction false} EscapeConcat(a: Bytes, b: Bytes)
    ensures Escape(a + b) == Escape(a) + Escape(b)
  {
    if a == [] {
      assert a + b == b;
    } else {
      EscapeConcat(a[1..], b);
      assert (a + b)[1..] == a[1..] + b && (a + b)[0] == a[0];
      Associative(EscapeByte(a[0]), Escape(a[1..]), Escape(b));
    }
  }

  /** Slashes stay slashes, so segments stay segments. */
  lemma {:induction false} SlashKept(a: Bytes, b: Bytes)
    ensures Escape(a + [SLASH] + b) == Escape(a) + [SLASH] + Escape(b)
  {
    EscapeByteMeans(SLASH);
    EscapeConcat(a + [SLASH], b);
    EscapeConcat(a, [SLASH]);
    assert Escape([SLASH]) == EscapeByte(SLASH) + Escape([SLASH][1..]);
  }

  lemma {:induction false} PlainKept(s: Bytes)
    requires PlainBytes(s)
    ensures Escape(s) == s
  {
    if s != [] {
      EscapeByteMeans(s[0]);
      PlainKept(s[1..]);
      assert s == [s[0]] + s[1..];
    }
  }

  // ---- Decoding distributes over concatenation ----

  lemma {:induction false} DecodeConcat(a: Bytes, b: Bytes)
    requires Decode(a).Some?
    ensures Decode(b).None? ==> Decode(a + b).None?
    ensures Decode(b).Some? ==> Decode(a + b) == Some(Decode(a).value + Decode(b).value)
  {
    if a == [] {
      assert a + b == b;
      if Decode(b).Some? { assert [] + Decode(b).value == Decode(b).value; }
    } else {
      var k := Width(a);
      SameUnit(a, b);
      assert (a + b)[k..] == a[k..] + b;
      DecodeConcat(a[k..], b);
      if Decode(b).Some? { Associative([FirstByte(a)], Decode(a[k..]).value, Decode(b).value); }
    }
  }

  lemma {:induction false} Associative(x: Bytes, y: Bytes, z: Bytes)
    ensures x + (y + z) == x + y + z
  {
  }

  lemma {:induction false} SameUnit(a: Bytes, b: Bytes)
    requires a != [] && Width(a) > 0
    ensures Width(a + b) == Width(a) && FirstByte(a + b) == FirstByte(a)
  {
  }

  lemma {:induction false} HexRoundTrip(n: Byte)
    requires n < 16
    ensures HexValue(HexDigit(n)) == Some(n) && AllowedEncoded(HexDigit(n)) && HexDigit(n) != PERCENT
  {
  }

  lemma {:induction false} DecodeUnit(s: Bytes)
    requires s != [] && Width(s) == |s|
    ensures Decode(s) == Some([FirstByte(s)])
  {
    assert s[Width(s)..] == [] && [FirstByte(s)] + [] == [FirstByte(s)];
  }

  lemma {:induction false} EscapeByteRoundTrip(c: Byte)
    ensures Decode(EscapeByte(c)) == Some([c]) && ValidEncoded(EscapeByte(c))
  {
    if !Unescaped(c) {
      HexRoundTrip(c / 16);
      HexRoundTrip(c % 16);
    }
    DecodeUnit(EscapeByte(c));
  }

  lemma {:induction false} EscapeRoundTrip(path: Bytes)
    ensures Decode(Escape(path)) == Some(path) && ValidEncoded(Escape(path))
  {
    if path != [] {
      EscapeByteRoundTrip(path[0]);
      EscapeRoundTrip(path[1..]);
      DecodeConcat(EscapeByte(path[0]), Escape(path[1..]));
      assert path == [path[0]] + path[1..];
    }
  }

  /** Whatever a URL holds, its escaped path is a valid encoding of its path. */
  lemma {:induction false} EscapedPathDecodes(path: Bytes, raw: Bytes)
    ensures Decode(EscapedPath(path, raw)) == Some(path) && ValidEncoded(EscapedPath(path, raw))
  {
    EscapeRoundTrip(path);
    if path == STAR { assert STAR[1..] == []; }
  }

  // ---- Trimming ----

  /** The last character of the escaped path is an encoded slash, %2F or %2f. */
  predicate EndsInEncodedSlash(s: Bytes) {
    var n := |s|;
    n >= 3 && s[n - 3] == PERCENT && s[n - 2] == 50 && (s[n - 1] == 70 || s[n - 1] == 102)
  }

  lemma {:induction false} DecodeTrailingSlash(s: Bytes)
    requires Decode(s + [SLASH]).Some?
    ensures Decode(s).Some? && Decode(s + [SLASH]).value == Decode(s).value + [SLASH]
  {
    var e := s + [SLASH];
    if s == [] {
      assert e[1..] == [];
    } else {
      assert HexValue(SLASH).None?;
      var k := Width(s);
      assert k == Width(e) && FirstByte(s) == FirstByte(e);
      assert e[k..] == s[k..] + [SLASH];
      DecodeTrailingSlash(s[k..]);
    }
  }

  lemma {:induction false} LastDecoded(s: Bytes)
    requires s != [] && Decode(s).Some?
    ensures var d := Decode(s).value; d != [] && (d[|d| - 1] == SLASH <==> s[|s| - 1] == SLASH || EndsInEncodedSlash(s))
  {
    var k := Width(s);
    if |s| > k {
      var rest := s[k..];
      LastDecoded(rest);
      assert s[|s| - 1] == rest[|rest| - 1];
      if |rest| < 3 && |s| >= 3 {
        assert s[|s| - 3] != PERCENT;
      }
    }
  }

  lemma {:induction false} TrimKeepsOrShortens(s: Bytes)
    ensures TrimSlashes(s) <= s && (TrimSlashes(s) == s <==> s == [] || s[|s| - 1] != SLASH)
    ensures TrimSlashes(s) != [] ==> TrimSlashes(s)[|TrimSlashes(s)| - 1] != SLASH
    ensures forall i :: |TrimSlashes(s)| <= i < |s| ==> s[i] == SLASH
  {
    if s != [] && s[|s| - 1] == SLASH { TrimKeepsOrShortens(s[..|s| - 1]); }
  }

  /** Trimming the escaped base and the base itself agree exactly when no encoded slash is left at the end. */
  lemma {:induction false} TrimBoth(escaped: Bytes, path: Bytes)
    requires Decode(escaped) == Some(path)
    ensures Decode(TrimSlashes(escaped)).Some?
    ensures Decode(TrimSlashes(escaped)) == Some(TrimSlashes(path)) <==> !EndsInEncodedSlash(TrimSlashes(escaped))
  {
    if escaped != [] && escaped[|escaped| - 1] == SLASH {
      var shorter := escaped[..|escaped| - 1];
      assert escaped == shorter + [SLASH];
      DecodeTrailingSlash(shorter);
      assert path[..|path| - 1] == Decode(shorter).value;
      TrimBoth(shorter, Decode(shorter).value);
    } else {
      TrimKeepsOrShortens(path);
      if escaped != [] { LastDecoded(escaped); }
    }
  }

  datatype Url = Url(path: Bytes, rawPath: Bytes)

  /** The path of the forwarded request. */
  function JoinPaths(target: Url, client: Url): Url {
    Url(TrimSlashes(target.path) + client.path,
        TrimSlashes(EscapedPath(target.path, target.rawPath)) + EscapedPath(client.path, client.rawPath))
  }

  /**
   * The upstream sees the trimmed base followed by the client's escaped path, byte for byte, if and
   * only if the target's escaped base path, once trimmed, does not end in an encoded slash; then the
   * raw path decodes to the path (section 2.1 of RFC 3986).
   */
  lemma {:induction false} EscapedPathPreserved(target: Url, client: Url)
    ensures var out, base := JoinPaths(target, client), TrimSlashes(EscapedPath(target.path, target.rawPath));
      && (Decode(out.rawPath) == Some(out.path) <==> !EndsInEncodedSlash(base))
      && (EscapedPath(out.path, out.rawPath) == base + EscapedPath(client.path, client.rawPath) <==> !EndsInEncodedSlash(base))
  {
    var out, escaped := JoinPaths(target, client), EscapedPath(target.path, target.rawPath);
    var base, tail := TrimSlashes(escaped), EscapedPath(client.path, client.rawPath);
    EscapedPathDecodes(target.path, target.rawPath);
    EscapedPathDecodes(client.path, client.rawPath);
    TrimBoth(escaped, target.path);
    TrimKeepsOrShortens(escaped);
    JoinedDecodes(base, tail, TrimSlashes(target.path), client.path);
    ShownRaw(out.path, base, tail);
  }

  /** A raw path that the client wrote is taken as it is if it is a valid encoding of the path. */
  lemma {:induction false} RawPathKept(path: Bytes, raw: Bytes)
    requires raw != [] && ValidEncoded(raw) && Decode(raw) == Some(path)
    ensures EscapedPath(path, raw) == raw
  {
  }

  lemma {:induction false} PlainShown(path: Bytes)
    requires PlainBytes(path)
    ensures EscapedPath(path, []) == path
  {
    PlainKept(path);
  }

  lemma {:induction false} PlainTrimmed(path: Bytes)
    requires PlainBytes(path)
    ensures !EndsInEncodedSlash(TrimSlashes(path))
  {
    var base := TrimSlashes(path);
    TrimKeepsOrShortens(path);
    if |base| >= 3 {
      assert base[|base| - 3] == path[|base| - 3] && PlainByte(path[|base| - 3]);
    }
  }

  /**
   * An ordinary request, with a path of bytes that need no escape, reaches the upstream byte for byte
   * behind the trimmed base.
   */
  lemma {:induction false} PlainPathVerbatim(target: Url, client: Url)
    requires PlainBytes(client.path) && client.rawPath == []
    ensures var out, base := JoinPaths(target, client), TrimSlashes(EscapedPath(target.path, target.rawPath));
      !EndsInEncodedSlash(base) ==> EscapedPath(out.path, out.rawPath) == base + client.path
  {
    PlainShown(client.path);
    EscapedPathPreserved(target, client);
  }

  /** Under a base of such bytes, too, the base is shown as the target was written, without its last slashes. */
  lemma {:induction false} PlainBaseVerbatim(target: Url, client: Url)
    requires PlainBytes(client.path) && client.rawPath == [] && PlainBytes(target.path) && target.rawPath == []
    ensures var out := JoinPaths(target, client); EscapedPath(out.path, out.rawPath) == TrimSlashes(target.path) + client.path
  {
    PlainShown(target.path);
    PlainTrimmed(target.path);
    PlainPathVerbatim(target, client);
  }

  /**
   * A target that fails: base path /a/ written as /a%2F. Whatever the client asks for, the raw path no
   * longer decodes to the path, so it is dropped and the encoded slash reaches the upstream bare.
   */
  lemma {:induction false} EncodedSlashLost(client: Url)
    ensures var target := Url([SLASH, 97, SLASH], [SLASH, 97, PERCENT, 50, 70]);
      var out := JoinPaths(target, client);
      && EscapedPath(target.path, target.rawPath) == target.rawPath
      && out.path == [SLASH, 97] + client.path && out.rawPath == target.rawPath + EscapedPath(client.path, client.rawPath)
      && Decode(out.rawPath) != Some(out.path)
      && EscapedPath(out.path, out.rawPath) == Escape(out.path) != out.rawPath
  {
    var path, raw: Bytes := [SLASH, 97, SLASH], [SLASH, 97, PERCENT, 50, 70];
    var target := Url(path, raw);
    var slash: Bytes := [PERCENT, 50, 70];
    DecodeUnit(slash);
    DecodeUnit([97]);
    DecodeUnit([SLASH]);
    DecodeConcat([97], slash);
    DecodeConcat([SLASH], [97] + slash);
    assert raw == [SLASH] + ([97] + slash) && path == [SLASH] + ([97] + [SLASH]);
    assert path[..2] == [SLASH, 97] && TrimSlashes(path) == [SLASH, 97];
    assert EndsInEncodedSlash(TrimSlashes(raw));
    EscapedPathPreserved(target, client);
  }

  /** A valid raw path is what the URL shows exactly when it decodes to the path. */
  lemma {:induction false} ShownRaw(path: Bytes, base: Bytes, tail: Bytes)
    requires ValidEncoded(base) && ValidEncoded(tail)
    ensures EscapedPath(path, base + tail) == base + tail <==> Decode(base + tail) == Some(path)
  {
    EscapedPathDecodes(path, base + tail);
  }

  lemma {:induction false} JoinedDecodes(base: Bytes, tail: Bytes, basePath: Bytes, tailPath: Bytes)
    requires Decode(base).Some? && Decode(tail) == Some(tailPath)
    ensures Decode(base + tail) == Some(basePath + tailPath) <==> Decode(base) == Some(basePath)
  {
    DecodeConcat(base, tail);
    var d := Decode(base).value;
    if d + tailPath == basePath + tailPath {
      assert |d| == |basePath| && d == (d + tailPath)[..|d|] && basePath == (basePath + tailPath)[..|d|];
    }
  }
}
