/** {{name}} templates and the multistep login that threads them (internal/recipe/multistep.go). */
module Templates {
  /** strings.ReplaceAll for a non-empty pattern: leftmost occurrences, never rescanning a replacement. */
  function ReplaceAll(s: string, pat: string, repl: string): string
    requires pat != ""
  {
    if s == "" then ""
    else if pat <= s then repl + ReplaceAll(s[|pat|..], pat, repl)
    else [s[0]] + ReplaceAll(s[1..], pat, repl)
  }

  function Token(name: string): string {
    "{{" + name + "}}"
  }

  /** A template as its author reads it. */
  datatype Piece = Lit(text: string) | Tok(name: string)

  function Print(ps: seq<Piece>): string {
    if ps == [] then ""
    else (match ps[0] case Lit(text) => text case Tok(name) => Token(name)) + Print(ps[1..])
  }

  /** All known tokens replaced at once; unknown tokens stay. */
  function Resolve(ps: seq<Piece>, vars: map<string, string>): seq<Piece> {
    if ps == [] then []
    else [if ps[0].Tok? && ps[0].name in vars then Lit(vars[ps[0].name]) else ps[0]] + Resolve(ps[1..], vars)
  }

  ghost predicate BraceFree(s: string) {
    forall i :: 0 <= i < |s| ==> s[i] != '{' && s[i] != '}'
  }

  // ---- Text in which a token begins ----

  /** Up to its end, or to a pair of closing braces, `s` can follow the opening braces of a token. */
  predicate ClosesToken(s: string) {
    || s == ""
    || (s[0] == '}' && (|s| == 1 || s[1] == '}'))
    || (s[0] != '{' && s[0] != '}' && ClosesToken(s[1..]))
  }

  /** `s` starts with a whole token or is the start of one. */
  predicate StartsToken(s: string) {
    s != "" && s[0] == '{' && (|s| == 1 || (s[1] == '{' && ClosesToken(s[2..])))
  }

  /** A token begins somewhere in `s`, though it may end outside. */
  predicate OpensToken(s: string) {
    exists i :: 0 <= i < |s| && StartsToken(s[i..])
  }

  lemma {:induction false} ClosesHere(s: string, name: string)
    requires BraceFree(name) && (s <= name + "}}" || name + "}}" <= s)
    ensures ClosesToken(s)
  {
    var t := name + "}}";
    if s != "" {
      assert s[0] == t[0];
      if name == "" {
        assert |s| > 1 ==> s[1] == t[1];
      } else {
        assert t[1..] == name[1..] + "}}";
        ClosesHere(s[1..], name[1..]);
      }
    }
  }

  lemma {:induction false} StartsHere(s: string, name: string)
    requires s != "" && BraceFree(name) && (s <= Token(name) || Token(name) <= s)
    ensures StartsToken(s)
  {
    var t := Token(name);
    assert s[0] == t[0];
    if |s| > 1 {
      assert s[1] == t[1] && t[2..] == name + "}}";
      ClosesHere(s[2..], name);
    }
  }

  lemma {:induction false} TokenClosed(s: string) returns (name: string)
    requires ClosesToken(s)
    ensures BraceFree(name) && (s <= name + "}}" || name + "}}" <= s)
  {
    name := "";
    if s != "" && s[0] != '}' {
      var rest := TokenClosed(s[1..]);
      name := [s[0]] + rest;
      assert name + "}}" == [s[0]] + (rest + "}}") && s == [s[0]] + s[1..];
    }
  }

  /** The token that begins at the start of `s`. */
  lemma {:induction false} TokenStarted(s: string) returns (name: string)
    requires StartsToken(s)
    ensures BraceFree(name) && (s <= Token(name) || Token(name) <= s)
  {
    if |s| == 1 {
      name := "";
    } else {
      name := TokenClosed(s[2..]);
      assert Token(name) == "{{" + (name + "}}") && s == "{{" + s[2..];
    }
  }

  /** `s` opens a token exactly if some suffix of it agrees with a token as far as both go. */
  lemma {:induction false} OpensTokenMeans(s: string)
    ensures OpensToken(s) <==>
      exists i, name :: 0 <= i < |s| && BraceFree(name) && (s[i..] <= Token(name) || Token(name) <= s[i..])
  {
    if OpensToken(s) {
      var i :| 0 <= i < |s| && StartsToken(s[i..]);
      var name := TokenStarted(s[i..]);
    }
    if i, name :| 0 <= i < |s| && BraceFree(name) && (s[i..] <= Token(name) || Token(name) <= s[i..]) {
      StartsHere(s[i..], name);
    }
  }

  /** No token begins where every opening brace is followed by another character: in JSON, for one. */
  lemma {:induction false} LoneBracesOpenNothing(s: string)
    requires forall i :: 0 <= i < |s| && s[i] == '{' ==> i + 1 < |s| && s[i + 1] != '{'
    ensures !OpensToken(s)
  {
    forall i | 0 <= i < |s| ensures !StartsToken(s[i..]) {
      if s[i] == '{' { assert s[i..][1] == s[i + 1]; }
    }
  }

  /** The literals of the template open no token. */
  ghost predicate Plain(ps: seq<Piece>) {
    forall i :: 0 <= i < |ps| ==> match ps[i] case Lit(text) => !OpensToken(text) case Tok(name) => BraceFree(name)
  }

  ghost predicate PlainVars(vars: map<string, string>) {
    forall k :: k in vars ==> BraceFree(k) && !OpensToken(vars[k])
  }

  lemma {:induction false} SkipText(text: string, rest: string, name: string, repl: string)
    requires BraceFree(name) && !OpensToken(text)
    ensures ReplaceAll(text + rest, Token(name), repl) == text + ReplaceAll(rest, Token(name), repl)
  {
    var s, pat := text + rest, Token(name);
    if text == "" {
      assert s == rest;
    } else {
      assert text[0..] == text && !StartsToken(text);
      if pat <= s {
        assert text <= pat || pat <= text;
        StartsHere(text, name);
      }
      OpensLess(text);
      SkipText(text[1..], rest, name, repl);
      assert s[1..] == text[1..] + rest && s[0] == text[0];
    }
  }

  lemma {:induction false} OpensLess(text: string)
    requires text != "" && !OpensToken(text)
    ensures !OpensToken(text[1..])
  {
    forall i | 0 <= i < |text| - 1 ensures !StartsToken(text[1..][i..]) {
      assert text[1..][i..] == text[i + 1..];
    }
  }

  lemma {:induction false} OtherToken(name: string, other: string, rest: string)
    requires BraceFree(name) && BraceFree(other) && name != other
    ensures !(Token(name) <= Token(other) + rest)
  {
    var a, b, n := Token(name), Token(other) + rest, |name|;
    if n < |other| {
      assert a[2 + n] == '}' && b[2 + n] == other[n];
    } else if n > |other| {
      assert a[2 + |other|] == name[|other|] && b[2 + |other|] == '}';
    } else {
      assert a[2..2 + n] == name && b[2..2 + n] == other;
      assert |a| <= |b| && b[..|a|][2..2 + n] == b[2..2 + n];
    }
  }

  lemma {:induction false} SkipToken(name: string, repl: string, other: string, rest: string)
    requires BraceFree(name) && BraceFree(other) && name != other
    ensures ReplaceAll(Token(other) + rest, Token(name), repl) == Token(other) + ReplaceAll(rest, Token(name), repl)
  {
    var pat, s, tail := Token(name), Token(other) + rest, other + "}}";
    OtherToken(name, other, rest);
    assert s[1..] == "{" + (tail + rest);
    assert !(pat <= s[1..]) by { assert pat[1] == '{' && s[1..][1] == (other + "}}")[0]; }
    assert s[1..][1..] == tail + rest;
    LoneBracesOpenNothing(tail);
    SkipText(tail, rest, name, repl);
    assert Token(other) == "{" + ("{" + tail);
  }

  function ReplaceToken(ps: seq<Piece>, name: string, repl: string): seq<Piece> {
    Resolve(ps, map[name := repl])
  }

  /** One ReplaceAll replaces exactly the tokens of that name. */
  lemma {:induction false} ReplaceOne(ps: seq<Piece>, name: string, repl: string)
    requires Plain(ps) && BraceFree(name)
    ensures ReplaceAll(Print(ps), Token(name), repl) == Print(ReplaceToken(ps, name, repl))
  {
    if ps != [] {
      var rest, pat := Print(ps[1..]), Token(name);
      ReplaceOne(ps[1..], name, repl);
      var head := Resolve(ps, map[name := repl])[0];
      assert Resolve(ps, map[name := repl])[1..] == Resolve(ps[1..], map[name := repl]);
      if ps[0].Lit? {
        SkipText(ps[0].text, rest, name, repl);
      } else if ps[0].name == name {
        assert (pat + rest)[|pat|..] == rest;
      } else {
        SkipToken(name, repl, ps[0].name, rest);
      }
    }
  }

  lemma {:induction false} ResolvePlain(ps: seq<Piece>, vars: map<string, string>)
    requires Plain(ps) && PlainVars(vars)
    ensures |Resolve(ps, vars)| == |ps| && Plain(Resolve(ps, vars))
  {
    if ps != [] { ResolvePlain(ps[1..], vars); }
  }

  lemma {:induction false} ResolveOneMore(ps: seq<Piece>, vars: map<string, string>, k: string, v: string)
    requires k !in vars
    ensures ReplaceToken(Resolve(ps, vars), k, v) == Resolve(ps, vars[k := v])
  {
    if ps != [] {
      ResolveOneMore(ps[1..], vars, k, v);
      assert Resolve(ps, vars)[1..] == Resolve(ps[1..], vars);
    }
  }

  lemma {:induction false} ResolveNone(ps: seq<Piece>)
    ensures Resolve(ps, map[]) == ps
  {
    if ps != [] { ResolveNone(ps[1..]); }
  }

  // ---- The chain of ReplaceAll calls ----

  /** An order in which Go may yield the keys of the map. */
  ghost predicate OrderOf(order: seq<string>, vars: map<string, string>) {
    && (forall k :: k in order <==> k in vars)
    && forall i, j :: 0 <= i < j < |order| ==> order[i] != order[j]
  }

  /** The calls for the first `n` keys, one after the other. */
  function Chain(s: string, vars: map<string, string>, order: seq<string>, n: nat): string
    requires n <= |order| && forall k :: k in order ==> k in vars
  {
    if n == 0 then s else ReplaceAll(Chain(s, vars, order, n - 1), Token(order[n - 1]), vars[order[n - 1]])
  }

  function FirstVars(vars: map<string, string>, order: seq<string>, n: nat): map<string, string>
    requires n <= |order|
  {
    map k | k in vars && k in order[..n] :: vars[k]
  }

  lemma {:induction false} ChainSoFar(ps: seq<Piece>, vars: map<string, string>, order: seq<string>, n: nat)
    requires Plain(ps) && PlainVars(vars) && OrderOf(order, vars) && n <= |order|
    ensures Chain(Print(ps), vars, order, n) == Print(Resolve(ps, FirstVars(vars, order, n)))
  {
    if n == 0 {
      assert FirstVars(vars, order, 0) == map[];
      ResolveNone(ps);
    } else {
      ChainSoFar(ps, vars, order, n - 1);
      OneMoreVar(vars, order, n);
      ReplaceOneMore(ps, FirstVars(vars, order, n - 1), order[n - 1], vars[order[n - 1]]);
    }
  }

  lemma {:induction false} OneMoreVar(vars: map<string, string>, order: seq<string>, n: nat)
    requires PlainVars(vars) && OrderOf(order, vars) && 0 < n <= |order|
    ensures var k, before := order[n - 1], FirstVars(vars, order, n - 1);
      k in vars && k !in before && PlainVars(before) && FirstVars(vars, order, n) == before[k := vars[k]]
  {
    assert order[..n] == order[..n - 1] + [order[n - 1]];
  }

  lemma {:induction false} ReplaceOneMore(ps: seq<Piece>, vars: map<string, string>, k: string, v: string)
    requires Plain(ps) && PlainVars(vars) && k !in vars && BraceFree(k)
    ensures ReplaceAll(Print(Resolve(ps, vars)), Token(k), v) == Print(Resolve(ps, vars[k := v]))
  {
    ResolvePlain(ps, vars);
    ReplaceOne(Resolve(ps, vars), k, v);
    ResolveOneMore(ps, vars, k, v);
  }

  /**
   * In whatever order the map yields its keys, the chain replaces exactly the known tokens of the
   * template, all at once, and leaves the unknown ones as they are.
   */
  lemma {:induction false} ChainIsParallel(ps: seq<Piece>, vars: map<string, string>, order: seq<string>)
    requires Plain(ps) && PlainVars(vars) && OrderOf(order, vars)
    ensures Chain(Print(ps), vars, order, |order|) == Print(Resolve(ps, vars))
  {
    ChainSoFar(ps, vars, order, |order|);
    assert order[..|order|] == order;
    assert FirstVars(vars, order, |order|) == vars;
  }

  /** `r` is the parallel substitution of `vars` into the template, however it is read as pieces. */
  ghost predicate Substituted(template: string, vars: map<string, string>, r: string) {
    forall ps :: Plain(ps) && Print(ps) == template ==> r == Print(Resolve(ps, vars))
  }

  /** The chain of ReplaceAll calls in some order; for plain variables it is the parallel substitution. */
  method Subst(s: string, vars: map<string, string>) returns (r: string)
    ensures exists order :: OrderOf(order, vars) && r == Chain(s, vars, order, |order|)
    ensures PlainVars(vars) ==> Substituted(s, vars, r)
  {
    r := s;
    var keys := vars.Keys;
    ghost var order: seq<string> := [];
    while keys != {}
      invariant keys <= vars.Keys && (forall k :: k in order <==> k in vars && k !in keys)
      invariant forall i, j :: 0 <= i < j < |order| ==> order[i] != order[j]
      invariant r == Chain(s, vars, order, |order|)
      decreases |keys|
    {
      var k :| k in keys;
      ChainPrefix(s, vars, order, [k], |order|);
      r := ReplaceAll(r, Token(k), vars[k]);
      keys, order := keys - {k}, order + [k];
    }
    if PlainVars(vars) {
      forall ps | Plain(ps) && Print(ps) == s ensures r == Print(Resolve(ps, vars)) {
        ChainIsParallel(ps, vars, order);
      }
    }
  }

  lemma {:induction false} ChainPrefix(s: string, vars: map<string, string>, order: seq<string>, more: seq<string>, n: nat)
    requires n <= |order| && forall k :: k in order + more ==> k in vars
    ensures (forall k :: k in order ==> k in vars) && Chain(s, vars, order + more, n) == Chain(s, vars, order, n)
  {
    assert forall k :: k in order ==> k in order + more;
    if n > 0 { ChainPrefix(s, vars, order, more, n - 1); }
  }

  // ---- Which values are safe ----

  ghost predicate Over(s: string, chars: set<char>) {
    forall i :: 0 <= i < |s| ==> s[i] in chars
  }

  /** Every plain template is substituted in parallel, in every order, whatever values are spelled with `chars`. */
  ghost predicate ParallelOver(chars: set<char>) {
    forall ps, vars, order ::
      Plain(ps) && OrderOf(order, vars) && (forall k :: k in vars ==> BraceFree(k) && Over(vars[k], chars)) ==>
        Chain(Print(ps), vars, order, |order|) == Print(Resolve(ps, vars))
  }

  /** An opening brace is the one character that values must not hold: a value that is just a brace can complete a token. */
  lemma {:induction false} OnlyOpenBraceIsUnsafe(chars: set<char>)
    ensures ParallelOver(chars) <==> '{' !in chars
  {
    if '{' !in chars {
      forall ps, vars, order |
        Plain(ps) && OrderOf(order, vars) && (forall k :: k in vars ==> BraceFree(k) && Over(vars[k], chars))
        ensures Chain(Print(ps), vars, order, |order|) == Print(Resolve(ps, vars))
      {
        forall k | k in vars ensures !OpensToken(vars[k]) {
          LoneBracesOpenNothing(vars[k]);
        }
        ChainIsParallel(ps, vars, order);
      }
    } else {
      var vars := map["a" := "{", "b" := ""];
      BraceCompletesToken("a", "b", "");
      assert forall k :: k in vars ==> BraceFree(k) && Over(vars[k], chars);
    }
  }

  /** The template {{a}}{{a}}b}} when the value of a is one brace: replacing a first spells the token of b. */
  lemma {:induction false} BraceCompletesToken(a: string, b: string, v: string)
    requires BraceFree(a) && BraceFree(b) && a != b && v != Token(b)
    ensures var ps, vars, order := Doubled(a, b), map[a := "{", b := v], [a, b];
      && Plain(ps) && OrderOf(order, vars)
      && Chain(Print(ps), vars, order, |order|) == v && Print(Resolve(ps, vars)) == Token(b)
  {
    var ps, vars, order := Doubled(a, b), map[a := "{", b := v], [a, b];
    LoneBracesOpenNothing(b + "}}");
    ReplaceOne(ps, a, "{");
    PrintDoubled(a, b, map[a := "{"]);
    PrintDoubled(a, b, vars);
    ReplaceWhole(b, v);
    assert Chain(Print(ps), vars, order, 1) == ReplaceAll(Print(ps), Token(a), "{");
  }

  function Doubled(a: string, b: string): seq<Piece> {
    [Tok(a), Tok(a), Lit(b + "}}")]
  }

  lemma {:induction false} PrintDoubled(a: string, b: string, vars: map<string, string>)
    requires a in vars && vars[a] == "{"
    ensures Print(Resolve(Doubled(a, b), vars)) == Token(b)
  {
    var ps, rest, last := Doubled(a, b), [Tok(a), Lit(b + "}}")], [Lit(b + "}}")];
    assert ps[1..] == rest && rest[1..] == last && last[1..] == [];
    assert Resolve(last, vars) == last;
    assert Resolve(rest, vars) == [Lit("{")] + last;
    assert Resolve(ps, vars) == [Lit("{")] + ([Lit("{")] + last);
    PrintLit("{", [Lit("{")] + last);
    PrintLit("{", last);
    PrintLit(b + "}}", []);
  }

  lemma {:induction false} PrintLit(text: string, rest: seq<Piece>)
    ensures Print([Lit(text)] + rest) == text + Print(rest)
  {
    assert ([Lit(text)] + rest)[1..] == rest;
  }

  /** Every plain template is substituted in parallel, in every order, if the other values open no token. */
  ghost predicate SafeValue(v: string) {
    forall ps, vars, order, a ::
      Plain(ps) && OrderOf(order, vars) && a in vars && vars[a] == v
      && (forall k :: k in vars ==> BraceFree(k) && (k != a ==> !OpensToken(vars[k]))) ==>
        Chain(Print(ps), vars, order, |order|) == Print(Resolve(ps, vars))
  }

  /** A value is safe exactly if no token begins in it. */
  lemma {:induction false} SafeValueExactly(v: string)
    ensures SafeValue(v) <==> !OpensToken(v)
  {
    if OpensToken(v) {
      var ps, vars, order, a := ValueBreaks(v);
      assert !SafeValue(v);
    } else {
      forall ps, vars, order, a |
        Plain(ps) && OrderOf(order, vars) && a in vars && vars[a] == v
        && (forall k :: k in vars ==> BraceFree(k) && (k != a ==> !OpensToken(vars[k])))
        ensures Chain(Print(ps), vars, order, |order|) == Print(Resolve(ps, vars))
      {
        ChainIsParallel(ps, vars, order);
      }
    }
  }

  /** A literal completes the token that begins in `v`, and the variable of that name is replaced next. */
  lemma {:induction false} ValueBreaks(v: string)
    returns (ps: seq<Piece>, vars: map<string, string>, order: seq<string>, a: string)
    requires OpensToken(v)
    ensures Plain(ps) && OrderOf(order, vars) && a in vars && vars[a] == v
    ensures forall k :: k in vars ==> BraceFree(k) && (k != a ==> !OpensToken(vars[k]))
    ensures Chain(Print(ps), vars, order, |order|) != Print(Resolve(ps, vars))
  {
    var i, name, c := Completed(v);
    a := name + "x";
    ps, vars, order := [Tok(a), Lit(c)], map[a := v, name := ""], [a, name];
    CompletedIsReplaced(v, i, c, a, name);
    PrintCompleted(a, c, vars);
  }

  lemma {:induction false} Completed(v: string) returns (i: nat, name: string, c: string)
    requires OpensToken(v)
    ensures BraceFree(name) && !OpensToken(c) && i <= |v| && Token(name) <= (v + c)[i..]
  {
    i :| 0 <= i < |v| && StartsToken(v[i..]);
    var tail := v[i..];
    name := TokenStarted(tail);
    var t := Token(name);
    c := if tail <= t then t[|tail|..] else "";
    RestOpensNothing(name, c);
    assert (v + c)[i..] == tail + c;
    if tail <= t { assert tail + c == t; }
  }

  lemma {:induction false} CompletedIsReplaced(v: string, i: nat, c: string, a: string, name: string)
    requires BraceFree(a) && BraceFree(name) && a != name && !OpensToken(c)
    requires i <= |v| && Token(name) <= (v + c)[i..]
    ensures Chain(Print([Tok(a), Lit(c)]), map[a := v, name := ""], [a, name], 2) != v + c
  {
    var ps, vars, order := [Tok(a), Lit(c)], map[a := v, name := ""], [a, name];
    ReplaceOne(ps, a, v);
    PrintCompleted(a, c, map[a := v]);
    assert Chain(Print(ps), vars, order, 1) == ReplaceAll(Print(ps), Token(a), v) == v + c;
    RemovedShortens(v + c, Token(name), i);
  }

  lemma {:induction false} RestOpensNothing(name: string, c: string)
    requires BraceFree(name) && (c == "" || exists n :: 0 < n <= |Token(name)| && c == Token(name)[n..])
    ensures !OpensToken(c)
  {
    if c != "" {
      var n :| 0 < n <= |Token(name)| && c == Token(name)[n..];
      forall i | 0 <= i < |c| && c[i] == '{' ensures i + 1 < |c| && c[i + 1] != '{' {
        assert c[i] == Token(name)[n + i] && n + i == 1;
      }
      LoneBracesOpenNothing(c);
    }
  }

  lemma {:induction false} PrintCompleted(a: string, c: string, vars: map<string, string>)
    requires a in vars
    ensures Print(Resolve([Tok(a), Lit(c)], vars)) == vars[a] + c
  {
    var ps, last := [Tok(a), Lit(c)], [Lit(c)];
    assert ps[1..] == last && last[1..] == [];
    assert Resolve(last, vars) == last && Resolve(ps, vars) == [Lit(vars[a])] + last;
    PrintLit(vars[a], last);
    PrintLit(c, []);
  }

  lemma {:induction false} RemovedShortens(s: string, pat: string, i: nat)
    requires pat != "" && i <= |s| && pat <= s[i..]
    ensures |ReplaceAll(s, pat, "")| < |s|
  {
    if pat <= s {
      RemovedNeverGrows(s[|pat|..], pat);
    } else {
      assert i > 0 && s[1..][i - 1..] == s[i..];
      RemovedShortens(s[1..], pat, i - 1);
    }
  }

  lemma {:induction false} RemovedNeverGrows(s: string, pat: string)
    requires pat != ""
    ensures |ReplaceAll(s, pat, "")| <= |s|
  {
    if s == "" {
    } else if pat <= s {
      RemovedNeverGrows(s[|pat|..], pat);
    } else {
      RemovedNeverGrows(s[1..], pat);
    }
  }

  /** A value that spells another variable's token makes the result depend on the order. */
  lemma {:induction false} NestedTokenDependsOnOrder(a: string, b: string, v: string)
    requires BraceFree(a) && BraceFree(b) && a != b && v != Token(b)
    ensures var first, second := Token(a), Token(b);
      ReplaceAll(ReplaceAll(Token(a), first, Token(b)), second, v) != ReplaceAll(ReplaceAll(Token(a), second, v), first, Token(b))
  {
    ReplaceWhole(a, Token(b));
    ReplaceWhole(b, v);
    SkipToken(b, v, a, "");
    assert Token(a) + "" == Token(a);
  }

  lemma {:induction false} ReplaceWhole(name: string, repl: string)
    ensures ReplaceAll(Token(name), Token(name), repl) == repl
  {
    var pat := Token(name);
    assert pat[|pat|..] == "";
  }
}
