/** JSON Pointers and delta authority scopes (packages/domain/src/delta.ts; section 4 of RFC 6901). */
module Pointers {
  import opened Wrappers
  import Canonical


  // ----- Tokens -----

  function ReplaceChar(s: string, c: char, text: string): string {
    if s == [] then [] else (if s[0] == c then text else [s[0]]) + ReplaceChar(s[1..], c, text)
  }

  /** `replaceAll` of two characters by one, from left to right. */
  function ReplacePair(s: string, c: char, d: char, text: char): string {
    if s == [] then []
    else if |s| >= 2 && s[0] == c && s[1] == d then [text] + ReplacePair(s[2..], c, d, text)
    else [s[0]] + ReplacePair(s[1..], c, d, text)
  }

  /** `encodePointerToken`. */
  function EncodeToken(t: string): string {
    ReplaceChar(ReplaceChar(t, '~', "~0"), '/', "~1")
  }

  /** The decoding in `validatePointer`: first `~1`, then `~0`. */
  function DecodeToken(t: string): string {
    ReplacePair(ReplacePair(t, '~', '1', '/'), '~', '0', '~')
  }

  /** Every tilde is followed by 0 or 1. */
  predicate ValidEscapes(t: string) {
    forall i :: 0 <= i < |t| && t[i] == '~' ==> i + 1 < |t| && (t[i + 1] == '0' || t[i + 1] == '1')
  }

  /** Section 4 of RFC 6901 read from left to right. */
  function Unescape(t: string): string {
    if t == [] then []
    else if |t| >= 2 && t[0] == '~' && t[1] == '0' then ['~'] + Unescape(t[2..])
    else if |t| >= 2 && t[0] == '~' && t[1] == '1' then ['/'] + Unescape(t[2..])
    else [t[0]] + Unescape(t[1..])
  }

  function EscapeChar(c: char): string {
    if c == '~' then "~0" else if c == '/' then "~1" else [c]
  }

  function Escape(t: string): string {
    if t == [] then [] else EscapeChar(t[0]) + Escape(t[1..])
  }

  lemma ValidEscapesTail(t: string)
    requires ValidEscapes(t) && t != []
    ensures t[0] == '~' ==> |t| >= 2 && (t[1] == '0' || t[1] == '1') && ValidEscapes(t[2..])
    ensures t[0] != '~' ==> ValidEscapes(t[1..])
  {
    if t[0] == '~' {
      forall i | 0 <= i < |t[2..]| && t[2..][i] == '~' ensures i + 1 < |t[2..]| && (t[2..][i + 1] == '0' || t[2..][i + 1] == '1') {
        assert t[i + 2] == '~';
      }
    } else {
      forall i | 0 <= i < |t[1..]| && t[1..][i] == '~' ensures i + 1 < |t[1..]| && (t[1..][i + 1] == '0' || t[1..][i + 1] == '1') {
        assert t[i + 1] == '~';
      }
    }
  }

  /** Decoding `~1` before `~0` is the left-to-right decoding. */
  lemma {:induction false} DecodeIsUnescape(t: string)
    requires ValidEscapes(t)
    ensures DecodeToken(t) == Unescape(t)
  {
    if t != [] {
      ValidEscapesTail(t);
      if t[0] == '~' {
        var tail := ReplacePair(t[2..], '~', '1', '/');
        DecodeIsUnescape(t[2..]);
        if t[1] == '0' {
          assert t[1..][1..] == t[2..];
          assert ReplacePair(t[1..], '~', '1', '/') == ['0'] + tail;
          var first := ReplacePair(t, '~', '1', '/');
          assert first == ['~', '0'] + tail;
          assert first[2..] == tail;
        } else {
          var first := ReplacePair(t, '~', '1', '/');
          assert first == ['/'] + tail && first[1..] == tail;
        }
      } else {
        DecodeIsUnescape(t[1..]);
        var tail := ReplacePair(t[1..], '~', '1', '/');
        var first := ReplacePair(t, '~', '1', '/');
        assert first == [t[0]] + tail && first[1..] == tail;
      }
    }
  }

  lemma {:induction false} ReplaceCharConcat(a: string, b: string, c: char, text: string)
    ensures ReplaceChar(a + b, c, text) == ReplaceChar(a, c, text) + ReplaceChar(b, c, text)
  {
    if a == [] {
      assert a + b == b;
    } else {
      assert (a + b)[1..] == a[1..] + b;
      ReplaceCharConcat(a[1..], b, c, text);
    }
  }

  lemma {:induction false} EncodeIsEscape(t: string)
    ensures EncodeToken(t) == Escape(t)
  {
    if t != [] {
      var head := if t[0] == '~' then "~0" else [t[0]];
      ReplaceCharConcat(head, ReplaceChar(t[1..], '~', "~0"), '/', "~1");
      EncodeIsEscape(t[1..]);
      assert ReplaceChar(head, '/', "~1") == EscapeChar(t[0]) by {
        assert head[1..] == if t[0] == '~' then "0" else "";
      }
    }
  }

  lemma EscapesConcat(head: string, tail: string)
    requires ValidEscapes(head) && ValidEscapes(tail)
    ensures ValidEscapes(head + tail)
  {
    var s := head + tail;
    forall i | 0 <= i < |s| && s[i] == '~' ensures i + 1 < |s| && (s[i + 1] == '0' || s[i + 1] == '1') {
      if i >= |head| {
        assert s[i] == tail[i - |head|];
      } else {
        assert s[i] == head[i];
      }
    }
  }

  lemma UnescapeHead(c: char, tail: string)
    ensures Unescape(EscapeChar(c) + tail) == [c] + Unescape(tail)
  {
    assert (EscapeChar(c) + tail)[|EscapeChar(c)|..] == tail;
  }

  lemma {:induction false} EscapedToken(t: string)
    ensures ValidEscapes(Escape(t)) && '/' !in Escape(t)
    ensures Unescape(Escape(t)) == t
  {
    if t != [] {
      EscapedToken(t[1..]);
      assert ValidEscapes(EscapeChar(t[0]));
      hide Unescape;
      EscapesConcat(EscapeChar(t[0]), Escape(t[1..]));
      UnescapeHead(t[0], Escape(t[1..]));
      assert t == [t[0]] + t[1..];
    }
  }

  lemma {:induction false} EscapeUnescaped(t: string)
    requires ValidEscapes(t) && '/' !in t
    ensures Escape(Unescape(t)) == t
  {
    if t != [] {
      ValidEscapesTail(t);
      if t[0] == '~' {
        EscapeUnescaped(t[2..]);
        var c := if t[1] == '0' then '~' else '/';
        assert Unescape(t) == [c] + Unescape(t[2..]) && ([c] + Unescape(t[2..]))[1..] == Unescape(t[2..]);
        assert t == EscapeChar(c) + t[2..];
      } else {
        EscapeUnescaped(t[1..]);
        assert ([t[0]] + Unescape(t[1..]))[1..] == Unescape(t[1..]);
        assert t == EscapeChar(t[0]) + t[1..];
      }
    }
  }

  // ----- Pointers -----

  /** `split("/")`. */
  function Split(s: string): (r: seq<string>)
    ensures r != []
  {
    if s == [] then [[]]
    else
      var tail := Split(s[1..]);
      if s[0] == '/' then [[]] + tail else [[s[0]] + tail[0]] + tail[1..]
  }

  /** `join("/")`. */
  function Join(ts: seq<string>): string {
    if ts == [] then [] else if |ts| == 1 then ts[0] else ts[0] + "/" + Join(ts[1..])
  }

  function EncodeAll(ts: seq<string>): (r: seq<string>)
    ensures |r| == |ts|
  {
    seq(|ts|, i requires 0 <= i < |ts| => EncodeToken(ts[i]))
  }

  function DecodeAll(ts: seq<string>): (r: seq<string>)
    ensures |r| == |ts|
  {
    seq(|ts|, i requires 0 <= i < |ts| => DecodeToken(ts[i]))
  }

  /** `validatePointer`: the tokens of a pointer, or nothing when it is invalid. */
  function ValidatePointer(path: string): Option<seq<string>> {
    if path == "" then Some([])
    else if path[0] != '/' then None
    else
      var raw := Split(path[1..]);
      if exists t :: t in raw && !ValidEscapes(t) then None
      else
        var tokens := DecodeAll(raw);
        if "/" + Join(EncodeAll(tokens)) != path then None else Some(tokens)
  }

  /** The pointer that names a list of tokens. */
  function EncodePointer(ts: seq<string>): string {
    if ts == [] then "" else "/" + Join(EncodeAll(ts))
  }

  lemma {:induction false} JoinSplit(s: string)
    ensures Join(Split(s)) == s
    ensures forall t :: t in Split(s) ==> '/' !in t
  {
    if s != [] {
      JoinSplit(s[1..]);
      var tail := Split(s[1..]);
      assert s == [s[0]] + s[1..];
      if s[0] == '/' {
        assert Split(s)[1..] == tail;
      } else {
        assert tail == [tail[0]] + tail[1..];
        assert Split(s)[1..] == tail[1..];
      }
    }
  }

  lemma {:induction false} SplitJoin(ts: seq<string>)
    requires ts != [] && forall t :: t in ts ==> '/' !in t
    ensures Split(Join(ts)) == ts
  {
    if |ts| == 1 {
      SplitPlain(ts[0]);
      assert ts == [ts[0]];
    } else {
      SplitJoin(ts[1..]);
      SplitAtSlash(ts[0], Join(ts[1..]));
      assert Join(ts) == ts[0] + "/" + Join(ts[1..]);
      assert ts == [ts[0]] + ts[1..];
    }
  }

  lemma {:induction false} SplitPlain(t: string)
    requires '/' !in t
    ensures Split(t) == [t]
  {
    if t != [] {
      SplitPlain(t[1..]);
      assert t == [t[0]] + t[1..];
    }
  }

  lemma {:induction false} SplitAtSlash(t: string, rest: string)
    requires '/' !in t
    ensures Split(t + "/" + rest) == [t] + Split(rest)
  {
    var s := t + "/" + rest;
    if t == [] {
      assert s[1..] == rest;
    } else {
      assert s[1..] == t[1..] + "/" + rest;
      SplitAtSlash(t[1..], rest);
      assert t == [t[0]] + t[1..];
      assert ([t[1..]] + Split(rest))[1..] == Split(rest);
    }
  }

  /** A pointer is valid when it is empty, or starts with a slash and has only valid escapes. */
  predicate WellFormedPointer(path: string) {
    path == "" || (path[0] == '/' && forall t :: t in Split(path[1..]) ==> ValidEscapes(t))
  }

  lemma ReencodedTokens(raw: seq<string>)
    requires forall t :: t in raw ==> ValidEscapes(t) && '/' !in t
    ensures EncodeAll(DecodeAll(raw)) == raw
  {
    forall i | 0 <= i < |raw| ensures EncodeToken(DecodeToken(raw[i])) == raw[i] {
      DecodeIsUnescape(raw[i]);
      EncodeIsEscape(DecodeToken(raw[i]));
      EscapeUnescaped(raw[i]);
    }
  }

  lemma DecodedTokens(ts: seq<string>)
    ensures DecodeAll(EncodeAll(ts)) == ts
    ensures forall t :: t in EncodeAll(ts) ==> ValidEscapes(t) && '/' !in t
  {
    forall i | 0 <= i < |ts|
      ensures DecodeToken(EncodeToken(ts[i])) == ts[i]
      ensures ValidEscapes(EncodeToken(ts[i])) && '/' !in EncodeToken(ts[i])
    {
      EncodeIsEscape(ts[i]);
      EscapedToken(ts[i]);
      DecodeIsUnescape(Escape(ts[i]));
    }
  }

  /**
   * Exactly the well-formed pointers are accepted: once the escapes are valid, the check that the
   * tokens encode back to the pointer cannot fail.
   */
  lemma AcceptedPointers(path: string)
    ensures ValidatePointer(path).Some? <==> WellFormedPointer(path)
  {
    if path != "" && path[0] == '/' {
      JoinSplit(path[1..]);
      if WellFormedPointer(path) {
        ReencodedTokens(Split(path[1..]));
        assert path == "/" + path[1..];
      }
    }
  }

  /** Tokens and pointers determine each other. */
  lemma PointerRoundTrip(path: string, ts: seq<string>)
    ensures ValidatePointer(EncodePointer(ts)) == Some(ts)
    ensures ValidatePointer(path) == Some(ts) ==> EncodePointer(ts) == path
  {
    if ts != [] {
      DecodedTokens(ts);
      SplitJoin(EncodeAll(ts));
      assert EncodePointer(ts)[1..] == Join(EncodeAll(ts));
    }
  }

  // ----- The overlap test on pointer texts -----

  /** The pointer, written token by token. */
  function Chain(ts: seq<string>): string {
    if ts == [] then "" else "/" + EncodeToken(ts[0]) + Chain(ts[1..])
  }

  lemma {:induction false} EncodePointerIsChain(ts: seq<string>)
    ensures EncodePointer(ts) == Chain(ts)
  {
    if ts != [] {
      EncodePointerIsChain(ts[1..]);
      assert EncodeAll(ts)[1..] == EncodeAll(ts[1..]);
      if |ts| == 1 {
        assert Chain(ts) == "/" + EncodeToken(ts[0]) + "";
      } else {
        assert EncodePointer(ts) == "/" + (EncodeToken(ts[0]) + "/" + Join(EncodeAll(ts[1..])));
      }
    }
  }

  /** The test on two write paths: the same text, an empty one, or one continued by a slash. */
  predicate TextsOverlap(p: string, q: string) {
    p == q || p == "" || q == "" || p + "/" <= q || q + "/" <= p
  }

  lemma {:induction false} SlashSplits(e: string, x: string, f: string, y: string)
    requires '/' !in e && '/' !in f && (y == "" || y[0] == '/') && x != "" && x[0] == '/'
    requires e + x <= f + y
    ensures e == f && x <= y
  {
    if e != [] && f != [] {
      assert e + x == [e[0]] + (e[1..] + x) && f + y == [f[0]] + (f[1..] + y);
      ConsPrefix(e[0], e[1..] + x, f[0], f[1..] + y);
      SlashSplits(e[1..], x, f[1..], y);
      assert e == [e[0]] + e[1..] && f == [f[0]] + f[1..];
    } else {
      assert (e + x)[0] == (f + y)[0];
      assert e + x == x && f + y == y;
    }
  }

  lemma ConsPrefix(c: char, s: string, d: char, t: string)
    ensures [c] + s <= [d] + t <==> c == d && s <= t
  {
    assert ([c] + s)[1..] == s && ([d] + t)[1..] == t;
    if [c] + s <= [d] + t {
      assert ([c] + s)[0] == ([d] + t)[0];
      assert ([d] + t)[1..1 + |s|] == s;
    }
  }

  lemma ChainText(a: seq<string>)
    requires a != []
    ensures Chain(a) == ['/'] + (EncodeToken(a[0]) + Chain(a[1..]))
    ensures Chain(a) + "/" == ['/'] + (EncodeToken(a[0]) + (Chain(a[1..]) + "/"))
    ensures Chain(a[1..]) == "" || Chain(a[1..])[0] == '/'
    ensures (Chain(a[1..]) + "/")[0] == '/'
  {
    hide EncodeToken;
    var e, x := EncodeToken(a[0]), Chain(a[1..]);
    assert Chain(a) == "/" + e + x;
  }

  lemma {:induction false} ContinuedTexts(a: seq<string>, b: seq<string>)
    ensures Chain(a) + "/" <= Chain(b) <==> a < b
  {
    if a == [] {
      assert Chain(a) + "/" == "/";
      assert b != [] ==> Chain(b)[0] == '/';
    } else if b != [] {
      ContinuedTexts(a[1..], b[1..]);
      EncodedToken(a[0]);
      EncodedToken(b[0]);
      ChainText(a);
      ChainText(b);
      SameHeadTexts(a, b);
      hide EncodeToken, DecodeToken, Chain;
      var e, x, f, y := EncodeToken(a[0]), Chain(a[1..]) + "/", EncodeToken(b[0]), Chain(b[1..]);
      ConsPrefix('/', e + x, '/', f + y);
      if e + x <= f + y {
        SlashSplits(e, x, f, y);
      }
      assert e == f && x <= y ==> e + x <= f + y;
    }
  }

  lemma EncodedToken(t: string)
    ensures '/' !in EncodeToken(t) && DecodeToken(EncodeToken(t)) == t
  {
    EncodeIsEscape(t);
    EscapedToken(t);
    DecodeIsUnescape(Escape(t));
  }

  lemma SameHeadTexts(a: seq<string>, b: seq<string>)
    requires a != [] && b != []
    ensures a < b <==> a[0] == b[0] && a[1..] < b[1..]
  {
    assert a == [a[0]] + a[1..] && b == [b[0]] + b[1..];
  }

  predicate Comparable(a: seq<string>, b: seq<string>) {
    a <= b || b <= a
  }

  /** Two valid pointers fail the text test exactly when the tokens of one are a prefix of the other's. */
  lemma OverlapIsPrefix(p: string, q: string, a: seq<string>, b: seq<string>)
    requires ValidatePointer(p) == Some(a) && ValidatePointer(q) == Some(b)
    ensures TextsOverlap(p, q) <==> Comparable(a, b)
  {
    PointerRoundTrip(p, a);
    PointerRoundTrip(q, b);
    EncodePointerIsChain(a);
    EncodePointerIsChain(b);
    ContinuedTexts(a, b);
    ContinuedTexts(b, a);
    assert Chain(a) == "" <==> a == [];
    assert Chain(b) == "" <==> b == [];
    hide ValidatePointer, EncodePointer, Chain;
    assert p == q <==> a == b;
    assert p == Chain(a) && q == Chain(b);
    assert Comparable(a, b) <==> a == b || a < b || b < a;
    assert TextsOverlap(p, q) <==> p == q || p == "" || q == "" || a < b || b < a;
  }

  // ----- Scopes -----

  datatype Scope = Scope(workspaceId: string, runId: string, taskId: string, roots: seq<string>)

  /** Whether a root of the list names a prefix of the path; an invalid root throws when it is reached. */
  function RootsContain(roots: seq<string>, path: seq<string>): Result<bool> {
    if roots == [] then Ok(false)
    else
      match ValidatePointer(roots[0])
      case None => Err(INVALID_POINTER)
      case Some(root) => if root <= path then Ok(true) else RootsContain(roots[1..], path)
  }

  /** `scopeContains`. */
  function ScopeContains(scope: Scope, path: string): Result<bool> {
    match ValidatePointer(path)
    case None => Err(INVALID_POINTER)
    case Some(tokens) => RootsContain(scope.roots, tokens)
  }

  predicate ValidRoots(roots: seq<string>) {
    forall r :: r in roots ==> ValidatePointer(r).Some?
  }

  /** `canonicalScope`: the roots without repetition, in the order of their code units. */
  function CanonicalScope(scope: Scope): Result<Scope> {
    if !ValidRoots(scope.roots) then Err(INVALID_POINTER)
    else Ok(scope.(roots := Canonical.SortedKeys(set r | r in scope.roots)))
  }

  function RootsWithin(roots: seq<string>, scope: Scope): Result<seq<string>> {
    if roots == [] then Ok([])
    else
      var inside :- ScopeContains(scope, roots[0]);
      var tail :- RootsWithin(roots[1..], scope);
      Ok(if inside then [roots[0]] + tail else tail)
  }

  /** `intersectScopes`. */
  function IntersectScopes(l: Scope, r: Scope): Result<Scope> {
    if l.workspaceId != r.workspaceId || l.runId != r.runId || l.taskId != r.taskId then Err(CAPABILITY_SCOPE_MISMATCH)
    else
      var left :- RootsWithin(l.roots, r);
      var right :- RootsWithin(r.roots, l);
      CanonicalScope(l.(roots := left + right))
  }

  /** Some root of a list names a prefix of the path. */
  predicate Covered(roots: seq<string>, path: seq<string>) {
    exists r :: r in roots && ValidatePointer(r).Some? && ValidatePointer(r).value <= path
  }

  lemma {:induction false} RootsContainMeaning(roots: seq<string>, path: seq<string>)
    requires ValidRoots(roots)
    ensures RootsContain(roots, path) == Ok(Covered(roots, path))
  {
    if roots != [] {
      assert roots[0] in roots;
      RootsContainMeaning(roots[1..], path);
      assert forall r :: r in roots <==> r == roots[0] || r in roots[1..];
    }
  }

  lemma {:induction false} RootsWithinMeaning(roots: seq<string>, scope: Scope)
    requires ValidRoots(roots) && ValidRoots(scope.roots)
    ensures RootsWithin(roots, scope).Ok?
    ensures forall r :: r in RootsWithin(roots, scope).value <==> r in roots && Covered(scope.roots, ValidatePointer(r).value)
  {
    if roots != [] {
      assert roots[0] in roots;
      RootsContainMeaning(scope.roots, ValidatePointer(roots[0]).value);
      RootsWithinMeaning(roots[1..], scope);
      assert forall r :: r in roots <==> r == roots[0] || r in roots[1..];
    }
  }

  lemma PrefixesComparable(a: seq<string>, b: seq<string>, path: seq<string>)
    requires a <= path && b <= path
    ensures Comparable(a, b)
  {
  }

  /** The intersection covers what both lists of roots cover. */
  lemma CoveredByBoth(l: Scope, r: Scope, path: seq<string>)
    requires ValidRoots(l.roots) && ValidRoots(r.roots)
    ensures RootsWithin(l.roots, r).Ok? && RootsWithin(r.roots, l).Ok?
    ensures Covered(RootsWithin(l.roots, r).value + RootsWithin(r.roots, l).value, path)
       <==> Covered(l.roots, path) && Covered(r.roots, path)
  {
    RootsWithinMeaning(l.roots, r);
    RootsWithinMeaning(r.roots, l);
    if Covered(l.roots, path) && Covered(r.roots, path) {
      var x :| x in l.roots && ValidatePointer(x).Some? && ValidatePointer(x).value <= path;
      var y :| y in r.roots && ValidatePointer(y).Some? && ValidatePointer(y).value <= path;
      PrefixesComparable(ValidatePointer(x).value, ValidatePointer(y).value, path);
      var both := RootsWithin(l.roots, r).value + RootsWithin(r.roots, l).value;
      assert x in both || y in both;
    }
  }

  /** A path is in the intersection of two scopes exactly when it is in both. */
  lemma IntersectionIsBoth(l: Scope, r: Scope, path: string)
    requires ValidRoots(l.roots) && ValidRoots(r.roots) && ValidatePointer(path).Some?
    requires l.workspaceId == r.workspaceId && l.runId == r.runId && l.taskId == r.taskId
    ensures IntersectScopes(l, r).Ok?
    ensures ScopeContains(IntersectScopes(l, r).value, path) == Ok(true)
       <==> ScopeContains(l, path) == Ok(true) && ScopeContains(r, path) == Ok(true)
  {
    var tokens := ValidatePointer(path).value;
    RootsWithinMeaning(l.roots, r);
    RootsWithinMeaning(r.roots, l);
    CoveredByBoth(l, r, tokens);
    RootsContainMeaning(l.roots, tokens);
    RootsContainMeaning(r.roots, tokens);
    hide ValidatePointer, Covered, RootsWithin;
    var both := RootsWithin(l.roots, r).value + RootsWithin(r.roots, l).value;
    SortedRoots(l.(roots := both), tokens);
  }

  lemma SortedRoots(scope: Scope, tokens: seq<string>)
    requires ValidRoots(scope.roots)
    ensures CanonicalScope(scope).Ok?
    ensures RootsContain(CanonicalScope(scope).value.roots, tokens) == Ok(Covered(scope.roots, tokens))
  {
    hide ValidatePointer;
    var sorted := CanonicalScope(scope).value.roots;
    RootsContainMeaning(sorted, tokens);
  }
}
