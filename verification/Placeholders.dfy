/** Text with `${...}` placeholders: replacing builtins one after another in map order, then environment
    variables in one pass. */
module Placeholders {
  import opened Common

  // ---------------------------------------------------------------------------
  // What the code does to a string
  // ---------------------------------------------------------------------------

  /** `strings.ReplaceAll`: leftmost, non-overlapping, what was put in is not looked at again. */
  function ReplaceAll(s: string, pat: string, val: string): string
    requires pat != ""
    decreases |s|
  {
    if s == "" then ""
    else if pat <= s then val + ReplaceAll(s[|pat|..], pat, val)
    else [s[0]] + ReplaceAll(s[1..], pat, val)
  }

  predicate IsIdentStart(c: char) {
    'A' <= c <= 'Z' || 'a' <= c <= 'z' || c == '_'
  }

  predicate IsIdentChar(c: char) {
    IsIdentStart(c) || '0' <= c <= '9'
  }

  function IdentLength(s: string): (n: nat)
    ensures n <= |s| && (forall i :: 0 <= i < n ==> IsIdentChar(s[i])) && (n < |s| ==> !IsIdentChar(s[n]))
  {
    if s == "" || !IsIdentChar(s[0]) then 0 else 1 + IdentLength(s[1..])
  }

  const ENV_OPEN := "${env:"

  /** The name of the variable if an environment placeholder starts the text. */
  function EnvAt(s: string): Option<string> {
    if !(ENV_OPEN <= s) then None
    else
      var rest := s[|ENV_OPEN|..];
      var n := IdentLength(rest);
      if n > 0 && IsIdentStart(rest[0]) && n < |rest| && rest[n] == '}' then Some(rest[..n]) else None
  }

  /** One left-to-right pass: set variables are replaced, unset ones stay and are reported. */
  function EnvPass(s: string, env: map<string, string>): (string, seq<string>)
    decreases |s|
  {
    if s == "" then ("", [])
    else
      match EnvAt(s)
      case None =>
        var (out, unset) := EnvPass(s[1..], env);
        ([s[0]] + out, unset)
      case Some(name) =>
        var n := |ENV_OPEN| + |name| + 1;
        var (out, unset) := EnvPass(s[n..], env);
        if name in env then (env[name] + out, unset) else (s[..n] + out, [name] + unset)
  }

  /** Builtins are replaced one after another in the given order. */
  function ReplaceBuiltins(s: string, builtins: map<string, string>, order: seq<string>): string
    requires forall i :: 0 <= i < |order| ==> order[i] in builtins && order[i] != ""
  {
    if order == [] then s
    else
      var last := order[|order| - 1];
      ReplaceAll(ReplaceBuiltins(s, builtins, order[..|order| - 1]), last, builtins[last])
  }

  /** The order in which a range over the map may yield its keys. */
  ghost predicate IsOrder(order: seq<string>, builtins: map<string, string>) {
    && (forall i :: 0 <= i < |order| ==> order[i] in builtins)
    && (forall k :: k in builtins ==> k in order)
    && (forall i, j :: 0 <= i < j < |order| ==> order[i] != order[j])
  }

  function SubstituteIn(s: string, builtins: map<string, string>, order: seq<string>, env: map<string, string>): Result<string, seq<string>>
    requires forall i :: 0 <= i < |order| ==> order[i] in builtins && order[i] != ""
  {
    var (out, unset) := EnvPass(ReplaceBuiltins(s, builtins, order), env);
    if unset != [] then Err(unset) else Ok(out)
  }

  method Substitute(s: string, builtins: map<string, string>, env: map<string, string>) returns (r: Result<string, seq<string>>)
    requires "" !in builtins
    ensures exists order :: IsOrder(order, builtins) && r == SubstituteIn(s, builtins, order, env)
  {
    var text := s;
    var left := builtins.Keys;
    ghost var order: seq<string> := [];
    while left != {}
      invariant left <= builtins.Keys
      invariant forall k :: k in order <==> k in builtins && k !in left
      invariant forall i, j :: 0 <= i < j < |order| ==> order[i] != order[j]
      invariant text == ReplaceBuiltins(s, builtins, order)
    {
      var k :| k in left;
      text := ReplaceAll(text, k, builtins[k]);
      ghost var before := order;
      order := order + [k];
      assert order[..|order| - 1] == before;
      assert forall i :: 0 <= i < |before| ==> before[i] in before;
      left := left - {k};
    }
    assert IsOrder(order, builtins);
    var (out, unset) := EnvPass(text, env);
    r := if unset != [] then Err(unset) else Ok(out);
  }

  // ---------------------------------------------------------------------------
  // Texts in which every `$` starts a complete placeholder
  // ---------------------------------------------------------------------------

  datatype Token = Lit(c: char) | Hole(text: string)

  predicate Shaped(p: string) {
    && |p| >= 3 && p[0] == '$' && p[1] == '{' && p[|p| - 1] == '}'
    && forall i :: 0 < i < |p| - 1 ==> p[i] != '$' && p[i] != '}'
  }

  predicate ValidToken(t: Token) {
    match t case Lit(c) => c != '$' case Hole(p) => Shaped(p)
  }

  ghost predicate ValidTokens(ts: seq<Token>) {
    forall t :: t in ts ==> ValidToken(t)
  }

  function TokenText(t: Token): string {
    match t case Lit(c) => [c] case Hole(p) => p
  }

  function Unparse(ts: seq<Token>): string {
    if ts == [] then "" else TokenText(ts[0]) + Unparse(ts[1..])
  }

  function CloseIndex(s: string): (i: nat)
    ensures i <= |s| && (i < |s| ==> s[i] == '}') && forall j :: 0 <= j < i ==> s[j] != '}'
  {
    if s == "" || s[0] == '}' then 0 else 1 + CloseIndex(s[1..])
  }

  /** Splits a text into literals and placeholders; fails on a `$` that does not start a complete one. */
  function Tokenize(s: string): (r: Option<seq<Token>>)
    ensures r.Some? ==> ValidTokens(r.value) && Unparse(r.value) == s
    decreases |s|
  {
    if s == "" then Some([])
    else if s[0] != '$' then
      match Tokenize(s[1..])
      case None => None
      case Some(ts) =>
        assert ([Lit(s[0])] + ts)[1..] == ts;
        Some([Lit(s[0])] + ts)
    else
      var i := CloseIndex(s);
      if i < |s| && Shaped(s[..i + 1]) then
        match Tokenize(s[i + 1..])
        case None => None
        case Some(ts) =>
          assert ([Hole(s[..i + 1])] + ts)[1..] == ts;
          Some([Hole(s[..i + 1])] + ts)
      else None
  }

  /** Every placeholder of a kind gives way to a run of tokens. */
  function Splice(ts: seq<Token>, p: string, vs: seq<Token>): seq<Token> {
    if ts == [] then [] else (if ts[0] == Hole(p) then vs else [ts[0]]) + Splice(ts[1..], p, vs)
  }

  lemma {:induction false} UnparseAppend(a: seq<Token>, b: seq<Token>)
    ensures Unparse(a + b) == Unparse(a) + Unparse(b)
  {
    if a == [] {
      assert a + b == b;
    } else {
      assert (a + b)[1..] == a[1..] + b;
      UnparseAppend(a[1..], b);
    }
  }

  lemma ShapedClose(p: string)
    requires Shaped(p)
    ensures CloseIndex(p) == |p| - 1
  {
    assert p[|p| - 1] == '}';
  }

  lemma {:induction false} CloseIndexAppend(a: string, b: string)
    requires CloseIndex(a) < |a|
    ensures CloseIndex(a + b) == CloseIndex(a)
  {
    if a[0] != '}' {
      assert (a + b)[1..] == a[1..] + b;
      CloseIndexAppend(a[1..], b);
    }
  }

  /** A placeholder ends at its first closing brace, so none is a proper prefix of another one's text. */
  lemma ShapedPrefix(p: string, q: string, rest: string)
    requires Shaped(p) && Shaped(q) && p <= q + rest
    ensures p == q
  {
    ShapedClose(p);
    ShapedClose(q);
    CloseIndexAppend(q, rest);
    assert q + rest == p + (q + rest)[|p|..];
    CloseIndexAppend(p, (q + rest)[|p|..]);
    assert p == (q + rest)[..|p|] == q;
  }

  lemma {:induction false} SkipPlain(x: string, rest: string, p: string, v: string)
    requires Shaped(p) && '$' !in x
    ensures ReplaceAll(x + rest, p, v) == x + ReplaceAll(rest, p, v)
    decreases |x|
  {
    if x == "" {
      assert x + rest == rest;
    } else {
      assert (x + rest)[0] == x[0] && (x + rest)[1..] == x[1..] + rest;
      SkipPlain(x[1..], rest, p, v);
      assert x == [x[0]] + x[1..];
    }
  }

  lemma SkipHole(q: string, rest: string, p: string, v: string)
    requires Shaped(p) && Shaped(q) && p != q
    ensures ReplaceAll(q + rest, p, v) == q + ReplaceAll(rest, p, v)
  {
    if p <= q + rest {
      ShapedPrefix(p, q, rest);
    }
    assert (q + rest)[1..] == q[1..] + rest && q == [q[0]] + q[1..];
    SkipPlain(q[1..], rest, p, v);
  }

  /** On token level a replacement touches exactly the placeholders it names. */
  lemma {:induction false} ReplaceIsSplice(ts: seq<Token>, p: string, vs: seq<Token>)
    requires ValidTokens(ts) && Shaped(p)
    ensures ReplaceAll(Unparse(ts), p, Unparse(vs)) == Unparse(Splice(ts, p, vs))
  {
    if ts != [] {
      var head, rest := TokenText(ts[0]), Unparse(ts[1..]);
      assert ValidToken(ts[0]);
      ReplaceIsSplice(ts[1..], p, vs);
      UnparseAppend(if ts[0] == Hole(p) then vs else [ts[0]], Splice(ts[1..], p, vs));
      match ts[0]
      case Lit(c) => SkipPlain([c], rest, p, Unparse(vs));
      case Hole(q) =>
        if q == p {
          assert p <= p + rest && (p + rest)[|p|..] == rest;
        } else {
          SkipHole(q, rest, p, Unparse(vs));
        }
      assert ts[0] != Hole(p) ==> Unparse([ts[0]]) == head;
    }
  }

  // ---------------------------------------------------------------------------
  // Simultaneous substitution
  // ---------------------------------------------------------------------------

  ghost predicate WellFormed(s: string) {
    Tokenize(s).Some?
  }

  ghost function Tokens(s: string): seq<Token>
    requires WellFormed(s)
  {
    Tokenize(s).value
  }

  ghost predicate GoodBuiltins(builtins: map<string, string>) {
    forall k :: k in builtins ==> Shaped(k) && WellFormed(builtins[k])
  }

  /** All placeholders of a set of builtins replaced at once, each by its own value. */
  ghost function Spliced(ts: seq<Token>, builtins: map<string, string>, keys: set<string>): seq<Token>
    requires GoodBuiltins(builtins) && keys <= builtins.Keys
  {
    if ts == [] then []
    else
      (if ts[0].Hole? && ts[0].text in keys then Tokens(builtins[ts[0].text]) else [ts[0]]) + Spliced(ts[1..], builtins, keys)
  }

  /** No value mentions another builtin, unless that one stands for itself. */
  ghost predicate Settled(builtins: map<string, string>)
    requires GoodBuiltins(builtins)
  {
    forall j, k :: j in builtins && k in builtins && j != k && Hole(j) in Tokens(builtins[k]) ==> builtins[j] == j
  }

  /** The same, for the builtins that are mentioned. */
  ghost predicate SettledFor(ts: seq<Token>, builtins: map<string, string>)
    requires GoodBuiltins(builtins)
  {
    forall j, k :: j in builtins && k in builtins && j != k && Hole(k) in ts && Hole(j) in Tokens(builtins[k]) ==> builtins[j] == j
  }

  lemma {:induction false} SplicedValid(ts: seq<Token>, builtins: map<string, string>, keys: set<string>)
    requires GoodBuiltins(builtins) && keys <= builtins.Keys && ValidTokens(ts)
    ensures ValidTokens(Spliced(ts, builtins, keys))
  {
    if ts != [] {
      SplicedValid(ts[1..], builtins, keys);
      assert ValidToken(ts[0]);
    }
  }

  lemma {:induction false} SpliceAppend(a: seq<Token>, b: seq<Token>, p: string, vs: seq<Token>)
    ensures Splice(a + b, p, vs) == Splice(a, p, vs) + Splice(b, p, vs)
  {
    if a == [] {
      assert a + b == b;
    } else {
      assert (a + b)[1..] == a[1..] + b;
      SpliceAppend(a[1..], b, p, vs);
    }
  }

  lemma {:induction false} SpliceAbsent(ts: seq<Token>, p: string, vs: seq<Token>)
    requires Hole(p) !in ts || vs == [Hole(p)]
    ensures Splice(ts, p, vs) == ts
  {
    if ts != [] {
      SpliceAbsent(ts[1..], p, vs);
      assert ts == [ts[0]] + ts[1..];
    }
  }

  lemma SelfTokens(p: string)
    requires Shaped(p)
    ensures Tokenize(p) == Some([Hole(p)])
  {
    ShapedClose(p);
    var i := CloseIndex(p);
    assert p[..i + 1] == p && p[i + 1..] == "";
    assert Tokenize(p[i + 1..]) == Some([]);
    assert [Hole(p)] + [] == [Hole(p)];
  }

  /** Replacing one more builtin that no value put in before mentions extends the simultaneous substitution by it. */
  lemma {:induction false} SpliceExtends(ts: seq<Token>, builtins: map<string, string>, keys: set<string>, q: string)
    requires GoodBuiltins(builtins) && keys <= builtins.Keys && q in builtins && q !in keys
    requires forall k :: k in keys && Hole(k) in ts && Hole(q) in Tokens(builtins[k]) ==> builtins[q] == q
    ensures Splice(Spliced(ts, builtins, keys), q, Tokens(builtins[q])) == Spliced(ts, builtins, keys + {q})
  {
    if ts != [] {
      var vs := Tokens(builtins[q]);
      SpliceExtends(ts[1..], builtins, keys, q);
      if ts[0].Hole? && ts[0].text in keys {
        var inner := Tokens(builtins[ts[0].text]);
        SpliceAppend(inner, Spliced(ts[1..], builtins, keys), q, vs);
        if Hole(q) in inner {
          SelfTokens(q);
        }
        SpliceAbsent(inner, q, vs);
      } else {
        SpliceAppend([ts[0]], Spliced(ts[1..], builtins, keys), q, vs);
        assert [ts[0]][1..] == [];
        assert Splice([ts[0]], q, vs) == if ts[0] == Hole(q) then vs else [ts[0]];
      }
    }
  }

  ghost function KeysOf(order: seq<string>): set<string> {
    set k | k in order
  }

  lemma {:induction false} NothingSpliced(ts: seq<Token>, builtins: map<string, string>)
    requires GoodBuiltins(builtins)
    ensures Spliced(ts, builtins, {}) == ts
  {
    if ts != [] {
      NothingSpliced(ts[1..], builtins);
      assert ts == [ts[0]] + ts[1..];
    }
  }

  lemma KeysGrow(front: seq<string>, last: string)
    ensures KeysOf(front + [last]) == KeysOf(front) + {last}
  {
    var order := front + [last];
    assert forall k :: k in order <==> k in front || k == last;
  }

  /** In an order in which no value put in mentions a builtin that comes later. */
  lemma {:induction false} AnyOrder(ts: seq<Token>, builtins: map<string, string>, order: seq<string>)
    requires GoodBuiltins(builtins) && ValidTokens(ts) && forall i :: 0 <= i < |order| ==> order[i] in builtins
    requires forall i, j :: 0 <= i < j < |order| ==> order[i] != order[j]
    requires forall i, j :: 0 <= i < j < |order| && Hole(order[i]) in ts && Hole(order[j]) in Tokens(builtins[order[i]]) ==>
      builtins[order[j]] == order[j]
    ensures ReplaceBuiltins(Unparse(ts), builtins, order) == Unparse(Spliced(ts, builtins, KeysOf(order)))
  {
    hide ReplaceAll, Splice, Unparse, Spliced, ValidToken;
    if order == [] {
      assert KeysOf(order) == {};
      NothingSpliced(ts, builtins);
    } else {
      var front, last := order[..|order| - 1], order[|order| - 1];
      AnyOrder(ts, builtins, front);
      KeysGrow(front, last);
      assert order == front + [last];
      assert last in builtins && last !in KeysOf(front);
      SplicedValid(ts, builtins, KeysOf(front));
      ReplaceIsSplice(Spliced(ts, builtins, KeysOf(front)), last, Tokens(builtins[last]));
      SpliceExtends(ts, builtins, KeysOf(front), last);
    }
  }

  /** Every map order turns a well-formed text into the simultaneous substitution if the builtins it mentions are
      settled. */
  lemma EveryOrderIsSimultaneous(s: string, builtins: map<string, string>, order: seq<string>)
    requires GoodBuiltins(builtins) && WellFormed(s) && SettledFor(Tokens(s), builtins) && IsOrder(order, builtins)
    ensures ReplaceBuiltins(s, builtins, order) == Unparse(Spliced(Tokens(s), builtins, builtins.Keys))
  {
    AnyOrder(Tokens(s), builtins, order);
    assert KeysOf(order) == builtins.Keys;
  }

  // ---------------------------------------------------------------------------
  // When the order shows
  // ---------------------------------------------------------------------------

  lemma SomeOrder(builtins: map<string, string>) returns (order: seq<string>)
    ensures IsOrder(order, builtins)
  {
    order := [];
    var left := builtins.Keys;
    while left != {}
      invariant left <= builtins.Keys
      invariant forall i :: 0 <= i < |order| ==> order[i] in builtins && order[i] !in left
      invariant forall k :: k in builtins && k !in left ==> k in order
      invariant forall i, j :: 0 <= i < j < |order| ==> order[i] != order[j]
    {
      var x :| x in left;
      order := order + [x];
      left := left - {x};
    }
  }

  /** Enumerates the other keys, then the two given ones. */
  lemma OrderEndingWith(builtins: map<string, string>, j: string, k: string) returns (front: seq<string>)
    requires j in builtins && k in builtins && j != k
    ensures j !in front && k !in front
    ensures IsOrder(front + [j, k], builtins) && IsOrder(front + [k, j], builtins)
  {
    front := [];
    var left := builtins.Keys - {j, k};
    while left != {}
      invariant left <= builtins.Keys - {j, k}
      invariant forall x :: x in front <==> x in builtins && x != j && x != k && x !in left
      invariant forall a, b :: 0 <= a < b < |front| ==> front[a] != front[b]
    {
      var x :| x in left;
      assert forall a :: 0 <= a < |front| ==> front[a] in front;
      front := front + [x];
      left := left - {x};
    }
    assert forall a :: 0 <= a < |front| ==> front[a] in front;
  }

  lemma {:induction false} OthersLeaveHole(builtins: map<string, string>, order: seq<string>, k: string)
    requires GoodBuiltins(builtins) && Shaped(k) && k !in order
    requires forall i :: 0 <= i < |order| ==> order[i] in builtins
    ensures ReplaceBuiltins(k, builtins, order) == k
  {
    if order != [] {
      var last := order[|order| - 1];
      OthersLeaveHole(builtins, order[..|order| - 1], k);
      SkipHole(k, "", last, builtins[last]);
      assert k + "" == k;
    }
  }

  lemma ReplaceSelf(k: string, v: string)
    requires Shaped(k)
    ensures ReplaceAll(k, k, v) == v
  {
    assert k[|k|..] == "";
    assert v + "" == v;
  }

  /** Putting a different text for a placeholder that occurs changes the text. */
  lemma {:induction false} SpliceChanges(ts: seq<Token>, p: string, vs: seq<Token>)
    requires Hole(p) in ts && Unparse(vs) != p
    ensures |Unparse(vs)| >= |p| ==> |Unparse(Splice(ts, p, vs))| >= |Unparse(ts)|
    ensures |Unparse(vs)| <= |p| ==> |Unparse(Splice(ts, p, vs))| <= |Unparse(ts)|
    ensures Unparse(Splice(ts, p, vs)) != Unparse(ts)
  {
    UnparseAppend(if ts[0] == Hole(p) then vs else [ts[0]], Splice(ts[1..], p, vs));
    var rest, rest' := Unparse(ts[1..]), Unparse(Splice(ts[1..], p, vs));
    LengthShift(ts[1..], p, vs);
    if ts[0] == Hole(p) {
      assert Unparse(ts) == p + rest && Unparse(Splice(ts, p, vs)) == Unparse(vs) + rest';
      if |Unparse(vs)| == |p| {
        assert (p + rest)[..|p|] == p && (Unparse(vs) + rest')[..|p|] == Unparse(vs);
      }
    } else {
      assert Unparse([ts[0]]) == TokenText(ts[0]);
      SpliceChanges(ts[1..], p, vs);
      assert (TokenText(ts[0]) + rest)[|TokenText(ts[0])|..] == rest;
      assert (TokenText(ts[0]) + rest')[|TokenText(ts[0])|..] == rest';
    }
  }

  lemma {:induction false} LengthShift(ts: seq<Token>, p: string, vs: seq<Token>)
    ensures |Unparse(vs)| >= |p| ==> |Unparse(Splice(ts, p, vs))| >= |Unparse(ts)|
    ensures |Unparse(vs)| <= |p| ==> |Unparse(Splice(ts, p, vs))| <= |Unparse(ts)|
  {
    if ts != [] {
      UnparseAppend(if ts[0] == Hole(p) then vs else [ts[0]], Splice(ts[1..], p, vs));
      LengthShift(ts[1..], p, vs);
    }
  }

  lemma LastTwo(s: string, builtins: map<string, string>, front: seq<string>, a: string, b: string)
    requires forall i :: 0 <= i < |front| ==> front[i] in builtins && front[i] != ""
    requires a in builtins && a != "" && b in builtins && b != ""
    ensures ReplaceBuiltins(s, builtins, front + [a, b])
         == ReplaceAll(ReplaceAll(ReplaceBuiltins(s, builtins, front), a, builtins[a]), b, builtins[b])
  {
    var order := front + [a, b];
    assert order[..|order| - 1] == front + [a];
    assert (front + [a])[..|front|] == front;
  }

  /** A value that mentions another builtin with a different value makes the map order show. */
  lemma UnsettledOrdersDiffer(builtins: map<string, string>, j: string, k: string) returns (o: seq<string>, o': seq<string>)
    requires GoodBuiltins(builtins) && j in builtins && k in builtins && j != k
    requires Hole(j) in Tokens(builtins[k]) && builtins[j] != j
    ensures IsOrder(o, builtins) && IsOrder(o', builtins) && WellFormed(k)
    ensures ReplaceBuiltins(k, builtins, o) == Unparse(Splice(Tokens(builtins[k]), j, Tokens(builtins[j])))
    ensures ReplaceBuiltins(k, builtins, o') == builtins[k]
    ensures ReplaceBuiltins(k, builtins, o) != ReplaceBuiltins(k, builtins, o')
  {
    var front := OrderEndingWith(builtins, j, k);
    o, o' := front + [k, j], front + [j, k];
    assert Shaped(k) && Shaped(j);
    assert forall i :: 0 <= i < |front| ==> front[i] == o[i];
    SelfTokens(k);
    OthersLeaveHole(builtins, front, k);
    ReplaceSelf(k, builtins[k]);
    SkipHole(k, "", j, builtins[j]);
    assert k + "" == k;
    LastTwo(k, builtins, front, k, j);
    LastTwo(k, builtins, front, j, k);
    ReplaceIsSplice(Tokens(builtins[k]), j, Tokens(builtins[j]));
    SpliceChanges(Tokens(builtins[k]), j, Tokens(builtins[j]));
  }

  ghost predicate OrdersAgree(builtins: map<string, string>)
    requires GoodBuiltins(builtins)
  {
    forall s, o, o' :: WellFormed(s) && IsOrder(o, builtins) && IsOrder(o', builtins) ==>
      ReplaceBuiltins(s, builtins, o) == ReplaceBuiltins(s, builtins, o')
  }

  /** For well-formed values, every text comes out the same in every map order if and only if no builtin's
      value mentions another builtin (other than one that stands for itself). */
  lemma OrdersAgreeIff(builtins: map<string, string>)
    requires GoodBuiltins(builtins)
    ensures OrdersAgree(builtins) <==> Settled(builtins)
  {
    if Settled(builtins) {
      forall s, o, o' | WellFormed(s) && IsOrder(o, builtins) && IsOrder(o', builtins)
        ensures ReplaceBuiltins(s, builtins, o) == ReplaceBuiltins(s, builtins, o')
      {
        EveryOrderIsSimultaneous(s, builtins, o);
        EveryOrderIsSimultaneous(s, builtins, o');
      }
    } else {
      var j, k :| j in builtins && k in builtins && j != k && Hole(j) in Tokens(builtins[k]) && builtins[j] != j;
      var o, o' := UnsettledOrdersDiffer(builtins, j, k);
    }
  }

  // ---------------------------------------------------------------------------
  // The environment pass
  // ---------------------------------------------------------------------------

  /** The variable a token refers to. */
  function EnvOf(t: Token): Option<string> {
    match t case Lit(_) => None case Hole(p) => EnvAt(p)
  }

  function Filled(ts: seq<Token>, env: map<string, string>): string {
    if ts == [] then ""
    else
      (match EnvOf(ts[0])
       case Some(name) => if name in env then env[name] else TokenText(ts[0])
       case None => TokenText(ts[0])) + Filled(ts[1..], env)
  }

  function Unset(ts: seq<Token>, env: map<string, string>): seq<string> {
    if ts == [] then []
    else
      (match EnvOf(ts[0])
       case Some(name) => if name in env then [] else [name]
       case None => []) + Unset(ts[1..], env)
  }

  lemma {:induction false} IdentAppend(a: string, b: string)
    requires IdentLength(a) < |a|
    ensures IdentLength(a + b) == IdentLength(a)
  {
    if IsIdentChar(a[0]) {
      assert (a + b)[1..] == a[1..] + b;
      IdentAppend(a[1..], b);
    }
  }

  /** Whether a placeholder refers to a variable does not depend on what follows it. */
  lemma EnvAtHole(q: string, rest: string)
    requires Shaped(q)
    ensures EnvAt(q + rest) == EnvAt(q)
    ensures EnvAt(q).Some? ==> |ENV_OPEN| + |EnvAt(q).value| + 1 == |q|
  {
    assert ENV_OPEN <= q ==> ENV_OPEN <= q + rest;
    if ENV_OPEN <= q + rest {
      OpenFits(q, rest);
      var inner := q[|ENV_OPEN|..];
      assert (q + rest)[|ENV_OPEN|..] == inner + rest;
      assert inner[|inner| - 1] == '}';
      IdentAppend(inner, rest);
      var n := IdentLength(inner);
      assert forall i :: 0 <= i < |inner| - 1 ==> inner[i] == q[|ENV_OPEN| + i] && inner[i] != '}';
      assert (inner + rest)[..n] == inner[..n];
    }
  }

  lemma OpenFits(q: string, rest: string)
    requires Shaped(q) && ENV_OPEN <= q + rest
    ensures |ENV_OPEN| < |q| && ENV_OPEN <= q
  {
    assert forall i :: 0 <= i < |ENV_OPEN| ==> (q + rest)[i] == ENV_OPEN[i] && ENV_OPEN[i] != '}';
    assert (q + rest)[|q| - 1] == q[|q| - 1] == '}';
    assert q[..|ENV_OPEN|] == (q + rest)[..|ENV_OPEN|];
  }

  lemma {:induction false} PassPlain(x: string, rest: string, env: map<string, string>)
    requires '$' !in x
    ensures EnvPass(x + rest, env) == (x + EnvPass(rest, env).0, EnvPass(rest, env).1)
    decreases |x|
  {
    if x == "" {
      assert x + rest == rest;
      assert x + EnvPass(rest, env).0 == EnvPass(rest, env).0;
    } else {
      assert (x + rest)[0] == x[0] != '$' && (x + rest)[1..] == x[1..] + rest;
      assert EnvAt(x + rest) == None;
      PassPlain(x[1..], rest, env);
      var out := EnvPass(rest, env).0;
      assert x + out == [x[0]] + (x[1..] + out);
    }
  }

  lemma PassHole(q: string, rest: string, env: map<string, string>)
    requires Shaped(q)
    ensures var (out, unset) := EnvPass(rest, env);
      EnvPass(q + rest, env) ==
        match EnvAt(q)
        case Some(name) => if name in env then (env[name] + out, unset) else (q + out, [name] + unset)
        case None => (q + out, unset)
  {
    hide EnvAt;
    EnvAtHole(q, rest);
    assert q != "" && q + rest != "";
    if EnvAt(q).Some? {
      assert (q + rest)[|q|..] == rest && (q + rest)[..|q|] == q;
    } else {
      assert (q + rest)[1..] == q[1..] + rest && q == [q[0]] + q[1..];
      PassPlain(q[1..], rest, env);
      var out := EnvPass(rest, env).0;
      assert q + out == [q[0]] + (q[1..] + out);
    }
  }

  /** The pass fills every variable placeholder at once and reports exactly the unset ones. */
  lemma {:induction false} PassFills(ts: seq<Token>, env: map<string, string>)
    requires ValidTokens(ts)
    ensures EnvPass(Unparse(ts), env) == (Filled(ts, env), Unset(ts, env))
  {
    if ts != [] {
      PassFills(ts[1..], env);
      assert ValidToken(ts[0]);
      match ts[0]
      case Lit(c) =>
        PassPlain([c], Unparse(ts[1..]), env);
        assert [] + Unset(ts[1..], env) == Unset(ts[1..], env);
      case Hole(q) => PassHole(q, Unparse(ts[1..]), env);
    }
  }

  ghost predicate RefersToUnset(ts: seq<Token>, env: map<string, string>) {
    exists t :: t in ts && EnvOf(t).Some? && EnvOf(t).value !in env
  }

  lemma {:induction false} UnsetIff(ts: seq<Token>, env: map<string, string>)
    ensures Unset(ts, env) != [] <==> RefersToUnset(ts, env)
  {
    if ts != [] {
      UnsetIff(ts[1..], env);
      assert ts == [ts[0]] + ts[1..];
    }
  }

  /** On a well-formed text whose builtins are settled, substitution in any map order gives the one simultaneous
      substitution, and fails exactly when that mentions a variable that is not set. */
  lemma SubstituteIsSimultaneous(s: string, builtins: map<string, string>, order: seq<string>, env: map<string, string>)
    requires GoodBuiltins(builtins) && WellFormed(s) && SettledFor(Tokens(s), builtins) && IsOrder(order, builtins)
    ensures var ts := Spliced(Tokens(s), builtins, builtins.Keys);
      var r := SubstituteIn(s, builtins, order, env);
      && (r.Err? <==> RefersToUnset(ts, env))
      && (r.Ok? ==> r.value == Filled(ts, env))
  {
    var ts := Spliced(Tokens(s), builtins, builtins.Keys);
    EveryOrderIsSimultaneous(s, builtins, order);
    SplicedValid(Tokens(s), builtins, builtins.Keys);
    PassFills(ts, env);
    UnsetIff(ts, env);
  }

  // ---------------------------------------------------------------------------
  // Values without a dollar sign
  // ---------------------------------------------------------------------------

  lemma {:induction false} PlainTokens(v: string)
    requires '$' !in v
    ensures Tokenize(v).Some? && forall t :: t in Tokenize(v).value ==> t.Lit?
    decreases |v|
  {
    if v != "" {
      PlainTokens(v[1..]);
    }
  }

  ghost predicate PlainBuiltins(builtins: map<string, string>) {
    forall k :: k in builtins ==> Shaped(k) && '$' !in builtins[k] && EnvAt(k).None?
  }

  lemma {:induction false} SplicedPlain(ts: seq<Token>, builtins: map<string, string>)
    requires GoodBuiltins(builtins) && PlainBuiltins(builtins)
    ensures forall t :: t in Spliced(ts, builtins, builtins.Keys) ==> t.Hole? ==> t in ts && t.text !in builtins
    ensures forall t :: t in ts && t.Hole? && t.text !in builtins ==> t in Spliced(ts, builtins, builtins.Keys)
  {
    if ts != [] {
      SplicedPlain(ts[1..], builtins);
      if ts[0].Hole? && ts[0].text in builtins {
        PlainTokens(builtins[ts[0].text]);
      }
    }
  }

  lemma PlainIsSettled(builtins: map<string, string>)
    requires PlainBuiltins(builtins)
    ensures GoodBuiltins(builtins) && Settled(builtins)
  {
    forall x | x in builtins
      ensures WellFormed(builtins[x]) && forall t :: t in Tokens(builtins[x]) ==> t.Lit?
    {
      PlainTokens(builtins[x]);
    }
  }

  /** With builtin values free of `$`: any map order agrees, no builtin placeholder is left for a further
      replacement to find, and substitution fails exactly when the text itself names an unset variable. */
  lemma PlainSubstitution(s: string, builtins: map<string, string>, order: seq<string>, env: map<string, string>, k: string, v: string)
    requires PlainBuiltins(builtins) && WellFormed(s) && IsOrder(order, builtins) && k in builtins
    ensures GoodBuiltins(builtins) && Settled(builtins)
    ensures SubstituteIn(s, builtins, order, env).Err? <==> RefersToUnset(Tokens(s), env)
    ensures ReplaceAll(ReplaceBuiltins(s, builtins, order), k, v) == ReplaceBuiltins(s, builtins, order)
  {
    PlainIsSettled(builtins);
    var ts := Spliced(Tokens(s), builtins, builtins.Keys);
    hide Tokenize, ReplaceAll, ReplaceBuiltins, Unparse;
    SubstituteIsSimultaneous(s, builtins, order, env);
    SplicedPlain(Tokens(s), builtins);
    SplicedValid(Tokens(s), builtins, builtins.Keys);
    EveryOrderIsSimultaneous(s, builtins, order);
    PlainUnset(Tokens(s), builtins, env);
    hide SubstituteIn, RefersToUnset, IsOrder;
    NoHoleNoChange(ts, k, v);
  }

  lemma PlainUnset(ts: seq<Token>, builtins: map<string, string>, env: map<string, string>)
    requires GoodBuiltins(builtins) && PlainBuiltins(builtins)
    ensures RefersToUnset(Spliced(ts, builtins, builtins.Keys), env) <==> RefersToUnset(ts, env)
  {
    SplicedPlain(ts, builtins);
    hide Spliced, GoodBuiltins;
    if RefersToUnset(ts, env) {
      var t :| t in ts && EnvOf(t).Some? && EnvOf(t).value !in env;
      assert t.Hole?;
    }
  }

  lemma {:induction false} NoHoleNoChange(ts: seq<Token>, p: string, v: string)
    requires ValidTokens(ts) && Shaped(p) && Hole(p) !in ts
    ensures ReplaceAll(Unparse(ts), p, v) == Unparse(ts)
  {
    if ts != [] {
      NoHoleNoChange(ts[1..], p, v);
      assert ValidToken(ts[0]);
      match ts[0]
      case Lit(c) => SkipPlain([c], Unparse(ts[1..]), p, v);
      case Hole(q) => SkipHole(q, Unparse(ts[1..]), p, v);
    }
  }
}
