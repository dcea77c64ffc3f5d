/** Builtins of which only one may have a value with placeholders: what each map order makes of a text. */
module RawValues {
  import opened Common
  import opened Placeholders

  /** All values but one are free of placeholders, and no builtin looks like a variable. */
  ghost predicate OneRaw(b: map<string, string>, d: string) {
    && d in b && WellFormed(b[d])
    && (forall k :: k in b ==> Shaped(k) && EnvAt(k).None?)
    && (forall k :: k in b && k != d ==> '$' !in b[k])
  }

  lemma OneRawIsGood(b: map<string, string>, d: string)
    requires OneRaw(b, d)
    ensures GoodBuiltins(b)
    ensures forall k :: k in b && k != d ==> b[k] != k && (forall t :: t in Tokens(b[k]) ==> t.Lit?)
  {
    forall k | k in b && k != d
      ensures WellFormed(b[k]) && b[k] != k && forall t :: t in Tokens(b[k]) ==> t.Lit?
    {
      PlainTokens(b[k]);
      assert Shaped(k) && k[0] == '$';
    }
  }

  /** The one value mentions another builtin. */
  ghost predicate MentionsOther(b: map<string, string>, d: string)
    requires OneRaw(b, d)
  {
    exists k :: k in b && k != d && Hole(k) in Tokens(b[d])
  }

  lemma SettledForIff(ts: seq<Token>, b: map<string, string>, d: string)
    requires OneRaw(b, d)
    ensures GoodBuiltins(b)
    ensures SettledFor(ts, b) <==> !(Hole(d) in ts && MentionsOther(b, d))
  {
    OneRawIsGood(b, d);
    hide WellFormed, Tokens;
  }

  // ---------------------------------------------------------------------------
  // What an order gives
  // ---------------------------------------------------------------------------

  /** What a token becomes, if the replacements of `later` come behind that of the raw value. */
  ghost function Head(t: Token, b: map<string, string>, d: string, later: set<string>): seq<Token>
    requires GoodBuiltins(b) && d in b && later <= b.Keys
  {
    if t == Hole(d) then Spliced(Tokens(b[d]), b, later)
    else if t.Hole? && t.text in b then Tokens(b[t.text])
    else [t]
  }

  /** The tokens after all replacements. */
  ghost function Given(ts: seq<Token>, b: map<string, string>, d: string, later: set<string>): seq<Token>
    requires GoodBuiltins(b) && d in b && later <= b.Keys
  {
    if ts == [] then []
    else Head(ts[0], b, d, later) + Given(ts[1..], b, d, later)
  }

  lemma {:induction false} SplicedAppend(x: seq<Token>, y: seq<Token>, b: map<string, string>, keys: set<string>)
    requires GoodBuiltins(b) && keys <= b.Keys
    ensures Spliced(x + y, b, keys) == Spliced(x, b, keys) + Spliced(y, b, keys)
  {
    hide Tokens, WellFormed;
    if x == [] {
      assert x + y == y;
    } else {
      var all := x + y;
      assert all[0] == x[0] && all[1..] == x[1..] + y;
      SplicedAppend(x[1..], y, b, keys);
    }
  }

  lemma {:induction false} LitsStay(ts: seq<Token>, b: map<string, string>, keys: set<string>)
    requires GoodBuiltins(b) && keys <= b.Keys && forall t :: t in ts ==> t.Lit?
    ensures Spliced(ts, b, keys) == ts
  {
    if ts != [] {
      assert ts[0] in ts;
      LitsStay(ts[1..], b, keys);
      assert ts == [ts[0]] + ts[1..];
    }
  }

  lemma OneToken(t: Token, b: map<string, string>, keys: set<string>)
    requires GoodBuiltins(b) && keys <= b.Keys
    ensures Spliced([t], b, keys) == if t.Hole? && t.text in keys then Tokens(b[t.text]) else [t]
  {
    assert [t][1..] == [];
  }

  lemma {:induction false} SpliceValid(ts: seq<Token>, p: string, vs: seq<Token>)
    requires ValidTokens(ts) && ValidTokens(vs)
    ensures ValidTokens(Splice(ts, p, vs))
  {
    if ts != [] {
      SpliceValid(ts[1..], p, vs);
      assert ValidToken(ts[0]);
    }
  }

  /** Three rounds of replacements, token by token. */
  lemma {:induction false} Merge(ts: seq<Token>, b: map<string, string>, d: string, k1: set<string>, k2: set<string>)
    requires OneRaw(b, d) && GoodBuiltins(b) && k1 + k2 == b.Keys - {d} && k1 !! k2
    ensures Spliced(Splice(Spliced(ts, b, k1), d, Tokens(b[d])), b, k2) == Given(ts, b, d, k2)
  {
    if ts != [] {
      var head := if ts[0].Hole? && ts[0].text in k1 then Tokens(b[ts[0].text]) else [ts[0]];
      var rest, raw := Spliced(ts[1..], b, k1), Tokens(b[d]);
      OneRawIsGood(b, d);
      Merge(ts[1..], b, d, k1, k2);
      SpliceAppend(head, rest, d, raw);
      SplicedAppend(Splice(head, d, raw), Splice(rest, d, raw), b, k2);
      if ts[0] == Hole(d) {
        assert head == [Hole(d)] && head[1..] == [];
        assert Splice(head, d, raw) == raw;
      } else {
        SpliceAbsent(head, d, raw);
        if ts[0].Hole? && ts[0].text in k1 {
          LitsStay(head, b, k2);
        } else {
          OneToken(ts[0], b, k2);
        }
      }
    }
  }

  lemma {:induction false} ReplaceInTwo(s: string, b: map<string, string>, x: seq<string>, y: seq<string>)
    requires forall i :: 0 <= i < |x + y| ==> (x + y)[i] in b && (x + y)[i] != ""
    ensures forall i :: 0 <= i < |x| ==> x[i] in b && x[i] != ""
    ensures forall i :: 0 <= i < |y| ==> y[i] in b && y[i] != ""
    ensures ReplaceBuiltins(s, b, x + y) == ReplaceBuiltins(ReplaceBuiltins(s, b, x), b, y)
    decreases |y|
  {
    hide ReplaceAll;
    var all := x + y;
    assert forall i :: 0 <= i < |x| ==> x[i] == all[i];
    assert forall i :: 0 <= i < |y| ==> y[i] == all[|x| + i];
    if y == [] {
      assert all == x;
    } else {
      var front := y[..|y| - 1];
      assert all[..|all| - 1] == x + front && all[|all| - 1] == y[|y| - 1];
      ReplaceInTwo(s, b, x, front);
    }
  }

  lemma {:induction false} PlainRound(ts: seq<Token>, b: map<string, string>, d: string, order: seq<string>)
    requires OneRaw(b, d) && GoodBuiltins(b) && ValidTokens(ts)
    requires forall i :: 0 <= i < |order| ==> order[i] in b && order[i] != d && order[i] != ""
    requires forall i, j :: 0 <= i < j < |order| ==> order[i] != order[j]
    ensures ReplaceBuiltins(Unparse(ts), b, order) == Unparse(Spliced(ts, b, KeysOf(order)))
    ensures ValidTokens(Spliced(ts, b, KeysOf(order)))
  {
    OneRawIsGood(b, d);
    hide Tokens, WellFormed;
    AnyOrder(ts, b, order);
    SplicedValid(ts, b, KeysOf(order));
  }

  /** What a text becomes in an order, by what comes behind the raw value. */
  lemma OrderGives(s: string, b: map<string, string>, d: string, front: seq<string>, back: seq<string>)
    requires OneRaw(b, d) && GoodBuiltins(b) && WellFormed(s) && IsOrder(front + [d] + back, b)
    ensures KeysOf(back) <= b.Keys - {d} && "" !in b
    ensures ReplaceBuiltins(s, b, front + [d] + back) == Unparse(Given(Tokens(s), b, d, KeysOf(back)))
    ensures ValidTokens(Given(Tokens(s), b, d, KeysOf(back)))
  {
    var order, ts, raw := front + [d] + back, Tokens(s), Tokens(b[d]);
    var k1, k2 := KeysOf(front), KeysOf(back);
    OrderParts(b, d, front, back);
    assert Shaped(d);
    hide Tokens, WellFormed, Shaped, OneRaw, Given;
    ReplaceInTwo(s, b, front + [d], back);
    ReplaceInTwo(s, b, front, [d]);
    PlainRound(ts, b, d, front);
    ReplaceOne(ReplaceBuiltins(s, b, front), b, d);
    ReplaceIsSplice(Spliced(ts, b, k1), d, raw);
    SpliceValid(Spliced(ts, b, k1), d, raw);
    PlainRound(Splice(Spliced(ts, b, k1), d, raw), b, d, back);
    Merge(ts, b, d, k1, k2);
  }

  lemma ReplaceOne(s: string, b: map<string, string>, d: string)
    requires d in b && d != ""
    ensures ReplaceBuiltins(s, b, [d]) == ReplaceAll(s, d, b[d])
  {
    assert [d][..0] == [];
  }

  lemma OrderParts(b: map<string, string>, d: string, front: seq<string>, back: seq<string>)
    requires OneRaw(b, d) && IsOrder(front + [d] + back, b)
    ensures "" !in b
    ensures forall i :: 0 <= i < |front| ==> front[i] in b && front[i] != d
    ensures forall i :: 0 <= i < |back| ==> back[i] in b && back[i] != d
    ensures forall i, j :: 0 <= i < j < |front| ==> front[i] != front[j]
    ensures forall i, j :: 0 <= i < j < |back| ==> back[i] != back[j]
    ensures KeysOf(front) + KeysOf(back) == b.Keys - {d} && KeysOf(front) !! KeysOf(back)
  {
    var order := front + [d] + back;
    assert "" in b ==> Shaped("");
    assert order[|front|] == d;
    assert forall i :: 0 <= i < |front| ==> front[i] == order[i];
    assert forall i :: 0 <= i < |back| ==> back[i] == order[|front| + 1 + i];
    forall k
      ensures k in b <==> k in front || k == d || k in back
    {
      assert k in order <==> k in front || k == d || k in back;
    }
  }

  // ---------------------------------------------------------------------------
  // Telling two results apart
  // ---------------------------------------------------------------------------

  /** How many dollar signs a text holds. */
  function Dollars(s: string): nat {
    if s == "" then 0 else (if s[0] == '$' then 1 else 0) + Dollars(s[1..])
  }

  lemma {:induction false} DollarsAppend(x: string, y: string)
    ensures Dollars(x + y) == Dollars(x) + Dollars(y)
  {
    if x == "" {
      assert x + y == y;
    } else {
      assert (x + y)[1..] == x[1..] + y;
      DollarsAppend(x[1..], y);
    }
  }

  lemma {:induction false} FilledAppend(x: seq<Token>, y: seq<Token>, env: map<string, string>)
    ensures Filled(x + y, env) == Filled(x, env) + Filled(y, env)
  {
    if x == [] {
      assert x + y == y;
    } else {
      assert (x + y)[1..] == x[1..] + y;
      FilledAppend(x[1..], y, env);
    }
  }

  ghost function Cost(ts: seq<Token>, env: map<string, string>): nat {
    Dollars(Filled(ts, env))
  }

  lemma CostAppend(x: seq<Token>, y: seq<Token>, env: map<string, string>)
    ensures Cost(x + y, env) == Cost(x, env) + Cost(y, env)
  {
    FilledAppend(x, y, env);
    DollarsAppend(Filled(x, env), Filled(y, env));
  }

  lemma {:induction false} LitsCostNothing(ts: seq<Token>, env: map<string, string>)
    requires ValidTokens(ts) && forall t :: t in ts ==> t.Lit?
    ensures Cost(ts, env) == 0
  {
    if ts != [] {
      assert ts[0] in ts && ts == [ts[0]] + ts[1..];
      assert ValidToken(ts[0]) && [ts[0]][1..] == [];
      LitsCostNothing(ts[1..], env);
      CostAppend([ts[0]], ts[1..], env);
    }
  }

  lemma HoleCosts(k: string, env: map<string, string>)
    requires Shaped(k) && EnvAt(k).None?
    ensures Cost([Hole(k)], env) > 0
  {
    assert [Hole(k)][1..] == [];
    assert Filled([Hole(k)], env) == k;
  }

  /** Replacing plain builtins takes dollar signs away, if it finds any. */
  lemma {:induction false} SplicedCost(ts: seq<Token>, b: map<string, string>, d: string, keys: set<string>, env: map<string, string>)
    requires OneRaw(b, d) && GoodBuiltins(b) && keys == b.Keys - {d}
    ensures Cost(Spliced(ts, b, keys), env) <= Cost(ts, env)
    ensures (exists k :: k in keys && Hole(k) in ts) ==> Cost(Spliced(ts, b, keys), env) < Cost(ts, env)
  {
    if ts != [] {
      var t, rest := ts[0], ts[1..];
      assert ts == [t] + rest;
      SplicedCost(rest, b, d, keys, env);
      OneToken(t, b, keys);
      hide Cost;
      CostAppend([t], rest, env);
      CostAppend(Spliced([t], b, keys), Spliced(rest, b, keys), env);
      if t.Hole? && t.text in keys {
        OneRawIsGood(b, d);
        LitsCostNothing(Tokens(b[t.text]), env);
        HoleCosts(t.text, env);
      }
    }
  }

  lemma HeadCost(t: Token, b: map<string, string>, d: string, env: map<string, string>)
    requires OneRaw(b, d) && GoodBuiltins(b)
    ensures var all := b.Keys - {d};
      && Cost(Head(t, b, d, all), env) <= Cost(Head(t, b, d, {}), env)
      && (t == Hole(d) && MentionsOther(b, d) ==> Cost(Head(t, b, d, all), env) < Cost(Head(t, b, d, {}), env))
  {
    hide Cost, Spliced, WellFormed;
    NothingSpliced(Tokens(b[d]), b);
    SplicedCost(Tokens(b[d]), b, d, b.Keys - {d}, env);
  }

  /** With the raw value put in last, its own placeholders stay; with it put in first, they are replaced. */
  lemma {:induction false} GivenCost(ts: seq<Token>, b: map<string, string>, d: string, env: map<string, string>)
    requires OneRaw(b, d) && GoodBuiltins(b)
    ensures var all := b.Keys - {d};
      && Cost(Given(ts, b, d, all), env) <= Cost(Given(ts, b, d, {}), env)
      && (Hole(d) in ts && MentionsOther(b, d) ==> Cost(Given(ts, b, d, all), env) < Cost(Given(ts, b, d, {}), env))
  {
    if ts != [] {
      var all, rest := b.Keys - {d}, ts[1..];
      hide Cost, Head, MentionsOther, OneRaw;
      GivenCost(rest, b, d, env);
      HeadCost(ts[0], b, d, env);
      assert d in b && (Hole(d) in ts ==> ts[0] == Hole(d) || Hole(d) in rest);
      CostAppend(Head(ts[0], b, d, all), Given(rest, b, d, all), env);
      CostAppend(Head(ts[0], b, d, {}), Given(rest, b, d, {}), env);
    }
  }

  // ---------------------------------------------------------------------------
  // Unset variables
  // ---------------------------------------------------------------------------

  lemma UnsetAppend(x: seq<Token>, y: seq<Token>, env: map<string, string>)
    ensures RefersToUnset(x + y, env) <==> RefersToUnset(x, env) || RefersToUnset(y, env)
  {
    assert forall t :: t in x + y <==> t in x || t in y;
  }

  lemma {:induction false} SplicedUnset(ts: seq<Token>, b: map<string, string>, d: string, keys: set<string>, env: map<string, string>)
    requires OneRaw(b, d) && GoodBuiltins(b) && keys <= b.Keys - {d}
    ensures RefersToUnset(Spliced(ts, b, keys), env) <==> RefersToUnset(ts, env)
  {
    if ts != [] {
      var t, rest := ts[0], ts[1..];
      assert ts == [t] + rest;
      SplicedUnset(rest, b, d, keys, env);
      OneToken(t, b, keys);
      OneRawIsGood(b, d);
      UnsetAppend([t], rest, env);
      UnsetAppend(Spliced([t], b, keys), Spliced(rest, b, keys), env);
    }
  }

  /** Whether a variable is missing does not depend on the order. */
  lemma {:induction false} GivenUnset(ts: seq<Token>, b: map<string, string>, d: string, later: set<string>, env: map<string, string>)
    requires OneRaw(b, d) && GoodBuiltins(b) && later <= b.Keys - {d}
    ensures RefersToUnset(Given(ts, b, d, later), env) <==> RefersToUnset(Spliced(ts, b, b.Keys), env)
  {
    if ts != [] {
      var t, rest := ts[0], ts[1..];
      GivenUnset(rest, b, d, later, env);
      SplicedUnset(Tokens(b[d]), b, d, later, env);
      OneToken(t, b, b.Keys);
      UnsetAppend(Head(t, b, d, later), Given(rest, b, d, later), env);
      UnsetAppend(Spliced([t], b, b.Keys), Spliced(rest, b, b.Keys), env);
    }
  }

  // ---------------------------------------------------------------------------
  // One text
  // ---------------------------------------------------------------------------

  lemma SplitOrder(order: seq<string>, b: map<string, string>, d: string) returns (front: seq<string>, back: seq<string>)
    requires IsOrder(order, b) && d in b
    ensures order == front + [d] + back
  {
    var i :| 0 <= i < |order| && order[i] == d;
    front, back := order[..i], order[i + 1..];
  }

  /** Substitution fails in one order exactly if it does in all. */
  lemma FailsInAllOrders(s: string, b: map<string, string>, d: string, order: seq<string>, env: map<string, string>)
    requires OneRaw(b, d) && WellFormed(s) && IsOrder(order, b)
    ensures GoodBuiltins(b) && "" !in b
    ensures SubstituteIn(s, b, order, env).Err? <==> RefersToUnset(Spliced(Tokens(s), b, b.Keys), env)
  {
    OneRawIsGood(b, d);
    var front, back := SplitOrder(order, b, d);
    OrderGives(s, b, d, front, back);
    var ts := Given(Tokens(s), b, d, KeysOf(back));
    GivenUnset(Tokens(s), b, d, KeysOf(back), env);
    PassFills(ts, env);
    UnsetIff(ts, env);
  }

  /** The other builtins, to go behind the raw one or before it. */
  lemma TwoOrders(b: map<string, string>, d: string) returns (others: seq<string>)
    requires OneRaw(b, d)
    ensures IsOrder([d] + others, b) && IsOrder(others + [d], b) && KeysOf(others) == b.Keys - {d}
  {
    others := SomeOrder(b - {d});
    assert forall k :: k in b ==> k == d || k in b - {d};
    assert forall i :: 0 <= i < |others| ==> others[i] in b - {d};
  }

  /** A text with the raw placeholder, whose value mentions another builtin: the two orders give different texts, and
      different ones still when the variables are filled in. */
  lemma TwoResults(s: string, b: map<string, string>, d: string) returns (o: seq<string>, o': seq<string>)
    requires OneRaw(b, d) && WellFormed(s) && Hole(d) in Tokens(s) && MentionsOther(b, d)
    ensures GoodBuiltins(b) && "" !in b && IsOrder(o, b) && IsOrder(o', b)
    ensures forall env :: !RefersToUnset(Spliced(Tokens(s), b, b.Keys), env) ==>
      var r, r' := SubstituteIn(s, b, o, env), SubstituteIn(s, b, o', env);
      r.Ok? && r'.Ok? && r.value != r'.value
  {
    OneRawIsGood(b, d);
    var others := TwoOrders(b, d);
    o, o' := [d] + others, others + [d];
    hide Tokens, WellFormed, OneRaw, MentionsOther, ReplaceBuiltins, IsOrder, RefersToUnset, Spliced, Given;
    RawFirst(s, b, d, others);
    RawLast(s, b, d, others);
    forall env | !RefersToUnset(Spliced(Tokens(s), b, b.Keys), env)
      ensures var r, r' := SubstituteIn(s, b, o, env), SubstituteIn(s, b, o', env);
        r.Ok? && r'.Ok? && r.value != r'.value
    {
      TwoValues(s, b, d, o, o', env);
    }
  }

  lemma RawFirst(s: string, b: map<string, string>, d: string, others: seq<string>)
    requires OneRaw(b, d) && GoodBuiltins(b) && WellFormed(s) && IsOrder([d] + others, b) && KeysOf(others) == b.Keys - {d}
    ensures "" !in b && d in b
    ensures var ts := Given(Tokens(s), b, d, b.Keys - {d});
      ReplaceBuiltins(s, b, [d] + others) == Unparse(ts) && ValidTokens(ts)
  {
    var none: seq<string> := [];
    assert d in b && none + [d] + others == [d] + others;
    hide *;
    OrderGives(s, b, d, none, others);
  }

  lemma RawLast(s: string, b: map<string, string>, d: string, others: seq<string>)
    requires OneRaw(b, d) && GoodBuiltins(b) && WellFormed(s) && IsOrder(others + [d], b)
    ensures "" !in b && d in b
    ensures var ts := Given(Tokens(s), b, d, {});
      ReplaceBuiltins(s, b, others + [d]) == Unparse(ts) && ValidTokens(ts)
  {
    var none: seq<string> := [];
    assert d in b && others + [d] + none == others + [d] && KeysOf(none) == {};
    hide Tokens, WellFormed, OneRaw, Given, ReplaceBuiltins, IsOrder, KeysOf, Unparse;
    OrderGives(s, b, d, others, none);
  }

  lemma TwoValues(s: string, b: map<string, string>, d: string, o: seq<string>, o': seq<string>, env: map<string, string>)
    requires OneRaw(b, d) && GoodBuiltins(b) && "" !in b && WellFormed(s) && Hole(d) in Tokens(s) && MentionsOther(b, d)
    requires IsOrder(o, b) && ReplaceBuiltins(s, b, o) == Unparse(Given(Tokens(s), b, d, b.Keys - {d}))
    requires IsOrder(o', b) && ReplaceBuiltins(s, b, o') == Unparse(Given(Tokens(s), b, d, {}))
    requires ValidTokens(Given(Tokens(s), b, d, b.Keys - {d})) && ValidTokens(Given(Tokens(s), b, d, {}))
    requires !RefersToUnset(Spliced(Tokens(s), b, b.Keys), env)
    ensures var r, r' := SubstituteIn(s, b, o, env), SubstituteIn(s, b, o', env);
      r.Ok? && r'.Ok? && r.value != r'.value
  {
    assert d in b;
    hide Tokens, WellFormed, Given, Spliced, ReplaceBuiltins, OneRaw, MentionsOther, RefersToUnset;
    FailsInAllOrders(s, b, d, o, env);
    FailsInAllOrders(s, b, d, o', env);
    PassFills(Given(Tokens(s), b, d, b.Keys - {d}), env);
    PassFills(Given(Tokens(s), b, d, {}), env);
    GivenCost(Tokens(s), b, d, env);
  }

  /** An environment with every variable the tokens refer to. */
  ghost function AllVariables(ts: seq<Token>): map<string, string> {
    if ts == [] then map[]
    else match EnvOf(ts[0])
         case Some(name) => AllVariables(ts[1..])[name := ""]
         case None => AllVariables(ts[1..])
  }

  lemma {:induction false} AllVariablesSet(ts: seq<Token>)
    ensures forall t :: t in ts && EnvOf(t).Some? ==> EnvOf(t).value in AllVariables(ts)
  {
    if ts != [] {
      AllVariablesSet(ts[1..]);
      assert ts == [ts[0]] + ts[1..];
    }
  }

  lemma TextOrdersDiffer(s: string, b: map<string, string>, d: string) returns (o: seq<string>, o': seq<string>)
    requires OneRaw(b, d) && WellFormed(s) && Hole(d) in Tokens(s) && MentionsOther(b, d)
    ensures "" !in b && IsOrder(o, b) && IsOrder(o', b) && ReplaceBuiltins(s, b, o) != ReplaceBuiltins(s, b, o')
  {
    OneRawIsGood(b, d);
    var env := AllVariables(Spliced(Tokens(s), b, b.Keys));
    AllVariablesSet(Spliced(Tokens(s), b, b.Keys));
    assert !RefersToUnset(Spliced(Tokens(s), b, b.Keys), env);
    hide Tokens, WellFormed, OneRaw, MentionsOther, ReplaceBuiltins, IsOrder, Spliced, RefersToUnset, AllVariables;
    o, o' := TwoResults(s, b, d);
  }

  /** For one text: all orders agree on it if and only if it does not hold the raw placeholder, or the value behind it
      mentions no other builtin. */
  lemma TextOrdersAgreeIff(s: string, b: map<string, string>, d: string)
    requires OneRaw(b, d) && WellFormed(s)
    ensures "" !in b
    ensures (forall o, o' :: IsOrder(o, b) && IsOrder(o', b) ==> ReplaceBuiltins(s, b, o) == ReplaceBuiltins(s, b, o'))
       <==> !(Hole(d) in Tokens(s) && MentionsOther(b, d))
  {
    OneRawIsGood(b, d);
    assert "" in b ==> Shaped("");
    SettledForIff(Tokens(s), b, d);
    if Hole(d) in Tokens(s) && MentionsOther(b, d) {
      var o, o' := TextOrdersDiffer(s, b, d);
    } else {
      hide Tokens, WellFormed, OneRaw, MentionsOther, ReplaceBuiltins, IsOrder, SettledFor, Spliced;
      forall o, o' | IsOrder(o, b) && IsOrder(o', b)
        ensures ReplaceBuiltins(s, b, o) == ReplaceBuiltins(s, b, o')
      {
        EveryOrderIsSimultaneous(s, b, o);
        EveryOrderIsSimultaneous(s, b, o');
      }
    }
  }
}
