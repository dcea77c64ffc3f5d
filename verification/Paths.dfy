/** Slash-separated paths: lexical cleaning and joining, and what they mean on components. */
module Paths {
  import opened Splitting

  // ---------------------------------------------------------------------------
  // Lexical paths
  // ---------------------------------------------------------------------------

  /** One component of a path is worked into the components kept so far. */
  function Step(rooted: bool, kept: seq<string>, c: string): seq<string> {
    if c == "" || c == "." then kept
    else if c == ".." then
      if kept != [] && kept[|kept| - 1] != ".." then kept[..|kept| - 1]
      else if rooted then kept
      else kept + [".."]
    else kept + [c]
  }

  function Walk(rooted: bool, kept: seq<string>, cs: seq<string>): seq<string>
    decreases |cs|
  {
    if cs == [] then kept else Walk(rooted, Step(rooted, kept, cs[0]), cs[1..])
  }

  /** Each component behind a slash. */
  function Path(cs: seq<string>): string {
    if cs == [] then "" else "/" + cs[0] + Path(cs[1..])
  }

  function Rooted(cs: seq<string>): string {
    if cs == [] then "/" else Path(cs)
  }

  function Relative(cs: seq<string>): string {
    if cs == [] then "." else Path(cs)[1..]
  }

  /** `filepath.Clean`. */
  function Clean(s: string): string {
    if s == "" then "."
    else
      var rooted := s[0] == '/';
      var kept := Walk(rooted, [], Split(s, '/'));
      if rooted then Rooted(kept) else Relative(kept)
  }

  /** `filepath.Join` of two elements. */
  function JoinPath(a: string, b: string): string {
    if a != "" then Clean(a + "/" + b) else if b != "" then Clean(b) else ""
  }

  function TrimSlash(s: string): string {
    if s != "" && s[0] == '/' then s[1..] else s
  }

  /** The check on strings that a path is at or below another one. */
  predicate Accepted(target: string, path: string) {
    path == target || target + "/" <= path
  }

  // ---------------------------------------------------------------------------
  // Components
  // ---------------------------------------------------------------------------

  predicate Plain(c: string) {
    c != "" && '/' !in c
  }

  predicate IsName(c: string) {
    Plain(c) && c != "." && c != ".."
  }

  ghost predicate AllPlain(cs: seq<string>) {
    forall i :: 0 <= i < |cs| ==> Plain(cs[i])
  }

  ghost predicate AllNames(cs: seq<string>) {
    forall i :: 0 <= i < |cs| ==> IsName(cs[i])
  }

  /** How many `..` a cleaned path starts with. */
  function Ups(cs: seq<string>): (k: nat)
    ensures k <= |cs| && (forall i :: 0 <= i < k ==> cs[i] == "..") && (k < |cs| ==> cs[k] != "..")
  {
    if cs == [] || cs[0] != ".." then 0 else 1 + Ups(cs[1..])
  }

  /** A cleaned path: some `..`, none if rooted, then names. */
  ghost predicate Normal(rooted: bool, cs: seq<string>) {
    AllNames(cs[Ups(cs)..]) && (rooted ==> Ups(cs) == 0)
  }

  lemma {:induction false} PathAppend(a: seq<string>, b: seq<string>)
    ensures Path(a + b) == Path(a) + Path(b)
  {
    if a == [] {
      assert a + b == b;
    } else {
      assert (a + b)[1..] == a[1..] + b;
      PathAppend(a[1..], b);
    }
  }

  lemma {:induction false} SplitPath(cs: seq<string>)
    requires AllPlain(cs)
    ensures Split(Path(cs), '/') == [""] + cs
  {
    if cs == [] {
      assert [""] + cs == [""];
    } else {
      SplitPath(cs[1..]);
      SplitHead(cs[0], cs[1..]);
      var p := Path(cs);
      assert p == [] + ['/'] + (cs[0] + Path(cs[1..]));
      SplitConcat([], '/', cs[0] + Path(cs[1..]));
      assert [""] + cs == [""] + ([cs[0]] + cs[1..]);
    }
  }

  lemma SplitHead(c: string, cs: seq<string>)
    requires Plain(c) && Split(Path(cs), '/') == [""] + cs
    ensures Split(c + Path(cs), '/') == [c] + cs
  {
    hide Split;
    SplitPlain(c, '/');
    SplitPlain("", '/');
    if cs == [] {
      assert c + Path(cs) == c && [c] + cs == [c];
    } else {
      var rest := cs[0] + Path(cs[1..]);
      assert Path(cs) == [] + ['/'] + rest;
      SplitConcat([], '/', rest);
      assert [""] + Split(rest, '/') == [""] + cs;
      assert Split(rest, '/') == ([""] + Split(rest, '/'))[1..] == ([""] + cs)[1..] == cs;
      assert c + Path(cs) == c + ['/'] + rest;
      SplitConcat(c, '/', rest);
    }
  }

  /** On slash-separated paths the string check is the component-wise one. */
  lemma PathIsInjective(a: seq<string>, b: seq<string>)
    requires AllPlain(a) && AllPlain(b) && Path(a) == Path(b)
    ensures a == b
  {
    SplitPath(a);
    SplitPath(b);
    assert a == ([""] + a)[1..] == ([""] + b)[1..] == b;
  }

  lemma TailEqual(a: seq<string>, b: seq<string>)
    requires [""] + a == [""] + b
    ensures a == b
  {
    assert a == ([""] + a)[1..] == ([""] + b)[1..] == b;
  }

  /** On slash-separated paths the string check is the component-wise one. */
  lemma AcceptedIsBelow(t: seq<string>, p: seq<string>)
    requires AllPlain(t) && AllPlain(p)
    ensures Accepted(Path(t), Path(p)) <==> t <= p
  {
    hide Path, Plain;
    if t <= p {
      AppendedIsAccepted(t, p[|t|..]);
      assert p == t + p[|t|..];
    }
    if Path(p) == Path(t) {
      PathIsInjective(p, t);
    } else if Path(t) + "/" <= Path(p) {
      BelowIsPrefix(t, p, Path(p)[|Path(t)| + 1..]);
    }
  }

  lemma AppendedIsAccepted(t: seq<string>, r: seq<string>)
    ensures Accepted(Path(t), Path(t + r))
  {
    PathAppend(t, r);
    if r == [] {
      assert Path(t + r) == Path(t);
    } else {
      assert Path(r) == "/" + (r[0] + Path(r[1..]));
      assert Path(t + r) == Path(t) + "/" + (r[0] + Path(r[1..]));
    }
  }

  lemma BelowIsPrefix(t: seq<string>, p: seq<string>, rest: string)
    requires AllPlain(t) && AllPlain(p) && Path(p) == Path(t) + "/" + rest
    ensures t <= p
  {
    SplitPath(t);
    SplitPath(p);
    hide Split, Path;
    SplitConcat(Path(t), '/', rest);
    assert [""] + p == [""] + (t + Split(rest, '/'));
    TailEqual(p, t + Split(rest, '/'));
  }

  // ---------------------------------------------------------------------------
  // Walking
  // ---------------------------------------------------------------------------

  lemma {:induction false} WalkAppend(rooted: bool, kept: seq<string>, a: seq<string>, b: seq<string>)
    ensures Walk(rooted, kept, a + b) == Walk(rooted, Walk(rooted, kept, a), b)
    decreases |a|
  {
    if a == [] {
      assert a + b == b;
    } else {
      assert (a + b)[1..] == a[1..] + b;
      WalkAppend(rooted, Step(rooted, kept, a[0]), a[1..], b);
    }
  }

  lemma {:induction false} WalkNames(rooted: bool, kept: seq<string>, cs: seq<string>)
    requires AllNames(cs)
    ensures Walk(rooted, kept, cs) == kept + cs
    decreases |cs|
  {
    if cs == [] {
      assert kept + cs == kept;
    } else {
      WalkNames(rooted, kept + [cs[0]], cs[1..]);
      assert kept + [cs[0]] + cs[1..] == kept + cs;
    }
  }

  function Min(a: nat, b: nat): nat {
    if a < b then a else b
  }

  lemma {:induction false} WalkUps(t: seq<string>, cs: seq<string>)
    requires AllNames(t) && forall i :: 0 <= i < |cs| ==> cs[i] == ".."
    ensures Walk(true, t, cs) == t[..|t| - Min(|cs|, |t|)]
    decreases |cs|
  {
    if cs != [] {
      WalkUps(Step(true, t, cs[0]), cs[1..]);
    }
  }

  /** A relative path taken from the target: one component less for each `..` it starts with, then its names. */
  function Climbed(t: seq<string>, r: seq<string>): seq<string> {
    t[..|t| - Min(Ups(r), |t|)] + r[Ups(r)..]
  }

  /** A cleaned relative path, walked from the target, first climbs, then descends. */
  lemma WalkNormal(t: seq<string>, r: seq<string>)
    requires AllNames(t) && Normal(false, r)
    ensures Walk(true, t, r) == Climbed(t, r)
  {
    var k := Ups(r);
    assert AllNames(r[k..]);
    hide Walk, Normal, Ups;
    assert r == r[..k] + r[k..];
    WalkAppend(true, t, r[..k], r[k..]);
    WalkUps(t, r[..k]);
    WalkNames(true, t[..|t| - Min(k, |t|)], r[k..]);
  }

  lemma {:induction false} UpsOf(a: seq<string>, names: seq<string>)
    requires (forall i :: 0 <= i < |a| ==> a[i] == "..") && (names != [] ==> names[0] != "..")
    ensures Ups(a + names) == |a|
  {
    if a == [] {
      assert a + names == names;
    } else {
      assert (a + names)[1..] == a[1..] + names;
      UpsOf(a[1..], names);
    }
  }

  lemma NormalParts(rooted: bool, ups: seq<string>, names: seq<string>)
    requires (forall i :: 0 <= i < |ups| ==> ups[i] == "..") && AllNames(names) && (rooted ==> ups == [])
    ensures Normal(rooted, ups + names)
  {
    UpsOf(ups, names);
    assert (ups + names)[|ups|..] == names;
  }

  lemma StepNormal(rooted: bool, kept: seq<string>, c: string)
    requires Normal(rooted, kept) && '/' !in c
    ensures Normal(rooted, Step(rooted, kept, c))
  {
    var k := Ups(kept);
    var ups, names := kept[..k], kept[k..];
    var after := Step(rooted, kept, c);
    assert AllNames(names) && (rooted ==> ups == []);
    hide Ups, Normal;
    assert kept == ups + names;
    if names != [] {
      assert names[|names| - 1] == kept[|kept| - 1];
    }
    if c == ".." {
      StepUp(rooted, ups, names);
    } else if IsName(c) {
      NormalParts(rooted, ups, names + [c]);
      assert after == ups + (names + [c]);
    }
  }

  lemma StepUp(rooted: bool, ups: seq<string>, names: seq<string>)
    requires (forall i :: 0 <= i < |ups| ==> ups[i] == "..") && AllNames(names) && (rooted ==> ups == [])
    ensures Normal(rooted, Step(rooted, ups + names, ".."))
  {
    hide Normal;
    var kept := ups + names;
    if names != [] {
      NormalParts(rooted, ups, names[..|names| - 1]);
      assert kept[..|kept| - 1] == ups + names[..|names| - 1];
    } else if rooted {
      NormalParts(rooted, ups, names);
    } else {
      NormalParts(rooted, ups + [".."], []);
      assert kept + [".."] == ups + [".."] + [];
    }
  }

  lemma {:induction false} WalkIsNormal(rooted: bool, kept: seq<string>, cs: seq<string>)
    requires Normal(rooted, kept) && forall i :: 0 <= i < |cs| ==> '/' !in cs[i]
    ensures Normal(rooted, Walk(rooted, kept, cs))
    decreases |cs|
  {
    if cs != [] {
      StepNormal(rooted, kept, cs[0]);
      WalkIsNormal(rooted, Step(rooted, kept, cs[0]), cs[1..]);
    }
  }

  lemma ClimbedParts(t: seq<string>, ups: seq<string>, names: seq<string>)
    requires (forall i :: 0 <= i < |ups| ==> ups[i] == "..") && AllNames(names)
    ensures Climbed(t, ups + names) == t[..|t| - Min(|ups|, |t|)] + names
  {
    UpsOf(ups, names);
    assert (ups + names)[|ups|..] == names;
  }

  /** Climbing commutes with working in a component. */
  lemma StepClimbs(t: seq<string>, kept: seq<string>, c: string)
    requires AllNames(t) && Normal(false, kept)
    ensures Step(true, Climbed(t, kept), c) == Climbed(t, Step(false, kept, c))
  {
    var k := Ups(kept);
    var ups, names := kept[..k], kept[k..];
    assert AllNames(names);
    hide Ups, Normal, Climbed;
    assert kept == ups + names;
    ClimbedParts(t, ups, names);
    if c == ".." {
      UpClimbs(t, ups, names);
    } else if c != "" && c != "." {
      NameClimbs(t, ups, names, c);
    }
  }

  lemma NameClimbs(t: seq<string>, ups: seq<string>, names: seq<string>, c: string)
    requires (forall i :: 0 <= i < |ups| ==> ups[i] == "..") && AllNames(names) && c != "" && c != "." && c != ".."
    ensures Climbed(t, ups + names + [c]) == Climbed(t, ups + names) + [c]
  {
    var kept := ups + names;
    UpsOf(ups, names);
    UpsOf(ups, names + [c]);
    assert kept + [c] == ups + (names + [c]);
    assert kept[|ups|..] == names && (kept + [c])[|ups|..] == names + [c];
  }

  lemma UpClimbs(t: seq<string>, ups: seq<string>, names: seq<string>)
    requires AllNames(t) && (forall i :: 0 <= i < |ups| ==> ups[i] == "..") && AllNames(names)
    ensures Step(true, Climbed(t, ups + names), "..") == Climbed(t, Step(false, ups + names, ".."))
  {
    hide Climbed;
    var kept := ups + names;
    ClimbedParts(t, ups, names);
    if names == [] {
      ClimbedParts(t, ups + [".."], []);
      assert kept + [".."] == ups + [".."] + [];
      var up, up' := |t| - Min(|ups|, |t|), |t| - Min(|ups| + 1, |t|);
      assert t[..up] + [] == t[..up] && t[..up'] + [] == t[..up'];
      assert up > 0 ==> up' == up - 1 && t[..up][..up - 1] == t[..up'];
    } else {
      var shorter := names[..|names| - 1];
      ClimbedParts(t, ups, shorter);
      assert kept[..|kept| - 1] == ups + shorter && kept[|kept| - 1] == names[|names| - 1];
      var here := t[..|t| - Min(|ups|, |t|)] + names;
      assert here[..|here| - 1] == t[..|t| - Min(|ups|, |t|)] + shorter && here[|here| - 1] == names[|names| - 1];
    }
  }

  /** Walking any components from a place is the same as cleaning them first and then climbing from it. */
  lemma {:induction false} WalkClimbs(t: seq<string>, kept: seq<string>, cs: seq<string>)
    requires AllNames(t) && Normal(false, kept) && forall i :: 0 <= i < |cs| ==> '/' !in cs[i]
    ensures Walk(true, Climbed(t, kept), cs) == Climbed(t, Walk(false, kept, cs))
    decreases |cs|
  {
    if cs != [] {
      StepClimbs(t, kept, cs[0]);
      StepNormal(false, kept, cs[0]);
      WalkClimbs(t, Step(false, kept, cs[0]), cs[1..]);
    }
  }

  // ---------------------------------------------------------------------------
  // Texts and components
  // ---------------------------------------------------------------------------

  /** The components of a cleaned entry name. */
  function NameComponents(name: string): seq<string> {
    if name == "" then [] else Walk(name[0] == '/', [], Split(name, '/'))
  }

  lemma ComponentsNormal(name: string)
    ensures Normal(false, NameComponents(name)) && AllPlain(NameComponents(name))
  {
    if name != "" {
      SplitJoins(name, '/');
      WalkIsNormal(name[0] == '/', [], Split(name, '/'));
    }
    var r := NameComponents(name);
    forall i | 0 <= i < |r|
      ensures Plain(r[i])
    {
      if i >= Ups(r) {
        assert r[i] == r[Ups(r)..][i - Ups(r)];
      }
    }
  }

  /** The text of a relative path, in any of the forms stripping leaves it in. */
  ghost predicate IsText(rel: string, cs: seq<string>) {
    rel == Relative(cs) || (cs == [] && rel == "")
  }

  lemma SlashPrefix(a: string, b: string)
    ensures "/" + a <= "/" + b <==> a <= b
    ensures "/" + a == "/" + b <==> a == b
  {
    assert ("/" + a)[1..] == a && ("/" + b)[1..] == b;
  }

  lemma RelativeOf(cs: seq<string>)
    ensures cs == [] <==> Path(cs) == ""
    ensures cs != [] ==> Path(cs) != "" && Relative(cs) == Path(cs)[1..]
  {
  }

  lemma DropFirst(slash: string, a: string, b: string)
    requires |slash| == 1
    ensures (slash + a + b)[1..] == a + b
  {
  }

  lemma SplitRelative(rel: string, cs: seq<string>)
    requires AllPlain(cs) && IsText(rel, cs)
    ensures cs != [] ==> Split(rel, '/') == cs
    ensures cs == [] ==> Split(rel, '/') == ["."] || Split(rel, '/') == [""]
  {
    hide Split;
    if cs == [] {
      SplitPlain(rel, '/');
    } else {
      DropFirst("/", cs[0], Path(cs[1..]));
      assert rel == cs[0] + Path(cs[1..]);
      hide Path, Relative, IsText;
      SplitPath(cs[1..]);
      SplitHead(cs[0], cs[1..]);
      assert [cs[0]] + cs[1..] == cs;
    }
  }

  lemma WalkSkips(rooted: bool, kept: seq<string>, c: string, cs: seq<string>)
    requires c == "" || c == "."
    ensures Walk(rooted, kept, [c] + cs) == Walk(rooted, kept, cs)
    ensures Walk(rooted, kept, [c]) == kept && Walk(rooted, kept, []) == kept
  {
    assert ([c] + cs)[1..] == cs && [c][1..] == [];
  }

  /** Joining a target and a relative path walks the components of the one from the other. */
  lemma JoinWalks(t: seq<string>, rel: string, cs: seq<string>)
    requires AllNames(t) && t != [] && AllPlain(cs) && IsText(rel, cs)
    ensures JoinPath(Path(t), rel) == Rooted(Walk(true, t, cs))
  {
    JoinIsClean(t, rel);
    hide Split, Walk, Path, IsText, Rooted, JoinPath;
    SplitJoined(t, rel);
    SplitRelative(rel, cs);
    WalkFromTarget(t, Split(rel, '/'));
    WalkSkips(true, t, "", []);
    WalkSkips(true, t, ".", []);
  }

  lemma JoinIsClean(t: seq<string>, rel: string)
    requires AllNames(t) && t != []
    ensures JoinPath(Path(t), rel) == Rooted(Walk(true, [], Split(Path(t) + "/" + rel, '/')))
  {
    hide Split, Walk, Rooted;
    var s := Path(t) + "/" + rel;
    assert Path(t)[0] == '/' && s[0] == '/';
  }

  lemma SplitJoined(t: seq<string>, rel: string)
    requires AllNames(t)
    ensures Split(Path(t) + "/" + rel, '/') == [""] + (t + Split(rel, '/'))
  {
    hide Split, Path;
    SplitPath(t);
    SplitConcat(Path(t), '/', rel);
    assert [""] + (t + Split(rel, '/')) == [""] + t + Split(rel, '/');
  }

  lemma WalkFromTarget(t: seq<string>, parts: seq<string>)
    requires AllNames(t)
    ensures Walk(true, [], [""] + (t + parts)) == Walk(true, t, parts)
  {
    hide Walk;
    WalkSkips(true, [], "", t + parts);
    WalkAppend(true, [], t, parts);
    WalkNames(true, [], t);
    assert [] + t == t;
  }

  lemma ClimbedIff(t: seq<string>, r: seq<string>)
    ensures var up := Min(Ups(r), |t|);
      t <= Climbed(t, r) <==> t[|t| - up..] <= r[Ups(r)..]
  {
    var up := Min(Ups(r), |t|);
    hide Ups;
    var front, back := t[..|t| - up], t[|t| - up..];
    assert t == front + back;
    PrefixCancels(front, back, r[Ups(r)..]);
  }

  /** Also for the root itself, which is not below the target. */
  lemma CheckIsExact(t: seq<string>, at: seq<string>)
    requires AllNames(t) && t != [] && AllNames(at)
    ensures Accepted(Path(t), Rooted(at)) <==> t <= at
  {
    assert AllPlain(t) && AllPlain(at);
    if at != [] {
      AcceptedIsBelow(t, at);
    } else {
      assert IsName(t[0]) && |Path(t)| >= 2;
    }
  }

  lemma PrefixCancels(a: seq<string>, b: seq<string>, c: seq<string>)
    ensures a + b <= a + c <==> b <= c
  {
    if a + b <= a + c {
      assert forall i :: 0 <= i < |b| ==> b[i] == (a + b)[|a| + i] == (a + c)[|a| + i];
    }
  }

  ghost predicate Below(t: seq<string>, path: string) {
    exists at :: AllNames(at) && t <= at && path == Path(at)
  }

  /** The components of a relative text, cleaned. */
  function Cleaned(rel: string): seq<string> {
    Walk(false, [], Split(rel, '/'))
  }

  /** The components of a rooted path, cleaned. The empty text is the root once something is joined to it. */
  function RootedAt(root: string): seq<string> {
    Walk(true, [], Split(root, '/'))
  }

  lemma RootedNames(root: string)
    ensures AllNames(RootedAt(root))
    ensures "/" <= root ==> Clean(root) == Rooted(RootedAt(root))
  {
    SplitJoins(root, '/');
    WalkIsNormal(true, [], Split(root, '/'));
    assert RootedAt(root)[0..] == RootedAt(root);
  }

  /** Joining any text to a rooted path climbs and descends by its cleaned components. */
  lemma JoinClimbs(root: string, rel: string)
    ensures RootedAt(root + "/" + rel) == Climbed(RootedAt(root), Cleaned(rel)) && AllNames(RootedAt(root + "/" + rel))
    ensures "/" <= root + "/" ==> Clean(root + "/" + rel) == Rooted(Climbed(RootedAt(root), Cleaned(rel)))
  {
    var t := RootedAt(root);
    RootedNames(root);
    RootedNames(root + "/" + rel);
    assert "/" <= root + "/" ==> "/" <= root + "/" + rel;
    hide Split, Walk, Rooted, Clean;
    SplitConcat(root, '/', rel);
    WalkAppend(true, [], Split(root, '/'), Split(rel, '/'));
    SplitJoins(rel, '/');
    ClimbedNothing(t);
    WalkClimbs(t, [], Split(rel, '/'));
  }

  lemma ClimbedNothing(t: seq<string>)
    ensures Climbed(t, []) == t && Normal(false, [])
  {
    assert t[..|t|] + [] == t;
  }

  /** Whether a joined path ends up at or below where it started, read off the cleaned components: what they
      climb they must come back down. */
  lemma JoinBelowIff(root: string, rel: string)
    requires "/" <= root + "/" && RootedAt(root) != []
    ensures var t, r := RootedAt(root), Cleaned(rel); var up := Min(Ups(r), |t|);
      Below(t, Clean(root + "/" + rel)) <==> t[|t| - up..] <= r[Ups(r)..]
  {
    var t, r := RootedAt(root), Cleaned(rel);
    RootedNames(root);
    JoinClimbs(root, rel);
    hide RootedAt, Cleaned, Clean;
    ClimbedIff(t, r);
    BelowIff(t, Climbed(t, r));
  }

  lemma BelowIff(t: seq<string>, at: seq<string>)
    requires AllNames(t) && t != [] && AllNames(at)
    ensures Below(t, Rooted(at)) <==> t <= at
  {
    if at == [] {
      assert forall other :: AllNames(other) && t <= other ==> IsName(other[0]) && |Path(other)| >= 2;
    } else {
      forall other | AllNames(other) && Path(other) == Path(at)
        ensures other == at
      {
        PathIsInjective(other, at);
      }
    }
  }

  lemma RootedIsInjective(a: seq<string>, b: seq<string>)
    requires AllNames(a) && AllNames(b) && Rooted(a) == Rooted(b)
    ensures a == b
  {
    assert forall cs :: AllNames(cs) && cs != [] ==> IsName(cs[0]) && |Path(cs)| >= 2;
    assert AllPlain(a) && AllPlain(b);
    if a != [] && b != [] {
      PathIsInjective(a, b);
    }
  }

  // ---------------------------------------------------------------------------
  // The rules of cleaning
  // ---------------------------------------------------------------------------

  lemma CleanRooted(s: string)
    requires "/" <= s
    ensures Clean(s) == Rooted(Walk(true, [], Split(s, '/')))
  {
  }

  /** A component in the middle of a text, worked in behind what is in front of it. */
  lemma WalkMiddle(p: string, c: string, rest: string)
    requires '/' !in c
    ensures var kept := Walk(true, [], Split(p, '/'));
      && Walk(true, [], Split(p + "/" + rest, '/')) == Walk(true, kept, Split(rest, '/'))
      && Walk(true, [], Split(p + "/" + c + "/" + rest, '/')) == Walk(true, Step(true, kept, c), Split(rest, '/'))
  {
    hide Step;
    var kept := Walk(true, [], Split(p, '/'));
    SplitConcat(p, '/', rest);
    WalkAppend(true, [], Split(p, '/'), Split(rest, '/'));
    assert p + "/" + c + "/" + rest == p + "/" + (c + "/" + rest);
    SplitConcat(p, '/', c + "/" + rest);
    SplitConcat(c, '/', rest);
    SplitPlain(c, '/');
    var behind := [c] + Split(rest, '/');
    WalkAppend(true, [], Split(p, '/'), behind);
    assert behind[0] == c && behind[1..] == Split(rest, '/');
    assert Walk(true, kept, behind) == Walk(true, Step(true, kept, c), behind[1..]);
  }

  /** How an absolute path is cleaned: empty components and single dots go, a name goes with the two dots behind it, two dots
      at the root go, and a path of names only is clean. */
  lemma CleanRules(p: string, c: string, rest: string, names: seq<string>)
    requires "/" <= p && IsName(c) && AllNames(names) && names != []
    ensures Clean(p + "/" + "" + "/" + rest) == Clean(p + "/" + rest)
    ensures Clean(p + "/" + "." + "/" + rest) == Clean(p + "/" + rest)
    ensures Clean(p + "/" + c + "/" + ".." + "/" + rest) == Clean(p + "/" + rest)
    ensures Clean("" + "/" + ".." + "/" + rest) == Clean("" + "/" + rest)
    ensures Clean(Path(names)) == Path(names)
  {
    hide Clean, Walk, Rooted;
    WalkMiddle(p, "", rest);
    WalkMiddle(p, ".", rest);
    WalkMiddle("", "..", rest);
    WalkMiddle(p, c, ".." + "/" + rest);
    WalkMiddle(p + "/" + c, "..", rest);
    NameAndBack(p, c);
    CleanRooted(p + "/" + rest);
    CleanRooted(p + "/" + "" + "/" + rest);
    CleanRooted(p + "/" + "." + "/" + rest);
    CleanRooted(p + "/" + c + "/" + ".." + "/" + rest);
    CleanRooted("" + "/" + ".." + "/" + rest);
    CleanRooted("" + "/" + rest);
    RootStays();
    NamesStay(names);
  }

  lemma NameAndBack(p: string, c: string)
    requires IsName(c)
    ensures var kept := Walk(true, [], Split(p, '/'));
      Step(true, Walk(true, [], Split(p + "/" + c, '/')), "..") == kept
  {
    var kept := Walk(true, [], Split(p, '/'));
    SplitConcat(p, '/', c);
    SplitPlain(c, '/');
    WalkAppend(true, [], Split(p, '/'), [c]);
    assert Walk(true, kept, [c]) == kept + [c];
    assert (kept + [c])[..|kept|] == kept;
  }

  lemma RootStays()
    ensures Step(true, Walk(true, [], Split("", '/')), "..") == Walk(true, [], Split("", '/'))
  {
    assert Walk(true, [], [""]) == [];
  }

  lemma NamesStay(names: seq<string>)
    requires AllNames(names) && names != []
    ensures Clean(Path(names)) == Path(names)
  {
    SplitPath(names);
    CleanRooted(Path(names));
    WalkSkips(true, [], "", names);
    WalkNames(true, [], names);
    assert [] + names == names;
  }
}
