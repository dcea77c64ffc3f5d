/** What a text with placeholders says: a reading of manifest texts part by part, which every map order of the
    interpolation meets. */
module Templates {
  import opened Common
  import opened Manifest
  import opened Placeholders
  import opened Interpolate
  import opened RawValues
  import F = RawFields

  datatype Part = Plain(text: string) | AppName | EnvName | Version | Registry | Domain | Variable(name: string)

  function PartText(p: Part): string {
    match p
    case Plain(text) => text
    case AppName => "${app}"
    case EnvName => "${env}"
    case Version => "${version}"
    case Registry => "${registry}"
    case Domain => "${domain}"
    case Variable(name) => "${env:" + name + "}"
  }

  /** The parts one after the other. */
  function Text(ps: seq<Part>): string {
    if ps == [] then "" else PartText(ps[0]) + Text(ps[1..])
  }

  /** What a part stands for: an unset variable for itself. */
  function Meaning(p: Part, app: App, env: map<string, string>): string {
    match p
    case Plain(text) => text
    case AppName => app.name
    case EnvName => app.env
    case Version => if app.version == "" then "latest" else app.version
    case Registry => app.registry
    case Domain => app.domain
    case Variable(name) => if name in env then env[name] else PartText(p)
  }

  function Meant(ps: seq<Part>, app: App, env: map<string, string>): string {
    if ps == [] then "" else Meaning(ps[0], app, env) + Meant(ps[1..], app, env)
  }

  predicate Letter(c: char) {
    'a' <= c <= 'z' || 'A' <= c <= 'Z' || c == '_'
  }

  predicate GoodPart(p: Part) {
    match p
    case Plain(text) => '$' !in text
    case Variable(name) => name != "" && Letter(name[0]) && forall i :: 0 <= i < |name| ==> Letter(name[i]) || '0' <= name[i] <= '9'
    case _ => true
  }

  ghost predicate GoodParts(ps: seq<Part>) {
    forall i :: 0 <= i < |ps| ==> GoodPart(ps[i])
  }

  ghost predicate MissesVariable(ps: seq<Part>, env: map<string, string>) {
    exists i :: 0 <= i < |ps| && ps[i].Variable? && ps[i].name !in env
  }

  /** Name, environment, version, registry and domain hold no placeholders. */
  predicate PlainFields(app: App) {
    '$' !in app.name && '$' !in app.env && '$' !in app.version && '$' !in app.registry && '$' !in app.domain
  }

  // ---------------------------------------------------------------------------
  // Tokens of parts
  // ---------------------------------------------------------------------------

  function Lits(s: string): seq<Token> {
    if s == "" then [] else [Lit(s[0])] + Lits(s[1..])
  }

  function PartTokens(p: Part): seq<Token> {
    if p.Plain? then Lits(p.text) else [Hole(PartText(p))]
  }

  function AllTokens(ps: seq<Part>): seq<Token> {
    if ps == [] then [] else PartTokens(ps[0]) + AllTokens(ps[1..])
  }

  lemma {:induction false} LitsRead(x: string, rest: string)
    requires '$' !in x && Tokenize(rest).Some?
    ensures Tokenize(x + rest) == Some(Lits(x) + Tokenize(rest).value)
    decreases |x|
  {
    if x == "" {
      assert x + rest == rest && Lits(x) + Tokenize(rest).value == Tokenize(rest).value;
    } else {
      assert (x + rest)[0] == x[0] != '$' && (x + rest)[1..] == x[1..] + rest;
      LitsRead(x[1..], rest);
      assert [Lit(x[0])] + (Lits(x[1..]) + Tokenize(rest).value) == Lits(x) + Tokenize(rest).value;
    }
  }

  lemma HoleRead(q: string, rest: string)
    requires Shaped(q) && Tokenize(rest).Some?
    ensures Tokenize(q + rest) == Some([Hole(q)] + Tokenize(rest).value)
  {
    ShapedClose(q);
    CloseIndexAppend(q, rest);
    assert (q + rest)[0] == '$' && (q + rest)[..|q|] == q && (q + rest)[|q|..] == rest;
  }

  lemma HoleParts(p: Part)
    requires GoodPart(p) && !p.Plain?
    ensures Shaped(PartText(p))
  {
    PlaceholdersShaped();
    if p.Variable? {
      var q := PartText(p);
      assert forall i :: 0 < i < |q| - 1 && i >= 6 ==> q[i] == p.name[i - 6];
      assert "${env:" == q[..6];
    }
  }

  lemma {:induction false} PartsRead(ps: seq<Part>)
    requires GoodParts(ps)
    ensures Tokenize(Text(ps)) == Some(AllTokens(ps))
  {
    if ps != [] {
      hide Tokenize, PartText, Shaped;
      assert GoodPart(ps[0]);
      PartsRead(ps[1..]);
      if ps[0].Plain? {
        assert PartText(ps[0]) == ps[0].text;
        LitsRead(ps[0].text, Text(ps[1..]));
      } else {
        HoleParts(ps[0]);
        HoleRead(PartText(ps[0]), Text(ps[1..]));
      }
    }
  }

  // ---------------------------------------------------------------------------
  // Tokens of values
  // ---------------------------------------------------------------------------

  lemma {:induction false} LitsAre(s: string, env: map<string, string>)
    requires '$' !in s
    ensures Tokenize(s) == Some(Lits(s)) && Filled(Lits(s), env) == s
    ensures forall t :: t in Lits(s) ==> t.Lit?
  {
    if s != "" {
      LitsAre(s[1..], env);
      assert Lits(s)[1..] == Lits(s[1..]) && [s[0]] + s[1..] == s;
    }
  }

  /** The tokens a part ends up as. */
  function ValueTokens(p: Part, app: App): seq<Token> {
    match p
    case Plain(text) => Lits(text)
    case AppName => Lits(app.name)
    case EnvName => Lits(app.env)
    case Version => Lits(app.version)
    case Registry => Lits(app.registry)
    case Domain => Lits(app.domain)
    case Variable(_) => [Hole(PartText(p))]
  }

  function AllValues(ps: seq<Part>, app: App): seq<Token> {
    if ps == [] then [] else ValueTokens(ps[0], app) + AllValues(ps[1..], app)
  }

  lemma VariableAt(name: string)
    requires GoodPart(Variable(name))
    ensures EnvAt("${env:" + name + "}") == Some(name)
  {
    var q := "${env:" + name + "}";
    var rest := q[|ENV_OPEN|..];
    assert ENV_OPEN == "${env:" && q[..|ENV_OPEN|] == ENV_OPEN;
    assert rest == name + "}" && rest[0] == name[0];
    assert forall i :: 0 <= i < |name| ==> rest[i] == name[i] && IsIdentChar(rest[i]);
    assert !IsIdentChar(rest[|name|]);
    assert IdentLength(rest) == |name|;
    assert rest[..|name|] == name;
  }

  lemma VariableIsNoBuiltin(name: string, app: App)
    ensures "${env:" + name + "}" !in Builtins(app)
  {
    var q := "${env:" + name + "}";
    assert q[2] == 'e' && q[5] == ':' && ENV[5] == '}';
    assert APP[2] == 'a' && VERSION[2] == 'v' && REGISTRY[2] == 'r' && DOMAIN[2] == 'd';
  }

  lemma FieldsGood(app: App)
    requires PlainFields(app)
    ensures GoodBuiltins(Builtins(app))
    ensures forall k :: k in Builtins(app) ==> '$' !in Builtins(app)[k] && Tokens(Builtins(app)[k]) == Lits(Builtins(app)[k])
  {
    hide Tokenize, Lits, Filled, Builtins, Shaped, GoodBuiltins;
    LitsAre(app.name, map[]);
    LitsAre(app.env, map[]);
    LitsAre(app.version, map[]);
    LitsAre(app.registry, map[]);
    LitsAre(app.domain, map[]);
    BuiltinsGood(app);
    F.BuiltinsAre(app);
  }

  lemma PartSpliced(p: Part, app: App)
    requires GoodPart(p) && PlainFields(app) && GoodBuiltins(Builtins(app))
    ensures Spliced(PartTokens(p), Builtins(app), Builtins(app).Keys) == ValueTokens(p, app)
  {
    var b := Builtins(app);
    FieldsGood(app);
    F.BuiltinsAre(app);
    hide Tokens, Spliced, Lits, Builtins;
    match p
    case Plain(text) =>
      LitsAre(text, map[]);
      LitsStay(Lits(text), b, b.Keys);
    case Variable(name) =>
      VariableIsNoBuiltin(name, app);
      OneToken(Hole(PartText(p)), b, b.Keys);
    case _ => OneToken(Hole(PartText(p)), b, b.Keys);
  }

  lemma {:induction false} PartsSpliced(ps: seq<Part>, app: App)
    requires GoodParts(ps) && PlainFields(app) && GoodBuiltins(Builtins(app))
    ensures Spliced(AllTokens(ps), Builtins(app), Builtins(app).Keys) == AllValues(ps, app)
  {
    if ps != [] {
      hide Spliced, PartTokens, ValueTokens, Builtins, GoodBuiltins;
      assert GoodPart(ps[0]);
      PartSpliced(ps[0], app);
      PartsSpliced(ps[1..], app);
      SplicedAppend(PartTokens(ps[0]), AllTokens(ps[1..]), Builtins(app), Builtins(app).Keys);
    } else {
      assert Spliced([], Builtins(app), Builtins(app).Keys) == [];
    }
  }

  lemma PartFilled(p: Part, app: App, env: map<string, string>)
    requires GoodPart(p) && PlainFields(app) && app.version != ""
    ensures Filled(ValueTokens(p, app), env) == Meaning(p, app, env)
    ensures RefersToUnset(ValueTokens(p, app), env) <==> p.Variable? && p.name !in env
  {
    if p.Variable? {
      VariableAt(p.name);
      assert ValueTokens(p, app)[1..] == [];
      hide EnvAt;
    } else {
      LitsAre(match p case Plain(text) => text case AppName => app.name case EnvName => app.env case Version => app.version
                      case Registry => app.registry case Domain => app.domain case _ => "", env);
    }
  }

  lemma {:induction false} PartsFilled(ps: seq<Part>, app: App, env: map<string, string>)
    requires GoodParts(ps) && PlainFields(app) && app.version != ""
    ensures Filled(AllValues(ps, app), env) == Meant(ps, app, env)
    ensures RefersToUnset(AllValues(ps, app), env) <==> MissesVariable(ps, env)
  {
    if ps != [] {
      assert GoodPart(ps[0]);
      MissesFirst(ps, env);
      hide Filled, RefersToUnset, ValueTokens, Meaning, MissesVariable;
      PartFilled(ps[0], app, env);
      PartsFilled(ps[1..], app, env);
      FilledAppend(ValueTokens(ps[0], app), AllValues(ps[1..], app), env);
      UnsetAppend(ValueTokens(ps[0], app), AllValues(ps[1..], app), env);
    }
  }

  lemma MissesFirst(ps: seq<Part>, env: map<string, string>)
    requires ps != []
    ensures MissesVariable(ps, env) <==> (ps[0].Variable? && ps[0].name !in env) || MissesVariable(ps[1..], env)
  {
    if MissesVariable(ps[1..], env) {
      var i :| 0 <= i < |ps[1..]| && ps[1..][i].Variable? && ps[1..][i].name !in env;
      assert ps[i + 1] == ps[1..][i];
    }
    if MissesVariable(ps, env) && !(ps[0].Variable? && ps[0].name !in env) {
      var i :| 0 <= i < |ps| && ps[i].Variable? && ps[i].name !in env;
      assert ps[1..][i - 1] == ps[i];
    }
  }

  // ---------------------------------------------------------------------------
  // The text
  // ---------------------------------------------------------------------------

  lemma RawFields(app: App)
    requires PlainFields(app)
    ensures PlainFields(WithVersion(app)) && WithVersion(app).version != ""
    ensures WithVersion(app) == app.(version := if app.version == "" then "latest" else app.version)
  {
  }

  lemma MeantRaw(ps: seq<Part>, app: App, env: map<string, string>)
    ensures Meant(ps, WithVersion(app), env) == Meant(ps, app, env)
  {
  }

  /** Among fields without placeholders a text means what its parts say: substitution fails in some map order, and then in
      every one, if it names a variable that is not set, and otherwise gives that meaning. */
  lemma TextMeans(ps: seq<Part>, app: App, env: map<string, string>)
    requires GoodParts(ps) && PlainFields(app)
    ensures var cx := Context(Builtins(WithVersion(app)), env);
      && GoodBuiltins(cx.builtins) && "" !in cx.builtins && NiceText(Text(ps), cx)
      && (NamesUnset(Text(ps), cx) <==> MissesVariable(ps, env))
      && Value(Text(ps), cx) == Meant(ps, app, env)
      && (Fails(Text(ps), cx) <==> MissesVariable(ps, env))
      && (forall t :: Renders(Text(ps), t, cx) <==> !MissesVariable(ps, env) && t == Meant(ps, app, env))
  {
    var raw := WithVersion(app);
    var cx := Context(Builtins(raw), env);
    RawFields(app);
    MeantRaw(ps, app, env);
    PartsRead(ps);
    FieldsGood(raw);
    PartsSpliced(ps, raw);
    PartsFilled(ps, raw, env);
    PlainIsSettledFor(Tokens(Text(ps)), raw);
    hide Builtins, AllTokens, AllValues, Meant, MissesVariable, Spliced, Filled, RefersToUnset, Tokenize, PlainFields, Text, GoodBuiltins,
      Renders, Fails, SettledFor, WithVersion;
    RendersIff(Text(ps), cx);
  }

  lemma PlainIsSettledFor(ts: seq<Token>, app: App)
    requires PlainFields(app) && GoodBuiltins(Builtins(app))
    ensures SettledFor(ts, Builtins(app))
  {
    FieldsGood(app);
    hide Tokens, Builtins;
    forall k | k in Builtins(app)
      ensures forall t :: t in Tokens(Builtins(app)[k]) ==> t.Lit?
    {
      LitsAre(Builtins(app)[k], map[]);
    }
  }
}
