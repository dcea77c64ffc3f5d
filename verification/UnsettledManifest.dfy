/** The bad run of an unsettled manifest: a registry that mentions the environment, and an image that is the registry.
    Two translations of it can differ, so a sync right after a deploy can redeploy another image. */
module UnsettledManifest {
  import opened Common
  import opened Manifest
  import opened Placeholders
  import opened Interpolate
  import C = Compose
  import CT = ComposeTheorems
  import P = ManifestPipeline
  import R = StackRevisions
  import Y = StackSync
  import V = RawValues
  import F = RawFields

  // ---------------------------------------------------------------------------
  // Texts
  // ---------------------------------------------------------------------------

  lemma {:induction false} PlainUntouched(s: string, builtins: map<string, string>, order: seq<string>)
    requires GoodBuiltins(builtins) && '$' !in s
    requires forall i :: 0 <= i < |order| ==> order[i] in builtins && order[i] != ""
    ensures ReplaceBuiltins(s, builtins, order) == s
  {
    if order != [] {
      var last := order[|order| - 1];
      PlainUntouched(s, builtins, order[..|order| - 1]);
      SkipPlain(s, "", last, builtins[last]);
      assert s + "" == s;
    }
  }

  lemma PassUntouched(s: string, env: map<string, string>)
    requires '$' !in s
    ensures EnvPass(s, env) == (s, [])
  {
    PassPlain(s, "", env);
    assert s + "" == s;
  }

  /** A text without dollar sign renders to itself. */
  lemma PlainRenders(s: string, cx: Context)
    requires GoodBuiltins(cx.builtins) && "" !in cx.builtins && '$' !in s
    ensures Renders(s, s, cx)
  {
    var order := SomeOrder(cx.builtins);
    PlainUntouched(s, cx.builtins, order);
    PassUntouched(s, cx.env);
    assert SubstituteIn(s, cx.builtins, order, cx.env) == Ok(s);
  }

  /** A placeholder before a plain text. */
  lemma HoleFirst(p: string, rest: string)
    requires Shaped(p) && '$' !in rest
    ensures WellFormed(p + rest) && WellFormed(rest) && Tokens(p + rest) == [Hole(p)] + Tokens(rest)
    ensures forall t :: t in Tokens(rest) ==> t.Lit?
  {
    var s := p + rest;
    PlainTokens(rest);
    ShapedClose(p);
    CloseIndexAppend(p, rest);
    var i := CloseIndex(s);
    assert s[..i + 1] == p && s[i + 1..] == rest;
  }

  lemma {:induction false} UnparseSpliceHole(p: string, rest: seq<Token>, vs: seq<Token>)
    requires Hole(p) !in rest
    ensures Unparse(Splice([Hole(p)] + rest, p, vs)) == Unparse(vs) + Unparse(rest)
  {
    assert ([Hole(p)] + rest)[1..] == rest;
    SpliceAbsent(rest, p, vs);
    UnparseAppend(vs, rest);
  }

  // ---------------------------------------------------------------------------
  // The manifest
  // ---------------------------------------------------------------------------

  datatype Fields = Fields(name: string, env: string, domain: string, version: string, suffix: string, service: string)

  function Bare(image: string): Service {
    Service(image, None, false, false, "", [], [], map[], [], [], None, None, None)
  }

  /** Only the registry and the image hold placeholders. */
  function Trap(x: Fields): App {
    App(x.name, x.env, x.domain, x.version, ENV + x.suffix, "", "", [], map[x.service := Bare(REGISTRY)])
  }

  /** The fields are ones validation accepts, and none holds a dollar sign. */
  predicate Trapping(x: Fields) {
    && ValidName(x.name) && ValidName(x.service) && x.env != "" && x.domain != "" && x.version != ""
    && '$' !in x.env && '$' !in x.domain && '$' !in x.version && '$' !in x.suffix
  }

  /** What interpolation may make of it. */
  function Filled(x: Fields, image: string): App {
    Trap(x).(registry := x.env + x.suffix, services := map[x.service := Bare(image)])
  }

  lemma NameIsPlain(name: string)
    requires ValidName(name)
    ensures '$' !in name
  {
    assert forall i :: 0 <= i < |name| ==> IsNameChar(name[i]);
  }

  lemma TrapBuiltins(x: Fields)
    requires Trapping(x)
    ensures var b := Builtins(Trap(x));
      && GoodBuiltins(b) && "" !in b && ENV in b && REGISTRY in b && b[ENV] == x.env && b[REGISTRY] == ENV + x.suffix
      && Shaped(ENV) && Shaped(REGISTRY) && ENV != REGISTRY && x.env != ENV && '$' !in x.name
  {
    var app := Trap(x);
    TrapFields(x);
    assert app.env == x.env && app.registry == ENV + x.suffix;
    EnvIsNoValue(x.env);
    hide Trap, Trapping, WellFormed, Shaped, GoodBuiltins, Builtins, ValidName;
    GoodFields(app);
  }

  lemma EnvIsNoValue(v: string)
    requires '$' !in v
    ensures v != ENV
  {
    assert ENV[0] == '$';
  }

  lemma TrapFields(x: Fields)
    requires Trapping(x)
    ensures '$' !in x.name
    ensures WellFormed(x.name) && WellFormed(x.env) && WellFormed(x.version) && WellFormed(ENV + x.suffix) && WellFormed(x.domain)
  {
    NameIsPlain(x.name);
    hide ValidName, Shaped;
    PlaceholdersShaped();
    HoleFirst(ENV, x.suffix);
    PlainTokens(x.name);
    PlainTokens(x.env);
    PlainTokens(x.domain);
    PlainTokens(x.version);
  }

  lemma GoodFields(app: App)
    requires WellFormed(app.name) && WellFormed(app.env) && WellFormed(app.version) && WellFormed(app.registry) && WellFormed(app.domain)
    ensures var b := Builtins(app);
      && GoodBuiltins(b) && "" !in b && ENV in b && REGISTRY in b && b[ENV] == app.env && b[REGISTRY] == app.registry
      && Shaped(ENV) && Shaped(REGISTRY) && ENV != REGISTRY
  {
    hide WellFormed, Shaped, Builtins, GoodBuiltins;
    PlaceholdersShaped();
    NamesDiffer();
    BuiltinsGood(app);
    F.BuiltinsAre(app);
    NoEmptyBuiltin(Builtins(app));
  }

  lemma TrapTexts(x: Fields)
    requires Trapping(x)
    ensures var b := Builtins(Trap(x));
      && GoodBuiltins(b) && WellFormed(b[REGISTRY]) && WellFormed(b[ENV]) && Hole(ENV) in Tokens(b[REGISTRY])
      && Unparse(Splice(Tokens(b[REGISTRY]), ENV, Tokens(b[ENV]))) == x.env + x.suffix
  {
    TrapBuiltins(x);
    HoleFirst(ENV, x.suffix);
    hide Shaped, Tokenize;
    UnparseSpliceHole(ENV, Tokens(x.suffix), Tokens(x.env));
  }

  lemma EnvTextPasses(suffix: string, vars: map<string, string>)
    requires '$' !in suffix && Shaped(ENV)
    ensures EnvPass(ENV + suffix, vars) == (ENV + suffix, [])
  {
    assert |ENV| == 6 && |ENV_OPEN| == 6 && ENV[5] == '}' && ENV_OPEN[5] == ':';
    PassHole(ENV, suffix, vars);
    PassUntouched(suffix, vars);
  }

  /** The image renders to two different texts. */
  lemma ImageRendersTwice(x: Fields, vars: map<string, string>)
    requires Trapping(x)
    ensures var cx := Context(Builtins(Trap(x)), vars);
      && "" !in cx.builtins
      && Renders(REGISTRY, x.env + x.suffix, cx) && Renders(REGISTRY, ENV + x.suffix, cx) && x.env + x.suffix != ENV + x.suffix
  {
    TrapBuiltins(x);
    TrapTexts(x);
    var b := Builtins(Trap(x));
    hide Shaped, Tokenize, Builtins, Trap;
    var o, o' := UnsettledOrdersDiffer(b, ENV, REGISTRY);
    PassUntouched(x.env + x.suffix, vars);
    EnvTextPasses(x.suffix, vars);
    assert SubstituteIn(REGISTRY, b, o, vars) == Ok(x.env + x.suffix);
    assert SubstituteIn(REGISTRY, b, o', vars) == Ok(ENV + x.suffix);
  }

  /** Such a manifest has one raw field, the registry, and is the other case: it mentions another builtin, and the image
      holds it. */
  lemma TrapIsRaw(x: Fields, vars: map<string, string>)
    requires Trapping(x)
    ensures F.OneRawField(Trap(x), REGISTRY) && V.OneRaw(Builtins(Trap(x)), REGISTRY) && F.AllWellFormed(Trap(x))
    ensures V.MentionsOther(Builtins(Trap(x)), REGISTRY) && F.Holds(Trap(x), REGISTRY) && !P.Nice(Trap(x), vars)
  {
    var app := Trap(x);
    TrapBuiltins(x);
    TrapTexts(x);
    TrapTextsWellFormed(x);
    TrapField(x);
    assert WithVersion(app) == app;
    hide Shaped, Tokenize, Builtins, Trap, Trapping, AppMentions, F.OneRawField;
    F.FieldIsRaw(app, REGISTRY);
    F.RawFieldIff(app, vars, REGISTRY);
  }

  lemma TrapField(x: Fields)
    requires Trapping(x)
    ensures F.OneRawField(Trap(x), REGISTRY)
  {
    var app := Trap(x);
    TrapParts(x);
    NameIsPlain(x.name);
    assert '$' !in app.name && '$' !in app.env && '$' !in app.version && '$' !in app.domain && WellFormed(app.registry);
    hide WellFormed, Builtins, Trap, Trapping, F.OneRawField;
    F.RegistryIsRaw(app);
  }

  lemma TrapMentions(x: Fields, registry: string, image: string, t: string)
    ensures var app := Trap(x).(registry := registry, services := map[x.service := Bare(image)]);
      AppMentions(app, t) <==> t == x.domain || t == registry || t == x.version || t == "" || t == image
  {
    var app := Trap(x).(registry := registry, services := map[x.service := Bare(image)]);
    assert ServiceMentions(app.services[x.service], t) <==> t == image;
  }

  lemma TrapParts(x: Fields)
    requires Trapping(x)
    ensures WellFormed(x.domain) && WellFormed(ENV + x.suffix) && WellFormed(x.version) && WellFormed("")
    ensures WellFormed(REGISTRY) && Hole(REGISTRY) in Tokens(REGISTRY)
  {
    PlaceholdersShaped();
    hide Shaped, ValidName;
    SelfTokens(REGISTRY);
    HoleFirst(ENV, x.suffix);
    PlainTokens(x.domain);
    PlainTokens(x.version);
    PlainTokens("");
  }

  lemma OnlyTrapTexts(x: Fields, t: string)
    ensures AppMentions(Trap(x), t) <==> t == x.domain || t == ENV + x.suffix || t == x.version || t == "" || t == REGISTRY
  {
    TrapMentions(x, ENV + x.suffix, REGISTRY, t);
    assert Trap(x) == Trap(x).(registry := ENV + x.suffix, services := map[x.service := Bare(REGISTRY)]);
    hide AppMentions;
  }

  lemma FiveTexts(app: App, a: string, b: string, c: string, d: string, r: string)
    requires forall t :: AppMentions(app, t) <==> t == a || t == b || t == c || t == d || t == r
    requires WellFormed(a) && WellFormed(b) && WellFormed(c) && WellFormed(d) && WellFormed(r) && Hole(r) in Tokens(r)
    ensures F.AllWellFormed(app) && F.Holds(app, r)
  {
    hide AppMentions, WellFormed, Tokens;
    assert AppMentions(app, r);
  }

  lemma TrapTextsWellFormed(x: Fields)
    requires Trapping(x)
    ensures F.AllWellFormed(Trap(x)) && F.Holds(Trap(x), REGISTRY)
  {
    TrapParts(x);
    forall t {
      OnlyTrapTexts(x, t);
    }
    hide Trapping, WellFormed, Tokens, AppMentions, Trap, F.AllWellFormed, F.Holds;
    FiveTexts(Trap(x), x.domain, ENV + x.suffix, x.version, "", REGISTRY);
  }

  /** Replacing the other placeholders leaves a text with the one of the environment alone. */
  lemma {:induction false} OthersLeaveIt(b: map<string, string>, env: string, suffix: string, order: seq<string>)
    requires GoodBuiltins(b) && env in b && '$' !in suffix && env !in order
    requires forall i :: 0 <= i < |order| ==> order[i] in b && order[i] != ""
    ensures ReplaceBuiltins(env + suffix, b, order) == env + suffix
  {
    if order != [] {
      var last := order[|order| - 1];
      OthersLeaveIt(b, env, suffix, order[..|order| - 1]);
      assert Shaped(last) && Shaped(env);
      SkipHole(env, suffix, last, b[last]);
      SkipPlain(suffix, "", last, b[last]);
      assert suffix + "" == suffix;
    }
  }

  lemma PartOfOrder(before: seq<string>, last: string, b: map<string, string>)
    requires IsOrder(before + [last], b) && "" !in b
    ensures forall i :: 0 <= i < |before| ==> before[i] in b && before[i] != ""
    ensures last !in before && last in b
    ensures forall s :: ReplaceBuiltins(s, b, before + [last]) == ReplaceAll(ReplaceBuiltins(s, b, before), last, b[last])
  {
    hide ReplaceAll;
    var order := before + [last];
    assert order[..|before|] == before && order[|before|] == last;
    assert forall i :: 0 <= i < |before| ==> before[i] == order[i];
  }

  /** With the environment replaced last, the registry comes out with it filled in. */
  lemma RegistryInOrder(b: map<string, string>, env: string, registry: string, suffix: string) returns (order: seq<string>)
    requires GoodBuiltins(b) && "" !in b && env in b && registry in b && env != registry && '$' !in suffix
    ensures IsOrder(order, b) && ReplaceBuiltins(env + suffix, b, order) == ReplaceAll(env + suffix, env, b[env])
  {
    hide GoodBuiltins, ReplaceAll;
    var front := OrderEndingWith(b, registry, env);
    order := front + [registry, env];
    var before := front + [registry];
    assert before + [env] == order;
    PartOfOrder(before, env, b);
    OthersLeaveIt(b, env, suffix, before);
  }

  /** The registry itself renders to the text with the environment filled in. */
  lemma RegistryRenders(x: Fields, vars: map<string, string>)
    requires Trapping(x)
    ensures var cx := Context(Builtins(Trap(x)), vars);
      "" !in cx.builtins && Renders(ENV + x.suffix, x.env + x.suffix, cx)
  {
    TrapBuiltins(x);
    TrapTexts(x);
    var b := Builtins(Trap(x));
    hide Shaped, Tokenize, Builtins, Trap, Splice, Unparse, ReplaceBuiltins;
    var order := RegistryInOrder(b, ENV, REGISTRY, x.suffix);
    HoleFirst(ENV, x.suffix);
    ReplaceIsSplice(Tokens(ENV + x.suffix), ENV, Tokens(x.env));
    PassUntouched(x.env + x.suffix, vars);
    assert SubstituteIn(ENV + x.suffix, b, order, vars) == Ok(x.env + x.suffix);
  }

  // ---------------------------------------------------------------------------
  // Two interpolations, two documents
  // ---------------------------------------------------------------------------

  lemma BareBecame(service: string, image: string, cx: Context)
    requires "" !in cx.builtins && Renders(REGISTRY, image, cx)
    ensures ServicesBecame(map[service := Bare(REGISTRY)], map[service := Bare(image)], true, cx)
  {
    hide Renders;
    assert ServiceBecame(Bare(REGISTRY), Bare(image), true, cx);
    hide ServiceBecame;
  }

  lemma TextsBecame(a: App, b: App, cx: Context)
    requires "" !in cx.builtins && b.name == a.name && b.env == a.env && a.secrets == [] && b.secrets == []
    requires Renders(a.domain, b.domain, cx) && Renders(a.registry, b.registry, cx) && Renders(a.version, b.version, cx)
    requires Renders(a.repoUrl, b.repoUrl, cx) && Renders(a.envFile, b.envFile, cx)
    requires ServicesBecame(a.services, b.services, true, cx)
    ensures AppBecame(a, b, true, cx)
  {
    hide Renders, ServicesBecame;
  }

  lemma FilledIsInterpolated(x: Fields, vars: map<string, string>, image: string)
    requires Trapping(x) && "" !in Builtins(Trap(x))
    requires Renders(REGISTRY, image, Context(Builtins(Trap(x)), vars))
    requires Renders(ENV + x.suffix, x.env + x.suffix, Context(Builtins(Trap(x)), vars))
    ensures P.Interpolated(Trap(x), vars, Filled(x, image))
  {
    var app, cx := Trap(x), Context(Builtins(Trap(x)), vars);
    assert WithVersion(app) == app;
    TrapBuiltins(x);
    hide Shaped, Tokenize, GoodBuiltins, Builtins, Renders, ServicesBecame, AppBecame;
    PlainRenders(x.domain, cx);
    PlainRenders(x.version, cx);
    PlainRenders("", cx);
    BareBecame(x.service, image, cx);
    TextsBecame(app, Filled(x, image), cx);
  }

  lemma InterpolatesTwice(x: Fields, vars: map<string, string>)
    requires Trapping(x)
    ensures P.Interpolated(Trap(x), vars, Filled(x, x.env + x.suffix))
    ensures P.Interpolated(Trap(x), vars, Filled(x, ENV + x.suffix))
  {
    hide Trap, Trapping, Builtins, Renders, P.Interpolated, Filled;
    ImageRendersTwice(x, vars);
    RegistryRenders(x, vars);
    FilledIsInterpolated(x, vars, x.env + x.suffix);
    FilledIsInterpolated(x, vars, ENV + x.suffix);
  }

  ghost function DocumentFor(x: Fields, image: string, root: string): C.Document {
    C.Document(map[x.service := C.WriteService(C.TranslateService(x.service, Bare(image), map[]), x.name, x.env, x.version, root)],
               map[], C.Networks(x.name, false), {})
  }

  lemma FilledIsValid(x: Fields, image: string, hostOk: string -> bool)
    requires Trapping(x) && image != ""
    ensures Validate(Filled(x, image), hostOk)
  {
    assert ValidService(Bare(image), hostOk);
    assert x.service in Filled(x, image).services;
    hide ValidName, ValidService;
  }

  lemma FilledDocument(x: Fields, image: string, res: C.Resolver, root: string)
    ensures C.Translates(Filled(x, image), res)
    ensures CT.DocumentOf(DocumentFor(x, image, root), Filled(x, image), res, root)
    ensures x.service in DocumentFor(x, image, root).services
    ensures DocumentFor(x, image, root).services[x.service].image == image
  {
    BareTranslates(x, image, res);
    BareUses(x, image);
    hide C.Networks, C.TranslateService, C.WriteDeploy, C.Relocated, C.TranslateHealthcheck, C.Translated, C.UsesVolume, C.UsesSecret, CT.AppExposed;
  }

  lemma BareTranslates(x: Fields, image: string, res: C.Resolver)
    ensures C.Translates(Filled(x, image), res)
    ensures C.Translated(Filled(x, image), x.service, res) == C.TranslateService(x.service, Bare(image), map[])
    ensures C.TranslateService(x.service, Bare(image), map[]).image == image
  {
    assert C.Resolves(Bare(image).env, res) && C.ResolvedEnv(Bare(image).env, res) == map[];
  }

  lemma BareUses(x: Fields, image: string)
    ensures forall s :: !C.UsesVolume(Filled(x, image), s) && !C.UsesSecret(Filled(x, image), s)
    ensures !CT.AppExposed(Filled(x, image))
  {
  }

  lemma OutcomeFor(x: Fields, image: string, vars: map<string, string>, hostOk: string -> bool, res: C.Resolver, root: string)
    requires Trapping(x) && image != "" && P.Interpolated(Trap(x), vars, Filled(x, image))
    ensures P.Outcome(Trap(x), vars, hostOk, res, root, Ok(DocumentFor(x, image, root)))
  {
    hide P.Interpolated, Filled, Trap, Trapping, DocumentFor, CT.DocumentOf, Validate, C.Translates, AppMentions, Fails;
    FilledIsValid(x, image, hostOk);
    FilledDocument(x, image, res, root);
    EndsInDocument(Filled(x, image), hostOk, res, root, DocumentFor(x, image, root));
    hide P.EndsFrom;
    assert P.Interpolated(Trap(x), vars, Filled(x, image));
  }

  lemma EndsInDocument(b: App, hostOk: string -> bool, res: C.Resolver, root: string, doc: C.Document)
    requires Validate(b, hostOk) && C.Translates(b, res) && CT.DocumentOf(doc, b, res, root)
    ensures P.EndsFrom(b, hostOk, res, root, Ok(doc))
  {
    hide Validate, C.Translates, CT.DocumentOf;
  }

  /** The manifest can compile to two documents, which run different images. */
  lemma CompilesTwice(x: Fields, vars: map<string, string>, hostOk: string -> bool, res: C.Resolver, root: string)
    returns (d: C.Document, d': C.Document)
    requires Trapping(x)
    ensures P.Outcome(Trap(x), vars, hostOk, res, root, Ok(d)) && P.Outcome(Trap(x), vars, hostOk, res, root, Ok(d'))
    ensures x.service in d.services && d.services[x.service].image == x.env + x.suffix
    ensures x.service in d'.services && d'.services[x.service].image == ENV + x.suffix
    ensures d != d'
  {
    InterpolatesTwice(x, vars);
    ImagesDiffer(x);
    hide P.Interpolated, P.Outcome, Filled, Trap, Trapping, DocumentFor;
    var image, image' := x.env + x.suffix, ENV + x.suffix;
    OutcomeFor(x, image, vars, hostOk, res, root);
    OutcomeFor(x, image', vars, hostOk, res, root);
    FilledDocument(x, image, res, root);
    FilledDocument(x, image', res, root);
    d, d' := DocumentFor(x, image, root), DocumentFor(x, image', root);
  }

  lemma ImagesDiffer(x: Fields)
    requires Trapping(x)
    ensures x.env + x.suffix != ENV + x.suffix && x.env + x.suffix != "" && ENV + x.suffix != ""
  {
    assert (x.env + x.suffix)[0] == x.env[0] != '$' == (ENV + x.suffix)[0];
  }

  // ---------------------------------------------------------------------------
  // The run
  // ---------------------------------------------------------------------------

  /** Marshalling keeps documents apart. */
  ghost predicate Injective(marshal: C.Document -> string) {
    forall d, d' :: marshal(d) == marshal(d') ==> d == d'
  }

  /** The bad run: deploy such a manifest, then sync with the same inputs. The sync can translate it to another image,
      does not skip, and replaces what was just deployed, although nothing failed and nothing was changed. */
  lemma SyncRedeploysAnotherImage(pl: R.Pipeline, w: R.World, p: R.Payload, x: Fields, now: int, f: R.Faults, later: int, f': R.Faults)
    returns (out: Option<string>, again: Option<string>)
    requires Trapping(x) && Injective(pl.marshal)
    requires p.manifest != "" && p.appName == "" && p.version == "" && pl.parse(p.manifest) == Some(R.Source(Trap(x), false, false))
    requires R.AllHistoriesOk(w.db, now) && R.History(w.db, x.name) == map[] && now <= later && R.Calm(f) && R.Calm(f')
    ensures R.PayloadProduces(pl, p, w.inputs, out) && R.Deploy(pl, w, p, out, now, f).1.Ok?
    ensures var (w', d) := R.Deploy(pl, w, p, out, now, f);
      var (w'', r) := R.Sync(pl, w', x.name, again, again, later, f');
      && R.SyncTranslates(pl, w', x.name, again, again)
      && r.Ok? && r.value.changed
      && x.name in w'.live && x.name in w''.live && w'.live[x.name] != w''.live[x.name]
  {
    out, again := TwoTexts(pl, w.inputs, x);
    TrapNamed(x);
    hide R.Produces, R.AllHistoriesOk, R.Deploy, R.Sync, Trap, Trapping;
    Y.CalmDeployThenSync(pl, w, p, out.value, again.value, now, f, later, f');
  }

  lemma TrapNamed(x: Fields)
    requires Trapping(x)
    ensures R.Named(Trap(x), "", "") == Trap(x) && R.Named(Trap(x), x.name, "") == Trap(x)
    ensures Trap(x).name == x.name
    ensures Trap(x).(name := x.name) == Trap(x)
  {
  }

  lemma TwoTexts(pl: R.Pipeline, inputs: R.Inputs, x: Fields) returns (out: Option<string>, again: Option<string>)
    requires Trapping(x) && Injective(pl.marshal)
    ensures R.Produces(pl, Trap(x), inputs, out) && R.Produces(pl, Trap(x), inputs, again)
    ensures out.Some? && again.Some? && out != again
  {
    hide P.Outcome, Trap, Trapping;
    var d, d' := CompilesTwice(x, inputs.env, pl.hostOk, R.ResolverOf(inputs), C.Root(inputs.volumeRoot));
    out, again := Some(pl.marshal(d)), Some(pl.marshal(d'));
    assert R.TextOf(pl, Ok(d)) == out && R.TextOf(pl, Ok(d')) == again;
  }
}
