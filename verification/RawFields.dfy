/** Manifests of which one builtin field is written with placeholders of its own, such as a domain `x.${env}`: the
    builtins are captured before that field is interpolated. */
module RawFields {
  import opened Common
  import opened Manifest
  import opened Placeholders
  import opened Interpolate
  import opened RawValues
  import P = ManifestPipeline

  /** However maps are walked, interpolation ends the same: it fails, or gives one manifest. */
  ghost predicate OneOutcome(raw: App, cx: Context)
    requires "" !in cx.builtins
  {
    forall a, ok, a', ok' :: Ends(raw, a, ok, cx) && Ends(raw, a', ok', cx) ==> ok == ok' && (ok ==> a == a')
  }

  ghost predicate AllWellFormed(raw: App) {
    forall x :: AppMentions(raw, x) ==> WellFormed(x)
  }

  /** Some text of the manifest holds the placeholder. */
  ghost predicate Holds(raw: App, d: string) {
    exists x :: AppMentions(raw, x) && WellFormed(x) && Hole(d) in Tokens(x)
  }

  // ---------------------------------------------------------------------------
  // All texts in one order
  // ---------------------------------------------------------------------------

  /** What a text becomes in an order, if it does not fail. */
  ghost function Under(cx: Context, order: seq<string>): string -> string
    requires "" !in cx.builtins && IsOrder(order, cx.builtins)
  {
    s => match SubstituteIn(s, cx.builtins, order, cx.env) case Ok(t) => t case Err(_) => ""
  }

  lemma ListWithBecame(xs: seq<string>, cx: Context, f: string -> string)
    requires "" !in cx.builtins && forall x :: x in xs ==> Renders(x, f(x), cx)
    ensures ListBecame(xs, ListWith(xs, f), true, cx)
  {
    hide Renders;
  }

  lemma ServiceWithBecame(s: Service, cx: Context, f: string -> string)
    requires "" !in cx.builtins && forall x :: ServiceMentions(s, x) ==> Renders(x, f(x), cx)
    ensures ServiceBecame(s, ServiceWith(s, f), true, cx)
  {
    hide Renders, ListWith, ListBecame;
    ListWithBecame(s.command, cx, f);
    ListWithBecame(s.entrypoint, cx, f);
    ListWithBecame(s.volumes, cx, f);
    if s.expose.Some? {
      ListWithBecame(s.expose.value.aliases, cx, f);
    }
    assert forall k :: k in s.env ==> s.env[k] in s.env.Values;
  }

  lemma AppWithBecame(a: App, cx: Context, f: string -> string)
    requires "" !in cx.builtins && forall x :: AppMentions(a, x) ==> Renders(x, f(x), cx)
    ensures AppBecame(a, AppWith(a, f), true, cx)
  {
    hide Renders, ListWith, ListBecame, ServiceWith, ServiceBecame, ServiceMentions;
    ListWithBecame(a.secrets, cx, f);
    forall n | n in a.services
      ensures ServiceBecame(a.services[n], ServiceWith(a.services[n], f), true, cx)
    {
      ServiceWithBecame(a.services[n], cx, f);
    }
  }

  lemma ListWithInjective(xs: seq<string>, f: string -> string, g: string -> string, x: string)
    requires ListWith(xs, f) == ListWith(xs, g)
    ensures x in xs ==> f(x) == g(x)
  {
    if x in xs {
      var i :| 0 <= i < |xs| && xs[i] == x;
      assert ListWith(xs, f)[i] == f(x) && ListWith(xs, g)[i] == g(x);
    }
  }

  lemma ServiceWithInjective(s: Service, f: string -> string, g: string -> string, x: string)
    requires ServiceWith(s, f) == ServiceWith(s, g) && ServiceMentions(s, x)
    ensures f(x) == g(x)
  {
    var t, t' := ServiceWith(s, f), ServiceWith(s, g);
    hide ListWith;
    ListWithInjective(s.command, f, g, x);
    ListWithInjective(s.entrypoint, f, g, x);
    ListWithInjective(s.volumes, f, g, x);
    if x in s.env.Values {
      var k :| k in s.env && s.env[k] == x;
      assert t.env[k] == f(x) && t'.env[k] == g(x);
    }
    if s.expose.Some? {
      assert t.expose.value == t'.expose.value;
      ListWithInjective(s.expose.value.aliases, f, g, x);
    }
  }

  lemma AppWithInjective(a: App, f: string -> string, g: string -> string, x: string)
    requires AppWith(a, f) == AppWith(a, g) && AppMentions(a, x)
    ensures f(x) == g(x)
  {
    var b, b' := AppWith(a, f), AppWith(a, g);
    hide ListWith, ServiceWith, ServiceMentions;
    ListWithInjective(a.secrets, f, g, x);
    if n :| n in a.services && ServiceMentions(a.services[n], x) {
      assert b.services[n] == ServiceWith(a.services[n], f) && b'.services[n] == ServiceWith(a.services[n], g);
      ServiceWithInjective(a.services[n], f, g, x);
    }
  }

  // ---------------------------------------------------------------------------
  // When there is one outcome
  // ---------------------------------------------------------------------------

  /** A manifest that names no unset variable can be interpolated in every order. */
  lemma UnderEnds(raw: App, cx: Context, d: string, order: seq<string>)
    requires OneRaw(cx.builtins, d) && GoodBuiltins(cx.builtins) && "" !in cx.builtins && IsOrder(order, cx.builtins)
    requires AllWellFormed(raw) && !AppNamesUnset(raw, cx)
    ensures Ends(raw, AppWith(raw, Under(cx, order)), true, cx)
  {
    var f := Under(cx, order);
    forall x | AppMentions(raw, x)
      ensures Renders(x, f(x), cx)
    {
      hide AppMentions;
      FailsInAllOrders(x, cx.builtins, d, order, cx.env);
      assert SubstituteIn(x, cx.builtins, order, cx.env) == Ok(f(x));
    }
    hide AppMentions, AppBecame, Renders;
    AppWithBecame(raw, cx, f);
  }

  lemma TwoOutcomes(raw: App, cx: Context, d: string)
    requires OneRaw(cx.builtins, d) && GoodBuiltins(cx.builtins) && "" !in cx.builtins && AllWellFormed(raw)
    requires MentionsOther(cx.builtins, d) && Holds(raw, d) && !AppNamesUnset(raw, cx)
    ensures !OneOutcome(raw, cx)
  {
    hide AppMentions, OneRaw, MentionsOther, AppWith, GoodBuiltins, Ends;
    var x :| AppMentions(raw, x) && WellFormed(x) && Hole(d) in Tokens(x);
    var o, o' := TwoResults(x, cx.builtins, d);
    UnderEnds(raw, cx, d, o);
    UnderEnds(raw, cx, d, o');
    var f, g := Under(cx, o), Under(cx, o');
    assert !NamesUnset(x, cx);
    assert f(x) != g(x);
    if AppWith(raw, f) == AppWith(raw, g) {
      AppWithInjective(raw, f, g, x);
    }
  }

  /** A text that names an unset variable fails, whatever the order, and with it the interpolation. */
  lemma UnsetFails(raw: App, cx: Context, d: string, app: App)
    requires OneRaw(cx.builtins, d) && GoodBuiltins(cx.builtins) && "" !in cx.builtins && AppNamesUnset(raw, cx)
    ensures !Ends(raw, app, true, cx)
  {
    if Ends(raw, app, true, cx) {
      var x :| AppMentions(raw, x) && WellFormed(x) && NamesUnset(x, cx);
      AppRenders(raw, app, cx, x);
      var t :| Renders(x, t, cx);
      var order :| IsOrder(order, cx.builtins) && SubstituteIn(x, cx.builtins, order, cx.env) == Ok(t);
      FailsInAllOrders(x, cx.builtins, d, order, cx.env);
    }
  }

  /** The manifest is nice exactly if the raw value mentions no other builtin, or no text holds its placeholder. */
  lemma NiceIff(raw: App, cx: Context, d: string)
    requires OneRaw(cx.builtins, d) && AllWellFormed(raw)
    ensures GoodBuiltins(cx.builtins)
    ensures AppNice(raw, cx) <==> !(MentionsOther(cx.builtins, d) && Holds(raw, d))
  {
    OneRawIsGood(cx.builtins, d);
    hide AppMentions, OneRaw, MentionsOther, GoodBuiltins, SettledFor;
    forall x | AppMentions(raw, x)
      ensures NiceText(x, cx) <==> !(Hole(d) in Tokens(x) && MentionsOther(cx.builtins, d))
    {
      SettledForIff(Tokens(x), cx.builtins, d);
    }
  }

  /** Interpolation of a manifest with one raw field has one outcome if and only if that field, as written, mentions no
      other builtin, or no text of the manifest holds its placeholder, or some text names an unset variable, so that every
      order fails. */
  lemma OneOutcomeIff(raw: App, cx: Context, d: string)
    requires OneRaw(cx.builtins, d) && AllWellFormed(raw)
    ensures GoodBuiltins(cx.builtins) && "" !in cx.builtins
    ensures OneOutcome(raw, cx) <==> !MentionsOther(cx.builtins, d) || !Holds(raw, d) || AppNamesUnset(raw, cx)
  {
    OneRawIsGood(cx.builtins, d);
    NoEmptyBuiltin(cx.builtins);
    NiceIff(raw, cx, d);
    hide OneRaw, MentionsOther, Holds, GoodBuiltins, AppNamesUnset, AppNice, AllWellFormed, Ends;
    if AppNamesUnset(raw, cx) {
      forall app
        ensures !Ends(raw, app, true, cx)
      {
        UnsetFails(raw, cx, d, app);
      }
    } else if MentionsOther(cx.builtins, d) && Holds(raw, d) {
      TwoOutcomes(raw, cx, d);
    } else {
      forall app, ok | Ends(raw, app, ok, cx)
        ensures ok && app == AppValue(raw, cx)
      {
        InterpolationIsDetermined(raw, app, ok, cx);
      }
    }
  }

  // ---------------------------------------------------------------------------
  // The fields of a manifest
  // ---------------------------------------------------------------------------

  /** Of the five builtin fields only one may hold placeholders. */
  ghost predicate OneRawField(app: App, d: string) {
    var b := Builtins(app);
    d in b && WellFormed(b[d]) && forall k :: k in b && k != d ==> '$' !in b[k]
  }

  lemma NotVariables()
    ensures EnvAt(APP).None? && EnvAt(ENV).None? && EnvAt(VERSION).None? && EnvAt(REGISTRY).None? && EnvAt(DOMAIN).None?
  {
    assert ENV_OPEN[2] == 'e' && ENV_OPEN[5] == ':' && ENV[5] == '}';
    assert APP[2] == 'a' && VERSION[2] == 'v' && REGISTRY[2] == 'r' && DOMAIN[2] == 'd';
  }

  lemma FieldIsRaw(app: App, d: string)
    requires OneRawField(app, d)
    ensures OneRaw(Builtins(app), d)
  {
    hide Shaped, WellFormed, EnvAt;
    PlaceholdersShaped();
    NotVariables();
  }

  /** The five fields are captured raw. When only one holds placeholders, interpolation of the manifest is independent of
      map order exactly as said above, and the manifest is nice exactly in the first two cases. */
  lemma RawFieldIff(app: App, env: map<string, string>, d: string)
    requires OneRawField(WithVersion(app), d) && AllWellFormed(WithVersion(app))
    ensures var raw, cx := WithVersion(app), P.ContextOf(app, env);
      && OneRaw(cx.builtins, d) && GoodBuiltins(cx.builtins) && "" !in cx.builtins
      && (OneOutcome(raw, cx) <==> !MentionsOther(cx.builtins, d) || !Holds(raw, d) || AppNamesUnset(raw, cx))
      && (P.Nice(app, env) <==> !(MentionsOther(cx.builtins, d) && Holds(raw, d)))
  {
    FieldIsRaw(WithVersion(app), d);
    hide OneRaw, MentionsOther, Holds, GoodBuiltins, AppNamesUnset, AppNice, AllWellFormed, OneOutcome, Builtins;
    OneOutcomeIff(WithVersion(app), P.ContextOf(app, env), d);
    NiceIff(WithVersion(app), P.ContextOf(app, env), d);
  }

  /** The domain in particular, with the other four builtins by name. */
  lemma RawDomainIff(app: App, env: map<string, string>)
    requires '$' !in app.name && '$' !in app.env && '$' !in app.version && '$' !in app.registry
    requires AllWellFormed(WithVersion(app))
    ensures var raw, cx := WithVersion(app), P.ContextOf(app, env);
      && WellFormed(app.domain) && GoodBuiltins(cx.builtins) && "" !in cx.builtins
      && (OneOutcome(raw, cx) <==>
            || (forall k :: k in {APP, ENV, VERSION, REGISTRY} ==> Hole(k) !in Tokens(app.domain))
            || !Holds(raw, DOMAIN)
            || AppNamesUnset(raw, cx))
  {
    var raw := WithVersion(app);
    assert AppMentions(raw, raw.domain) && '$' !in raw.version;
    hide Holds, GoodBuiltins, AppNamesUnset, AllWellFormed, OneOutcome, Builtins, Tokens, WellFormed, AppMentions, OneRaw, MentionsOther, OneRawField;
    DomainIsRaw(raw);
    RawFieldIff(app, env, DOMAIN);
  }

  lemma DomainIsRaw(raw: App)
    requires '$' !in raw.name && '$' !in raw.env && '$' !in raw.version && '$' !in raw.registry && WellFormed(raw.domain)
    ensures OneRawField(raw, DOMAIN) && OneRaw(Builtins(raw), DOMAIN)
    ensures MentionsOther(Builtins(raw), DOMAIN) <==> exists k :: k in {APP, ENV, VERSION, REGISTRY} && Hole(k) in Tokens(raw.domain)
  {
    hide Tokens, WellFormed, Builtins;
    NamesDiffer();
    BuiltinsAre(raw);
    FieldIsRaw(raw, DOMAIN);
    hide OneRaw;
  }

  lemma RegistryIsRaw(raw: App)
    requires '$' !in raw.name && '$' !in raw.env && '$' !in raw.version && '$' !in raw.domain && WellFormed(raw.registry)
    ensures OneRawField(raw, REGISTRY)
  {
    hide Tokens, WellFormed, Builtins;
    NamesDiffer();
    BuiltinsAre(raw);
  }

  lemma BuiltinsAre(app: App)
    ensures var b := Builtins(app);
      && b.Keys == {APP, ENV, VERSION, REGISTRY, DOMAIN}
      && b[APP] == app.name && b[ENV] == app.env && b[VERSION] == app.version && b[REGISTRY] == app.registry && b[DOMAIN] == app.domain
  {
    NamesDiffer();
  }
}
