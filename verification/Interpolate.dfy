/** Interpolating a manifest in place: five builtin placeholders and environment variables, text by text. */
module Interpolate {
  import opened Common
  import opened Manifest
  import opened Placeholders

  /** What every text of one manifest is substituted from. */
  datatype Context = Context(builtins: map<string, string>, env: map<string, string>)

  const APP := "${app}"
  const ENV := "${env}"
  const VERSION := "${version}"
  const REGISTRY := "${registry}"
  const DOMAIN := "${domain}"

  /** The version defaults before the builtins are taken. */
  function WithVersion(app: App): App {
    if app.version == "" then app.(version := "latest") else app
  }

  /** The builtins hold the raw field values, read before any of them is interpolated. */
  function Builtins(app: App): map<string, string> {
    map[APP := app.name, ENV := app.env, VERSION := app.version, REGISTRY := app.registry, DOMAIN := app.domain]
  }

  // ---------------------------------------------------------------------------
  // What may become of a text, a service, a manifest
  // ---------------------------------------------------------------------------

  /** Some map order turns the text into the other one. */
  ghost predicate Renders(s: string, t: string, cx: Context)
    requires "" !in cx.builtins
  {
    exists order :: IsOrder(order, cx.builtins) && SubstituteIn(s, cx.builtins, order, cx.env) == Ok(t)
  }

  /** In some map order substituting the text fails. */
  ghost predicate Fails(s: string, cx: Context)
    requires "" !in cx.builtins
  {
    exists order :: IsOrder(order, cx.builtins) && SubstituteIn(s, cx.builtins, order, cx.env).Err?
  }

  /** A text is rendered; while not all is done it may also still be as it was. */
  ghost predicate Became(s: string, t: string, done: bool, cx: Context)
    requires "" !in cx.builtins
  {
    Renders(s, t, cx) || (!done && t == s)
  }

  ghost predicate ListBecame(xs: seq<string>, ys: seq<string>, done: bool, cx: Context)
    requires "" !in cx.builtins
  {
    |xs| == |ys| && forall i :: 0 <= i < |xs| ==> Became(xs[i], ys[i], done, cx)
  }

  ghost predicate EnvBecame(m: map<string, string>, n: map<string, string>, done: bool, cx: Context)
    requires "" !in cx.builtins
  {
    m.Keys == n.Keys && forall k :: k in m ==> Became(m[k], n[k], done, cx)
  }

  ghost predicate ExposeBecame(e: Option<Expose>, f: Option<Expose>, done: bool, cx: Context)
    requires "" !in cx.builtins
  {
    match (e, f)
    case (None, None) => true
    case (Some(x), Some(y)) =>
      && y == x.(host := y.host, aliases := y.aliases)
      && Became(x.host, y.host, done, cx) && ListBecame(x.aliases, y.aliases, done, cx)
    case _ => false
  }

  /** Only the texts of a service change, each by substitution. */
  ghost predicate ServiceBecame(s: Service, t: Service, done: bool, cx: Context)
    requires "" !in cx.builtins
  {
    && t == s.(image := t.image, command := t.command, entrypoint := t.entrypoint, env := t.env, volumes := t.volumes, expose := t.expose)
    && Became(s.image, t.image, done, cx)
    && ListBecame(s.command, t.command, done, cx)
    && ListBecame(s.entrypoint, t.entrypoint, done, cx)
    && EnvBecame(s.env, t.env, done, cx)
    && ListBecame(s.volumes, t.volumes, done, cx)
    && ExposeBecame(s.expose, t.expose, done, cx)
  }

  ghost predicate ServicesBecame(m: map<string, Service>, n: map<string, Service>, done: bool, cx: Context)
    requires "" !in cx.builtins
  {
    m.Keys == n.Keys && forall k :: k in m ==> ServiceBecame(m[k], n[k], done, cx)
  }

  /** Name and environment stay; every other text changes by substitution. */
  ghost predicate AppBecame(a: App, b: App, done: bool, cx: Context)
    requires "" !in cx.builtins
  {
    && b.name == a.name && b.env == a.env
    && Became(a.domain, b.domain, done, cx)
    && Became(a.registry, b.registry, done, cx)
    && Became(a.version, b.version, done, cx)
    && Became(a.repoUrl, b.repoUrl, done, cx)
    && Became(a.envFile, b.envFile, done, cx)
    && ListBecame(a.secrets, b.secrets, done, cx)
    && ServicesBecame(a.services, b.services, done, cx)
  }

  ghost predicate ServiceMentions(s: Service, x: string) {
    || x == s.image || x in s.command || x in s.entrypoint || x in s.env.Values || x in s.volumes
    || (s.expose.Some? && (x == s.expose.value.host || x in s.expose.value.aliases))
  }

  /** The texts of a manifest that are substituted. */
  ghost predicate AppMentions(a: App, x: string) {
    || x in {a.domain, a.registry, a.version, a.repoUrl, a.envFile} || x in a.secrets
    || exists n :: n in a.services && ServiceMentions(a.services[n], x)
  }

  // ---------------------------------------------------------------------------
  // The interpolation
  // ---------------------------------------------------------------------------

  method RenderText(s: string, cx: Context) returns (r: Option<string>)
    requires "" !in cx.builtins
    ensures r.Some? ==> Renders(s, r.value, cx)
    ensures r.None? ==> Fails(s, cx)
  {
    var out := Substitute(s, cx.builtins, cx.env);
    r := match out case Ok(t) => Some(t) case Err(_) => None;
  }

  method RenderList(xs: seq<string>, cx: Context) returns (ok: bool, ys: seq<string>)
    requires "" !in cx.builtins
    ensures ListBecame(xs, ys, ok, cx)
    ensures !ok ==> exists x :: x in xs && Fails(x, cx)
  {
    ys := xs;
    for i := 0 to |xs|
      invariant |ys| == |xs|
      invariant forall j :: 0 <= j < i ==> Renders(xs[j], ys[j], cx)
      invariant forall j :: i <= j < |xs| ==> ys[j] == xs[j]
    {
      var v := RenderText(xs[i], cx);
      if v.None? {
        return false, ys;
      }
      ys := ys[i := v.value];
    }
    ok := true;
  }

  method RenderEnv(m: map<string, string>, cx: Context) returns (ok: bool, n: map<string, string>)
    requires "" !in cx.builtins
    ensures EnvBecame(m, n, ok, cx)
    ensures !ok ==> exists x :: x in m.Values && Fails(x, cx)
  {
    n := m;
    var left := m.Keys;
    while left != {}
      invariant left <= m.Keys && n.Keys == m.Keys
      invariant forall k :: k in m && k !in left ==> Renders(m[k], n[k], cx)
      invariant forall k :: k in left ==> n[k] == m[k]
    {
      var k :| k in left;
      var v := RenderText(m[k], cx);
      if v.None? {
        assert m[k] in m.Values;
        return false, n;
      }
      n := n[k := v.value];
      left := left - {k};
    }
    ok := true;
  }

  method RenderExpose(e: Expose, cx: Context) returns (ok: bool, f: Expose)
    requires "" !in cx.builtins
    ensures ExposeBecame(Some(e), Some(f), ok, cx)
    ensures !ok ==> Fails(e.host, cx) || exists x :: x in e.aliases && Fails(x, cx)
  {
    f := e;
    var host := RenderText(e.host, cx);
    if host.None? {
      return false, f;
    }
    f := f.(host := host.value);
    var aliases;
    ok, aliases := RenderList(e.aliases, cx);
    f := f.(aliases := aliases);
  }

  method InterpolateService(s: Service, cx: Context) returns (ok: bool, t: Service)
    requires "" !in cx.builtins
    ensures ServiceBecame(s, t, ok, cx)
    ensures !ok ==> exists x :: ServiceMentions(s, x) && Fails(x, cx)
  {
    hide Renders, Fails;
    t := s;
    var image := RenderText(s.image, cx);
    if image.None? {
      assert ServiceMentions(s, s.image);
      return false, t;
    }
    t := t.(image := image.value);
    var list;
    ok, list := RenderList(s.command, cx);
    t := t.(command := list);
    if !ok {
      return;
    }
    ok, list := RenderList(s.entrypoint, cx);
    t := t.(entrypoint := list);
    if !ok {
      return;
    }
    var env;
    ok, env := RenderEnv(s.env, cx);
    t := t.(env := env);
    if !ok {
      return;
    }
    ok, list := RenderList(s.volumes, cx);
    t := t.(volumes := list);
    if !ok {
      return;
    }
    if s.expose.Some? {
      var expose;
      ok, expose := RenderExpose(s.expose.value, cx);
      t := t.(expose := Some(expose));
    }
  }

  lemma ServiceStays(s: Service, cx: Context)
    requires "" !in cx.builtins
    ensures ServiceBecame(s, s, false, cx)
  {
  }

  lemma ServiceWasTouched(s: Service, t: Service, cx: Context)
    requires "" !in cx.builtins && ServiceBecame(s, t, true, cx)
    ensures ServiceBecame(s, t, false, cx)
  {
  }

  lemma ServicesStay(m: map<string, Service>, cx: Context)
    requires "" !in cx.builtins
    ensures ServicesBecame(m, m, false, cx)
  {
    forall n | n in m
      ensures ServiceBecame(m[n], m[n], false, cx)
    {
      ServiceStays(m[n], cx);
    }
  }

  /** A parsed manifest, rewritten in place. */
  class Draft {
    var app: App

    constructor (parsed: App)
      ensures app == parsed
    {
      app := parsed;
    }

    /** Rewrites the manifest text by text and stops at the first text that names an unset variable. */
    method Interpolate(env: map<string, string>) returns (ok: bool)
      modifies this
      ensures var raw := WithVersion(old(app));
        var cx := Context(Builtins(raw), env);
        && AppBecame(raw, app, ok, cx)
        && (!ok ==> exists x :: AppMentions(raw, x) && Fails(x, cx))
    {
      hide Renders, Fails, ServicesBecame;
      app := WithVersion(app);
      ghost var raw := app;
      var cx := Context(Builtins(app), env);
      ServicesStay(raw.services, cx);
      ok := InterpolateFields(cx);
      if !ok {
        return;
      }
      var secrets;
      ok, secrets := RenderList(app.secrets, cx);
      app := app.(secrets := secrets);
      if !ok {
        return;
      }
      ok := InterpolateServices(cx);
    }

    method InterpolateFields(cx: Context) returns (ok: bool)
      requires "" !in cx.builtins
      modifies this
      ensures app == old(app).(domain := app.domain, registry := app.registry, version := app.version, repoUrl := app.repoUrl, envFile := app.envFile)
      ensures Became(old(app).domain, app.domain, ok, cx) && Became(old(app).registry, app.registry, ok, cx)
      ensures Became(old(app).version, app.version, ok, cx) && Became(old(app).repoUrl, app.repoUrl, ok, cx)
      ensures Became(old(app).envFile, app.envFile, ok, cx)
      ensures !ok ==> exists x :: AppMentions(old(app), x) && Fails(x, cx)
    {
      hide Renders, Fails;
      var v := RenderText(app.domain, cx);
      if v.None? { return false; }
      app := app.(domain := v.value);
      v := RenderText(app.registry, cx);
      if v.None? { return false; }
      app := app.(registry := v.value);
      v := RenderText(app.version, cx);
      if v.None? { return false; }
      app := app.(version := v.value);
      v := RenderText(app.repoUrl, cx);
      if v.None? { return false; }
      app := app.(repoUrl := v.value);
      v := RenderText(app.envFile, cx);
      if v.None? { return false; }
      app := app.(envFile := v.value);
      ok := true;
    }

    method InterpolateServices(cx: Context) returns (ok: bool)
      requires "" !in cx.builtins
      modifies this
      ensures app == old(app).(services := app.services)
      ensures ServicesBecame(old(app).services, app.services, ok, cx)
      ensures !ok ==> exists n, x :: n in old(app).services && ServiceMentions(old(app).services[n], x) && Fails(x, cx)
    {
      hide Renders, Fails, ServiceBecame, ServiceMentions;
      var left := app.services.Keys;
      while left != {}
        invariant app == old(app).(services := app.services)
        invariant left <= app.services.Keys == old(app).services.Keys
        invariant forall n :: n in app.services && n !in left ==> ServiceBecame(old(app).services[n], app.services[n], true, cx)
        invariant forall n :: n in left ==> app.services[n] == old(app).services[n]
      {
        var n :| n in left;
        var service;
        ok, service := InterpolateService(app.services[n], cx);
        left := left - {n};
        if !ok {
          forall k | k in app.services && k != n
            ensures ServiceBecame(old(app).services[k], app.services[k], false, cx)
          {
            if k in left {
              ServiceStays(app.services[k], cx);
            } else {
              ServiceWasTouched(old(app).services[k], app.services[k], cx);
            }
          }
          app := app.(services := app.services[n := service]);
          return;
        }
        app := app.(services := app.services[n := service]);
      }
      ok := true;
    }
  }

  // ---------------------------------------------------------------------------
  // One text
  // ---------------------------------------------------------------------------

  /** The simultaneous substitution of a well-formed text. */
  ghost function Value(s: string, cx: Context): string
    requires GoodBuiltins(cx.builtins)
  {
    if WellFormed(s) then Filled(Spliced(Tokens(s), cx.builtins, cx.builtins.Keys), cx.env) else s
  }

  /** The text, or the value of a builtin in it, names a variable that is not set. */
  ghost predicate NamesUnset(s: string, cx: Context)
    requires GoodBuiltins(cx.builtins) && WellFormed(s)
  {
    RefersToUnset(Spliced(Tokens(s), cx.builtins, cx.builtins.Keys), cx.env)
  }

  /** A well-formed text, and none of the builtins it mentions has a value that mentions another one that counts. */
  ghost predicate NiceText(s: string, cx: Context)
    requires GoodBuiltins(cx.builtins)
  {
    WellFormed(s) && SettledFor(Tokens(s), cx.builtins)
  }

  lemma NoEmptyBuiltin(builtins: map<string, string>)
    requires GoodBuiltins(builtins)
    ensures "" !in builtins
  {
    assert "" in builtins ==> Shaped("");
  }

  lemma RendersIff(s: string, cx: Context)
    requires GoodBuiltins(cx.builtins) && NiceText(s, cx)
    ensures "" !in cx.builtins
    ensures Fails(s, cx) <==> NamesUnset(s, cx)
    ensures forall t :: Renders(s, t, cx) <==> !NamesUnset(s, cx) && t == Value(s, cx)
  {
    NoEmptyBuiltin(cx.builtins);
    forall order | IsOrder(order, cx.builtins)
      ensures SubstituteIn(s, cx.builtins, order, cx.env).Err? <==> NamesUnset(s, cx)
      ensures !NamesUnset(s, cx) ==> SubstituteIn(s, cx.builtins, order, cx.env) == Ok(Value(s, cx))
    {
      SubstituteIsSimultaneous(s, cx.builtins, order, cx.env);
    }
    var order := SomeOrder(cx.builtins);
    assert IsOrder(order, cx.builtins);
  }

  // ---------------------------------------------------------------------------
  // One function for all texts
  // ---------------------------------------------------------------------------

  ghost function ListWith(xs: seq<string>, f: string -> string): seq<string> {
    seq(|xs|, i requires 0 <= i < |xs| => f(xs[i]))
  }

  ghost function ServiceWith(s: Service, f: string -> string): Service {
    s.(image := f(s.image),
       command := ListWith(s.command, f),
       entrypoint := ListWith(s.entrypoint, f),
       env := map k | k in s.env :: f(s.env[k]),
       volumes := ListWith(s.volumes, f),
       expose := match s.expose
                 case None => None
                 case Some(e) => Some(e.(host := f(e.host), aliases := ListWith(e.aliases, f))))
  }

  /** Every text of the manifest gives way to its image; nothing else changes. */
  ghost function AppWith(a: App, f: string -> string): App {
    a.(domain := f(a.domain), registry := f(a.registry), version := f(a.version),
       repoUrl := f(a.repoUrl), envFile := f(a.envFile), secrets := ListWith(a.secrets, f),
       services := map n | n in a.services :: ServiceWith(a.services[n], f))
  }

  lemma ListBecomes(xs: seq<string>, ys: seq<string>, cx: Context, f: string -> string)
    requires "" !in cx.builtins && ListBecame(xs, ys, true, cx)
    requires forall x, t :: x in xs && Renders(x, t, cx) ==> t == f(x)
    ensures ys == ListWith(xs, f)
  {
    hide Renders;
    forall i | 0 <= i < |xs|
      ensures ys[i] == f(xs[i])
    {
      assert Became(xs[i], ys[i], true, cx);
    }
  }

  lemma EnvBecomes(m: map<string, string>, n: map<string, string>, cx: Context, f: string -> string)
    requires "" !in cx.builtins && EnvBecame(m, n, true, cx)
    requires forall x, t :: x in m.Values && Renders(x, t, cx) ==> t == f(x)
    ensures n == map k | k in m :: f(m[k])
  {
    hide Renders;
    forall k | k in m
      ensures n[k] == f(m[k])
    {
      assert Became(m[k], n[k], true, cx);
    }
  }

  lemma ServiceBecomes(s: Service, t: Service, cx: Context, f: string -> string)
    requires "" !in cx.builtins && ServiceBecame(s, t, true, cx)
    requires forall x, y :: ServiceMentions(s, x) && Renders(x, y, cx) ==> y == f(x)
    ensures t == ServiceWith(s, f)
  {
    hide Renders, ListWith;
    ListBecomes(s.command, t.command, cx, f);
    ListBecomes(s.entrypoint, t.entrypoint, cx, f);
    EnvBecomes(s.env, t.env, cx, f);
    ListBecomes(s.volumes, t.volumes, cx, f);
    if s.expose.Some? {
      ListBecomes(s.expose.value.aliases, t.expose.value.aliases, cx, f);
    }
  }

  /** If every text has at most one rendering, interpolation has at most one success. */
  lemma AppBecomes(a: App, b: App, cx: Context, f: string -> string)
    requires "" !in cx.builtins && AppBecame(a, b, true, cx)
    requires forall x, t :: AppMentions(a, x) && Renders(x, t, cx) ==> t == f(x)
    ensures b == AppWith(a, f)
  {
    hide Renders, ListWith, ServiceWith;
    forall n | n in a.services
      ensures b.services[n] == ServiceWith(a.services[n], f)
    {
      ServiceBecomes(a.services[n], b.services[n], cx, f);
    }
    ListBecomes(a.secrets, b.secrets, cx, f);
  }

  /** Every text of an interpolated manifest has a rendering. */
  lemma ServiceRenders(s: Service, t: Service, cx: Context, x: string)
    requires "" !in cx.builtins && ServiceBecame(s, t, true, cx) && ServiceMentions(s, x)
    ensures exists y :: Renders(x, y, cx)
  {
    hide Renders;
    if x in s.env.Values {
      var k :| k in s.env && s.env[k] == x;
      assert Became(s.env[k], t.env[k], true, cx);
    }
    ListRenders(s.command, t.command, cx, x);
    ListRenders(s.entrypoint, t.entrypoint, cx, x);
    ListRenders(s.volumes, t.volumes, cx, x);
    if s.expose.Some? {
      ListRenders(s.expose.value.aliases, t.expose.value.aliases, cx, x);
    }
  }

  lemma ListRenders(xs: seq<string>, ys: seq<string>, cx: Context, x: string)
    requires "" !in cx.builtins && ListBecame(xs, ys, true, cx)
    ensures x in xs ==> exists y :: Renders(x, y, cx)
  {
    hide Renders;
    if x in xs {
      var i :| 0 <= i < |xs| && xs[i] == x;
      assert Became(xs[i], ys[i], true, cx);
    }
  }

  lemma AppRenders(a: App, b: App, cx: Context, x: string)
    requires "" !in cx.builtins && AppBecame(a, b, true, cx) && AppMentions(a, x)
    ensures exists t :: Renders(x, t, cx)
  {
    hide Renders;
    ListRenders(a.secrets, b.secrets, cx, x);
    if n :| n in a.services && ServiceMentions(a.services[n], x) {
      ServiceRenders(a.services[n], b.services[n], cx, x);
    }
  }

  // ---------------------------------------------------------------------------
  // One outcome
  // ---------------------------------------------------------------------------

  ghost predicate AppNice(a: App, cx: Context)
    requires GoodBuiltins(cx.builtins)
  {
    forall x :: AppMentions(a, x) ==> NiceText(x, cx)
  }

  /** Every text of the manifest gives way to its simultaneous substitution. */
  ghost function AppValue(a: App, cx: Context): App
    requires GoodBuiltins(cx.builtins)
  {
    AppWith(a, s => Value(s, cx))
  }

  ghost predicate AppNamesUnset(a: App, cx: Context)
    requires GoodBuiltins(cx.builtins)
  {
    exists x :: AppMentions(a, x) && WellFormed(x) && NamesUnset(x, cx)
  }

  /** How interpolation may end. */
  ghost predicate Ends(raw: App, app: App, ok: bool, cx: Context)
    requires "" !in cx.builtins
  {
    AppBecame(raw, app, ok, cx) && (!ok ==> exists x :: AppMentions(raw, x) && Fails(x, cx))
  }

  /** In a manifest of nice texts interpolation has one outcome although it walks maps in any order: it fails exactly
      when some text names an unset variable, and otherwise every text has become its simultaneous substitution. */
  lemma InterpolationIsDetermined(raw: App, app: App, ok: bool, cx: Context)
    requires GoodBuiltins(cx.builtins) && AppNice(raw, cx) && "" !in cx.builtins && Ends(raw, app, ok, cx)
    ensures ok <==> !AppNamesUnset(raw, cx)
    ensures ok ==> app == AppValue(raw, cx)
  {
    hide AppMentions, AppBecame, Renders, Fails, NamesUnset, Value, GoodBuiltins, AppWith;
    forall x | AppMentions(raw, x)
      ensures Fails(x, cx) <==> NamesUnset(x, cx)
      ensures forall t :: Renders(x, t, cx) <==> !NamesUnset(x, cx) && t == Value(x, cx)
    {
      RendersIff(x, cx);
    }
    if ok {
      AppBecomes(raw, app, cx, s => Value(s, cx));
      forall x | AppMentions(raw, x)
        ensures !NamesUnset(x, cx)
      {
        AppRenders(raw, app, cx, x);
      }
    } else {
      var x :| AppMentions(raw, x) && Fails(x, cx);
      assert NiceText(x, cx);
    }
  }

  // ---------------------------------------------------------------------------
  // The five builtins
  // ---------------------------------------------------------------------------

  lemma ShapedName(name: string)
    requires '$' !in name && '}' !in name
    ensures Shaped("${" + name + "}")
  {
  }

  lemma PlaceholdersShaped()
    ensures Shaped(APP) && Shaped(ENV) && Shaped(VERSION) && Shaped(REGISTRY) && Shaped(DOMAIN)
  {
    hide Shaped;
    ShapedName("app");
    ShapedName("env");
    ShapedName("version");
    ShapedName("registry");
    ShapedName("domain");
    assert APP == "${" + "app" + "}" && ENV == "${" + "env" + "}" && VERSION == "${" + "version" + "}";
    assert REGISTRY == "${" + "registry" + "}" && DOMAIN == "${" + "domain" + "}";
  }

  /** The builtins are good when their values are well-formed. */
  lemma BuiltinsGood(app: App)
    requires WellFormed(app.name) && WellFormed(app.env) && WellFormed(app.version) && WellFormed(app.registry) && WellFormed(app.domain)
    ensures GoodBuiltins(Builtins(app))
  {
    hide Shaped, WellFormed;
    PlaceholdersShaped();
  }

  lemma NamesDiffer()
    ensures DOMAIN !in {APP, ENV, VERSION, REGISTRY}
    ensures APP !in {ENV, VERSION, REGISTRY} && ENV !in {VERSION, REGISTRY} && VERSION != REGISTRY
  {
    assert APP[2] == 'a' && ENV[2] == 'e' && VERSION[2] == 'v' && REGISTRY[2] == 'r' && DOMAIN[2] == 'd';
  }
}
