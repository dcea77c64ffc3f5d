/** The written document field by field, read off the manifest it was translated from. */
module DocumentFields {
  import opened Common
  import opened Manifest
  import opened Compose
  import opened ComposeTheorems
  import S = Splitting
  import V = VolumePaths

  // ---------------------------------------------------------------------------
  // What a service runs, how often and where
  // ---------------------------------------------------------------------------

  ghost predicate RunsAs(cs: ComposeService, app: App, s: Service) {
    && cs.image == s.image && cs.command == s.command && cs.entrypoint == s.entrypoint && cs.secrets == s.secrets
    && cs.networks == [app.name + "-net"] + if s.expose.Some? then ["traefik-net", "monitoring-net"] else []
  }

  ghost predicate DeployedAs(d: Deploy, s: Service) {
    && (s.runOnce ==> d.replicas == None && d.restart == "none" && d.update == None)
    && (!s.runOnce ==>
          && d.replicas == (if s.replicas == None || s.replicas == Some(0) then Some(1) else s.replicas)
          && d.restart == "on-failure"
          && d.update.Some? && UpdatedAs(d.update.value, s.update))
    && (s.placement == "manager" ==> d.constraints == ["node.role == manager"])
    && (s.placement == "worker" ==> d.constraints == ["node.role == worker"])
    && (s.placement != "manager" && s.placement != "worker" ==> d.constraints == [])
  }

  ghost predicate UpdatedAs(u: UpdatePolicy, asked: Option<UpdatePolicy>) {
    && u.parallelism == (if asked.None? || asked.value.parallelism == 0 then 1 else asked.value.parallelism)
    && u.delay == (if asked.None? || asked.value.delay == "" then "10s" else asked.value.delay)
    && u.order == (if asked.None? || asked.value.order == "" then "start-first" else asked.value.order)
  }

  ghost predicate ProbedAs(probe: Option<ComposeHealthcheck>, s: Service) {
    && (s.healthcheck.None? ==> probe.None?)
    && (s.healthcheck.Some? ==>
          var h := s.healthcheck.value;
          && probe.Some?
          && (h.kind == "pg_isready" ==>
                probe.value == ComposeHealthcheck(["CMD-SHELL", "pg_isready -U $$POSTGRES_USER -d $$POSTGRES_DB"], "10s", "5s", 5))
          && (h.kind == "http" ==>
                && |probe.value.test| == 2 && probe.value.test[0] == "CMD-SHELL"
                && probe.value.test[1] == "wget -q --spider http://127.0.0.1:" +
                     (if s.expose.Some? then Itoa(s.expose.value.port) else "0") + (if h.path == "" then "/" else h.path)
                && probe.value.interval == "10s" && probe.value.timeout == "5s" && probe.value.retries == 5)
          && (h.kind != "pg_isready" && h.kind != "http" ==>
                && probe.value.test == h.test && probe.value.interval == h.interval
                && probe.value.timeout == h.timeout && probe.value.retries == h.retries))
  }

  /** A service runs the image, command and entrypoint of the manifest, as often and where it says, with the probe its
      shorthand stands for. */
  lemma ServiceFields(app: App, res: Resolver, root: string, doc: Document, n: string)
    requires DocumentOf(doc, app, res, root) && n in app.services
    ensures n in doc.services
    ensures var cs, s := doc.services[n], app.services[n];
      RunsAs(cs, app, s) && DeployedAs(cs.deploy, s) && ProbedAs(cs.healthcheck, s)
  {
    var s, env := app.services[n], ResolvedEnv(app.services[n].env, res);
    assert doc.services[n] == WriteService(TranslateService(n, s, env), app.name, app.env, app.version, root);
    hide DocumentOf, WriteService, WriteDeploy, TranslateService, RunsAs, DeployedAs, ProbedAs;
    BlockFields(app, n, s, env, root);
    DeployFields(app.name, app.env, app.version, n, s, env);
    ProbeFields(n, s, env);
  }

  lemma BlockFields(app: App, n: string, s: Service, env: map<string, string>, root: string)
    ensures var ir := TranslateService(n, s, env);
      var cs := WriteService(ir, app.name, app.env, app.version, root);
      && RunsAs(cs, app, s)
      && cs.deploy == WriteDeploy(app.name, app.env, app.version, ir)
      && cs.healthcheck == if ir.healthcheck.Some? then Some(WriteHealthcheck(ir.healthcheck.value, ir.expose)) else None
  {
    hide WriteDeploy, Relocated, WriteHealthcheck;
  }

  lemma DeployFields(app: string, env: string, version: string, n: string, s: Service, vars: map<string, string>)
    ensures DeployedAs(WriteDeploy(app, env, version, TranslateService(n, s, vars)), s)
  {
    hide TraefikLabels, TranslateHealthcheck;
  }

  lemma ProbeFields(n: string, s: Service, env: map<string, string>)
    ensures var ir := TranslateService(n, s, env);
      ProbedAs(if ir.healthcheck.Some? then Some(WriteHealthcheck(ir.healthcheck.value, ir.expose)) else None, s)
  {
    assert Itoa(0) == "0";
    hide Itoa;
  }

  // ---------------------------------------------------------------------------
  // Labels
  // ---------------------------------------------------------------------------

  ghost predicate Labelled(labels: map<string, string>, k: string, v: string) {
    k in labels && labels[k] == v
  }

  ghost predicate RouterLabels(labels: map<string, string>, scope: string, host: string, service: string, e: Expose) {
    && Labelled(labels, "traefik.http.routers." + scope + ".rule", "Host(`" + host + "`)")
    && Labelled(labels, "traefik.http.routers." + scope + ".entrypoints", "websecure")
    && Labelled(labels, "traefik.http.routers." + scope + ".tls", "true")
    && (!e.corsDisabled ==>
          Labelled(labels, "traefik.http.routers." + scope + ".middlewares",
                   if e.aliases == [] then "cors-default@file" else service + "-cors@swarm"))
  }

  ghost predicate CorsLabelled(labels: map<string, string>, scope: string, e: Expose) {
    var p := "traefik.http.middlewares." + scope + "-cors.headers.";
    && p + "accesscontrolalloworiginlistregex" in labels
    && Unescaped(labels[p + "accesscontrolalloworiginlistregex"]) == Some(OriginRegex(e))
    && Labelled(labels, p + "accesscontrolallowcredentials", "true")
    && Labelled(labels, p + "accesscontrolallowmethods", "GET,POST,PUT,PATCH,DELETE,OPTIONS")
    && Labelled(labels, p + "accesscontrolallowheaders", "Content-Type,Authorization,X-Pmcluster-Signature,X-Request-Id")
    && Labelled(labels, p + "accesscontrolmaxage", "600")
    && Labelled(labels, p + "addvaryheader", "true")
  }

  ghost predicate ExposeLabels(labels: map<string, string>, scope: string, e: Expose) {
    && Labelled(labels, "traefik.enable", "true")
    && Labelled(labels, "traefik.docker.network", "traefik-net")
    && Labelled(labels, "traefik.http.services." + scope + ".loadbalancer.server.port", Itoa(e.port))
    && RouterLabels(labels, scope, e.host, scope, e)
    && (forall i :: 0 <= i < |e.aliases| ==> RouterLabels(labels, scope + "-alias" + Decimal(i), e.aliases[i], scope, e))
    && (e.aliases != [] && !e.corsDisabled ==> CorsLabelled(labels, scope, e))
  }

  ghost predicate StandardLabels(labels: map<string, string>, app: App, n: string) {
    && Labelled(labels, "service", n) && Labelled(labels, "application", app.name)
    && Labelled(labels, "environment", app.env) && Labelled(labels, "version", app.version)
  }

  ghost predicate RouterField(k: string, scope: string, cors: bool) {
    || k == "traefik.http.routers." + scope + ".rule" || k == "traefik.http.routers." + scope + ".entrypoints"
    || k == "traefik.http.routers." + scope + ".tls" || (k == "traefik.http.routers." + scope + ".middlewares" && cors)
  }

  /** The labels an exposed service may carry. */
  ghost predicate ExposeKey(k: string, scope: string, e: Expose) {
    || k == "traefik.enable" || k == "traefik.docker.network" || k == "traefik.http.services." + scope + ".loadbalancer.server.port"
    || RouterField(k, scope, !e.corsDisabled)
    || (exists i: nat :: i < |e.aliases| && RouterField(k, scope + "-alias" + Decimal(i), !e.corsDisabled))
    || (e.aliases != [] && !e.corsDisabled && CorsField(k, scope))
  }

  ghost predicate CorsField(k: string, scope: string) {
    var p := "traefik.http.middlewares." + scope + "-cors.headers.";
    || k == p + "accesscontrolalloworiginlistregex" || k == p + "accesscontrolallowcredentials" || k == p + "accesscontrolallowmethods"
    || k == p + "accesscontrolallowheaders" || k == p + "accesscontrolmaxage" || k == p + "addvaryheader"
  }

  ghost predicate AppLabels(labels: map<string, string>, app: App, n: string, s: Service) {
    && StandardLabels(labels, app, n)
    && (s.skipFilelog ==> Labelled(labels, "io.pmcluster.skip_filelog", "true"))
    && (s.expose.Some? ==> ExposeLabels(labels, app.name + "-" + n, s.expose.value))
    && forall k :: k in labels ==>
         || k == "service" || k == "application" || k == "environment" || k == "version"
         || (s.skipFilelog && k == "io.pmcluster.skip_filelog")
         || (s.expose.Some? && ExposeKey(k, app.name + "-" + n, s.expose.value))
  }

  lemma RoutesAreLabels(labels: map<string, string>, scope: string, host: string, service: string, e: Expose)
    requires Routes(labels, scope, host, RouterMiddleware(service, e))
    ensures RouterLabels(labels, scope, host, service, e)
  {
    assert RouterKey(scope, ".rule") == "traefik.http.routers." + scope + ".rule";
    assert RouterKey(scope, ".entrypoints") == "traefik.http.routers." + scope + ".entrypoints";
    assert RouterKey(scope, ".tls") == "traefik.http.routers." + scope + ".tls";
    assert RouterKey(scope, ".middlewares") == "traefik.http.routers." + scope + ".middlewares";
  }

  lemma RouteLabels(app: App, res: Resolver, root: string, doc: Document, n: string)
    requires DocumentOf(doc, app, res, root) && n in app.services && app.services[n].expose.Some?
    ensures var labels, e, scope := doc.services[n].deploy.labels, app.services[n].expose.value, app.name + "-" + n;
      && RouterLabels(labels, scope, e.host, scope, e)
      && forall i :: 0 <= i < |e.aliases| ==> RouterLabels(labels, scope + "-alias" + Decimal(i), e.aliases[i], scope, e)
  {
    EveryHostIsRouted(app, res, root, doc, n);
    var labels, e, scope := doc.services[n].deploy.labels, app.services[n].expose.value, app.name + "-" + n;
    hide DocumentOf, Routes, RouterLabels, RouterMiddleware, OwnMiddlewareDefined;
    RoutesAreLabels(labels, scope, e.host, scope, e);
    forall i | 0 <= i < |e.aliases|
      ensures RouterLabels(labels, scope + "-alias" + Decimal(i), e.aliases[i], scope, e)
    {
      RoutesAreLabels(labels, AliasScope(scope, i), e.aliases[i], scope, e);
    }
  }

  // Frames

  function CorsPrefix(scope: string): string {
    "traefik.http.middlewares." + scope + "-cors.headers."
  }

  lemma SixLabels(labels: map<string, string>, ks: seq<string>, vs: seq<string>)
    requires |ks| == 6 && |vs| == 6 && forall i, j :: 0 <= i < j < 6 ==> ks[i] != ks[j]
    ensures var all := labels[ks[0] := vs[0]][ks[1] := vs[1]][ks[2] := vs[2]][ks[3] := vs[3]][ks[4] := vs[4]][ks[5] := vs[5]];
      && (forall i :: 0 <= i < 6 ==> Labelled(all, ks[i], vs[i]))
      && all.Keys == labels.Keys + (set i | 0 <= i < 6 :: ks[i])
      && (forall k :: k in labels && k !in ks ==> all[k] == labels[k])
  {
  }

  lemma CorsNames(p: string)
    ensures var ks := [p + "accesscontrolalloworiginlistregex", p + "accesscontrolallowcredentials", p + "accesscontrolallowmethods",
                       p + "accesscontrolallowheaders", p + "accesscontrolmaxage", p + "addvaryheader"];
      forall i, j :: 0 <= i < j < 6 ==> ks[i] != ks[j]
  {
    var names := ["accesscontrolalloworiginlistregex", "accesscontrolallowcredentials", "accesscontrolallowmethods",
                  "accesscontrolallowheaders", "accesscontrolmaxage", "addvaryheader"];
    assert names[0][18] == 'o' && names[1][18] == 'c' && names[2][18] == 'm' && names[3][18] == 'h';
    assert names[4][13] == 'm' && names[0][13] == 'a' && names[1][13] == 'a' && names[2][13] == 'a' && names[3][13] == 'a';
    assert names[5][1] == 'd' && names[4][1] == 'c' && names[0][1] == 'c' && names[1][1] == 'c' && names[2][1] == 'c' && names[3][1] == 'c';
    forall i, j | 0 <= i < j < 6
      ensures p + names[i] != p + names[j]
    {
      assert (p + names[i])[|p|..] == names[i] && (p + names[j])[|p|..] == names[j];
    }
  }

  lemma CorsList(labels: map<string, string>, scope: string, e: Expose) returns (ks: seq<string>, vs: seq<string>)
    ensures |ks| == 6 && |vs| == 6 && forall i, j :: 0 <= i < j < 6 ==> ks[i] != ks[j]
    ensures var p := CorsPrefix(scope);
      ks == [p + "accesscontrolalloworiginlistregex", p + "accesscontrolallowcredentials", p + "accesscontrolallowmethods",
             p + "accesscontrolallowheaders", p + "accesscontrolmaxage", p + "addvaryheader"]
    ensures vs == [EscapeCompose(OriginRegex(e)), "true", "GET,POST,PUT,PATCH,DELETE,OPTIONS",
                   "Content-Type,Authorization,X-Pmcluster-Signature,X-Request-Id", "600", "true"]
    ensures CorsLabels(labels, scope, e) ==
      labels[ks[0] := vs[0]][ks[1] := vs[1]][ks[2] := vs[2]][ks[3] := vs[3]][ks[4] := vs[4]][ks[5] := vs[5]]
  {
    hide EscapeCompose, OriginRegex;
    var p := CorsPrefix(scope);
    ks := [p + "accesscontrolalloworiginlistregex", p + "accesscontrolallowcredentials", p + "accesscontrolallowmethods",
           p + "accesscontrolallowheaders", p + "accesscontrolmaxage", p + "addvaryheader"];
    vs := [EscapeCompose(OriginRegex(e)), "true", "GET,POST,PUT,PATCH,DELETE,OPTIONS",
           "Content-Type,Authorization,X-Pmcluster-Signature,X-Request-Id", "600", "true"];
    CorsNames(p);
  }

  lemma CorsAre(labels: map<string, string>, scope: string, e: Expose)
    ensures CorsLabelled(CorsLabels(labels, scope, e), scope, e)
  {
    EscapeSurvives(OriginRegex(e));
    hide EscapeCompose, OriginRegex, Unescaped, CorsLabels;
    var ks, vs := CorsList(labels, scope, e);
    SixLabels(labels, ks, vs);
    var all := CorsLabels(labels, scope, e);
    assert Labelled(all, ks[0], vs[0]) && Labelled(all, ks[1], vs[1]) && Labelled(all, ks[2], vs[2]);
    assert Labelled(all, ks[3], vs[3]) && Labelled(all, ks[4], vs[4]) && Labelled(all, ks[5], vs[5]);
  }

  lemma CorsStay(labels: map<string, string>, scope: string, e: Expose, k: string)
    requires k in labels && !(CorsPrefix(scope) <= k)
    ensures Labelled(CorsLabels(labels, scope, e), k, labels[k])
  {
    hide EscapeCompose, OriginRegex, CorsLabels;
    var ks, vs := CorsList(labels, scope, e);
    hide CorsField, CorsPrefix;
    SixLabels(labels, ks, vs);
    FieldsAre(scope, ks, k);
    if CorsField(k, scope) {
      FieldHasPrefix(k, scope);
    }
  }

  lemma FieldHasPrefix(k: string, scope: string)
    requires CorsField(k, scope)
    ensures CorsPrefix(scope) <= k
  {
  }

  lemma CorsOnly(labels: map<string, string>, scope: string, e: Expose, k: string)
    requires k in CorsLabels(labels, scope, e)
    ensures k in labels || CorsField(k, scope)
  {
    hide EscapeCompose, OriginRegex, CorsLabels;
    var ks, vs := CorsList(labels, scope, e);
    hide CorsField;
    SixLabels(labels, ks, vs);
    FieldsAre(scope, ks, k);
  }

  lemma FieldsAre(scope: string, ks: seq<string>, k: string)
    requires var p := CorsPrefix(scope);
      ks == [p + "accesscontrolalloworiginlistregex", p + "accesscontrolallowcredentials", p + "accesscontrolallowmethods",
             p + "accesscontrolallowheaders", p + "accesscontrolmaxage", p + "addvaryheader"]
    ensures k in ks ==> CorsField(k, scope)
  {
  }

  lemma RouterKeys(labels: map<string, string>, scope: string, host: string, middleware: Option<string>)
    ensures forall k :: k in AddRouter(labels, scope, host, middleware) ==> k in labels || RouterField(k, scope, middleware.Some?)
  {
  }

  lemma {:induction false} AliasKeys(labels: map<string, string>, scope: string, aliases: seq<string>, middleware: Option<string>, k: string)
    requires k in AddAliases(labels, scope, aliases, middleware)
    ensures k in labels || exists i: nat :: i < |aliases| && RouterField(k, scope + "-alias" + Decimal(i), middleware.Some?)
  {
    if aliases != [] {
      var n := |aliases| - 1;
      var front := AddAliases(labels, scope, aliases[..n], middleware);
      assert AliasScope(scope, n) == scope + "-alias" + Decimal(n);
      RouterKeys(front, AliasScope(scope, n), aliases[n], middleware);
      hide AddRouter, RouterField;
      if k in front {
        AliasKeys(labels, scope, aliases[..n], middleware, k);
      }
    }
  }

  /** A label that no router carries stays, once it is there. */
  lemma RoutersKeep(labels: map<string, string>, scope: string, e: Expose, middleware: Option<string>, k: string)
    requires k in labels && !("traefik.http.routers." <= k)
    ensures Labelled(AddAliases(AddRouter(labels, scope, e.host, middleware), scope, e.aliases, middleware), k, labels[k])
  {
    RouterFrame(labels, scope, e.host, middleware, k);
    AliasesFrame(AddRouter(labels, scope, e.host, middleware), scope, e.aliases, middleware, k);
  }

  /** The labels in front of the routers. */
  ghost function BeforeRouters(labels: map<string, string>, scope: string, e: Expose): map<string, string> {
    var base := labels["traefik.enable" := "true"]
                      [PortKey(scope) := Itoa(e.port)]
                      ["traefik.docker.network" := "traefik-net"];
    WithCors(base, scope, e)
  }

  ghost function WithCors(base: map<string, string>, scope: string, e: Expose): map<string, string> {
    if e.aliases != [] && !e.corsDisabled then CorsLabels(base, scope, e) else base
  }

  lemma TraefikIs(labels: map<string, string>, app: string, n: string, e: Expose)
    ensures var scope := app + "-" + n;
      var middleware := RouterMiddleware(scope, e);
      TraefikLabels(labels, app, n, e) ==
        AddAliases(AddRouter(BeforeRouters(labels, scope, e), scope, e.host, middleware), scope, e.aliases, middleware)
  {
    hide AddAliases, AddRouter, CorsLabels;
  }

  lemma ThreeLabels(labels: map<string, string>, a: string, x: string, b: string, y: string, c: string, z: string)
    requires a != b && b != c && a != c
    ensures var all := labels[a := x][b := y][c := z];
      && Labelled(all, a, x) && Labelled(all, b, y) && Labelled(all, c, z)
      && (forall k :: k in labels && k != a && k != b && k != c ==> Labelled(all, k, labels[k]))
      && (forall k :: k in all ==> k in labels || k == a || k == b || k == c)
  {
  }

  lemma PrefixOf(p: string, q: string, k: string)
    requires p <= q && q <= k
    ensures p <= k
  {
    assert p == q[..|p|] && q[..|p|] == k[..|q|][..|p|];
  }

  function PortKey(scope: string): string {
    "traefik.http.services." + scope + ".loadbalancer.server.port"
  }

  lemma BackendKeys(scope: string)
    ensures var port, cors := PortKey(scope), CorsPrefix(scope);
      && "traefik." <= port && "traefik." <= "traefik.enable" && "traefik." <= "traefik.docker.network"
      && port != "traefik.enable" && port != "traefik.docker.network" && "traefik.enable" != "traefik.docker.network"
      && !(cors <= port) && !(cors <= "traefik.enable") && !(cors <= "traefik.docker.network")
      && !("traefik.http.routers." <= port)
  {
    var port, cors := PortKey(scope), CorsPrefix(scope);
    assert port[8] == 'h' && cors[8] == 'h' && "traefik.enable"[8] == 'e' && "traefik.docker.network"[8] == 'd';
    assert port[13] == 's' && cors[13] == 'm' && "traefik.http.routers."[13] == 'r';
  }

  lemma CorsKeys(scope: string, k: string)
    requires CorsPrefix(scope) <= k
    ensures "traefik." <= k && !("traefik.http.routers." <= k)
  {
    assert "traefik." <= CorsPrefix(scope);
    PrefixOf("traefik.", CorsPrefix(scope), k);
    assert CorsPrefix(scope)[13] == 'm' && "traefik.http.routers."[13] == 'r' && k[13] == CorsPrefix(scope)[13];
  }

  /** A label in front of the CORS labels stays if it is none of theirs. */
  lemma CorsKeep(base: map<string, string>, scope: string, e: Expose, k: string, v: string)
    requires Labelled(base, k, v) && !(CorsPrefix(scope) <= k)
    ensures Labelled(WithCors(base, scope, e), k, v)
  {
    hide CorsLabels;
    CorsStay(base, scope, e, k);
  }

  lemma BackendLabels(labels: map<string, string>, scope: string, e: Expose)
    ensures var l := BeforeRouters(labels, scope, e);
      && Labelled(l, "traefik.enable", "true") && Labelled(l, "traefik.docker.network", "traefik-net")
      && Labelled(l, PortKey(scope), Itoa(e.port))
  {
    hide PortKey, CorsPrefix, WithCors, Itoa;
    var base := labels["traefik.enable" := "true"][PortKey(scope) := Itoa(e.port)]["traefik.docker.network" := "traefik-net"];
    BackendKeys(scope);
    ThreeLabels(labels, "traefik.enable", "true", PortKey(scope), Itoa(e.port), "traefik.docker.network", "traefik-net");
    CorsKeep(base, scope, e, "traefik.enable", "true");
    CorsKeep(base, scope, e, PortKey(scope), Itoa(e.port));
    CorsKeep(base, scope, e, "traefik.docker.network", "traefik-net");
  }

  lemma PlainLabelStays(labels: map<string, string>, scope: string, e: Expose, k: string, v: string)
    requires Labelled(labels, k, v) && !("traefik." <= k)
    ensures Labelled(BeforeRouters(labels, scope, e), k, v)
  {
    var base := labels["traefik.enable" := "true"][PortKey(scope) := Itoa(e.port)]["traefik.docker.network" := "traefik-net"];
    BackendKeys(scope);
    if CorsPrefix(scope) <= k {
      CorsKeys(scope, k);
    }
    hide PortKey, CorsPrefix, WithCors, Itoa;
    ThreeLabels(labels, "traefik.enable", "true", PortKey(scope), Itoa(e.port), "traefik.docker.network", "traefik-net");
    CorsKeep(base, scope, e, k, v);
  }

  lemma KeysBefore(labels: map<string, string>, scope: string, e: Expose, k: string)
    requires k in BeforeRouters(labels, scope, e)
    ensures k in labels || ExposeKey(k, scope, e)
  {
    hide CorsLabels, RouterField, Itoa;
    var base := labels["traefik.enable" := "true"][PortKey(scope) := Itoa(e.port)]["traefik.docker.network" := "traefik-net"];
    if e.aliases != [] && !e.corsDisabled && k !in base {
      CorsOnly(base, scope, e, k);
    }
  }

  lemma RoutersKeepAll(labels: map<string, string>, app: string, n: string, e: Expose, k: string, v: string)
    requires Labelled(BeforeRouters(labels, app + "-" + n, e), k, v) && !("traefik.http.routers." <= k)
    ensures Labelled(TraefikLabels(labels, app, n, e), k, v)
  {
    TraefikIs(labels, app, n, e);
    RoutersKeep(BeforeRouters(labels, app + "-" + n, e), app + "-" + n, e, RouterMiddleware(app + "-" + n, e), k);
  }

  lemma CorsStays(labels: map<string, string>, app: string, n: string, e: Expose)
    requires e.aliases != [] && !e.corsDisabled
    ensures CorsLabelled(TraefikLabels(labels, app, n, e), app + "-" + n, e)
  {
    var scope := app + "-" + n;
    var p := CorsPrefix(scope);
    var base := labels["traefik.enable" := "true"][PortKey(scope) := Itoa(e.port)]["traefik.docker.network" := "traefik-net"];
    var l := BeforeRouters(labels, scope, e);
    assert l == CorsLabels(base, scope, e);
    hide BeforeRouters, CorsLabels, TraefikLabels, CorsLabelled, CorsPrefix, Itoa;
    CorsAre(base, scope, e);
    forall k | k in l && p <= k
      ensures Labelled(TraefikLabels(labels, app, n, e), k, l[k])
    {
      CorsKeys(scope, k);
      RoutersKeepAll(labels, app, n, e, k, l[k]);
    }
    CorsCarried(l, TraefikLabels(labels, app, n, e), scope, e);
  }

  lemma CorsCarried(l: map<string, string>, l': map<string, string>, scope: string, e: Expose)
    requires CorsLabelled(l, scope, e) && forall k :: k in l && CorsPrefix(scope) <= k ==> Labelled(l', k, l[k])
    ensures CorsLabelled(l', scope, e)
  {
    hide Unescaped, OriginRegex;
  }

  lemma BackendStays(labels: map<string, string>, app: string, n: string, e: Expose)
    ensures var l := TraefikLabels(labels, app, n, e);
      && Labelled(l, "traefik.enable", "true") && Labelled(l, "traefik.docker.network", "traefik-net")
      && Labelled(l, PortKey(app + "-" + n), Itoa(e.port))
  {
    BackendKeys(app + "-" + n);
    BackendLabels(labels, app + "-" + n, e);
    assert "traefik.enable"[8] == 'e' && "traefik.docker.network"[8] == 'd' && "traefik.http.routers."[8] == 'h';
    hide BeforeRouters, TraefikLabels, PortKey, Itoa;
    RoutersKeepAll(labels, app, n, e, "traefik.enable", "true");
    RoutersKeepAll(labels, app, n, e, "traefik.docker.network", "traefik-net");
    RoutersKeepAll(labels, app, n, e, PortKey(app + "-" + n), Itoa(e.port));
  }

  lemma PlainStays(labels: map<string, string>, app: string, n: string, e: Expose, k: string, v: string)
    requires Labelled(labels, k, v) && !("traefik." <= k)
    ensures Labelled(TraefikLabels(labels, app, n, e), k, v)
  {
    PlainLabelStays(labels, app + "-" + n, e, k, v);
    if "traefik.http.routers." <= k {
      PrefixOf("traefik.", "traefik.http.routers.", k);
    }
    hide BeforeRouters, TraefikLabels;
    RoutersKeepAll(labels, app, n, e, k, v);
  }

  lemma TraefikKeys(labels: map<string, string>, app: string, n: string, e: Expose, k: string)
    requires k in TraefikLabels(labels, app, n, e)
    ensures k in labels || ExposeKey(k, app + "-" + n, e)
  {
    var scope := app + "-" + n;
    var l, middleware := BeforeRouters(labels, scope, e), RouterMiddleware(scope, e);
    TraefikIs(labels, app, n, e);
    hide TraefikLabels, BeforeRouters, AddRouter, AddAliases, RouterField;
    var routed := AddRouter(l, scope, e.host, middleware);
    AliasKeys(routed, scope, e.aliases, middleware, k);
    RouterKeys(l, scope, e.host, middleware);
    if k in l {
      KeysBefore(labels, scope, e, k);
    }
  }

  lemma ExposedLabels(app: App, n: string, e: Expose, standard: map<string, string>)
    requires standard == map["service" := n, "application" := app.name, "environment" := app.env, "version" := app.version]
    ensures var l, scope := TraefikLabels(standard, app.name, n, e), app.name + "-" + n;
      && StandardLabels(l, app, n)
      && Labelled(l, "traefik.enable", "true") && Labelled(l, "traefik.docker.network", "traefik-net")
      && Labelled(l, PortKey(scope), Itoa(e.port))
      && (e.aliases != [] && !e.corsDisabled ==> CorsLabelled(l, scope, e))
      && (forall k :: k in l ==> k in standard || ExposeKey(k, scope, e))
  {
    hide TraefikLabels, PortKey, CorsLabelled, ExposeKey, Itoa;
    assert "service"[0] == 's' && "application"[0] == 'a' && "environment"[0] == 'e' && "version"[0] == 'v';
    assert StandardLabels(standard, app, n);
    forall k | k in standard
      ensures Labelled(TraefikLabels(standard, app.name, n, e), k, standard[k])
    {
      assert k[0] != 't';
      PlainStays(standard, app.name, n, e, k, standard[k]);
    }
    BackendStays(standard, app.name, n, e);
    if e.aliases != [] && !e.corsDisabled {
      CorsStays(standard, app.name, n, e);
    }
    forall k | k in TraefikLabels(standard, app.name, n, e)
      ensures k in standard || ExposeKey(k, app.name + "-" + n, e)
    {
      TraefikKeys(standard, app.name, n, e, k);
    }
  }

  lemma PlainServiceLabels(app: App, res: Resolver, root: string, doc: Document, n: string)
    requires DocumentOf(doc, app, res, root) && n in app.services && app.services[n].expose.None?
    ensures var standard := map["service" := n, "application" := app.name, "environment" := app.env, "version" := app.version];
      doc.services[n].deploy.labels == if app.services[n].skipFilelog then standard["io.pmcluster.skip_filelog" := "true"] else standard
  {
    hide TraefikLabels;
  }

  lemma SkipLabel(labels: map<string, string>, all: map<string, string>, skip: bool)
    requires all == if skip then labels["io.pmcluster.skip_filelog" := "true"] else labels
    ensures skip ==> Labelled(all, "io.pmcluster.skip_filelog", "true")
    ensures forall k :: k in all ==> k in labels || (skip && k == "io.pmcluster.skip_filelog")
    ensures forall k :: k in labels && (k == "" || k[0] != 'i') ==> Labelled(all, k, labels[k])
  {
    assert "io.pmcluster.skip_filelog"[0] == 'i';
  }

  /** The labels of a service: the four standard ones, one that keeps its log file unread, and for an exposed service those
      of its backend, its routers and the CORS middleware of its aliases. There are no others. */
  lemma LabelsAre(app: App, res: Resolver, root: string, doc: Document, n: string)
    requires DocumentOf(doc, app, res, root) && n in app.services
    ensures n in doc.services && AppLabels(doc.services[n].deploy.labels, app, n, app.services[n])
  {
    var s := app.services[n];
    var standard := map["service" := n, "application" := app.name, "environment" := app.env, "version" := app.version];
    assert n in doc.services;
    var all := doc.services[n].deploy.labels;
    if s.expose.None? {
      PlainServiceLabels(app, res, root, doc, n);
      hide DocumentOf;
      PlainAppLabels(app, n, s, all, standard);
    } else {
      ServiceLabels(app, res, root, doc, n);
      RouteLabels(app, res, root, doc, n);
      hide DocumentOf, TraefikLabels, RouterLabels, AppLabels, Itoa;
      ExposedAppLabels(app, n, s, all, standard);
    }
  }

  lemma PlainAppLabels(app: App, n: string, s: Service, all: map<string, string>, standard: map<string, string>)
    requires standard == map["service" := n, "application" := app.name, "environment" := app.env, "version" := app.version]
    requires s.expose.None? && all == if s.skipFilelog then standard["io.pmcluster.skip_filelog" := "true"] else standard
    ensures AppLabels(all, app, n, s)
  {
    assert "service"[0] == 's' && "application"[0] == 'a' && "environment"[0] == 'e' && "version"[0] == 'v';
    assert StandardLabels(standard, app, n);
    SkipLabel(standard, all, s.skipFilelog);
  }

  lemma StandardCarried(l: map<string, string>, all: map<string, string>, app: App, n: string)
    requires StandardLabels(l, app, n) && forall k :: k in l && (k == "" || k[0] != 'i') ==> Labelled(all, k, l[k])
    ensures StandardLabels(all, app, n)
  {
    assert "service"[0] == 's' && "application"[0] == 'a' && "environment"[0] == 'e' && "version"[0] == 'v';
  }

  lemma ExposedAppLabels(app: App, n: string, s: Service, all: map<string, string>, standard: map<string, string>)
    requires standard == map["service" := n, "application" := app.name, "environment" := app.env, "version" := app.version]
    requires s.expose.Some?
    requires var routed := TraefikLabels(standard, app.name, n, s.expose.value);
      all == if s.skipFilelog then routed["io.pmcluster.skip_filelog" := "true"] else routed
    requires var e, scope := s.expose.value, app.name + "-" + n;
      && RouterLabels(all, scope, e.host, scope, e)
      && forall i :: 0 <= i < |e.aliases| ==> RouterLabels(all, scope + "-alias" + Decimal(i), e.aliases[i], scope, e)
    ensures AppLabels(all, app, n, s)
  {
    hide *;
    var e, scope := s.expose.value, app.name + "-" + n;
    var routed := TraefikLabels(standard, app.name, n, e);
    ExposedLabels(app, n, e, standard);
    SkipLabel(routed, all, s.skipFilelog);
    StandardCarried(routed, all, app, n);
    BackendCarried(routed, all, scope, e);
    if e.aliases != [] && !e.corsDisabled {
      CorsSkipped(routed, all, scope, e);
    }
    ExposedTogether(app, n, s, all, routed, standard);
  }

  lemma BackendCarried(l: map<string, string>, all: map<string, string>, scope: string, e: Expose)
    requires Labelled(l, "traefik.enable", "true") && Labelled(l, "traefik.docker.network", "traefik-net")
    requires Labelled(l, PortKey(scope), Itoa(e.port))
    requires forall k :: k in l && (k == "" || k[0] != 'i') ==> Labelled(all, k, l[k])
    ensures Labelled(all, "traefik.enable", "true") && Labelled(all, "traefik.docker.network", "traefik-net")
    ensures Labelled(all, PortKey(scope), Itoa(e.port))
  {
    hide Itoa;
    assert PortKey(scope)[0] == 't' && "traefik.enable"[0] == 't' && "traefik.docker.network"[0] == 't';
  }

  lemma ExposedTogether(app: App, n: string, s: Service, all: map<string, string>, routed: map<string, string>, standard: map<string, string>)
    requires s.expose.Some?
    requires standard.Keys == {"service", "application", "environment", "version"}
    requires var e, scope := s.expose.value, app.name + "-" + n;
      && StandardLabels(all, app, n)
      && Labelled(all, "traefik.enable", "true") && Labelled(all, "traefik.docker.network", "traefik-net")
      && Labelled(all, PortKey(scope), Itoa(e.port))
      && RouterLabels(all, scope, e.host, scope, e)
      && (forall i :: 0 <= i < |e.aliases| ==> RouterLabels(all, scope + "-alias" + Decimal(i), e.aliases[i], scope, e))
      && (e.aliases != [] && !e.corsDisabled ==> CorsLabelled(all, scope, e))
      && (forall k :: k in routed ==> k in standard || ExposeKey(k, scope, e))
    requires s.skipFilelog ==> Labelled(all, "io.pmcluster.skip_filelog", "true")
    requires forall k :: k in all ==> k in routed || (s.skipFilelog && k == "io.pmcluster.skip_filelog")
    ensures AppLabels(all, app, n, s)
  {
    hide StandardLabels, Labelled, Itoa, RouterLabels, CorsLabelled, ExposeKey;
  }

  lemma CorsSkipped(l: map<string, string>, all: map<string, string>, scope: string, e: Expose)
    requires CorsLabelled(l, scope, e) && forall k :: k in l && (k == "" || k[0] != 'i') ==> Labelled(all, k, l[k])
    ensures CorsLabelled(all, scope, e)
  {
    hide CorsLabelled;
    assert CorsPrefix(scope)[0] == 't';
    CorsCarried(l, all, scope, e);
  }

  // ---------------------------------------------------------------------------
  // Environment
  // ---------------------------------------------------------------------------

  lemma EnvironmentIs(app: App, res: Resolver, root: string, doc: Document, n: string)
    requires DocumentOf(doc, app, res, root) && n in app.services
    ensures n in doc.services && doc.services[n].environment.Keys == app.services[n].env.Keys
    ensures forall k :: k in app.services[n].env ==> ResolveValue(app.services[n].env[k], res) == Some(doc.services[n].environment[k])
  {
    assert doc.services[n].environment == ResolvedEnv(app.services[n].env, res);
    assert Resolves(app.services[n].env, res);
    hide DocumentOf, ResolveValue;
  }

  /** A service gets the variables of the manifest: a plain value as it is, a reference to a config as the content stored
      under its name, which has no line break, and one to a secret as the path of its file. */
  lemma EnvironmentFields(app: App, res: Resolver, root: string, doc: Document, n: string, k: string, pad: string, name: string, pad': string)
    requires DocumentOf(doc, app, res, root) && n in app.services && k in app.services[n].env
    requires Blank(pad) && Blank(pad') && Trimmed(name) && ')' !in name
    ensures n in doc.services && doc.services[n].environment.Keys == app.services[n].env.Keys
    ensures var v, got := app.services[n].env[k], doc.services[n].environment[k];
      && (PlainText(v) ==> got == v)
      && (v == "config(" + pad + name + pad' + ")" ==>
            res.Some? && name in res.value && got == res.value[name] && '\n' !in got && '\r' !in got)
      && (v == "secrets(" + pad + name + pad' + ")" ==> got == "/run/secrets/" + name)
  {
    var v := app.services[n].env[k];
    EnvironmentIs(app, res, root, doc, n);
    hide DocumentOf, ParseEnvRef, PlainText;
    PaddedRef(ConfigRef, pad, name, pad');
    PaddedRef(SecretRef, pad, name, pad');
    if PlainText(v) {
      PlainIsNoRef(v);
    }
  }

  /** When there is a document at all: if every value that refers to a config finds a stored content without a line break,
      and no reference to a secret is blank. */
  ghost predicate ValueFound(v: string, res: Resolver) {
    && (forall inner :: inner != "" && ')' !in inner && v == "config(" + inner + ")" ==>
          res.Some? && TrimSpace(inner) in res.value && '\n' !in res.value[TrimSpace(inner)] && '\r' !in res.value[TrimSpace(inner)])
    && (forall inner :: inner != "" && ')' !in inner && v == "secrets(" + inner + ")" ==> TrimSpace(inner) != "")
  }

  lemma ValueFoundIff(v: string, res: Resolver)
    ensures ResolveValue(v, res).Some? <==> ValueFound(v, res)
  {
    hide TrimSpace, ParseEnvRef;
    assert KindText(ConfigRef) == "config(" && KindText(SecretRef) == "secrets(";
    forall inner | inner != "" && ')' !in inner && v == "config(" + inner + ")"
      ensures ParseEnvRef(v) == Some(EnvRef(ConfigRef, TrimSpace(inner)))
    {
      ShapedRef(v, ConfigRef, inner);
    }
    forall inner | inner != "" && ')' !in inner && v == "secrets(" + inner + ")"
      ensures ParseEnvRef(v) == Some(EnvRef(SecretRef, TrimSpace(inner)))
    {
      ShapedRef(v, SecretRef, inner);
    }
    ParseEnvRefIff(v, ConfigRef);
    ParseEnvRefIff(v, SecretRef);
    if ValueFound(v, res) && ParseEnvRef(v).Some? {
      if ParseEnvRef(v).value.kind == ConfigRef {
        var inner :| inner != "" && ')' !in inner && v == "config(" + inner + ")";
      } else {
        var inner :| inner != "" && ')' !in inner && v == "secrets(" + inner + ")";
      }
    }
  }

  lemma TranslatesIff(app: App, res: Resolver)
    ensures Translates(app, res) <==> forall n, k :: n in app.services && k in app.services[n].env ==> ValueFound(app.services[n].env[k], res)
  {
    hide ResolveValue, ValueFound;
    forall n, k | n in app.services && k in app.services[n].env
      ensures ResolveValue(app.services[n].env[k], res).Some? <==> ValueFound(app.services[n].env[k], res)
    {
      ValueFoundIff(app.services[n].env[k], res);
    }
  }

  // ---------------------------------------------------------------------------
  // Mounts
  // ---------------------------------------------------------------------------

  ghost predicate Slashes(s: string) {
    forall i :: 0 <= i < |s| ==> s[i] == '/'
  }

  lemma {:induction false} TrimTail(s: string, slashes: string)
    requires Slashes(slashes) && (s == "" || s[|s| - 1] != '/')
    ensures TrimSlashes(s + slashes) == s
  {
    if slashes == "" {
      assert s + slashes == s;
    } else {
      assert (s + slashes)[..|s + slashes| - 1] == s + slashes[..|slashes| - 1];
      TrimTail(s, slashes[..|slashes| - 1]);
    }
  }

  /** The last element of a path, trailing slashes aside. */
  lemma LastElement(dir: string, last: string, slashes: string)
    requires last != "" && '/' !in last && Slashes(slashes)
    ensures Base(dir + "/" + last + slashes) == last
  {
    var s := dir + "/" + last;
    assert s[|s| - 1] == last[|last| - 1];
    TrimTail(s, slashes);
    V.LastSlashAt(dir, last);
    assert s[|dir| + 1..] == last;
  }

  lemma FirstColon(a: string, b: string)
    requires ':' !in a
    ensures IndexOf(a + ":" + b, ':') == |a|
    ensures (a + ":" + b)[..|a|] == a && (a + ":" + b)[|a| + 1..] == b
  {
    var v := a + ":" + b;
    assert v == a + (":" + b) && v[..|a|] == a && v[|a|] == ':';
    V.CutBefore(a, ":" + b);
  }

  lemma {:induction false} RelocatedAt(root: string, app: string, volumes: seq<string>, i: nat)
    requires i < |volumes|
    ensures |Relocated(root, app, volumes)| == |volumes| && Relocated(root, app, volumes)[i] == Relocate(root, app, volumes[i])
  {
    hide Relocate;
    if i < |volumes| - 1 {
      RelocatedAt(root, app, volumes[..|volumes| - 1], i);
    } else if i > 0 {
      RelocatedAt(root, app, volumes[..|volumes| - 1], 0);
    }
  }

  lemma MountAt(app: App, res: Resolver, root: string, doc: Document, n: string, i: nat)
    requires DocumentOf(doc, app, res, root) && n in app.services && i < |app.services[n].volumes|
    ensures n in doc.services && |doc.services[n].volumes| == |app.services[n].volumes|
    ensures doc.services[n].volumes[i] == Relocate(root, app.name, app.services[n].volumes[i])
  {
    assert doc.services[n].volumes == Relocated(root, app.name, app.services[n].volumes);
    hide DocumentOf, Relocate, Relocated;
    RelocatedAt(root, app.name, app.services[n].volumes, i);
  }

  /** Each mount keeps its place and its target. The source of a bind, whose path ends in this last element, is moved under
      the root and the app; any other source stays. */
  lemma MountFields(app: App, res: Resolver, root: string, doc: Document, n: string, i: nat,
                    source: string, target: string, dir: string, last: string, slashes: string)
    requires DocumentOf(doc, app, res, root) && n in app.services && i < |app.services[n].volumes|
    requires ':' !in source && last != "" && '/' !in last && Slashes(slashes)
    ensures n in doc.services && |doc.services[n].volumes| == |app.services[n].volumes|
    ensures var v, got := app.services[n].volumes[i], doc.services[n].volumes[i];
      && (':' !in v ==> got == v)
      && (v == source + ":" + target && !("/" <= source) ==> got == v)
      && (v == source + ":" + target && "/" <= source && source == dir + "/" + last + slashes ==>
            got == root + "/" + app.name + "/" + last + ":" + target)
      && (v == source + ":" + target && source != "" && Slashes(source) ==> got == root + "/" + app.name + "/" + "/" + ":" + target)
  {
    var v := app.services[n].volumes[i];
    MountAt(app, res, root, doc, n, i);
    hide DocumentOf;
    if v == source + ":" + target {
      FirstColon(source, target);
      if "/" <= source && source == dir + "/" + last + slashes {
        LastElement(dir, last, slashes);
      }
      if source != "" && Slashes(source) {
        TrimTail("", source);
        assert "" + source == source;
      }
    }
  }

  // ---------------------------------------------------------------------------
  // Declarations
  // ---------------------------------------------------------------------------

  /** A mount names the volume: its source, up to the first colon if it has one. */
  ghost predicate NamesVolume(v: string, volume: string) {
    v == volume || volume + ":" <= v
  }

  lemma NamesVolumeIff(v: string, volume: string)
    ensures VolumeSource(v) == volume <==> ':' !in volume && NamesVolume(v, volume)
  {
    if volume + ":" <= v && ':' !in volume {
      FirstColon(volume, v[|volume| + 1..]);
      assert v == volume + ":" + v[|volume| + 1..];
    }
    if VolumeSource(v) == volume && ':' in v {
      assert v[..|volume| + 1] == volume + ":";
    }
    assert v[..|v|] == v;
  }

  /** The document declares its own network, the two shared ones if a service is exposed, every named volume with its
      directory under the root and the app, and every secret of the app and its services; and nothing else. */
  lemma Declarations(app: App, res: Resolver, root: string, doc: Document)
    requires DocumentOf(doc, app, res, root)
    ensures var exposed := exists n :: n in app.services && app.services[n].expose.Some?;
      NetworksDeclared(doc.networks, app.name, exposed)
    ensures forall v :: v in doc.volumes <==>
      v != "" && !("/" <= v) && ':' !in v &&
      exists n, i :: n in app.services && 0 <= i < |app.services[n].volumes| && NamesVolume(app.services[n].volumes[i], v)
    ensures forall v :: v in doc.volumes ==> doc.volumes[v] == root + "/" + app.name + "/" + v
    ensures forall s :: s in doc.secrets <==> s in app.secrets || exists n :: n in app.services && s in app.services[n].secrets
  {
    DeclaredNetworks(app, res, root, doc);
    forall v
      ensures v in doc.volumes <==>
        v != "" && !("/" <= v) && ':' !in v &&
        exists n, i :: n in app.services && 0 <= i < |app.services[n].volumes| && NamesVolume(app.services[n].volumes[i], v)
    {
      DeclaredVolume(app, res, root, doc, v);
    }
  }

  lemma DeclaredNetworks(app: App, res: Resolver, root: string, doc: Document)
    requires DocumentOf(doc, app, res, root)
    ensures var exposed := exists n :: n in app.services && app.services[n].expose.Some?;
      NetworksDeclared(doc.networks, app.name, exposed)
  {
    assert doc.networks == Networks(app.name, AppExposed(app));
    hide DocumentOf, Networks, NetworksDeclared;
    NetworksAre(app.name, AppExposed(app));
  }

  ghost predicate NetworksDeclared(networks: map<string, Network>, app: string, exposed: bool) {
    && networks.Keys == {app + "-net"} + (if exposed then {"traefik-net", "monitoring-net"} else {})
    && (exposed ==> networks["traefik-net"] == External && networks["monitoring-net"] == External)
    && (!exposed ==> networks[app + "-net"] == Overlay)
  }

  lemma NetworksAre(app: string, exposed: bool)
    ensures NetworksDeclared(Networks(app, exposed), app, exposed)
  {
    SharedNamesDiffer();
  }

  lemma DeclaredVolume(app: App, res: Resolver, root: string, doc: Document, v: string)
    requires DocumentOf(doc, app, res, root)
    ensures v in doc.volumes <==>
      v != "" && !("/" <= v) && ':' !in v &&
      exists n, i :: n in app.services && 0 <= i < |app.services[n].volumes| && NamesVolume(app.services[n].volumes[i], v)
  {
    assert v in doc.volumes <==> UsesVolume(app, v);
    hide DocumentOf, NamesVolume;
    forall n, i | n in app.services && 0 <= i < |app.services[n].volumes|
      ensures VolumeSource(app.services[n].volumes[i]) == v <==> ':' !in v && NamesVolume(app.services[n].volumes[i], v)
    {
      NamesVolumeIff(app.services[n].volumes[i], v);
    }
  }

  // ---------------------------------------------------------------------------
  // The origins of a CORS middleware
  // ---------------------------------------------------------------------------

  /** The one text an alternative of a pattern matches; an unescaped dot would match more than one. */
  function Literally(p: string): Option<string> {
    if p == "" then Some("")
    else if |p| >= 2 && p[0] == '\\' && p[1] == '.' then
      (match Literally(p[2..]) case None => None case Some(t) => Some("." + t))
    else if p[0] == '.' || p[0] == '\\' then None
    else
      (match Literally(p[1..]) case None => None case Some(t) => Some([p[0]] + t))
  }

  /** An anchored group of alternatives admits an origin that one of them matches. */
  ghost predicate Admits(pattern: string, origin: string) {
    |pattern| >= 4 && pattern == "^(" + pattern[2..|pattern| - 2] + ")$" &&
    exists piece :: piece in S.Split(pattern[2..|pattern| - 2], '|') && Literally(piece) == Some(origin)
  }

  ghost predicate Plainly(host: string) {
    forall i :: 0 <= i < |host| ==> host[i] != '|' && host[i] != '\\'
  }

  function Alternatives(hosts: seq<string>): seq<string> {
    if hosts == [] then [] else ["https://" + EscapeDots(hosts[0])] + Alternatives(hosts[1..])
  }

  lemma {:induction false} EscapedDots(h: string)
    requires Plainly(h)
    ensures Literally(EscapeDots(h)) == Some(h) && '|' !in EscapeDots(h)
  {
    if h != "" {
      var rest := EscapeDots(h[1..]);
      assert forall i :: 0 <= i < |h[1..]| ==> h[1..][i] == h[i + 1];
      EscapedDots(h[1..]);
      if h[0] == '.' {
        assert ("\\." + rest)[2..] == rest && h == "." + h[1..];
      } else {
        assert ([h[0]] + rest)[1..] == rest && h == [h[0]] + h[1..];
      }
    }
  }

  lemma {:induction false} LiterallyAppend(a: string, p: string)
    requires Plainly(a) && '.' !in a && Literally(p).Some?
    ensures Literally(a + p) == Some(a + Literally(p).value)
  {
    if a == "" {
      assert a + p == p && a + Literally(p).value == Literally(p).value;
    } else {
      assert (a + p)[0] == a[0] != '.' && (a + p)[1..] == a[1..] + p;
      assert forall i :: 0 <= i < |a[1..]| ==> a[1..][i] == a[i + 1];
      LiterallyAppend(a[1..], p);
      assert [a[0]] + (a[1..] + Literally(p).value) == a + Literally(p).value;
    }
  }

  lemma {:induction false} OriginsJoin(hosts: seq<string>)
    requires hosts != []
    ensures |Alternatives(hosts)| == |hosts|
    ensures JoinOrigins(hosts) == S.Join(Alternatives(hosts), '|')
  {
    var rest := hosts[1..];
    if rest == [] {
      assert Alternatives(hosts) == ["https://" + EscapeDots(hosts[0])];
    } else {
      OriginsJoin(rest);
      assert Alternatives(hosts)[1..] == Alternatives(rest);
    }
  }

  lemma {:induction false} AlternativeIs(hosts: seq<string>, i: nat)
    requires i < |hosts| && |Alternatives(hosts)| == |hosts| && Plainly(hosts[i])
    ensures Literally(Alternatives(hosts)[i]) == Some("https://" + hosts[i]) && '|' !in Alternatives(hosts)[i]
  {
    if i == 0 {
      EscapedDots(hosts[0]);
      assert Plainly("https://") && '.' !in "https://";
      LiterallyAppend("https://", EscapeDots(hosts[0]));
    } else {
      assert |Alternatives(hosts[1..])| == |hosts[1..]|;
      AlternativeIs(hosts[1..], i - 1);
    }
  }

  /** The pattern of a service's own CORS middleware admits the secure origins of its host and its aliases and no others. */
  lemma OriginsAdmitted(e: Expose, origin: string)
    requires Plainly(e.host) && forall i :: 0 <= i < |e.aliases| ==> Plainly(e.aliases[i])
    ensures Admits(OriginRegex(e), origin) <==> origin == "https://" + e.host || exists i :: 0 <= i < |e.aliases| && origin == "https://" + e.aliases[i]
  {
    var hosts := [e.host] + e.aliases;
    var body := JoinOrigins(hosts);
    assert OriginRegex(e)[2..|OriginRegex(e)| - 2] == body;
    OriginsJoin(hosts);
    var all := Alternatives(hosts);
    hide Alternatives, JoinOrigins, Literally, EscapeDots, OriginRegex;
    forall i | 0 <= i < |hosts|
      ensures Literally(all[i]) == Some("https://" + hosts[i]) && '|' !in all[i]
    {
      AlternativeIs(hosts, i);
    }
    S.SplitOfJoin(all, '|');
    assert S.Split(body, '|') == all;
    assert hosts[0] == e.host && forall i :: 0 <= i < |hosts| ==> all[i] in all;
    if exists i :: 0 <= i < |e.aliases| && origin == "https://" + e.aliases[i] {
      var i :| 0 <= i < |e.aliases| && origin == "https://" + e.aliases[i];
      assert hosts[i + 1] == e.aliases[i];
    }
  }
}
