/** Translation of a validated manifest to the neutral representation, and the Compose document written
    from it. Both walk Go maps in arbitrary order; the document does not depend on it. */
module Compose {
  import opened Common
  import opened Manifest

  const TRAEFIK_NET := "traefik-net"
  const MONITORING_NET := "monitoring-net"
  const PRIVATE_SUFFIX := "-net"
  const DEFAULT_ROOT := "/var/stack/data"

  // ---------------------------------------------------------------------------
  // The neutral representation
  // ---------------------------------------------------------------------------

  datatype IRService = IRService(
    name: string, image: string, command: seq<string>, entrypoint: seq<string>,
    env: map<string, string>, volumes: seq<string>, secrets: seq<string>,
    expose: Option<Expose>, healthcheck: Option<Healthcheck>,
    runOnce: bool, replicas: int, placement: string, update: Option<UpdatePolicy>, skipFilelog: bool)

  datatype IR = IR(name: string, env: string, version: string,
                   services: seq<IRService>, volumes: seq<string>, secrets: seq<string>)

  /** The config store as the resolver sees it; `None` when config references cannot be resolved. */
  type Resolver = Option<map<string, string>>

  function ResolveValue(v: string, res: Resolver): Option<string> {
    match ParseEnvRef(v)
    case None => Some(v)
    case Some(EnvRef(SecretRef, name)) => if name == "" then None else Some(SecretMountPath(name))
    case Some(EnvRef(ConfigRef, name)) =>
      if res.None? || name !in res.value || '\r' in res.value[name] || '\n' in res.value[name] then None
      else Some(res.value[name])
  }

  ghost predicate Resolves(env: map<string, string>, res: Resolver) {
    forall k :: k in env ==> ResolveValue(env[k], res).Some?
  }

  ghost function ResolvedEnv(env: map<string, string>, res: Resolver): map<string, string>
    requires Resolves(env, res)
  {
    map k | k in env :: ResolveValue(env[k], res).value
  }

  method ResolveServiceEnv(env: map<string, string>, res: Resolver) returns (out: Option<map<string, string>>)
    ensures out == if Resolves(env, res) then Some(ResolvedEnv(env, res)) else None
  {
    var done: map<string, string> := map[];
    var left := env.Keys;
    while left != {}
      invariant left <= env.Keys && done.Keys == env.Keys - left
      invariant forall k :: k in done ==> ResolveValue(env[k], res) == Some(done[k])
    {
      var k :| k in left;
      var v := ResolveValue(env[k], res);
      if v.None? {
        return None;
      }
      done := done[k := v.value];
      left := left - {k};
    }
    assert Resolves(env, res) by {
      forall k | k in env ensures ResolveValue(env[k], res).Some? { assert k in done; }
    }
    assert done == ResolvedEnv(env, res);
    out := Some(done);
  }

  function TranslateHealthcheck(h: Healthcheck): Healthcheck {
    if h.kind == "pg_isready" then Healthcheck("pg_isready", "", [], "10s", "5s", 5)
    else if h.kind == "http" then Healthcheck("http", if h.path == "" then "/" else h.path, [], "10s", "5s", 5)
    else Healthcheck("", "", h.test, h.interval, h.timeout, h.retries)
  }

  function TranslateUpdate(u: UpdatePolicy): UpdatePolicy {
    UpdatePolicy(if u.parallelism != 0 then u.parallelism else 1,
                 if u.delay != "" then u.delay else "10s",
                 if u.order != "" then u.order else "start-first")
  }

  function TranslateService(name: string, s: Service, env: map<string, string>): IRService {
    IRService(
      name, s.image, s.command, s.entrypoint, env, s.volumes, s.secrets, s.expose,
      if s.healthcheck.Some? then Some(TranslateHealthcheck(s.healthcheck.value)) else None,
      s.runOnce,
      if s.runOnce then 0 else if s.replicas.Some? then s.replicas.value else 1,
      s.placement,
      if !s.runOnce && s.update.Some? then Some(TranslateUpdate(s.update.value)) else None,
      s.skipFilelog)
  }

  function VolumeSource(v: string): string {
    v[..IndexOf(v, ':')]
  }

  predicate IsBind(v: string) {
    "/" <= VolumeSource(v)
  }

  ghost predicate UsesVolume(app: App, source: string) {
    exists n, i :: n in app.services && 0 <= i < |app.services[n].volumes| &&
      VolumeSource(app.services[n].volumes[i]) == source && source != "" && !IsBind(app.services[n].volumes[i])
  }

  ghost predicate UsesSecret(app: App, secret: string) {
    secret in app.secrets || exists n :: n in app.services && secret in app.services[n].secrets
  }

  ghost predicate Translates(app: App, res: Resolver) {
    forall n :: n in app.services ==> Resolves(app.services[n].env, res)
  }

  ghost function Translated(app: App, n: string, res: Resolver): IRService
    requires n in app.services && Resolves(app.services[n].env, res)
  {
    TranslateService(n, app.services[n], ResolvedEnv(app.services[n].env, res))
  }

  ghost predicate DistinctNames(ir: IR) {
    forall i, j :: 0 <= i < j < |ir.services| ==> ir.services[i].name != ir.services[j].name
  }

  /** The representation holds each service's translation once, and each used volume and secret, in any order. */
  ghost predicate Represents(ir: IR, app: App, res: Resolver) {
    && ir.name == app.name && ir.env == app.env && ir.version == app.version
    && Translates(app, res)
    && (forall s :: s in ir.services <==> s.name in app.services && s == Translated(app, s.name, res))
    && DistinctNames(ir)
    && (forall v :: v in ir.volumes <==> UsesVolume(app, v))
    && (forall s :: s in ir.secrets <==> UsesSecret(app, s))
  }

  method TranslateServices(app: App, res: Resolver) returns (out: Option<seq<IRService>>)
    ensures out.Some? <==> Translates(app, res)
    ensures out.Some? ==> forall s :: s in out.value <==> s.name in app.services && s == Translated(app, s.name, res)
    ensures out.Some? ==> forall i, j :: 0 <= i < j < |out.value| ==> out.value[i].name != out.value[j].name
  {
    var services: seq<IRService> := [];
    var left := app.services.Keys;
    while left != {}
      invariant left <= app.services.Keys
      invariant forall n :: n in app.services && n !in left ==> Resolves(app.services[n].env, res)
      invariant forall s :: s in services <==>
        s.name in app.services && s.name !in left && s == Translated(app, s.name, res)
      invariant forall i, j :: 0 <= i < j < |services| ==> services[i].name != services[j].name
    {
      var n :| n in left;
      var env := ResolveServiceEnv(app.services[n].env, res);
      if env.None? {
        return None;
      }
      assert forall i :: 0 <= i < |services| ==> services[i] in services;
      services := services + [TranslateService(n, app.services[n], env.value)];
      left := left - {n};
    }
    out := Some(services);
  }

  method CollectVolumes(app: App) returns (named: set<string>)
    ensures forall v :: v in named <==> UsesVolume(app, v)
  {
    named := {};
    var left := app.services.Keys;
    while left != {}
      invariant left <= app.services.Keys
      invariant forall v :: v in named ==> UsesVolume(app, v)
      invariant forall n, i :: n in app.services && n !in left && 0 <= i < |app.services[n].volumes| ==>
        CollectedVolume(app.services[n].volumes[i], named)
    {
      var n :| n in left;
      var volumes := app.services[n].volumes;
      ghost var before := named;
      for i := 0 to |volumes|
        invariant before <= named
        invariant forall v :: v in named ==> UsesVolume(app, v)
        invariant forall j :: 0 <= j < i ==> CollectedVolume(volumes[j], named)
      {
        var source := VolumeSource(volumes[i]);
        if source != "" && !("/" <= source) {
          named := named + {source};
          assert UsesVolume(app, source);
        }
      }
      left := left - {n};
    }
  }

  ghost predicate CollectedVolume(v: string, named: set<string>) {
    VolumeSource(v) != "" && !IsBind(v) ==> VolumeSource(v) in named
  }

  method CollectSecrets(app: App) returns (all: set<string>)
    ensures forall s :: s in all <==> UsesSecret(app, s)
  {
    all := set s | s in app.secrets;
    var left := app.services.Keys;
    while left != {}
      invariant left <= app.services.Keys
      invariant forall s :: s in all <==> s in app.secrets || exists n :: n in app.services && n !in left && s in app.services[n].secrets
    {
      var n :| n in left;
      ghost var before, was := all, left;
      all := all + set s | s in app.services[n].secrets;
      left := left - {n};
      forall s
        ensures s in all <==> s in app.secrets || exists m :: m in app.services && m !in left && s in app.services[m].secrets
      {
        assert s in app.services[n].secrets ==> n !in left;
      }
    }
  }

  /** Go ranges over a map: the elements come in whatever order. */
  method Listed(items: set<string>) returns (list: seq<string>)
    ensures forall x :: x in list <==> x in items
  {
    list := [];
    var left := items;
    while left != {}
      invariant left <= items
      invariant forall x :: x in list <==> x in items && x !in left
    {
      var x :| x in left;
      list := list + [x];
      left := left - {x};
    }
  }

  method BuildIR(app: App, res: Resolver) returns (out: Option<IR>)
    ensures out.Some? <==> Translates(app, res)
    ensures out.Some? ==> Represents(out.value, app, res)
  {
    var services := TranslateServices(app, res);
    if services.None? {
      return None;
    }
    var volumes := CollectVolumes(app);
    var volumeList := Listed(volumes);
    var secrets := CollectSecrets(app);
    var secretList := Listed(secrets);
    out := Some(IR(app.name, app.env, app.version, services.value, volumeList, secretList));
  }

  // ---------------------------------------------------------------------------
  // The document
  // ---------------------------------------------------------------------------

  datatype ComposeHealthcheck = ComposeHealthcheck(test: seq<string>, interval: string, timeout: string, retries: int)

  datatype Deploy = Deploy(replicas: Option<int>, labels: map<string, string>, constraints: seq<string>,
                           restart: string, update: Option<UpdatePolicy>)

  datatype ComposeService = ComposeService(
    image: string, command: seq<string>, entrypoint: seq<string>, environment: map<string, string>,
    volumes: seq<string>, networks: seq<string>, secrets: seq<string>,
    healthcheck: Option<ComposeHealthcheck>, deploy: Deploy)

  datatype Network = Overlay | External

  /** Services, volumes (with the host directory each is bound to), networks and external secrets. */
  datatype Document = Document(
    services: map<string, ComposeService>, volumes: map<string, string>,
    networks: map<string, Network>, secrets: set<string>)

  function Root(volumeRoot: string): string {
    if volumeRoot == "" then DEFAULT_ROOT else volumeRoot
  }

  function LastSlash(s: string): (i: int)
    ensures -1 <= i < |s|
  {
    if s == "" then -1 else if s[|s| - 1] == '/' then |s| - 1 else LastSlash(s[..|s| - 1])
  }

  function TrimSlashes(s: string): string {
    if s != "" && s[|s| - 1] == '/' then TrimSlashes(s[..|s| - 1]) else s
  }

  /** The last element of a slash-separated path; a path of slashes only is "/". */
  function Base(path: string): string {
    if path == "" then "."
    else
      var trimmed := TrimSlashes(path);
      if trimmed == "" then "/" else trimmed[LastSlash(trimmed) + 1..]
  }

  /** A host bind is moved under the root; a named volume is left to its declaration. */
  function Relocate(root: string, app: string, v: string): string {
    var i := IndexOf(v, ':');
    if i < |v| && "/" <= v[..i] then root + "/" + app + "/" + Base(v[..i]) + ":" + v[i + 1..] else v
  }

  function Relocated(root: string, app: string, volumes: seq<string>): seq<string> {
    if volumes == [] then []
    else Relocated(root, app, volumes[..|volumes| - 1]) + [Relocate(root, app, volumes[|volumes| - 1])]
  }

  method RelocateVolumes(root: string, app: string, volumes: seq<string>) returns (out: seq<string>)
    ensures out == Relocated(root, app, volumes)
  {
    out := [];
    for i := 0 to |volumes|
      invariant out == Relocated(root, app, volumes[..i])
    {
      assert volumes[..i + 1][..i] == volumes[..i];
      out := out + [Relocate(root, app, volumes[i])];
    }
    assert volumes[..|volumes|] == volumes;
  }

  function WriteHealthcheck(h: Healthcheck, expose: Option<Expose>): ComposeHealthcheck {
    if h.kind == "pg_isready" then
      ComposeHealthcheck(["CMD-SHELL", "pg_isready -U $$POSTGRES_USER -d $$POSTGRES_DB"], "10s", "5s", 5)
    else if h.kind == "http" then
      var port := if expose.Some? then expose.value.port else 0;
      var path := if h.path == "" then "/" else h.path;
      ComposeHealthcheck(["CMD-SHELL", "wget -q --spider http://127.0.0.1:" + Itoa(port) + path], "10s", "5s", 5)
    else ComposeHealthcheck(h.test, h.interval, h.timeout, h.retries)
  }

  function Scope(app: string, service: string): string {
    app + "-" + service
  }

  function AliasScope(scope: string, i: nat): string {
    scope + "-alias" + Decimal(i)
  }

  const ROUTERS := "traefik.http.routers."

  function RouterKey(scope: string, field: string): string {
    ROUTERS + scope + field
  }

  function HostRule(host: string): string {
    "Host(`" + host + "`)"
  }

  function EscapeCompose(s: string): string {
    if s == "" then "" else (if s[0] == '$' then "$$" else [s[0]]) + EscapeCompose(s[1..])
  }

  function EscapeDots(s: string): string {
    if s == "" then "" else (if s[0] == '.' then "\\." else [s[0]]) + EscapeDots(s[1..])
  }

  function JoinOrigins(hosts: seq<string>): string {
    if hosts == [] then ""
    else "https://" + EscapeDots(hosts[0]) + (if |hosts| > 1 then "|" else "") + JoinOrigins(hosts[1..])
  }

  function OriginRegex(e: Expose): string {
    "^(" + JoinOrigins([e.host] + e.aliases) + ")$"
  }

  function AddRouter(labels: map<string, string>, scope: string, host: string, middleware: Option<string>): map<string, string> {
    var l := labels[RouterKey(scope, ".rule") := HostRule(host)]
                   [RouterKey(scope, ".entrypoints") := "websecure"]
                   [RouterKey(scope, ".tls") := "true"];
    if middleware.Some? then l[RouterKey(scope, ".middlewares") := middleware.value] else l
  }

  function AddAliases(labels: map<string, string>, scope: string, aliases: seq<string>, middleware: Option<string>): map<string, string> {
    if aliases == [] then labels
    else
      AddRouter(AddAliases(labels, scope, aliases[..|aliases| - 1], middleware),
                AliasScope(scope, |aliases| - 1), aliases[|aliases| - 1], middleware)
  }

  function CorsLabels(labels: map<string, string>, scope: string, e: Expose): map<string, string> {
    var cors := "traefik.http.middlewares." + scope + "-cors.headers.";
    labels[cors + "accesscontrolalloworiginlistregex" := EscapeCompose(OriginRegex(e))]
          [cors + "accesscontrolallowcredentials" := "true"]
          [cors + "accesscontrolallowmethods" := "GET,POST,PUT,PATCH,DELETE,OPTIONS"]
          [cors + "accesscontrolallowheaders" := "Content-Type,Authorization,X-Pmcluster-Signature,X-Request-Id"]
          [cors + "accesscontrolmaxage" := "600"]
          [cors + "addvaryheader" := "true"]
  }

  /** One router for the host and one per alias, all for the same backend; aliases bring their own CORS
      middleware unless CORS is disabled. */
  function TraefikLabels(labels: map<string, string>, app: string, service: string, e: Expose): map<string, string> {
    var scope := Scope(app, service);
    var base := labels["traefik.enable" := "true"]
                      ["traefik.http.services." + scope + ".loadbalancer.server.port" := Itoa(e.port)]
                      ["traefik.docker.network" := TRAEFIK_NET];
    var aliasCors := e.aliases != [] && !e.corsDisabled;
    var middleware := if e.corsDisabled then None else Some(if aliasCors then scope + "-cors@swarm" else "cors-default@file");
    var withCors := if aliasCors then CorsLabels(base, scope, e) else base;
    AddAliases(AddRouter(withCors, scope, e.host, middleware), scope, e.aliases, middleware)
  }

  function WriteDeploy(app: string, env: string, version: string, s: IRService): Deploy {
    var standard := map["service" := s.name, "application" := app, "environment" := env, "version" := version];
    var routed := if s.expose.Some? then TraefikLabels(standard, app, s.name, s.expose.value) else standard;
    var labels := if s.skipFilelog then routed["io.pmcluster.skip_filelog" := "true"] else routed;
    Deploy(
      if s.runOnce then None else Some(if s.replicas == 0 then 1 else s.replicas),
      labels,
      if s.placement == "manager" then ["node.role == manager"]
      else if s.placement == "worker" then ["node.role == worker"] else [],
      if s.runOnce then "none" else "on-failure",
      if s.runOnce then None
      else Some(if s.update.Some? then TranslateUpdate(s.update.value) else UpdatePolicy(1, "10s", "start-first")))
  }

  ghost function WriteService(s: IRService, app: string, env: string, version: string, root: string): ComposeService {
    ComposeService(
      s.image, s.command, s.entrypoint, s.env,
      Relocated(root, app, s.volumes),
      [app + PRIVATE_SUFFIX] + if s.expose.Some? then [TRAEFIK_NET, MONITORING_NET] else [],
      s.secrets,
      if s.healthcheck.Some? then Some(WriteHealthcheck(s.healthcheck.value, s.expose)) else None,
      WriteDeploy(app, env, version, s))
  }

  function Networks(app: string, exposed: bool): map<string, Network> {
    var own := map[app + PRIVATE_SUFFIX := Overlay];
    if exposed then own[TRAEFIK_NET := External][MONITORING_NET := External] else own
  }

  ghost predicate Exposed(ir: IR) {
    exists i :: 0 <= i < |ir.services| && ir.services[i].expose.Some?
  }

  /** The first `k` services, written under their names. */
  ghost predicate ServicesWritten(services: map<string, ComposeService>, ir: IR, root: string, k: nat)
    requires k <= |ir.services|
  {
    && (forall n :: n in services <==> exists j :: 0 <= j < k && ir.services[j].name == n)
    && (forall j :: 0 <= j < k ==>
          services[ir.services[j].name] == WriteService(ir.services[j], ir.name, ir.env, ir.version, root))
  }

  /** What a document must be for a representation: no clause mentions the order of its lists. */
  ghost predicate Written(doc: Document, ir: IR, root: string) {
    && ServicesWritten(doc.services, ir, root, |ir.services|)
    && (forall v :: v in doc.volumes <==> v in ir.volumes)
    && (forall v :: v in doc.volumes ==> doc.volumes[v] == (root + "/" + ir.name + "/") + v)
    && doc.networks == Networks(ir.name, Exposed(ir))
    && (forall s :: s in doc.secrets <==> s in ir.secrets)
  }

  method WriteServiceBlock(s: IRService, app: string, env: string, version: string, root: string) returns (cs: ComposeService)
    ensures cs == WriteService(s, app, env, version, root)
  {
    var volumes := RelocateVolumes(root, app, s.volumes);
    var networks := [app + PRIVATE_SUFFIX];
    if s.expose.Some? {
      networks := networks + [TRAEFIK_NET, MONITORING_NET];
    }
    var health := if s.healthcheck.Some? then Some(WriteHealthcheck(s.healthcheck.value, s.expose)) else None;
    cs := ComposeService(s.image, s.command, s.entrypoint, s.env, volumes, networks, s.secrets, health,
                         WriteDeploy(app, env, version, s));
  }

  method DeclareVolumes(volumes: seq<string>, prefix: string) returns (declared: map<string, string>)
    ensures forall v :: v in declared <==> v in volumes
    ensures forall v :: v in declared ==> declared[v] == prefix + v
  {
    declared := map[];
    for i := 0 to |volumes|
      invariant forall v :: v in declared <==> v in volumes[..i]
      invariant forall v :: v in declared ==> declared[v] == prefix + v
    {
      declared := declared[volumes[i] := prefix + volumes[i]];
      assert volumes[..i + 1] == volumes[..i] + [volumes[i]];
    }
    assert volumes[..|volumes|] == volumes;
  }

  lemma OneMoreWritten(services: map<string, ComposeService>, ir: IR, root: string, k: nat)
    requires DistinctNames(ir) && k < |ir.services| && ServicesWritten(services, ir, root, k)
    ensures var s := ir.services[k];
      ServicesWritten(services[s.name := WriteService(s, ir.name, ir.env, ir.version, root)], ir, root, k + 1)
  {
    hide WriteService;
    assert forall j :: 0 <= j < k ==> ir.services[j].name != ir.services[k].name;
  }

  method WriteServices(ir: IR, root: string) returns (services: map<string, ComposeService>, exposed: bool)
    requires DistinctNames(ir)
    ensures ServicesWritten(services, ir, root, |ir.services|)
    ensures exposed <==> Exposed(ir)
  {
    hide WriteService, DistinctNames;
    services, exposed := map[], false;
    assert ServicesWritten(services, ir, root, 0);
    hide ServicesWritten;
    for i := 0 to |ir.services|
      invariant ServicesWritten(services, ir, root, i)
      invariant exposed <==> exists j :: 0 <= j < i && ir.services[j].expose.Some?
    {
      OneMoreWritten(services, ir, root, i);
      var cs := WriteServiceBlock(ir.services[i], ir.name, ir.env, ir.version, root);
      services := services[ir.services[i].name := cs];
      exposed := exposed || ir.services[i].expose.Some?;
    }
  }

  method Write(ir: IR, volumeRoot: string) returns (doc: Document)
    requires DistinctNames(ir)
    ensures Written(doc, ir, Root(volumeRoot))
  {
    var root := Root(volumeRoot);
    var services, exposed := WriteServices(ir, root);
    var volumes := DeclareVolumes(ir.volumes, root + "/" + ir.name + "/");
    doc := Document(services, volumes, Networks(ir.name, exposed), set s | s in ir.secrets);
  }
}
