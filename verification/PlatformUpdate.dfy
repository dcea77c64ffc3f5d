/** `cluster update`: provision the versioned objects, render the platform stacks, and redeploy the ones
    whose rendered content differs from the hash stored with the previous render. */
module PlatformUpdate {
  import opened Common
  import opened VersionNames
  import opened VersionedObjects
  import C = ConfigStore

  datatype Stack = Infra | Observability | Backup | Edge | Sso

  const OTEL_CONFIG := "otel-collector-config"
  const TRAEFIK_CONFIG := "traefik-dynamic"

  const OTEL_BASE := "pmcluster_otel_config"
  const TRAEFIK_BASE := "pmcluster_traefik_dynamic"
  const EDGE_BASE := "pmcluster_edge"
  const CERT_BASE := "cert"
  const KEY_BASE := "key"

  function StackConfig(s: Stack): string {
    match s
    case Infra => "infra-stack"
    case Observability => "observability-stack"
    case Backup => "backup-stack"
    case Edge => "edge-stack"
    case Sso => "sso-stack"
  }

  /** The order stacks are compared and deployed in. */
  function Order(sso: bool): seq<Stack> {
    [Observability, Infra, Edge, Backup] + if sso then [Sso] else []
  }

  function StackConfigs(sso: bool): set<string> {
    {"infra-stack", "observability-stack", "backup-stack", "edge-stack"} + if sso then {"sso-stack"} else {}
  }

  /** Every config rendered and snapshotted by an update. */
  function RenderedNames(sso: bool): set<string> {
    StackConfigs(sso) + {OTEL_CONFIG, TRAEFIK_CONFIG}
  }

  lemma OrderIsRendered(sso: bool, s: Stack)
    requires s in Order(sso)
    ensures StackConfig(s) in RenderedNames(sso)
  {
  }

  datatype HostCert = HostCert(host: string, certSecret: string, keySecret: string)

  datatype SsoSettings = SsoSettings(
    enabled: bool, provider: string, clientId: string, clientSecret: string, gitHubOrg: string, cookieExpire: string)

  datatype Settings = Settings(
    domain: string, tlsMode: string, acmeEmail: string, certPath: string, keyPath: string, sso: SsoSettings,
    edgeLoginDisabled: bool, backupAllNodes: bool, backupRetentionDays: int)

  datatype Admin = Admin(email: string, password: string)

  datatype RenderInput = RenderInput(
    domain: string, adminEmail: string, adminPassword: string, acmeEmail: string,
    edgeLoginDisabled: bool, backupAllNodes: bool, backupRetentionDays: int,
    sso: SsoSettings, ssoCookieSecret: string, hostCerts: seq<HostCert>,
    certSecret: string, keySecret: string, otelConfig: string, traefikConfig: string)

  /** The running build: its embedded templates and the text renderers, which are functions of the template
      body and the render input. Image reference and data directory are part of the renderers. */
  datatype Build = Build(
    version: string,
    embedded: string -> string,
    compose: (Stack, string, RenderInput) -> Option<string>,
    otel: (string, RenderInput) -> Option<string>,
    traefik: (string, RenderInput) -> Option<string>,
    validDuration: string -> bool)

  /** Everything an update reads or writes: tables, settings, credentials, certificate files, swarm objects
      and the stacks the swarm is running. */
  datatype World = World(
    db: C.ConfigDb, settings: Settings, admin: Option<Admin>, cookie: Option<string>,
    files: map<string, string>, hostCerts: seq<HostCert>,
    secrets: Vault, configs: Vault, live: map<Stack, string>)

  /** Outcomes chosen by the environment for one update. A stack in `failing` fails to deploy and leaves the
      given content (or nothing) behind. */
  datatype Environment = Environment(
    preflightFails: bool, mintedCookie: string,
    cert: Faults, key: Faults, otel: Faults, traefik: Faults, edge: Faults,
    failing: map<Stack, Option<string>>)

  datatype UpdateError =
    | PreflightFailed | NoDomain | InvalidSso | NoAdmin | NoCertificate | ProvisionFailed | RenderFailed
    | DeployFailed(stack: Stack)

  datatype Prepared = Prepared(input: RenderInput, minted: bool)

  datatype Report = Report(minted: bool, deployed: seq<Stack>)

  // ---------------------------------------------------------------------------
  // Rendering
  // ---------------------------------------------------------------------------

  function Body(b: Build, rows: map<string, C.ConfigRow>, name: string): string {
    C.ReadConfigFile(rows, name, b.embedded, b.version)
  }

  function RenderStack(b: Build, rows: map<string, C.ConfigRow>, s: Stack, input: RenderInput): Option<string> {
    b.compose(s, Body(b, rows, StackConfig(s)), input)
  }

  function RenderOtel(b: Build, rows: map<string, C.ConfigRow>, input: RenderInput): Option<string> {
    if input.adminEmail == "" || input.adminPassword == "" then None else b.otel(Body(b, rows, OTEL_CONFIG), input)
  }

  function RenderTraefik(b: Build, rows: map<string, C.ConfigRow>, input: RenderInput): Option<string> {
    if input.domain == "" then None else b.traefik(Body(b, rows, TRAEFIK_CONFIG), input)
  }

  function RenderConfig(b: Build, rows: map<string, C.ConfigRow>, name: string, input: RenderInput): Option<string> {
    if name == "infra-stack" then RenderStack(b, rows, Infra, input)
    else if name == "observability-stack" then RenderStack(b, rows, Observability, input)
    else if name == "backup-stack" then RenderStack(b, rows, Backup, input)
    else if name == "edge-stack" then RenderStack(b, rows, Edge, input)
    else if name == "sso-stack" then RenderStack(b, rows, Sso, input)
    else if name == OTEL_CONFIG then RenderOtel(b, rows, input)
    else RenderTraefik(b, rows, input)
  }

  /** All platform configs, or nothing when one of them does not render. */
  ghost function RenderAll(b: Build, rows: map<string, C.ConfigRow>, input: RenderInput): Option<map<string, string>> {
    if forall n :: n in RenderedNames(input.sso.enabled) ==> RenderConfig(b, rows, n, input).Some? then
      Some(map n | n in RenderedNames(input.sso.enabled) :: RenderConfig(b, rows, n, input).value)
    else None
  }

  // ---------------------------------------------------------------------------
  // Building the render input
  // ---------------------------------------------------------------------------

  predicate SsoValid(b: Build, s: SsoSettings) {
    s.enabled ==> s.provider == "github" && s.clientId != "" && s.clientSecret != "" && b.validDuration(s.cookieExpire)
  }

  function OtherHosts(certs: seq<HostCert>, domain: string): seq<HostCert> {
    if certs == [] then []
    else
      OtherHosts(certs[..|certs| - 1], domain) +
      (if certs[|certs| - 1].host == domain then [] else [certs[|certs| - 1]])
  }

  /** Reads the persisted state; a missing SSO cookie credential is minted and stored. An update checks the SSO
      settings, and mints before it looks for the admin; the read-only rendering checks neither and mints after. */
  ghost function Load(b: Build, w: World, checkSso: bool, env: Environment): (World, Result<Prepared, UpdateError>) {
    if w.settings.domain == "" then (w, Err(NoDomain))
    else if checkSso && !SsoValid(b, w.settings.sso) then (w, Err(InvalidSso))
    else if !checkSso && w.admin.None? then (w, Err(NoAdmin))
    else
      var w1 := if w.settings.sso.enabled && w.cookie.None? then w.(cookie := Some(env.mintedCookie)) else w;
      if w.admin.None? then (w1, Err(NoAdmin))
      else
        var s := w.settings;
        (w1, Ok(Prepared(RenderInput(
            s.domain, w.admin.value.email, w.admin.value.password, s.acmeEmail,
            s.edgeLoginDisabled, s.backupAllNodes, s.backupRetentionDays,
            s.sso, if s.sso.enabled then w1.cookie.value else "", OtherHosts(w.hostCerts, s.domain),
            "", "", "", ""), false)))
  }

  ghost function EnsureTls(w: World, p: Prepared, env: Environment): (World, Result<Prepared, UpdateError>) {
    if p.input.acmeEmail != "" then (w, Ok(p))
    else if w.settings.certPath == "" || w.settings.keyPath == "" || w.settings.certPath !in w.files then (w, Err(NoCertificate))
    else
      var (v1, cert) := Ensure(Secret, w.secrets, CERT_BASE, w.files[w.settings.certPath], env.cert);
      if cert.Err? then (w.(secrets := v1), Err(ProvisionFailed))
      else if w.settings.keyPath !in w.files then (w.(secrets := v1), Err(NoCertificate))
      else
        var (v2, key) := Ensure(Secret, v1, KEY_BASE, w.files[w.settings.keyPath], env.key);
        if key.Err? then (w.(secrets := v2), Err(ProvisionFailed))
        else
          (w.(secrets := v2),
           Ok(Prepared(p.input.(certSecret := cert.value.name, keySecret := key.value.name),
                       p.minted || cert.value.created || key.value.created)))
  }

  ghost function EnsureOtel(b: Build, w: World, p: Prepared, env: Environment): (World, Result<Prepared, UpdateError>) {
    var text := RenderOtel(b, w.db.configs, p.input);
    if text.None? then (w, Err(RenderFailed))
    else
      var (v, r) := Ensure(DockerConfig, w.configs, OTEL_BASE, text.value, env.otel);
      (w.(configs := v),
       if r.Err? then Err(ProvisionFailed) else Ok(Prepared(p.input.(otelConfig := r.value.name), p.minted || r.value.created)))
  }

  ghost function EnsureTraefik(b: Build, w: World, p: Prepared, env: Environment): (World, Result<Prepared, UpdateError>) {
    var text := RenderTraefik(b, w.db.configs, p.input);
    if text.None? then (w, Err(RenderFailed))
    else
      var (v, r) := Ensure(DockerConfig, w.configs, TRAEFIK_BASE, text.value, env.traefik);
      (w.(configs := v),
       if r.Err? then Err(ProvisionFailed) else Ok(Prepared(p.input.(traefikConfig := r.value.name), p.minted || r.value.created)))
  }

  /** The edge config is only a fingerprint of the edge stack's render; nothing mounts it. */
  ghost function EnsureEdge(b: Build, w: World, p: Prepared, env: Environment): (World, Result<Prepared, UpdateError>) {
    var text := RenderStack(b, w.db.configs, Edge, p.input);
    if text.None? then (w, Err(RenderFailed))
    else
      var (v, r) := Ensure(DockerConfig, w.configs, EDGE_BASE, text.value, env.edge);
      (w.(configs := v), if r.Err? then Err(ProvisionFailed) else Ok(Prepared(p.input, p.minted || r.value.created)))
  }

  ghost function EnsureConfigs(b: Build, w: World, p: Prepared, env: Environment): (World, Result<Prepared, UpdateError>) {
    var (w1, r1) := EnsureOtel(b, w, p, env);
    if r1.Err? then (w1, r1) else
    var (w2, r2) := EnsureTraefik(b, w1, r1.value, env);
    if r2.Err? then (w2, r2) else
    EnsureEdge(b, w2, r2.value, env)
  }

  ghost function Prepare(b: Build, w: World, checkSso: bool, env: Environment): (World, Result<Prepared, UpdateError>) {
    var (w0, r0) := Load(b, w, checkSso, env);
    if r0.Err? then (w0, r0) else
    var (w1, r1) := EnsureTls(w0, r0.value, env);
    if r1.Err? then (w1, r1) else
    EnsureConfigs(b, w1, r1.value, env)
  }

  // ---------------------------------------------------------------------------
  // Reconciling
  // ---------------------------------------------------------------------------

  ghost predicate Changed(rows: map<string, C.ConfigRow>, rendered: map<string, string>, s: Stack)
    requires StackConfig(s) in rendered
  {
    !(StackConfig(s) in rows && rows[StackConfig(s)].renderedHash == ContentHash(rendered[StackConfig(s)]))
  }

  ghost function Stale(rows: map<string, C.ConfigRow>, rendered: map<string, string>, order: seq<Stack>): (stale: seq<Stack>)
    requires forall s :: s in order ==> StackConfig(s) in rendered
    ensures forall s :: s in stale <==> s in order && Changed(rows, rendered, s)
  {
    if order == [] then []
    else
      var last := order[|order| - 1];
      Stale(rows, rendered, order[..|order| - 1]) + if Changed(rows, rendered, last) then [last] else []
  }

  /** Stores every rendered content with its hash in the row of the same name, where there is one. */
  ghost function Snapshot(db: C.ConfigDb, rendered: map<string, string>): C.ConfigDb {
    db.(configs := map n | n in db.configs ::
      if n in rendered then db.configs[n].(rendered := rendered[n], renderedHash := ContentHash(rendered[n]))
      else db.configs[n])
  }

  /** Deploys stacks one by one from a second render, stopping at the first failure. */
  ghost function Deploy(b: Build, rows: map<string, C.ConfigRow>, input: RenderInput, stacks: seq<Stack>,
                        live: map<Stack, string>, failing: map<Stack, Option<string>>)
    : (map<Stack, string>, Result<(), UpdateError>)
  {
    if stacks == [] then (live, Ok(()))
    else
      var (live1, r) := Deploy(b, rows, input, stacks[..|stacks| - 1], live, failing);
      var s := stacks[|stacks| - 1];
      if r.Err? then (live1, r)
      else DeployOne(b, rows, input, s, live1, failing)
  }

  ghost function DeployOne(b: Build, rows: map<string, C.ConfigRow>, input: RenderInput, s: Stack,
                           live: map<Stack, string>, failing: map<Stack, Option<string>>)
    : (map<Stack, string>, Result<(), UpdateError>)
  {
    var text := RenderStack(b, rows, s, input);
    if text.None? then (live, Err(RenderFailed))
    else if s in failing then
      (match failing[s] case Some(left) => live[s := left] case None => live - {s}, Err(DeployFailed(s)))
    else (live[s := text.value], Ok(()))
  }

  /** What an update has worked out before it changes tables or stacks: the provisioned world, the render
      input and the fresh render of every config. */
  datatype Plan = Plan(world: World, prepared: Prepared, rendered: map<string, string>)

  ghost function RenderPlan(b: Build, w: World, p: Prepared): Result<Plan, UpdateError> {
    match RenderAll(b, w.db.configs, p.input)
    case None => Err(RenderFailed)
    case Some(rendered) => Ok(Plan(w, p, rendered))
  }

  ghost function MakePlan(b: Build, w: World, version: string, env: Environment): (World, Result<Plan, UpdateError>) {
    if env.preflightFails then (w, Err(PreflightFailed))
    else
      var synced := w.(db := C.Sync(w.db, C.CONFIG_NAMES, b.embedded, version));
      var (w1, p) := Prepare(b, synced, true, env);
      if p.Err? then (w1, Err(p.error)) else (w1, RenderPlan(b, w1, p.value))
  }

  ghost function StaleStacks(plan: Plan): seq<Stack>
    requires plan.rendered.Keys == RenderedNames(plan.prepared.input.sso.enabled)
  {
    Stale(plan.world.db.configs, plan.rendered, Order(plan.prepared.input.sso.enabled))
  }

  /** Stores the snapshots, then redeploys the stale stacks. */
  ghost function Reconcile(b: Build, plan: Plan, env: Environment): (World, Result<Report, UpdateError>)
    requires plan.rendered.Keys == RenderedNames(plan.prepared.input.sso.enabled)
  {
    var stale := StaleStacks(plan);
    var db := Snapshot(plan.world.db, plan.rendered);
    var (live, r) := Deploy(b, db.configs, plan.prepared.input, stale, plan.world.live, env.failing);
    (plan.world.(db := db, live := live), if r.Err? then Err(r.error) else Ok(Report(plan.prepared.minted, stale)))
  }

  ghost function Update(b: Build, w: World, version: string, env: Environment): (World, Result<Report, UpdateError>) {
    var (w1, plan) := MakePlan(b, w, version, env);
    if plan.Err? then (w1, Err(plan.error)) else Reconcile(b, plan.value, env)
  }

  /** The read-only twin: what an update would deploy right now. */
  ghost function RenderClusterConfigs(b: Build, w: World, env: Environment): (World, Result<map<string, string>, UpdateError>) {
    if env.preflightFails then (w, Err(PreflightFailed))
    else
      var (w1, p) := Prepare(b, w, false, env);
      if p.Err? then (w1, Err(p.error))
      else
        var plan := RenderPlan(b, w1, p.value);
        (w1, if plan.Err? then Err(plan.error) else Ok(plan.value.rendered))
  }

  // ---------------------------------------------------------------------------
  // The updater, in place
  // ---------------------------------------------------------------------------

  class Updater {
    const store: C.Store
    const swarm: Swarm
    var settings: Settings
    var admin: Option<Admin>
    var cookie: Option<string>
    var files: map<string, string>
    var hostCerts: seq<HostCert>
    var live: map<Stack, string>

    ghost function Now(): World
      reads this, store, swarm
    {
      World(store.Db(), settings, admin, cookie, files, hostCerts, swarm.Secrets(), swarm.Configs(), live)
    }

    constructor (store: C.Store, swarm: Swarm, settings: Settings)
      ensures this.store == store && this.swarm == swarm
      ensures Now() == World(store.Db(), settings, None, None, map[], [], swarm.Secrets(), swarm.Configs(), map[])
    {
      this.store, this.swarm, this.settings := store, swarm, settings;
      admin, cookie, files, hostCerts, live := None, None, map[], [], map[];
    }

    method LoadState(b: Build, checkSso: bool, env: Environment) returns (r: Result<Prepared, UpdateError>)
      modifies this`cookie
      ensures (Now(), r) == Load(b, old(Now()), checkSso, env)
    {
      if settings.domain == "" {
        return Err(NoDomain);
      }
      if checkSso && !SsoValid(b, settings.sso) {
        return Err(InvalidSso);
      }
      if !checkSso && admin.None? {
        return Err(NoAdmin);
      }
      var secret := "";
      if settings.sso.enabled {
        if cookie.None? {
          cookie := Some(env.mintedCookie);
        }
        secret := cookie.value;
      }
      if admin.None? {
        return Err(NoAdmin);
      }
      var others: seq<HostCert> := [];
      for i := 0 to |hostCerts|
        invariant others == OtherHosts(hostCerts[..i], settings.domain)
      {
        assert hostCerts[..i + 1][..i] == hostCerts[..i];
        if hostCerts[i].host != settings.domain {
          others := others + [hostCerts[i]];
        }
      }
      assert hostCerts[..|hostCerts|] == hostCerts;
      r := Ok(Prepared(RenderInput(
          settings.domain, admin.value.email, admin.value.password, settings.acmeEmail,
          settings.edgeLoginDisabled, settings.backupAllNodes, settings.backupRetentionDays,
          settings.sso, secret, others, "", "", "", ""), false));
    }

    method EnsureTlsSecrets(p: Prepared, env: Environment) returns (r: Result<Prepared, UpdateError>)
      modifies swarm
      ensures (Now(), r) == EnsureTls(old(Now()), p, env)
    {
      if p.input.acmeEmail != "" {
        return Ok(p);
      }
      if settings.certPath == "" || settings.keyPath == "" || settings.certPath !in files {
        return Err(NoCertificate);
      }
      var cert := swarm.EnsureVersionedSecret(CERT_BASE, files[settings.certPath], env.cert);
      if cert.Err? {
        return Err(ProvisionFailed);
      }
      if settings.keyPath !in files {
        return Err(NoCertificate);
      }
      var key := swarm.EnsureVersionedSecret(KEY_BASE, files[settings.keyPath], env.key);
      if key.Err? {
        return Err(ProvisionFailed);
      }
      r := Ok(Prepared(p.input.(certSecret := cert.value.name, keySecret := key.value.name),
                       p.minted || cert.value.created || key.value.created));
    }

    method EnsureRenderedConfigs(b: Build, p: Prepared, env: Environment) returns (r: Result<Prepared, UpdateError>)
      modifies swarm
      ensures (Now(), r) == EnsureConfigs(b, old(Now()), p, env)
    {
      var render, minted := p.input, p.minted;
      var otelText := RenderOtel(b, store.configs, render);
      if otelText.None? {
        return Err(RenderFailed);
      }
      var otel := swarm.EnsureConfig(OTEL_BASE, otelText.value, env.otel);
      if otel.Err? {
        return Err(ProvisionFailed);
      }
      render, minted := render.(otelConfig := otel.value.name), minted || otel.value.created;
      var traefikText := RenderTraefik(b, store.configs, render);
      if traefikText.None? {
        return Err(RenderFailed);
      }
      var traefik := swarm.EnsureConfig(TRAEFIK_BASE, traefikText.value, env.traefik);
      if traefik.Err? {
        return Err(ProvisionFailed);
      }
      render, minted := render.(traefikConfig := traefik.value.name), minted || traefik.value.created;
      var edgeText := RenderStack(b, store.configs, Edge, render);
      if edgeText.None? {
        return Err(RenderFailed);
      }
      var edge := swarm.EnsureConfig(EDGE_BASE, edgeText.value, env.edge);
      if edge.Err? {
        return Err(ProvisionFailed);
      }
      r := Ok(Prepared(render, minted || edge.value.created));
    }

    method RenderPlatformConfigs(b: Build, input: RenderInput) returns (out: Option<map<string, string>>)
      ensures out == RenderAll(b, store.configs, input)
    {
      var done: map<string, string> := map[];
      var left := RenderedNames(input.sso.enabled);
      while left != {}
        invariant left <= RenderedNames(input.sso.enabled)
        invariant done.Keys == RenderedNames(input.sso.enabled) - left
        invariant forall n :: n in done ==> RenderConfig(b, store.configs, n, input) == Some(done[n])
      {
        var n :| n in left;
        var text := RenderConfig(b, store.configs, n, input);
        if text.None? {
          return None;
        }
        done := done[n := text.value];
        left := left - {n};
      }
      assert done.Keys == RenderedNames(input.sso.enabled);
      assert done == map n | n in RenderedNames(input.sso.enabled) :: RenderConfig(b, store.configs, n, input).value;
      out := Some(done);
    }

    /** The snapshot loop visits the rendered configs in any order. */
    method StoreSnapshots(rendered: map<string, string>)
      modifies store
      ensures store.Db() == Snapshot(old(store.Db()), rendered)
    {
      var left := rendered.Keys;
      ghost var before := store.Db();
      while left != {}
        invariant left <= rendered.Keys
        invariant store.versions == before.versions
        invariant store.configs.Keys == before.configs.Keys
        invariant forall n :: n in before.configs && n in rendered && n !in left ==>
          store.configs[n] == before.configs[n].(rendered := rendered[n], renderedHash := ContentHash(rendered[n]))
        invariant forall n :: n in before.configs && !(n in rendered && n !in left) ==> store.configs[n] == before.configs[n]
      {
        var n :| n in left;
        var _ := store.SetRenderedConfig(n, rendered[n]);
        left := left - {n};
      }
    }

    method ChangedStacks(rendered: map<string, string>, order: seq<Stack>) returns (redeploy: seq<Stack>)
      requires forall s :: s in order ==> StackConfig(s) in rendered
      ensures redeploy == Stale(store.configs, rendered, order)
    {
      redeploy := [];
      for i := 0 to |order|
        invariant redeploy == Stale(store.configs, rendered, order[..i])
      {
        assert order[..i + 1][..i] == order[..i];
        var name := StackConfig(order[i]);
        if !(name in store.configs && store.configs[name].renderedHash == ContentHash(rendered[name])) {
          redeploy := redeploy + [order[i]];
        }
      }
      assert order[..|order|] == order;
    }

    method DeployStacks(b: Build, input: RenderInput, stacks: seq<Stack>, failing: map<Stack, Option<string>>)
      returns (r: Result<(), UpdateError>)
      modifies this`live
      ensures (live, r) == Deploy(b, store.configs, input, stacks, old(live), failing)
    {
      ghost var rows, before := store.configs, live;
      for i := 0 to |stacks|
        invariant Deploy(b, rows, input, stacks[..i], before, failing) == (live, Ok(()))
      {
        assert stacks[..i + 1][..i] == stacks[..i];
        var s := stacks[i];
        var text := RenderStack(b, store.configs, s, input);
        if text.None? {
          DeployStops(b, rows, input, stacks, i + 1, before, failing);
          return Err(RenderFailed);
        }
        if s in failing {
          live := match failing[s] case Some(left) => live[s := left] case None => live - {s};
          DeployStops(b, rows, input, stacks, i + 1, before, failing);
          return Err(DeployFailed(s));
        }
        live := live[s := text.value];
      }
      assert stacks[..|stacks|] == stacks;
      r := Ok(());
    }

    method ReconcileStacks(b: Build, p: Prepared, rendered: map<string, string>, env: Environment)
      returns (r: Result<Report, UpdateError>)
      requires rendered.Keys == RenderedNames(p.input.sso.enabled)
      requires store as object != this && swarm as object != this && store as object != swarm
      modifies store, this`live
      ensures (Now(), r) == Reconcile(b, Plan(old(Now()), p, rendered), env)
    {
      var order := Order(p.input.sso.enabled);
      forall s | s in order {
        OrderIsRendered(p.input.sso.enabled, s);
      }
      ghost var w := Now();
      var redeploy := ChangedStacks(rendered, order);
      StoreSnapshots(rendered);
      assert Now() == w.(db := Snapshot(w.db, rendered));
      var done := DeployStacks(b, p.input, redeploy, env.failing);
      r := if done.Err? then Err(done.error) else Ok(Report(p.minted, redeploy));
    }

    method RunUpdate(b: Build, version: string, env: Environment) returns (r: Result<Report, UpdateError>)
      requires store as object != this && swarm as object != this && store as object != swarm
      modifies this, store, swarm
      ensures (Now(), r) == Update(b, old(Now()), version, env)
    {
      if env.preflightFails {
        return Err(PreflightFailed);
      }
      store.SyncClusterConfigs(b.embedded, version);
      var loaded := LoadState(b, true, env);
      if loaded.Err? {
        return Err(loaded.error);
      }
      var tls := EnsureTlsSecrets(loaded.value, env);
      if tls.Err? {
        return Err(tls.error);
      }
      var prepared := EnsureRenderedConfigs(b, tls.value, env);
      if prepared.Err? {
        return Err(prepared.error);
      }
      var rendered := RenderPlatformConfigs(b, prepared.value.input);
      if rendered.None? {
        return Err(RenderFailed);
      }
      r := ReconcileStacks(b, prepared.value, rendered.value, env);
    }
  }

  /** Once a deploy fails, the stacks after it are not touched. */
  lemma {:induction false} DeployStops(b: Build, rows: map<string, C.ConfigRow>, input: RenderInput, stacks: seq<Stack>, n: nat,
                                       live: map<Stack, string>, failing: map<Stack, Option<string>>)
    requires n <= |stacks|
    requires Deploy(b, rows, input, stacks[..n], live, failing).1.Err?
    ensures Deploy(b, rows, input, stacks, live, failing) == Deploy(b, rows, input, stacks[..n], live, failing)
    decreases |stacks|
  {
    if n == |stacks| {
      assert stacks[..n] == stacks;
    } else {
      assert stacks[..|stacks| - 1][..n] == stacks[..n];
      DeployStops(b, rows, input, stacks[..|stacks| - 1], n, live, failing);
    }
  }
}
