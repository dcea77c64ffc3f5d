/** The versioned objects a platform update names, and when an update gets through. */
module PlatformObjects {
  import opened Common
  import opened VersionNames
  import opened VersionedObjects
  import opened PlatformUpdate
  import opened PlatformConvergence
  import C = ConfigStore

  /** The cluster's own two secret bases are sound; configs are compared with their own bytes and need nothing. */
  ghost predicate ObjectsSound(w: World) {
    Sound(Secret, w.secrets, CERT_BASE) && Sound(Secret, w.secrets, KEY_BASE)
  }

  ghost predicate Holds(v: Vault, name: string, data: string) {
    name in v.objects && v.objects[name] == data
  }

  /** Some version of the base holds the data. */
  ghost predicate HoldsUnder(v: Vault, base: string, data: string) {
    exists name :: VersionPrefix(base) <= name && Holds(v, name, data)
  }

  lemma EnsuredHolds(kind: Kind, v: Vault, base: string, data: string, f: Faults)
    requires Sound(kind, v, base) && Ensure(kind, v, base, data, f).1.Ok?
    ensures var (v', r) := Ensure(kind, v, base, data, f);
      Holds(v', r.value.name, data) && Sound(kind, v', base) && VersionPrefix(base) <= r.value.name
  {
    EnsureHoldsData(kind, v, base, data, f);
    EnsureNewest(kind, v, base, data, f);
  }

  /** What a call for another base leaves of a held name. */
  lemma StillHolds(kind: Kind, v: Vault, base: string, data: string, f: Faults, other: string, name: string, held: string)
    requires Apart(base, other) && VersionPrefix(other) <= name && Holds(v, name, held)
    ensures Holds(Ensure(kind, v, base, data, f).0, name, held)
  {
    EnsureFrame(kind, v, base, data, f, other);
  }

  lemma TlsNamesHold(w: World, p: Prepared, env: Environment)
    requires EnsureTls(w, p, env).1.Ok? && Sound(Secret, w.secrets, CERT_BASE) && Sound(Secret, w.secrets, KEY_BASE)
    requires p.input.acmeEmail == ""
    ensures var (w', r) := EnsureTls(w, p, env);
      && w.settings.certPath in w.files && w.settings.keyPath in w.files
      && Holds(w'.secrets, r.value.input.certSecret, w.files[w.settings.certPath])
      && Holds(w'.secrets, r.value.input.keySecret, w.files[w.settings.keyPath])
      && VersionPrefix(CERT_BASE) <= r.value.input.certSecret && VersionPrefix(KEY_BASE) <= r.value.input.keySecret
  {
    PlatformBasesApart();
    var certData, keyData := w.files[w.settings.certPath], w.files[w.settings.keyPath];
    var (v1, cert) := Ensure(Secret, w.secrets, CERT_BASE, certData, env.cert);
    EnsuredHolds(Secret, w.secrets, CERT_BASE, certData, env.cert);
    EnsureFrame(Secret, w.secrets, CERT_BASE, certData, env.cert, KEY_BASE);
    EnsuredHolds(Secret, v1, KEY_BASE, keyData, env.key);
    StillHolds(Secret, v1, KEY_BASE, keyData, env.key, CERT_BASE, cert.value.name, certData);
  }

  lemma ConfigNamesHold(b: Build, w: World, p: Prepared, env: Environment)
    requires EnsureConfigs(b, w, p, env).1.Ok?
    ensures var (w', r) := EnsureConfigs(b, w, p, env);
      var named := p.input.(otelConfig := r.value.input.otelConfig);
      && r.value.input == named.(traefikConfig := r.value.input.traefikConfig)
      && RenderOtel(b, w.db.configs, p.input).Some?
      && Holds(w'.configs, r.value.input.otelConfig, RenderOtel(b, w.db.configs, p.input).value)
      && RenderTraefik(b, w.db.configs, named).Some?
      && Holds(w'.configs, r.value.input.traefikConfig, RenderTraefik(b, w.db.configs, named).value)
      && CurrentName(TRAEFIK_BASE, w'.configs) == r.value.input.traefikConfig && Newest(TRAEFIK_BASE, w'.configs) > 0
      && VersionPrefix(OTEL_BASE) <= r.value.input.otelConfig && VersionPrefix(TRAEFIK_BASE) <= r.value.input.traefikConfig
      && RenderStack(b, w.db.configs, Edge, r.value.input).Some?
      && HoldsUnder(w'.configs, EDGE_BASE, RenderStack(b, w.db.configs, Edge, r.value.input).value)
  {
    PlatformBasesApart();
    hide RenderOtel, RenderTraefik, RenderStack, Holds, Apart;
    var (w1, r1) := EnsureOtel(b, w, p, env);
    var (w2, r2) := EnsureTraefik(b, w1, r1.value, env);
    var otel := RenderOtel(b, w.db.configs, p.input).value;
    var traefik := RenderTraefik(b, w1.db.configs, r1.value.input).value;
    var edge := RenderStack(b, w2.db.configs, Edge, r2.value.input).value;
    EnsuredHolds(DockerConfig, w.configs, OTEL_BASE, otel, env.otel);
    EnsureFrame(DockerConfig, w.configs, OTEL_BASE, otel, env.otel, TRAEFIK_BASE);
    EnsuredHolds(DockerConfig, w1.configs, TRAEFIK_BASE, traefik, env.traefik);
    EnsureNewest(DockerConfig, w1.configs, TRAEFIK_BASE, traefik, env.traefik);
    StillHolds(DockerConfig, w1.configs, TRAEFIK_BASE, traefik, env.traefik, OTEL_BASE, r1.value.input.otelConfig, otel);
    StillHolds(DockerConfig, w2.configs, EDGE_BASE, edge, env.edge, OTEL_BASE, r1.value.input.otelConfig, otel);
    StillHolds(DockerConfig, w2.configs, EDGE_BASE, edge, env.edge, TRAEFIK_BASE, r2.value.input.traefikConfig, traefik);
    EnsureFrame(DockerConfig, w2.configs, EDGE_BASE, edge, env.edge, TRAEFIK_BASE);
    EnsuredHolds(DockerConfig, w2.configs, EDGE_BASE, edge, env.edge);
  }

  // ---------------------------------------------------------------------------
  // Whole updates
  // ---------------------------------------------------------------------------

  /** The render input as it was before any object had a name. */
  function Unnamed(input: RenderInput): RenderInput {
    input.(otelConfig := "", traefikConfig := "")
  }

  lemma PlanPrepared(b: Build, w: World, version: string, env: Environment)
    requires MakePlan(b, w, version, env).1.Ok?
    ensures var (w2, r2) := Prepare(b, w.(db := C.Sync(w.db, C.CONFIG_NAMES, b.embedded, version)), true, env);
      && r2.Ok?
      && MakePlan(b, w, version, env).1.value.world == w2
      && MakePlan(b, w, version, env).1.value.prepared == r2.value
  {
    hide Prepare, RenderAll, C.Sync;
    var (w2, r2) := Prepare(b, w.(db := C.Sync(w.db, C.CONFIG_NAMES, b.embedded, version)), true, env);
    assert r2.Ok?;
    RenderPlanGives(b, w2, r2.value);
    hide RenderPlan;
  }

  lemma PrepareStages(b: Build, w: World, check: bool, env: Environment)
    requires Prepare(b, w, check, env).1.Ok?
    ensures var (w0, r0) := Load(b, w, check, env);
      r0.Ok? && var (w1, r1) := EnsureTls(w0, r0.value, env);
      r1.Ok? && EnsureConfigs(b, w1, r1.value, env) == Prepare(b, w, check, env)
  {
    var (w0, r0) := Load(b, w, check, env);
    assert r0.Ok?;
    var (w1, r1) := EnsureTls(w0, r0.value, env);
    assert r1.Ok?;
  }

  lemma LoadedInput(b: Build, w: World, check: bool, env: Environment)
    requires Load(b, w, check, env).1.Ok?
    ensures var (w0, r0) := Load(b, w, check, env);
      && w0 == w.(cookie := w0.cookie)
      && r0.value.input.otelConfig == "" && r0.value.input.traefikConfig == ""
      && r0.value.input.acmeEmail == w.settings.acmeEmail
      && r0.value.input.hostCerts == OtherHosts(w.hostCerts, w.settings.domain)
  {
  }

  lemma TlsInput(w: World, p: Prepared, env: Environment)
    requires EnsureTls(w, p, env).1.Ok?
    ensures var (w', r) := EnsureTls(w, p, env);
      r.value.input == p.input.(certSecret := r.value.input.certSecret, keySecret := r.value.input.keySecret)
      && w' == w.(secrets := w'.secrets)
  {
    hide Ensure;
  }

  /** Everything the render input of an update names exists and holds what it stands for, after all minting and
      collecting: the OTel and Traefik configs hold their renders, and without ACME the two secrets hold the
      certificate files. The per-host rows in it are the ones stored before this update. */
  lemma InputNamesHold(b: Build, w: World, version: string, env: Environment)
    requires MakePlan(b, w, version, env).1.Ok? && ObjectsSound(w)
    ensures var plan := MakePlan(b, w, version, env).1.value;
      var input, rows := plan.prepared.input, plan.world.db.configs;
      && RenderOtel(b, rows, Unnamed(input)).Some?
      && Holds(plan.world.configs, input.otelConfig, RenderOtel(b, rows, Unnamed(input)).value)
      && RenderTraefik(b, rows, input.(traefikConfig := "")).Some?
      && Holds(plan.world.configs, input.traefikConfig, RenderTraefik(b, rows, input.(traefikConfig := "")).value)
      && (input.acmeEmail == "" ==>
            && w.settings.certPath in w.files && w.settings.keyPath in w.files
            && Holds(plan.world.secrets, input.certSecret, w.files[w.settings.certPath])
            && Holds(plan.world.secrets, input.keySecret, w.files[w.settings.keyPath])
            && VersionPrefix(CERT_BASE) <= input.certSecret && VersionPrefix(KEY_BASE) <= input.keySecret)
      && input.acmeEmail == w.settings.acmeEmail
      && input.hostCerts == OtherHosts(w.hostCerts, w.settings.domain)
      && CurrentName(TRAEFIK_BASE, plan.world.configs) == input.traefikConfig && Newest(TRAEFIK_BASE, plan.world.configs) > 0
      && VersionPrefix(OTEL_BASE) <= input.otelConfig && VersionPrefix(TRAEFIK_BASE) <= input.traefikConfig
      && RenderStack(b, rows, Edge, input).Some? && HoldsUnder(plan.world.configs, EDGE_BASE, RenderStack(b, rows, Edge, input).value)
  {
    hide RenderOtel, RenderTraefik, RenderStack, Holds, HoldsUnder, Sound, EnsureTls, EnsureConfigs, Load, RenderAll, MakePlan;
    PlanPrepared(b, w, version, env);
    var synced := w.(db := C.Sync(w.db, C.CONFIG_NAMES, b.embedded, version));
    PrepareStages(b, synced, true, env);
    var (w0, r0) := Load(b, synced, true, env);
    LoadedInput(b, synced, true, env);
    var (w1, r1) := EnsureTls(w0, r0.value, env);
    TlsInput(w0, r0.value, env);
    if r0.value.input.acmeEmail == "" {
      TlsNamesHold(w0, r0.value, env);
    }
    ConfigsFrame(b, w1, r1.value, env);
    ConfigNamesHold(b, w1, r1.value, env);
  }

  /** Soundness of the two bases survives every update whose hash writes succeed, whatever else fails. */
  lemma UpdateKeepsSound(b: Build, w: World, version: string, env: Environment)
    requires ObjectsSound(w) && !env.cert.recordFails && !env.key.recordFails
    ensures ObjectsSound(Update(b, w, version, env).0)
  {
    if !env.preflightFails {
      var synced := w.(db := C.Sync(w.db, C.CONFIG_NAMES, b.embedded, version));
      PrepareKeepsSound(b, synced, env);
      hide Prepare, Sound, Deploy, RenderAll, Snapshot;
      assert Update(b, w, version, env).0.secrets == Prepare(b, synced, true, env).0.secrets;
    }
  }

  lemma PrepareKeepsSound(b: Build, w: World, env: Environment)
    requires ObjectsSound(w) && !env.cert.recordFails && !env.key.recordFails
    ensures ObjectsSound(Prepare(b, w, true, env).0)
  {
    var (w0, r0) := Load(b, w, true, env);
    assert w0.secrets == w.secrets;
    hide Load, Sound, EnsureConfigs;
    if r0.Ok? {
      TlsKeepsSound(w0, r0.value, env);
      var (w1, r1) := EnsureTls(w0, r0.value, env);
      if r1.Ok? {
        ConfigsFrame(b, w1, r1.value, env);
      }
    }
  }

  lemma TlsKeepsSound(w: World, p: Prepared, env: Environment)
    requires ObjectsSound(w) && !env.cert.recordFails && !env.key.recordFails
    ensures ObjectsSound(EnsureTls(w, p, env).0)
  {
    PlatformBasesApart();
    hide Ensure, Sound, Apart;
    if p.input.acmeEmail == "" && w.settings.certPath in w.files {
      var certData := w.files[w.settings.certPath];
      var (v1, cert) := Ensure(Secret, w.secrets, CERT_BASE, certData, env.cert);
      EnsureKeepsSound(Secret, w.secrets, CERT_BASE, certData, env.cert);
      EnsureFrame(Secret, w.secrets, CERT_BASE, certData, env.cert, KEY_BASE);
      if w.settings.keyPath in w.files {
        var keyData := w.files[w.settings.keyPath];
        EnsureKeepsSound(Secret, v1, KEY_BASE, keyData, env.key);
        EnsureFrame(Secret, v1, KEY_BASE, keyData, env.key, CERT_BASE);
      }
    }
  }

  // ---------------------------------------------------------------------------
  // Certificates applied with a refresh
  // ---------------------------------------------------------------------------

  /** Applying a per-host certificate with a refresh runs the update before it stores the row. The Traefik config
      that refresh leaves is therefore the render of the old rows; with the new rows the next update reuses it if
      and only if both render to the same text. */
  lemma RefreshRendersOldRows(b: Build, w: World, version: string, env: Environment, later: seq<HostCert>)
    requires MakePlan(b, w, version, env).1.Ok? && ObjectsSound(w)
    ensures var plan := MakePlan(b, w, version, env).1.value;
      var rows, before := plan.world.db.configs, plan.prepared.input.(traefikConfig := "");
      var after := before.(hostCerts := OtherHosts(later, w.settings.domain));
      && before.hostCerts == OtherHosts(w.hostCerts, w.settings.domain)
      && RenderTraefik(b, rows, before).Some?
      && (RenderTraefik(b, rows, after).Some? ==>
            (Reuses(DockerConfig, plan.world.configs, TRAEFIK_BASE, RenderTraefik(b, rows, after).value) <==>
             RenderTraefik(b, rows, after) == RenderTraefik(b, rows, before)))
  {
    hide MakePlan, RenderTraefik, RenderOtel, OtherHosts;
    InputNamesHold(b, w, version, env);
  }

  // ---------------------------------------------------------------------------
  // When an update gets through
  // ---------------------------------------------------------------------------

  predicate Smooth(f: Faults) {
    !f.createFails && !f.recordFails
  }

  /** Nothing fails in the swarm or the tables; removals of old versions may. */
  predicate SmoothEnvironment(env: Environment) {
    && !env.preflightFails && env.failing == map[]
    && Smooth(env.cert) && Smooth(env.key) && Smooth(env.otel) && Smooth(env.traefik) && Smooth(env.edge)
  }

  /** The build's templates render for every input. */
  ghost predicate RendersAll(b: Build) {
    && (forall s, body, input :: b.compose(s, body, input).Some?)
    && (forall body, input :: b.otel(body, input).Some?)
    && (forall body, input :: b.traefik(body, input).Some?)
  }

  /** The state that `cluster up` must have left. */
  predicate Complete(b: Build, w: World) {
    && w.settings.domain != "" && SsoValid(b, w.settings.sso)
    && w.admin.Some? && w.admin.value.email != "" && w.admin.value.password != ""
    && (w.settings.acmeEmail != "" ||
        (w.settings.certPath != "" && w.settings.keyPath != "" &&
         w.settings.certPath in w.files && w.settings.keyPath in w.files))
  }

  lemma SmoothEnsure(kind: Kind, v: Vault, base: string, data: string, f: Faults)
    requires Smooth(f)
    ensures Ensure(kind, v, base, data, f).1.Ok?
  {
  }

  lemma SmoothTlsIff(w: World, p: Prepared, env: Environment)
    requires SmoothEnvironment(env)
    ensures EnsureTls(w, p, env).1.Ok? <==>
      p.input.acmeEmail != "" ||
      (w.settings.certPath != "" && w.settings.keyPath != "" && w.settings.certPath in w.files && w.settings.keyPath in w.files)
  {
    hide Ensure;
    if w.settings.certPath in w.files {
      var certData := w.files[w.settings.certPath];
      SmoothEnsure(Secret, w.secrets, CERT_BASE, certData, env.cert);
      if w.settings.keyPath in w.files {
        SmoothEnsure(Secret, Ensure(Secret, w.secrets, CERT_BASE, certData, env.cert).0, KEY_BASE, w.files[w.settings.keyPath], env.key);
      }
    }
  }

  lemma SmoothConfigsIff(b: Build, w: World, p: Prepared, env: Environment)
    requires SmoothEnvironment(env) && RendersAll(b) && p.input.domain != ""
    ensures EnsureConfigs(b, w, p, env).1.Ok? <==> p.input.adminEmail != "" && p.input.adminPassword != ""
  {
    hide Ensure;
    if p.input.adminEmail != "" && p.input.adminPassword != "" {
      var otel := RenderOtel(b, w.db.configs, p.input).value;
      SmoothEnsure(DockerConfig, w.configs, OTEL_BASE, otel, env.otel);
      var (w1, r1) := EnsureOtel(b, w, p, env);
      var traefik := RenderTraefik(b, w1.db.configs, r1.value.input).value;
      SmoothEnsure(DockerConfig, w1.configs, TRAEFIK_BASE, traefik, env.traefik);
      var (w2, r2) := EnsureTraefik(b, w1, r1.value, env);
      var edge := RenderStack(b, w2.db.configs, Edge, r2.value.input).value;
      SmoothEnsure(DockerConfig, w2.configs, EDGE_BASE, edge, env.edge);
    }
  }

  /** When nothing fails and the templates render, an update succeeds if and only if the persisted state is
      complete; old versions that cannot be removed do not matter. */
  lemma UpdateSucceedsIff(b: Build, w: World, version: string, env: Environment)
    requires SmoothEnvironment(env) && RendersAll(b)
    ensures Update(b, w, version, env).1.Ok? <==> Complete(b, w)
  {
    var synced := w.(db := C.Sync(w.db, C.CONFIG_NAMES, b.embedded, version));
    SmoothPrepareIff(b, synced, env);
    var (w1, p) := Prepare(b, synced, true, env);
    if p.Ok? {
      PreparedInput(b, synced, env);
      RendersEverything(b, w1.db.configs, p.value.input);
      MakePlanGives(b, w, version, env);
      CalmReconcileSucceeds(b, w, version, MakePlan(b, w, version, env).1.value, env);
    }
  }

  lemma RendersEverything(b: Build, rows: map<string, C.ConfigRow>, input: RenderInput)
    requires RendersAll(b) && input.domain != "" && input.adminEmail != "" && input.adminPassword != ""
    ensures RenderAll(b, rows, input).Some?
  {
  }

  lemma PreparedInput(b: Build, w: World, env: Environment)
    requires Prepare(b, w, true, env).1.Ok?
    ensures var input := Prepare(b, w, true, env).1.value.input;
      input.domain != "" && input.adminEmail != "" && input.adminPassword != ""
  {
    var (w0, r0) := Load(b, w, true, env);
    var (w1, r1) := EnsureTls(w0, r0.value, env);
    TlsInput(w0, r0.value, env);
    hide EnsureTls;
    ConfigNamesHold(b, w1, r1.value, env);
  }

  lemma SmoothPrepareIff(b: Build, w: World, env: Environment)
    requires SmoothEnvironment(env) && RendersAll(b)
    ensures Prepare(b, w, true, env).1.Ok? <==> Complete(b, w)
  {
    hide EnsureTls, EnsureConfigs, RendersAll, SsoValid;
    var (w0, r0) := Load(b, w, true, env);
    if r0.Ok? {
      SmoothTlsIff(w0, r0.value, env);
      var (w1, r1) := EnsureTls(w0, r0.value, env);
      if r1.Ok? {
        TlsInput(w0, r0.value, env);
        SmoothConfigsIff(b, w1, r1.value, env);
      }
    }
  }
}
