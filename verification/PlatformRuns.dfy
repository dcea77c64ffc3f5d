/** Whole histories of a platform: edits of the config store, changes of settings and swarm objects, updates by any
    build, and `cluster up`, which deploys every stack first and stores the snapshots last. */
module PlatformRuns {
  import opened Common
  import opened VersionedObjects
  import opened PlatformUpdate
  import opened PlatformConvergence
  import C = ConfigStore

  // ---------------------------------------------------------------------------
  // Bringing the cluster up
  // ---------------------------------------------------------------------------

  /** The settings a finished `up` saves one by one. */
  datatype InstallKey = TlsMode | CertPath | KeyPath | AcmeEmail | Domain

  /** One `cluster up`: the render input that flags and bootstrapped credentials give, the TLS settings to be saved, and
      what the environment does, down to the settings that really get saved. */
  datatype Install = Install(input: RenderInput, tlsMode: string, certPath: string, keyPath: string,
                             provisionFails: bool, failing: map<Stack, Option<string>>, unhealthy: bool, saved: set<InstallKey>)

  const TLS_KEYS := {TlsMode, CertPath, KeyPath, AcmeEmail}

  function UpOrder(sso: bool): seq<Stack> {
    [Infra, Edge, Observability, Backup] + if sso then [Sso] else []
  }

  /** The single sign-on settings are the stored ones. */
  function InputOf(w: World, i: Install): RenderInput {
    i.input.(sso := w.settings.sso)
  }

  ghost function Synced(b: Build, w: World, version: string): C.ConfigDb {
    C.Sync(w.db, C.CONFIG_NAMES, b.embedded, version)
  }

  ghost predicate HasClusterRow(db: C.ConfigDb) {
    exists n :: n in db.configs && db.configs[n].scope == C.Cluster
  }

  /** `up` is for fresh installs only: it refuses once a domain or a TLS mode is saved or a config row is the cluster's. */
  ghost predicate Installed(w: World) {
    w.settings.domain != "" || w.settings.tlsMode != "" || HasClusterRow(w.db)
  }

  /** The domain is saved behind all TLS settings. */
  function Persisted(s: Settings, i: Install): Settings {
    s.(tlsMode := if TlsMode in i.saved then i.tlsMode else s.tlsMode,
       certPath := if CertPath in i.saved then i.certPath else s.certPath,
       keyPath := if KeyPath in i.saved then i.keyPath else s.keyPath,
       acmeEmail := if AcmeEmail in i.saved then i.input.acmeEmail else s.acmeEmail,
       domain := if TLS_KEYS <= i.saved && Domain in i.saved then i.input.domain else s.domain)
  }

  /** The world afterwards, and whether the `up` reports success. */
  ghost function Up(b: Build, w: World, version: string, i: Install): (World, bool) {
    if Installed(w) then (w, false)
    else
      var db, input := Synced(b, w, version), InputOf(w, i);
      if i.provisionFails then (w.(db := db), false)
      else
        var (live, r) := Deploy(b, db.configs, input, UpOrder(input.sso.enabled), w.live, i.failing);
        var rendered := RenderAll(b, db.configs, input);
        if r.Err? || i.unhealthy || rendered.None? then (w.(db := db, live := live), false)
        else
          (w.(db := Snapshot(db, rendered.value), live := live, settings := Persisted(w.settings, i)), TLS_KEYS + {Domain} <= i.saved)
  }

  lemma UpOrderIs(sso: bool)
    ensures UpOrder(sso) == if sso then [Infra, Edge, Observability, Backup, Sso] else [Infra, Edge, Observability, Backup]
    ensures AllDifferent(UpOrder(sso))
    ensures forall s :: s in UpOrder(sso) <==> s in Order(sso)
  {
    assert UpOrder(false) == [Infra, Edge, Observability, Backup] && Order(false) == [Observability, Infra, Edge, Backup];
    assert UpOrder(true) == [Infra, Edge, Observability, Backup, Sso] && Order(true) == [Observability, Infra, Edge, Backup, Sso];
  }

  /** The stacks this `up` cannot get past. */
  ghost function UpBlocking(b: Build, w: World, version: string, i: Install): map<Stack, Option<string>> {
    Blocking(b, Synced(b, w, version).configs, InputOf(w, i), w.live, i.failing)
  }

  /** What it makes of a stack. */
  ghost function UpFate(b: Build, w: World, version: string, i: Install, s: Stack): Option<string> {
    Fate(UpOrder(w.settings.sso.enabled), UpBlocking(b, w, version, i), s,
         RenderStack(b, Synced(b, w, version).configs, s, InputOf(w, i)), At(w.live, s))
  }

  /** Whether it gets as far as storing the snapshots, decided before the first deploy. */
  ghost predicate Deploys(b: Build, w: World, version: string, i: Install) {
    var order := UpOrder(w.settings.sso.enabled);
    && !Installed(w) && !i.provisionFails
    && FirstFailing(order, UpBlocking(b, w, version, i)) == |order| && !i.unhealthy
    && RenderAll(b, Synced(b, w, version).configs, InputOf(w, i)).Some?
  }

  /** What `up` does, stage by stage. */
  lemma UpDeploys(b: Build, w: World, version: string, i: Install, s: Stack)
    ensures var (w', ok) := Up(b, w, version, i);
      && (Installed(w) ==> w' == w)
      && (!Installed(w) ==>
            && At(w'.live, s) == (if i.provisionFails then At(w.live, s) else UpFate(b, w, version, i, s))
            && (!Deploys(b, w, version, i) ==> w' == w.(db := Synced(b, w, version), live := w'.live)))
      && (Deploys(b, w, version, i) ==>
            && w'.db == Snapshot(Synced(b, w, version), RenderAll(b, Synced(b, w, version).configs, InputOf(w, i)).value)
            && w'.settings == Persisted(w.settings, i))
      && (ok <==> Deploys(b, w, version, i) && TLS_KEYS + {Domain} <= i.saved)
  {
    UpOrderIs(w.settings.sso.enabled);
    hide RenderStack, RenderAll, Snapshot, Deploy, Fate, FirstFailing, Blocking, AllDifferent, UpOrder, At, Synced, Persisted, Installed;
    var rows, input, order := Synced(b, w, version).configs, InputOf(w, i), UpOrder(w.settings.sso.enabled);
    DeployFates(b, rows, input, order, w.live, i.failing, s);
    var (_, r) := Deploy(b, rows, input, order, w.live, i.failing);
    assert r.Ok? <==> FirstFailing(order, UpBlocking(b, w, version, i)) == |order|;
  }

  /** The stored hash of a stack, if there is one, is that of a content. */
  ghost predicate Covers(db: C.ConfigDb, s: Stack, content: Option<string>) {
    StackConfig(s) in db.configs && db.configs[StackConfig(s)].renderedHash != NoDigest ==>
      content.Some? && db.configs[StackConfig(s)].renderedHash == ContentHash(content.value)
  }

  lemma SyncedCovers(b: Build, w: World, version: string, s: Stack, content: Option<string>)
    requires C.Consistent(w.db)
    ensures C.Consistent(Synced(b, w, version))
    ensures StackConfig(s) in Synced(b, w, version).configs
    ensures Covers(Synced(b, w, version), s, content) <==> Covers(w.db, s, content)
    ensures Synced(b, w, version).configs[StackConfig(s)].renderedHash ==
            if StackConfig(s) in w.db.configs then w.db.configs[StackConfig(s)].renderedHash else NoDigest
  {
    ConfigNames();
    C.SyncEffect(w.db, C.CONFIG_NAMES, b.embedded, version, StackConfig(s));
  }

  lemma OutsideUp(b: Build, w: World, version: string, i: Install, s: Stack)
    requires s !in UpOrder(w.settings.sso.enabled)
    ensures UpFate(b, w, version, i, s) == At(w.live, s)
  {
  }

  /** An `up` that stores its snapshots runs and covers every enabled stack. */
  lemma SnapshotsCover(b: Build, w: World, version: string, i: Install, s: Stack)
    requires C.Consistent(w.db) && Deploys(b, w, version, i)
    ensures var w' := Up(b, w, version, i).0;
      FaithfulTo(w'.db, w'.live, s) <==> s in Order(w.settings.sso.enabled) || FaithfulTo(w.db, w.live, s)
  {
    var order, db, input := UpOrder(w.settings.sso.enabled), Synced(b, w, version), InputOf(w, i);
    UpDeploys(b, w, version, i, s);
    hide Up, Synced, Snapshot, RenderAll, RenderStack, UpOrder, Order, FirstFailing, At, UpBlocking, Installed;
    UpOrderIs(w.settings.sso.enabled);
    SyncedCovers(b, w, version, s, At(w.live, s));
    SnapshotRow(b, db, input, s);
    FaithfulCovers(w, s);
    FaithfulCovers(Up(b, w, version, i).0, s);
    if s in order {
      assert order[..|order|] == order;
    } else {
      OutsideUp(b, w, version, i, s);
      hide UpFate;
    }
  }

  lemma FaithfulCovers(w: World, s: Stack)
    ensures FaithfulTo(w.db, w.live, s) <==> Covers(w.db, s, At(w.live, s))
  {
  }

  /** The row of a stack once a completed `up` has stored its snapshots. */
  lemma SnapshotRow(b: Build, db: C.ConfigDb, input: RenderInput, s: Stack)
    requires RenderAll(b, db.configs, input).Some? && StackConfig(s) in db.configs
    ensures StackConfig(s) in Snapshot(db, RenderAll(b, db.configs, input).value).configs
    ensures var rendered := RenderAll(b, db.configs, input).value;
      var row := Snapshot(db, rendered).configs[StackConfig(s)];
      && (s in Order(input.sso.enabled) ==>
            RenderStack(b, db.configs, s, input).Some? &&
            row.renderedHash == ContentHash(RenderStack(b, db.configs, s, input).value) &&
            row.rendered == RenderStack(b, db.configs, s, input).value)
      && (s !in Order(input.sso.enabled) ==> row == db.configs[StackConfig(s)])
  {
    ConfigNames();
    assert RenderConfig(b, db.configs, StackConfig(s), input) == RenderStack(b, db.configs, s, input);
  }

  /** Each hash stored for an enabled stack fits what the `up` makes of it. */
  ghost predicate LeavesCovered(b: Build, w: World, version: string, i: Install) {
    forall s :: s in UpOrder(w.settings.sso.enabled) ==> Covers(w.db, s, UpFate(b, w, version, i, s))
  }

  lemma BrokenUp(b: Build, w: World, version: string, i: Install, s: Stack)
    requires C.Consistent(w.db) && !Installed(w) && !Deploys(b, w, version, i)
    ensures var w' := Up(b, w, version, i).0;
      FaithfulTo(w'.db, w'.live, s) <==> Covers(w.db, s, if i.provisionFails then At(w.live, s) else UpFate(b, w, version, i, s))
  {
    UpDeploys(b, w, version, i, s);
    hide Up, Synced, UpFate, Deploys, Installed;
    SyncedCovers(b, w, version, s, At(Up(b, w, version, i).0.live, s));
  }

  lemma SnapshotsConsistent(b: Build, w: World, version: string, i: Install)
    requires C.Consistent(w.db)
    ensures C.Consistent(Up(b, w, version, i).0.db)
  {
    SyncedCovers(b, w, version, Infra, None);
    hide Synced, Snapshot, RenderAll, Deploy;
    var rendered := RenderAll(b, Synced(b, w, version).configs, InputOf(w, i));
    if rendered.Some? {
      SnapshotKeepsConsistent(Synced(b, w, version), rendered.value);
    }
  }

  /** Snapshots are stored last. Stored hashes and running stacks agree after an `up` exactly when it is refused, breaks off
      before the first deploy, stores its snapshots, or leaves at every enabled stack what fits the hash stored before. */
  lemma FaithfulAfterUpIff(b: Build, w: World, version: string, i: Install)
    requires C.Consistent(w.db) && Faithful(w)
    ensures C.Consistent(Up(b, w, version, i).0.db)
    ensures Faithful(Up(b, w, version, i).0) <==>
            Installed(w) || i.provisionFails || Deploys(b, w, version, i) || LeavesCovered(b, w, version, i)
  {
    var w' := Up(b, w, version, i).0;
    SnapshotsConsistent(b, w, version, i);
    UpDeploys(b, w, version, i, Infra);
    hide Up, UpFate, FaithfulTo, Deploys, Installed;
    if !Installed(w) {
      forall s
        ensures Deploys(b, w, version, i) ==> FaithfulTo(w'.db, w'.live, s)
        ensures !Deploys(b, w, version, i) ==>
          (FaithfulTo(w'.db, w'.live, s) <==> Covers(w.db, s, if i.provisionFails then At(w.live, s) else UpFate(b, w, version, i, s)))
        ensures Covers(w.db, s, At(w.live, s))
        ensures s !in UpOrder(w.settings.sso.enabled) ==> UpFate(b, w, version, i, s) == At(w.live, s)
      {
        assert FaithfulTo(w.db, w.live, s);
        FaithfulCovers(w, s);
        if Deploys(b, w, version, i) {
          SnapshotsCover(b, w, version, i, s);
        } else {
          BrokenUp(b, w, version, i, s);
        }
        if s !in UpOrder(w.settings.sso.enabled) {
          OutsideUp(b, w, version, i, s);
        }
      }
    }
    hide Covers, UpOrder, At;
  }

  /** Only the cluster's own rows hold snapshots of stacks; no service config has taken a stack's name. */
  ghost predicate OwnSnapshots(db: C.ConfigDb) {
    forall s :: StackConfig(s) in db.configs && db.configs[StackConfig(s)].scope != C.Cluster ==>
      db.configs[StackConfig(s)].renderedHash == NoDigest
  }

  /** So every `up` keeps stored hashes and running stacks in agreement, wherever it breaks off: one that is not refused
      finds no snapshot. */
  lemma UpKeepsFaithful(b: Build, w: World, version: string, i: Install)
    requires C.Consistent(w.db) && Faithful(w) && OwnSnapshots(w.db)
    ensures Faithful(Up(b, w, version, i).0) && C.Consistent(Up(b, w, version, i).0.db)
  {
    FaithfulAfterUpIff(b, w, version, i);
    hide Up, UpFate, Faithful;
    if !Installed(w) {
      assert LeavesCovered(b, w, version, i);
    }
  }

  // ---------------------------------------------------------------------------
  // After an `up` that broke off
  // ---------------------------------------------------------------------------

  /** Too far for `up`, which refuses, and not far enough for an update, which asks for the domain. */
  ghost predicate Stuck(w: World) {
    w.settings.domain == "" && Installed(w)
  }

  lemma UpdateNeedsDomain(b: Build, w: World, version: string, env: Environment)
    requires w.settings.domain == ""
    ensures Update(b, w, version, env).1 == Err(if env.preflightFails then PreflightFailed else NoDomain)
    ensures var w' := Update(b, w, version, env).0;
      w' == if env.preflightFails then w else w.(db := Synced(b, w, version))
  {
  }

  /** When an `up` that ended without success leaves the cluster stuck: it met a cluster without domain that it refused, or
      a bundled config had no row yet, so that the sync gave it one, or a TLS mode got saved. */
  lemma BrokenUpSticksIff(b: Build, w: World, version: string, i: Install)
    requires !Up(b, w, version, i).1
    ensures Stuck(Up(b, w, version, i).0) <==>
      if Installed(w) then w.settings.domain == ""
      else
        || (exists n :: n in C.CONFIG_NAMES && n !in w.db.configs)
        || (Deploys(b, w, version, i) && TlsMode in i.saved && i.tlsMode != "")
  {
    UpDeploys(b, w, version, i, Infra);
    if !Installed(w) {
      hide Up, Deploys, Synced, HasClusterRow, RenderAll, Snapshot;
      SyncedRows(b, w, version);
      if Deploys(b, w, version, i) {
        SnapshotRows(Synced(b, w, version), RenderAll(b, Synced(b, w, version).configs, InputOf(w, i)).value);
      }
    }
  }

  lemma SnapshotRows(db: C.ConfigDb, rendered: map<string, string>)
    ensures HasClusterRow(Snapshot(db, rendered)) <==> HasClusterRow(db)
  {
    var db' := Snapshot(db, rendered);
    assert forall n :: n in db.configs <==> n in db'.configs;
    assert forall n :: n in db.configs ==> db'.configs[n].scope == db.configs[n].scope;
  }

  lemma SyncedScopes(b: Build, w: World, version: string, n: string)
    ensures var db := Synced(b, w, version);
      && (n in db.configs <==> n in w.db.configs || n in C.CONFIG_NAMES)
      && (n in db.configs ==> db.configs[n].scope == if n in w.db.configs then w.db.configs[n].scope else C.Cluster)
  {
    C.SyncScopes(w.db, C.CONFIG_NAMES, b.embedded, version, n);
  }

  /** A sync leaves a row of the cluster's exactly if there was one or a bundled config has none. */
  lemma SyncedRows(b: Build, w: World, version: string)
    ensures HasClusterRow(Synced(b, w, version)) <==>
            HasClusterRow(w.db) || exists n :: n in C.CONFIG_NAMES && n !in w.db.configs
  {
    forall n
      ensures var db := Synced(b, w, version);
        && (n in db.configs <==> n in w.db.configs || n in C.CONFIG_NAMES)
        && (n in db.configs ==> db.configs[n].scope == if n in w.db.configs then w.db.configs[n].scope else C.Cluster)
    {
      SyncedScopes(b, w, version, n);
    }
    hide Synced;
    var db := Synced(b, w, version);
    if HasClusterRow(w.db) {
      var n :| n in w.db.configs && w.db.configs[n].scope == C.Cluster;
      assert n in db.configs && db.configs[n].scope == C.Cluster;
    }
    if n :| n in C.CONFIG_NAMES && n !in w.db.configs {
      assert n in db.configs && db.configs[n].scope == C.Cluster;
    }
  }

  // ---------------------------------------------------------------------------
  // Whole runs
  // ---------------------------------------------------------------------------

  /** What operators and the system do to the world: edits of the config store, changes of settings, credentials,
      certificates and swarm objects, and updates and `up`s by any build. */
  datatype Event =
    | Editing(op: C.DbOp)
    | Reconfiguring(settings: Settings, admin: Option<Admin>, cookie: Option<string>, files: map<string, string>,
                    hostCerts: seq<HostCert>, secrets: Vault, configs: Vault)
    | Updating(build: Build, version: string, env: Environment)
    | Installing(build: Build, version: string, install: Install)

  ghost function Step(w: World, e: Event): World {
    match e
    case Editing(op) => w.(db := C.Apply(w.db, op))
    case Reconfiguring(settings, admin, cookie, files, hostCerts, secrets, configs) =>
      World(w.db, settings, admin, cookie, files, hostCerts, secrets, configs, w.live)
    case Updating(b, version, env) => Update(b, w, version, env).0
    case Installing(b, version, install) => Up(b, w, version, install).0
  }

  /** No deploy of an update fails, and only updates and `up`s store snapshots. An `up` may end in any way; only one that
      meets the snapshot of a service config with a stack's name must not break off. */
  ghost predicate Calm(w: World, e: Event) {
    match e
    case Editing(op) => !op.Rendering?
    case Reconfiguring(_, _, _, _, _, _, _) => true
    case Updating(_, _, env) => env.failing == map[]
    case Installing(b, version, install) => 
      OwnSnapshots(w.db) || Installed(w) || install.provisionFails || Deploys(b, w, version, install)
  }

  ghost function Run(w: World, events: seq<Event>): World {
    if events == [] then w else Step(Run(w, events[..|events| - 1]), events[|events| - 1])
  }

  lemma StepKeepsFaithful(w: World, e: Event)
    requires C.Consistent(w.db) && Faithful(w) && Calm(w, e)
    ensures Faithful(Step(w, e)) && C.Consistent(Step(w, e).db)
  {
    match e
    case Editing(op) =>
      C.ApplyKeepsConsistent(w.db, op);
      forall s
        ensures FaithfulTo(C.Apply(w.db, op), w.live, s)
      {
        assert FaithfulTo(w.db, w.live, s);
      }
    case Reconfiguring(_, _, _, _, _, _, _) =>
      forall s
        ensures FaithfulTo(Step(w, e).db, Step(w, e).live, s)
      {
        assert FaithfulTo(w.db, w.live, s);
      }
    case Updating(b, version, env) =>
      CalmUpdateKeepsFaithful(b, w, version, env);
    case Installing(b, version, install) =>
      FaithfulAfterUpIff(b, w, version, install);
      if OwnSnapshots(w.db) {
        UpKeepsFaithful(b, w, version, install);
      }
  }

  ghost predicate CalmRun(w: World, events: seq<Event>) {
    events == [] ||
    (CalmRun(w, events[..|events| - 1]) && Calm(Run(w, events[..|events| - 1]), events[|events| - 1]))
  }

  /** The stored hashes agree with the swarm along every calm run from an agreeing world, such as one with
      nothing rendered yet; so each successful update at the end of a run leaves every enabled stack running
      what a read-only rendering then reports. */
  lemma {:induction false} RunConverges(w: World, events: seq<Event>)
    requires C.Consistent(w.db) && Faithful(w) && CalmRun(w, events)
    ensures Faithful(Run(w, events)) && C.Consistent(Run(w, events).db)
  {
    if events != [] {
      RunConverges(w, events[..|events| - 1]);
      StepKeepsFaithful(Run(w, events[..|events| - 1]), events[|events| - 1]);
    }
  }

  lemma UpdateAfterRunConverges(w: World, events: seq<Event>, b: Build, version: string, env: Environment, env': Environment)
    requires C.Consistent(w.db) && (forall n :: n in w.db.configs ==> w.db.configs[n].renderedHash == NoDigest)
    requires CalmRun(w, events)
    requires Update(b, Run(w, events), version, env).1.Ok? && !env'.preflightFails
    ensures var after := Update(b, Run(w, events), version, env).0;
      var shown := RenderClusterConfigs(b, after, env');
      && shown.0 == after && shown.1.Ok?
      && forall s :: s in Order(after.settings.sso.enabled) ==> RunsFresh(after.live, shown.1.value, s)
  {
    forall s ensures FaithfulTo(w.db, w.live, s) {}
    RunConverges(w, events);
    UpdateConverges(b, Run(w, events), version, env, env');
  }

  // ---------------------------------------------------------------------------
  // Runs without service configs under a stack's name
  // ---------------------------------------------------------------------------

  ghost predicate OwnNames(db: C.ConfigDb) {
    forall s :: StackConfig(s) in db.configs ==> db.configs[StackConfig(s)].scope == C.Cluster
  }

  /** No deploy of an update fails, snapshots are stored by updates and `up`s only, and no service config is created under
      the name of a stack's. An `up` may end in any way. */
  ghost predicate Tame(e: Event) {
    match e
    case Editing(op) =>
      !op.Rendering? && (op.Creating? && op.scope != C.Cluster ==> forall s :: op.name != StackConfig(s))
    case Reconfiguring(_, _, _, _, _, _, _) => true
    case Updating(_, _, env) => env.failing == map[]
    case Installing(_, _, _) => true
  }

  /** The tables an update leaves: as they were, synced, or synced with snapshots. */
  lemma UpdatedTables(b: Build, w: World, version: string, env: Environment, n: string)
    ensures var db := Update(b, w, version, env).0.db;
      && (n in w.db.configs ==> n in db.configs)
      && (n in db.configs ==> db.configs[n].scope == if n in w.db.configs then w.db.configs[n].scope else C.Cluster)
  {
    MakePlanGives(b, w, version, env);
    SyncedScopes(b, w, version, n);
    var (w1, plan) := MakePlan(b, w, version, env);
    hide MakePlan, Deploy, StaleStacks, C.Sync;
    if plan.Ok? {
      assert Update(b, w, version, env).0.db == Snapshot(Synced(b, w, version), plan.value.rendered);
    } else {
      assert Update(b, w, version, env).0 == w1;
    }
  }

  lemma UpTables(b: Build, w: World, version: string, i: Install, n: string)
    ensures var db := Up(b, w, version, i).0.db;
      && (n in w.db.configs ==> n in db.configs)
      && (n in db.configs ==> db.configs[n].scope == if n in w.db.configs then w.db.configs[n].scope else C.Cluster)
  {
    UpDeploys(b, w, version, i, Infra);
    SyncedScopes(b, w, version, n);
    hide Synced, Up, Deploys, RenderAll, Installed;
  }

  lemma StepKeepsNames(w: World, e: Event)
    requires OwnNames(w.db) && Tame(e)
    ensures OwnNames(Step(w, e).db)
  {
    forall s | StackConfig(s) in Step(w, e).db.configs
      ensures Step(w, e).db.configs[StackConfig(s)].scope == C.Cluster
    {
      match e
      case Editing(op) =>
      case Reconfiguring(_, _, _, _, _, _, _) =>
      case Updating(b, version, env) => UpdatedTables(b, w, version, env, StackConfig(s));
      case Installing(b, version, install) => UpTables(b, w, version, install, StackConfig(s));
    }
  }

  /** Such a run is calm, however its `up`s end. */
  lemma {:induction false} TameRunsAreCalm(w: World, events: seq<Event>)
    requires OwnNames(w.db) && forall e :: e in events ==> Tame(e)
    ensures OwnNames(Run(w, events).db) && CalmRun(w, events)
  {
    if events != [] {
      var front, last := events[..|events| - 1], events[|events| - 1];
      TameRunsAreCalm(w, front);
      assert last in events;
      StepKeepsNames(Run(w, front), last);
    }
  }

  // ---------------------------------------------------------------------------
  // Stuck for good
  // ---------------------------------------------------------------------------

  ghost predicate Attempts(e: Event) {
    e.Updating? || e.Installing?
  }

  ghost predicate Succeeds(w: World, e: Event)
    requires Attempts(e)
  {
    match e
    case Updating(b, version, env) => Update(b, w, version, env).1.Ok?
    case Installing(b, version, install) => Up(b, w, version, install).1
  }

  lemma StuckStep(w: World, e: Event)
    requires Stuck(w) && Attempts(e)
    ensures Stuck(Step(w, e)) && Step(w, e).live == w.live && !Succeeds(w, e)
  {
    match e
    case Updating(b, version, env) =>
      UpdateNeedsDomain(b, w, version, env);
      hide Update, Synced;
      SyncedRows(b, w, version);
    case Installing(b, version, install) =>
      UpDeploys(b, w, version, install, Infra);
  }

  /** The bad run: re-running is documented to reconcile, but once stuck, every `up` and every update of every build fails
      and none deploys anything. It takes a domain saved otherwise, as the setup wizard does, to go on. */
  lemma {:induction false} StuckStays(w: World, events: seq<Event>)
    requires Stuck(w) && forall e :: e in events ==> Attempts(e)
    ensures Stuck(Run(w, events)) && Run(w, events).live == w.live
    ensures forall k :: 0 <= k < |events| ==> Attempts(events[k]) && !Succeeds(Run(w, events[..k]), events[k])
  {
    if events != [] {
      hide Step, Succeeds, Stuck;
      var front, last := events[..|events| - 1], events[|events| - 1];
      assert forall e :: e in front ==> e in events;
      StuckStays(w, front);
      assert last in events;
      StuckStep(Run(w, front), last);
      forall k | 0 <= k < |events|
        ensures Attempts(events[k]) && !Succeeds(Run(w, events[..k]), events[k])
      {
        assert k < |front| ==> front[k] == events[k] && front[..k] == events[..k];
      }
    }
  }
}
