/** What a successful update leaves running and stored, said in the texts, settings and names it started from. */
module PlatformContents {
  import opened Common
  import opened VersionNames
  import opened VersionedObjects
  import opened PlatformUpdate
  import opened PlatformConvergence
  import opened PlatformObjects
  import C = ConfigStore
  import R = PlatformRuns

  /** The text behind a bundled name: that of its row if this is a template of the cluster's stamped with the running
      build, else the embedded one. */
  ghost function TemplateText(b: Build, rows: map<string, C.ConfigRow>, name: string): string {
    if name in rows && rows[name].scope == C.Cluster && rows[name].kind == C.Template && rows[name].version == b.version
    then rows[name].content
    else b.embedded(name)
  }

  // ---------------------------------------------------------------------------
  // The render input
  // ---------------------------------------------------------------------------

  /** The second sequence is what is left of the first without the host, in order. */
  ghost predicate WithoutHost(all: seq<HostCert>, host: string, left: seq<HostCert>) {
    exists at: seq<nat> ::
      && |at| == |left|
      && (forall i, j :: 0 <= i < j < |at| ==> at[i] < at[j])
      && (forall i :: 0 <= i < |at| ==> at[i] < |all| && left[i] == all[at[i]] && all[at[i]].host != host)
      && (forall k :: 0 <= k < |all| && all[k].host != host ==> k in at)
  }

  ghost function Kept(all: seq<HostCert>, host: string): seq<nat> {
    if all == [] then []
    else Kept(all[..|all| - 1], host) + if all[|all| - 1].host == host then [] else [|all| - 1]
  }

  lemma {:induction false} KeptRises(all: seq<HostCert>, host: string)
    ensures forall i :: 0 <= i < |Kept(all, host)| ==> Kept(all, host)[i] < |all|
    ensures forall i, j :: 0 <= i < j < |Kept(all, host)| ==> Kept(all, host)[i] < Kept(all, host)[j]
  {
    if all != [] {
      KeptRises(all[..|all| - 1], host);
    }
  }

  lemma {:induction false} KeptIs(all: seq<HostCert>, host: string)
    ensures |Kept(all, host)| == |OtherHosts(all, host)|
    ensures forall i :: 0 <= i < |Kept(all, host)| ==>
      Kept(all, host)[i] < |all| && OtherHosts(all, host)[i] == all[Kept(all, host)[i]] && all[Kept(all, host)[i]].host != host
  {
    if all != [] {
      KeptRises(all[..|all| - 1], host);
      KeptIs(all[..|all| - 1], host);
    }
  }

  lemma {:induction false} KeptAll(all: seq<HostCert>, host: string, k: nat)
    requires k < |all| && all[k].host != host
    ensures k in Kept(all, host)
  {
    if k < |all| - 1 {
      KeptAll(all[..|all| - 1], host, k);
    }
  }

  lemma OtherHostsAre(all: seq<HostCert>, host: string)
    ensures WithoutHost(all, host, OtherHosts(all, host))
  {
    var at := Kept(all, host);
    KeptRises(all, host);
    KeptIs(all, host);
    hide Kept, OtherHosts;
    forall k | 0 <= k < |all| && all[k].host != host
      ensures k in at
    {
      KeptAll(all, host, k);
    }
  }

  /** Every field of the input comes from its setting, the admin credential, the stored or newly minted cookie, and the
      certificates of the other hosts. */
  ghost predicate InputFrom(w: World, env: Environment, input: RenderInput) {
    var s := w.settings;
    && w.admin.Some?
    && input.domain == s.domain && input.acmeEmail == s.acmeEmail && input.sso == s.sso
    && input.adminEmail == w.admin.value.email && input.adminPassword == w.admin.value.password
    && input.edgeLoginDisabled == s.edgeLoginDisabled && input.backupAllNodes == s.backupAllNodes
    && input.backupRetentionDays == s.backupRetentionDays
    && input.ssoCookieSecret == (if !s.sso.enabled then "" else if w.cookie.Some? then w.cookie.value else env.mintedCookie)
    && WithoutHost(w.hostCerts, s.domain, input.hostCerts)
    && (s.acmeEmail != "" ==> input.certSecret == "" && input.keySecret == "")
  }

  lemma LoadedFields(b: Build, w: World, check: bool, env: Environment)
    requires Load(b, w, check, env).1.Ok?
    ensures var input := Load(b, w, check, env).1.value.input;
      InputFrom(w, env, input.(certSecret := "", keySecret := "")) && input.certSecret == "" && input.keySecret == ""
  {
    OtherHostsAre(w.hostCerts, w.settings.domain);
    hide OtherHosts, WithoutHost;
  }

  lemma PreparedFields(b: Build, w: World, check: bool, env: Environment)
    requires Prepare(b, w, check, env).1.Ok?
    ensures InputFrom(w, env, Prepare(b, w, check, env).1.value.input)
  {
    hide EnsureConfigs, Load, Prepare, WithoutHost, RenderOtel, RenderTraefik, RenderStack, Holds, HoldsUnder, CurrentName, Newest;
    PrepareStages(b, w, check, env);
    var (w0, r0) := Load(b, w, check, env);
    LoadedFields(b, w, check, env);
    LoadedInput(b, w, check, env);
    var (w1, r1) := EnsureTls(w0, r0.value, env);
    TlsInput(w0, r0.value, env);
    assert r0.value.input.acmeEmail != "" ==> r1.value.input == r0.value.input;
    hide EnsureTls;
    ConfigNamesHold(b, w1, r1.value, env);
  }

  lemma PlannedInput(b: Build, w: World, version: string, env: Environment)
    requires MakePlan(b, w, version, env).1.Ok?
    ensures InputFrom(w, env, MakePlan(b, w, version, env).1.value.prepared.input)
  {
    PlanPrepared(b, w, version, env);
    var synced := w.(db := C.Sync(w.db, C.CONFIG_NAMES, b.embedded, version));
    hide Prepare, MakePlan, C.Sync, InputFrom;
    PreparedFields(b, synced, true, env);
    SameInput(w, synced, env, Prepare(b, synced, true, env).1.value.input);
  }

  // ---------------------------------------------------------------------------
  // What runs
  // ---------------------------------------------------------------------------

  /** The stack runs the composition of the text of that name. */
  ghost predicate RunsText(b: Build, rows: map<string, C.ConfigRow>, live: map<Stack, string>, input: RenderInput, s: Stack, name: string) {
    s in live && b.compose(s, TemplateText(b, rows, name), input) == Some(live[s])
  }

  /** The row of that name stores, with its hash, what the stack runs. */
  ghost predicate StoresRunning(rows: map<string, C.ConfigRow>, live: map<Stack, string>, s: Stack, name: string) {
    name in rows && s in live && rows[name].rendered == live[s] && rows[name].renderedHash == Sha256(live[s])
  }

  ghost predicate EachRunsItsText(b: Build, rows: map<string, C.ConfigRow>, live: map<Stack, string>, input: RenderInput) {
    && RunsText(b, rows, live, input, Infra, "infra-stack") && StoresRunning(rows, live, Infra, "infra-stack")
    && RunsText(b, rows, live, input, Observability, "observability-stack") && StoresRunning(rows, live, Observability, "observability-stack")
    && RunsText(b, rows, live, input, Backup, "backup-stack") && StoresRunning(rows, live, Backup, "backup-stack")
    && RunsText(b, rows, live, input, Edge, "edge-stack") && StoresRunning(rows, live, Edge, "edge-stack")
    && (input.sso.enabled ==> RunsText(b, rows, live, input, Sso, "sso-stack") && StoresRunning(rows, live, Sso, "sso-stack"))
  }

  /** An enabled stack after a successful update, still in the update's own terms. */
  lemma RunsRendered(b: Build, w: World, version: string, env: Environment, s: Stack)
    requires C.Consistent(w.db) && Faithful(w) && Update(b, w, version, env).1.Ok? && s in Order(w.settings.sso.enabled)
    ensures MakePlan(b, w, version, env).1.Ok?
    ensures var w' := Update(b, w, version, env).0;
      var input := MakePlan(b, w, version, env).1.value.prepared.input;
      && s in w'.live && RenderStack(b, w'.db.configs, s, input) == Some(w'.live[s])
      && StackConfig(s) in w'.db.configs
      && w'.db.configs[StackConfig(s)].rendered == w'.live[s] && w'.db.configs[StackConfig(s)].renderedHash == ContentHash(w'.live[s])
  {
    MakePlanGives(b, w, version, env);
    var plan := MakePlan(b, w, version, env).1.value;
    assert Update(b, w, version, env) == Reconcile(b, plan, env);
    hide Update, MakePlan, RenderStack, RenderConfig, Faithful, StaleStacks, Deploy;
    ReconcileConverges(b, w, version, plan, env);
    PlannedRender(b, w, version, plan, s);
    PlannedRow(b, w, version, plan, StackConfig(s));
    assert RunsFresh(Reconcile(b, plan, env).0.live, plan.rendered, s);
    assert Reconcile(b, plan, env).0.db == Snapshot(plan.world.db, plan.rendered);
    hide Reconcile, Snapshot;
  }

  lemma RunsOwnText(b: Build, w: World, version: string, env: Environment, s: Stack, name: string)
    requires C.Consistent(w.db) && Faithful(w) && Update(b, w, version, env).1.Ok? && s in Order(w.settings.sso.enabled)
    requires name == StackConfig(s)
    ensures MakePlan(b, w, version, env).1.Ok?
    ensures var w' := Update(b, w, version, env).0;
      var input := MakePlan(b, w, version, env).1.value.prepared.input;
      RunsText(b, w'.db.configs, w'.live, input, s, name) && StoresRunning(w'.db.configs, w'.live, s, name)
  {
    hide Update, MakePlan, Faithful;
    RunsRendered(b, w, version, env, s);
  }

  /** After a successful update every enabled stack runs the composition of its own template, from the settings as they
      are, and its row stores that text with its hash. */
  lemma UpdateRunsTemplates(b: Build, w: World, version: string, env: Environment) returns (input: RenderInput)
    requires C.Consistent(w.db) && Faithful(w) && Update(b, w, version, env).1.Ok?
    ensures InputFrom(w, env, input)
    ensures var w' := Update(b, w, version, env).0; EachRunsItsText(b, w'.db.configs, w'.live, input)
    ensures ObjectsSound(w) ==> ObjectsHold(b, w, Update(b, w, version, env).0, input)
  {
    hide Update, MakePlan, Faithful, RunsText, StoresRunning, InputFrom, ObjectsHold, ObjectsSound;
    RunsOwnText(b, w, version, env, Infra, "infra-stack");
    RunsOwnText(b, w, version, env, Observability, "observability-stack");
    RunsOwnText(b, w, version, env, Backup, "backup-stack");
    RunsOwnText(b, w, version, env, Edge, "edge-stack");
    if w.settings.sso.enabled {
      RunsOwnText(b, w, version, env, Sso, "sso-stack");
    }
    PlannedInput(b, w, version, env);
    input := MakePlan(b, w, version, env).1.value.prepared.input;
    SsoOf(w, env, input);
    if ObjectsSound(w) {
      UpdateObjects(b, w, version, env);
    }
  }

  lemma SsoOf(w: World, env: Environment, input: RenderInput)
    ensures InputFrom(w, env, input) ==> input.sso == w.settings.sso
  {
    hide WithoutHost;
  }

  // ---------------------------------------------------------------------------
  // Objects of the swarm
  // ---------------------------------------------------------------------------

  /** The versioned objects of an update, by their printed prefixes: the OTel and Traefik configs, each rendered from its own
      template with the names found so far, a config for the edge stack's text, and without ACME the certificate and key. */
  ghost predicate ObjectsHold(b: Build, w: World, w': World, input: RenderInput) {
    var rows, plain := w'.db.configs, input.(otelConfig := "", traefikConfig := "");
    && "pmcluster_otel_config_v" <= input.otelConfig && input.otelConfig in w'.configs.objects
    && b.otel(TemplateText(b, rows, "otel-collector-config"), plain) == Some(w'.configs.objects[input.otelConfig])
    && "pmcluster_traefik_dynamic_v" <= input.traefikConfig && input.traefikConfig in w'.configs.objects
    && b.traefik(TemplateText(b, rows, "traefik-dynamic"), input.(traefikConfig := "")) == Some(w'.configs.objects[input.traefikConfig])
    && (exists name :: "pmcluster_edge_v" <= name && name in w'.configs.objects &&
          b.compose(Edge, TemplateText(b, rows, "edge-stack"), input) == Some(w'.configs.objects[name]))
    && (w.settings.acmeEmail == "" ==>
          && "cert_v" <= input.certSecret && input.certSecret in w'.secrets.objects
          && w.settings.certPath in w.files && w'.secrets.objects[input.certSecret] == w.files[w.settings.certPath]
          && "key_v" <= input.keySecret && input.keySecret in w'.secrets.objects
          && w.settings.keyPath in w.files && w'.secrets.objects[input.keySecret] == w.files[w.settings.keyPath])
  }

  lemma PrefixTexts()
    ensures VersionPrefix(OTEL_BASE) == "pmcluster_otel_config_v" && VersionPrefix(TRAEFIK_BASE) == "pmcluster_traefik_dynamic_v"
    ensures VersionPrefix(EDGE_BASE) == "pmcluster_edge_v" && VersionPrefix(CERT_BASE) == "cert_v" && VersionPrefix(KEY_BASE) == "key_v"
  {
  }

  lemma ConfigTexts(b: Build, rows: map<string, C.ConfigRow>, input: RenderInput)
    ensures RenderOtel(b, rows, input).Some? ==> RenderOtel(b, rows, input) == b.otel(TemplateText(b, rows, "otel-collector-config"), input)
    ensures RenderTraefik(b, rows, input).Some? ==> RenderTraefik(b, rows, input) == b.traefik(TemplateText(b, rows, "traefik-dynamic"), input)
    ensures RenderStack(b, rows, Edge, input) == b.compose(Edge, TemplateText(b, rows, "edge-stack"), input)
  {
  }

  /** Snapshots change no text. */
  lemma SnapshotTexts(b: Build, db: C.ConfigDb, rendered: map<string, string>, name: string)
    ensures TemplateText(b, Snapshot(db, rendered).configs, name) == TemplateText(b, db.configs, name)
  {
  }

  lemma UpdateObjects(b: Build, w: World, version: string, env: Environment)
    requires ObjectsSound(w) && Update(b, w, version, env).1.Ok?
    ensures MakePlan(b, w, version, env).1.Ok?
    ensures ObjectsHold(b, w, Update(b, w, version, env).0, MakePlan(b, w, version, env).1.value.prepared.input)
  {
    MakePlanGives(b, w, version, env);
    var plan := MakePlan(b, w, version, env).1.value;
    var input, rows, w' := plan.prepared.input, plan.world.db.configs, Update(b, w, version, env).0;
    assert w' == plan.world.(db := Snapshot(plan.world.db, plan.rendered), live := w'.live);
    hide Update, MakePlan, PlanFor, RenderOtel, RenderTraefik, RenderStack, TemplateText, Snapshot, VersionPrefix;
    InputNamesHold(b, w, version, env);
    PrefixTexts();
    ConfigTexts(b, rows, input.(otelConfig := "", traefikConfig := ""));
    ConfigTexts(b, rows, input.(traefikConfig := ""));
    ConfigTexts(b, rows, input);
    SnapshotTexts(b, plan.world.db, plan.rendered, "otel-collector-config");
    SnapshotTexts(b, plan.world.db, plan.rendered, "traefik-dynamic");
    SnapshotTexts(b, plan.world.db, plan.rendered, "edge-stack");
  }

  // ---------------------------------------------------------------------------
  // Edits, and what is deployed
  // ---------------------------------------------------------------------------

  /** The five stacks and the names of their texts. */
  ghost predicate TextOf(s: Stack, name: string) {
    || (s == Infra && name == "infra-stack") || (s == Observability && name == "observability-stack")
    || (s == Backup && name == "backup-stack") || (s == Edge && name == "edge-stack") || (s == Sso && name == "sso-stack")
  }

  lemma TextOfIs(s: Stack, name: string)
    ensures TextOf(s, name) <==> name == StackConfig(s)
    ensures TextOf(s, name) ==> name in C.CONFIG_NAMES
  {
    ConfigNames();
  }

  /** An update by the build that syncs reads every bundled text as it was before. */
  lemma TextsKept(b: Build, w: World, env: Environment, name: string)
    requires C.Consistent(w.db) && name in C.CONFIG_NAMES && MakePlan(b, w, b.version, env).1.Ok?
    ensures TemplateText(b, Update(b, w, b.version, env).0.db.configs, name) == TemplateText(b, w.db.configs, name)
  {
    ConfigNames();
    MakePlanGives(b, w, b.version, env);
    var plan := MakePlan(b, w, b.version, env).1.value;
    C.SyncWrites(w.db, C.CONFIG_NAMES, b.embedded, b.version, name);
    SnapshotTexts(b, plan.world.db, plan.rendered, name);
    assert Update(b, w, b.version, env).0.db == Snapshot(plan.world.db, plan.rendered);
    hide Update, MakePlan, Snapshot, C.Sync, PlanFor;
  }

  /** Editing a stack's template at the running build and updating deploys the edited text: if the edit changes the text or
      the row already carries this build's stamp, so that the stamp is right afterwards. */
  lemma EditIsDeployed(b: Build, w: World, s: Stack, name: string, text: string, env: Environment) returns (input: RenderInput)
    requires C.Consistent(w.db) && Faithful(w) && TextOf(s, name) && (s == Sso ==> w.settings.sso.enabled)
    requires name in w.db.configs && w.db.configs[name].scope == C.Cluster && w.db.configs[name].kind == C.Template
    requires text != w.db.configs[name].content || w.db.configs[name].version == b.version
    requires Update(b, w.(db := C.Update(w.db, name, text, b.version).0), b.version, env).1.Ok?
    ensures var w' := Update(b, w.(db := C.Update(w.db, name, text, b.version).0), b.version, env).0;
      InputFrom(w, env, input) && s in w'.live && b.compose(s, text, input) == Some(w'.live[s])
  {
    var edited := w.(db := C.Update(w.db, name, text, b.version).0);
    EditKeepsFaithful(w, name, text, b.version);
    EditedText(b, w.db, name, text);
    hide C.Update, Update, Faithful, TemplateText, InputFrom, TextOf, C.Consistent;
    input := RunsTextFromBefore(b, edited, s, name, env);
    SameInput(w, edited, env, input);
  }

  lemma SameInput(w: World, u: World, env: Environment, input: RenderInput)
    requires u == w.(db := u.db)
    ensures InputFrom(u, env, input) ==> InputFrom(w, env, input)
  {
    hide WithoutHost;
  }

  lemma EditedText(b: Build, db: C.ConfigDb, name: string, text: string)
    requires C.Consistent(db) && name in db.configs && db.configs[name].scope == C.Cluster && db.configs[name].kind == C.Template
    requires text != db.configs[name].content || db.configs[name].version == b.version
    ensures TemplateText(b, C.Update(db, name, text, b.version).0.configs, name) == text
  {
    C.UpdateReplaces(db, name, text, b.version);
  }

  /** An update by the build that syncs runs the texts that were there before it. */
  lemma RunsTextFromBefore(b: Build, w: World, s: Stack, name: string, env: Environment) returns (input: RenderInput)
    requires C.Consistent(w.db) && Faithful(w) && TextOf(s, name) && (s == Sso ==> w.settings.sso.enabled)
    requires Update(b, w, b.version, env).1.Ok?
    ensures var w' := Update(b, w, b.version, env).0;
      InputFrom(w, env, input) && s in w'.live && b.compose(s, TemplateText(b, w.db.configs, name), input) == Some(w'.live[s])
  {
    OrderRanked(w.settings.sso.enabled);
    TextOfIs(s, name);
    hide Update, MakePlan, Faithful, TemplateText, InputFrom;
    RunsOwnText(b, w, b.version, env, s, name);
    PlannedInput(b, w, b.version, env);
    TextsKept(b, w, env, name);
    input := MakePlan(b, w, b.version, env).1.value.prepared.input;
  }

  lemma EditKeepsFaithful(w: World, name: string, text: string, version: string)
    requires C.Consistent(w.db) && Faithful(w)
    ensures var w' := w.(db := C.Update(w.db, name, text, version).0); C.Consistent(w'.db) && Faithful(w')
  {
    C.ApplyKeepsConsistent(w.db, C.Updating(name, text, version));
    forall s
      ensures FaithfulTo(C.Update(w.db, name, text, version).0, w.live, s)
    {
      assert FaithfulTo(w.db, w.live, s);
    }
  }

  /** The place of a stack in the order of deploys. */
  function Rank(s: Stack): nat {
    match s case Observability => 0 case Infra => 1 case Edge => 2 case Backup => 3 case Sso => 4
  }

  ghost predicate Ranked(stacks: seq<Stack>) {
    forall i, j :: 0 <= i < j < |stacks| ==> Rank(stacks[i]) < Rank(stacks[j])
  }

  lemma OrderRanked(sso: bool)
    ensures Ranked(Order(sso)) && forall s :: s in Order(sso) <==> (s == Sso ==> sso)
  {
    assert Order(false) == [Observability, Infra, Edge, Backup];
    assert Order(true) == [Observability, Infra, Edge, Backup, Sso];
  }

  lemma {:induction false} StaleRanked(rows: map<string, C.ConfigRow>, rendered: map<string, string>, order: seq<Stack>)
    requires Ranked(order) && forall s :: s in order ==> StackConfig(s) in rendered
    ensures Ranked(Stale(rows, rendered, order))
  {
    if order != [] {
      hide Changed;
      var front, last := order[..|order| - 1], order[|order| - 1];
      assert forall s :: s in front ==> Rank(s) < Rank(last);
      hide Rank;
      StaleRanked(rows, rendered, front);
    }
  }

  /** What a successful update reports as deployed: in that order, exactly the enabled stacks whose row did not hold the hash
      of what they run now. */
  lemma ReportedDeploys(b: Build, w: World, version: string, env: Environment)
    requires C.Consistent(w.db) && Faithful(w) && Update(b, w, version, env).1.Ok?
    ensures var (w', r) := Update(b, w, version, env);
      && Ranked(r.value.deployed)
      && forall s, name :: TextOf(s, name) ==>
           (s in r.value.deployed <==>
              (s == Sso ==> w.settings.sso.enabled) && s in w'.live &&
              !(name in w.db.configs && w.db.configs[name].renderedHash == Sha256(w'.live[s])))
  {
    var (w', r) := Update(b, w, version, env);
    MakePlanGives(b, w, version, env);
    var plan := MakePlan(b, w, version, env).1.value;
    assert (w', r) == Reconcile(b, plan, env) && r.value.deployed == StaleStacks(plan);
    OrderRanked(w.settings.sso.enabled);
    StaleFacts(b, w, version, plan);
    StaleRanked(plan.world.db.configs, plan.rendered, Order(w.settings.sso.enabled));
    forall s, name | TextOf(s, name)
      ensures s in r.value.deployed <==>
        (s == Sso ==> w.settings.sso.enabled) && s in w'.live &&
        !(name in w.db.configs && w.db.configs[name].renderedHash == Sha256(w'.live[s]))
    {
      ReportedStack(b, w, version, env, s, name);
    }
  }

  lemma ReportedStack(b: Build, w: World, version: string, env: Environment, s: Stack, name: string)
    requires C.Consistent(w.db) && Faithful(w) && Update(b, w, version, env).1.Ok? && TextOf(s, name)
    ensures var (w', r) := Update(b, w, version, env);
      s in r.value.deployed <==>
        (s == Sso ==> w.settings.sso.enabled) && s in w'.live &&
        !(name in w.db.configs && w.db.configs[name].renderedHash == Sha256(w'.live[s]))
  {
    var (w', r) := Update(b, w, version, env);
    MakePlanGives(b, w, version, env);
    var plan := MakePlan(b, w, version, env).1.value;
    assert (w', r) == Reconcile(b, plan, env) && r.value.deployed == StaleStacks(plan);
    hide Update, MakePlan, Reconcile, RenderStack, RenderConfig, Snapshot, Deploy, Order, RenderedNames, Faithful, C.Consistent, TextOf;
    OrderRanked(w.settings.sso.enabled);
    TextOfIs(s, name);
    StaleFacts(b, w, version, plan);
    if s in Order(w.settings.sso.enabled) {
      ReconcileConverges(b, w, version, plan, env);
      PlannedRow(b, w, version, plan, name);
      assert RunsFresh(w'.live, plan.rendered, s);
    }
  }

  // ---------------------------------------------------------------------------
  // Whether anything was minted
  // ---------------------------------------------------------------------------

  /** One object ensured among others whose bases are apart: theirs are counted as before. */
  lemma OneEnsured(kind: Kind, v: Vault, base: string, data: string, f: Faults, other: string, another: string)
    requires Ensure(kind, v, base, data, f).1.Ok? && Apart(base, other) && Apart(base, another)
    ensures var (v', r) := Ensure(kind, v, base, data, f);
      && Newest(base, v') == Newest(base, v) + (if r.value.created then 1 else 0)
      && Newest(other, v') == Newest(other, v) && Newest(another, v') == Newest(another, v)
      && (!r.value.created ==> v' == v)
  {
    EnsureNewest(kind, v, base, data, f);
    EnsureFrame(kind, v, base, data, f, other);
    EnsureFrame(kind, v, base, data, f, another);
  }

  lemma TlsMints(w: World, p: Prepared, env: Environment)
    requires EnsureTls(w, p, env).1.Ok? && !p.minted
    ensures var (w', r) := EnsureTls(w, p, env);
      w'.configs == w.configs && (r.value.minted <==> w'.secrets != w.secrets)
  {
    PlatformBasesApart();
    if p.input.acmeEmail == "" {
      var v1 := Ensure(Secret, w.secrets, CERT_BASE, w.files[w.settings.certPath], env.cert).0;
      OneEnsured(Secret, w.secrets, CERT_BASE, w.files[w.settings.certPath], env.cert, KEY_BASE, KEY_BASE);
      OneEnsured(Secret, v1, KEY_BASE, w.files[w.settings.keyPath], env.key, CERT_BASE, CERT_BASE);
    }
    hide Ensure, Newest, Apart;
  }

  lemma ConfigsMint(b: Build, w: World, p: Prepared, env: Environment)
    requires EnsureConfigs(b, w, p, env).1.Ok?
    ensures var (w', r) := EnsureConfigs(b, w, p, env);
      w'.secrets == w.secrets && (r.value.minted <==> p.minted || w'.configs != w.configs)
  {
    PlatformBasesApart();
    hide Ensure, Newest, Apart, RenderOtel, RenderTraefik, RenderStack, VersionPrefix;
    var (w1, r1) := EnsureOtel(b, w, p, env);
    OneEnsured(DockerConfig, w.configs, OTEL_BASE, RenderOtel(b, w.db.configs, p.input).value, env.otel, TRAEFIK_BASE, EDGE_BASE);
    var (w2, r2) := EnsureTraefik(b, w1, r1.value, env);
    OneEnsured(DockerConfig, w1.configs, TRAEFIK_BASE, RenderTraefik(b, w1.db.configs, r1.value.input).value, env.traefik, OTEL_BASE, EDGE_BASE);
    OneEnsured(DockerConfig, w2.configs, EDGE_BASE, RenderStack(b, w2.db.configs, Edge, r2.value.input).value, env.edge, OTEL_BASE, TRAEFIK_BASE);
  }

  lemma PrepareMints(b: Build, w: World, env: Environment)
    requires Prepare(b, w, true, env).1.Ok?
    ensures var (w', r) := Prepare(b, w, true, env);
      r.value.minted <==> w'.secrets != w.secrets || w'.configs != w.configs
  {
    PrepareStages(b, w, true, env);
    LoadedInput(b, w, true, env);
    var (w0, r0) := Load(b, w, true, env);
    assert !r0.value.minted;
    hide Prepare, EnsureTls, EnsureConfigs, Load, OtherHosts;
    TlsMints(w0, r0.value, env);
    var (w1, r1) := EnsureTls(w0, r0.value, env);
    ConfigsMint(b, w1, r1.value, env);
  }

  /** A successful update reports that it minted something exactly if the swarm's secrets or configs have changed. */
  lemma ReportedMint(b: Build, w: World, version: string, env: Environment)
    requires Update(b, w, version, env).1.Ok?
    ensures var (w', r) := Update(b, w, version, env);
      r.value.minted <==> w'.secrets != w.secrets || w'.configs != w.configs
  {
    MakePlanGives(b, w, version, env);
    var plan := MakePlan(b, w, version, env).1.value;
    var (w', r) := Update(b, w, version, env);
    assert w'.secrets == plan.world.secrets && w'.configs == plan.world.configs && r.value.minted == plan.prepared.minted;
    hide Update, MakePlan, Prepare, C.Sync, PlanFor;
    PlanPrepared(b, w, version, env);
    PrepareMints(b, w.(db := C.Sync(w.db, C.CONFIG_NAMES, b.embedded, version)), env);
  }

  // ---------------------------------------------------------------------------
  // The read-only twin
  // ---------------------------------------------------------------------------

  /** The seven names, or six without single sign-on, with what each renders to. */
  ghost predicate ShowsTexts(b: Build, rows: map<string, C.ConfigRow>, input: RenderInput, shown: map<string, string>) {
    && shown.Keys == {"infra-stack", "observability-stack", "backup-stack", "edge-stack", "otel-collector-config", "traefik-dynamic"} +
         (if input.sso.enabled then {"sso-stack"} else {})
    && (forall s, name :: TextOf(s, name) && name in shown ==> b.compose(s, TemplateText(b, rows, name), input) == Some(shown[name]))
    && b.otel(TemplateText(b, rows, "otel-collector-config"), input) == Some(shown["otel-collector-config"])
    && b.traefik(TemplateText(b, rows, "traefik-dynamic"), input) == Some(shown["traefik-dynamic"])
  }

  lemma NamedTexts(b: Build, rows: map<string, C.ConfigRow>, input: RenderInput, all: map<string, string>)
    requires all.Keys == RenderedNames(input.sso.enabled)
    requires forall n :: n in all ==> RenderConfig(b, rows, n, input) == Some(all[n])
    ensures ShowsTexts(b, rows, input, all)
  {
    assert RenderConfig(b, rows, "otel-collector-config", input) == RenderOtel(b, rows, input);
    assert RenderConfig(b, rows, "traefik-dynamic", input) == RenderTraefik(b, rows, input);
    hide RenderOtel, RenderTraefik, RenderStack, TemplateText, RenderConfig;
    ConfigTexts(b, rows, input);
    forall s, name | TextOf(s, name) && name in all
      ensures b.compose(s, TemplateText(b, rows, name), input) == Some(all[name])
    {
      RendersStack(b, rows, input, s, name);
    }
  }

  lemma RenderedTexts(b: Build, rows: map<string, C.ConfigRow>, input: RenderInput)
    requires RenderAll(b, rows, input).Some?
    ensures ShowsTexts(b, rows, input, RenderAll(b, rows, input).value)
  {
    var all := RenderAll(b, rows, input).value;
    assert all.Keys == RenderedNames(input.sso.enabled);
    assert forall n :: n in all ==> RenderConfig(b, rows, n, input) == Some(all[n]);
    hide *;
    NamedTexts(b, rows, input, all);
  }

  lemma RendersStack(b: Build, rows: map<string, C.ConfigRow>, input: RenderInput, s: Stack, name: string)
    requires TextOf(s, name)
    ensures RenderConfig(b, rows, name, input) == b.compose(s, TemplateText(b, rows, name), input)
  {
  }

  /** The read-only rendering shows what the texts give now. */
  lemma ShownIs(b: Build, w: World, env: Environment) returns (input: RenderInput)
    requires RenderClusterConfigs(b, w, env).1.Ok?
    ensures InputFrom(w, env, input) && ShowsTexts(b, w.db.configs, input, RenderClusterConfigs(b, w, env).1.value)
  {
    var (w1, p) := Prepare(b, w, false, env);
    assert p.Ok?;
    input := p.value.input;
    hide Prepare, RenderAll, ShowsTexts, InputFrom;
    PrepareFrame(b, w, false, env);
    PreparedFields(b, w, false, env);
    RenderedTexts(b, w1.db.configs, input);
  }

  // ---------------------------------------------------------------------------
  // What an update stores
  // ---------------------------------------------------------------------------

  /** The row holds the text as its snapshot, with its hash. */
  ghost predicate HoldsSnapshot(rows: map<string, C.ConfigRow>, name: string, text: string) {
    name in rows && rows[name].rendered == text && rows[name].renderedHash == Sha256(text)
  }

  lemma PlannedTexts(b: Build, w: World, version: string, plan: Plan)
    requires PlanFor(b, w, version, plan)
    ensures ShowsTexts(b, plan.world.db.configs, plan.prepared.input, plan.rendered)
  {
    assert plan.rendered.Keys == RenderedNames(plan.prepared.input.sso.enabled);
    hide RenderConfig, ShowsTexts;
    NamedTexts(b, plan.world.db.configs, plan.prepared.input, plan.rendered);
  }

  /** After a successful update the rows of exactly the names that a read-only rendering shows hold what their texts give;
      every other row keeps the hash of its snapshot. */
  lemma StoredSnapshots(b: Build, w: World, version: string, env: Environment, name: string) returns (input: RenderInput, shown: map<string, string>)
    requires C.Consistent(w.db) && Update(b, w, version, env).1.Ok?
    ensures var w' := Update(b, w, version, env).0;
      && InputFrom(w, env, input)
      && ShowsTexts(b, w'.db.configs, input, shown)
      && (name in shown ==> HoldsSnapshot(w'.db.configs, name, shown[name]))
      && (name !in shown && name in w'.db.configs ==>
            w'.db.configs[name].renderedHash == if name in w.db.configs then w.db.configs[name].renderedHash else NoDigest)
  {
    MakePlanGives(b, w, version, env);
    var plan := MakePlan(b, w, version, env).1.value;
    assert Update(b, w, version, env).0.db == Snapshot(plan.world.db, plan.rendered);
    input, shown := plan.prepared.input, plan.rendered;
    hide Update, MakePlan, PlanFor, InputFrom, ShowsTexts, C.Consistent;
    PlannedInput(b, w, version, env);
    PlannedTexts(b, w, version, plan);
    PlannedRow(b, w, version, plan, name);
    ShownAfter(b, plan.world.db, plan.rendered, input, shown);
  }

  lemma ShownAfter(b: Build, db: C.ConfigDb, rendered: map<string, string>, input: RenderInput, shown: map<string, string>)
    ensures ShowsTexts(b, db.configs, input, shown) ==> ShowsTexts(b, Snapshot(db, rendered).configs, input, shown)
  {
    hide Snapshot, TemplateText;
    SnapshotTexts(b, db, rendered, "otel-collector-config");
    SnapshotTexts(b, db, rendered, "traefik-dynamic");
    forall s, name | TextOf(s, name)
      ensures TemplateText(b, Snapshot(db, rendered).configs, name) == TemplateText(b, db.configs, name)
    {
      SnapshotTexts(b, db, rendered, name);
    }
  }

  // ---------------------------------------------------------------------------
  // A failed deploy
  // ---------------------------------------------------------------------------

  /** When a deploy fails, the stacks before it in the order run their texts, it is left as the failure left it, and those
      behind it, or not enabled, run what they ran before. */
  lemma FailedDeployPlace(b: Build, w: World, version: string, env: Environment, s: Stack, t: Stack, name: string) returns (input: RenderInput)
    requires C.Consistent(w.db) && Faithful(w) && Update(b, w, version, env).1 == Err(DeployFailed(s)) && TextOf(t, name)
    ensures InputFrom(w, env, input) && s in env.failing && (s == Sso ==> w.settings.sso.enabled)
    ensures var w' := Update(b, w, version, env).0;
      && (t == s ==> At(w'.live, t) == env.failing[s])
      && (Rank(t) < Rank(s) ==> RunsText(b, w'.db.configs, w'.live, input, t, name))
      && (Rank(t) > Rank(s) ==> At(w'.live, t) == At(w.live, t))
  {
    MakePlanGives(b, w, version, env);
    var plan := MakePlan(b, w, version, env).1.value;
    var w' := Update(b, w, version, env).0;
    PlannedInput(b, w, version, env);
    input := plan.prepared.input;
    assert (w', Update(b, w, version, env).1) == Reconcile(b, plan, env);
    FailedPlace(b, w, version, plan, env, s, t, name);
  }

  /** A reconcile that stops at a stack, in the terms of the ranks. */
  lemma FailedPlace(b: Build, w: World, version: string, plan: Plan, env: Environment, s: Stack, t: Stack, name: string)
    requires C.Consistent(w.db) && Faithful(w) && PlanFor(b, w, version, plan) && TextOf(t, name)
    requires Reconcile(b, plan, env).1 == Err(DeployFailed(s))
    ensures s in env.failing && (s == Sso ==> w.settings.sso.enabled)
    ensures var w' := Reconcile(b, plan, env).0;
      && (t == s ==> At(w'.live, t) == env.failing[s])
      && (Rank(t) < Rank(s) ==> RunsText(b, w'.db.configs, w'.live, plan.prepared.input, t, name))
      && (Rank(t) > Rank(s) ==> At(w'.live, t) == At(w.live, t))
  {
    var stale, rows, input := StaleStacks(plan), Snapshot(plan.world.db, plan.rendered).configs, plan.prepared.input;
    assert Reconcile(b, plan, env).0.db.configs == rows;
    TextOfIs(t, name);
    FailedFate(b, w, version, plan, env, s, t);
    if Rank(t) < Rank(s) {
      FreshOrStale(b, w, version, plan, env, s, t);
    }
    var live' := Reconcile(b, plan, env).0.live;
    hide PlanFor, Faithful, C.Consistent, Order, RenderedNames, StaleStacks, Deploy, Snapshot, RenderStack, FirstFailing, TextOf,
      Reconcile, Ranked, Fate, TemplateText;
    PlaceInOrder(stale, env.failing, t, RenderStack(b, rows, t, input), At(w.live, t));
    TextIs(b, rows, input, t, name);
    RanksDiffer(t, s);
  }

  lemma FailedFate(b: Build, w: World, version: string, plan: Plan, env: Environment, s: Stack, t: Stack)
    requires PlanFor(b, w, version, plan) && Reconcile(b, plan, env).1 == Err(DeployFailed(s))
    ensures var stale := StaleStacks(plan);
      var fresh' := RenderStack(b, Snapshot(plan.world.db, plan.rendered).configs, t, plan.prepared.input);
      && Ranked(stale) && FirstFailing(stale, env.failing) < |stale| && s == stale[FirstFailing(stale, env.failing)]
      && (s == Sso ==> w.settings.sso.enabled)
      && At(Reconcile(b, plan, env).0.live, t) == Fate(stale, env.failing, t, fresh', At(w.live, t))
  {
    assert plan.rendered.Keys == RenderedNames(plan.prepared.input.sso.enabled) && plan.world.live == w.live;
    var stale := StaleStacks(plan);
    StaleInRank(b, w, version, plan);
    StaleRender(b, w, version, plan);
    hide *;
    PlannedFate(b, plan, env, s, t);
    assert s in stale;
  }

  lemma PlannedFate(b: Build, plan: Plan, env: Environment, s: Stack, t: Stack)
    requires plan.rendered.Keys == RenderedNames(plan.prepared.input.sso.enabled) && AllDifferent(StaleStacks(plan))
    requires forall u :: u in StaleStacks(plan) ==>
      RenderStack(b, Snapshot(plan.world.db, plan.rendered).configs, u, plan.prepared.input).Some?
    requires Reconcile(b, plan, env).1 == Err(DeployFailed(s))
    ensures var stale := StaleStacks(plan);
      var fresh' := RenderStack(b, Snapshot(plan.world.db, plan.rendered).configs, t, plan.prepared.input);
      && FirstFailing(stale, env.failing) < |stale| && s == stale[FirstFailing(stale, env.failing)]
      && At(Reconcile(b, plan, env).0.live, t) == Fate(stale, env.failing, t, fresh', At(plan.world.live, t))
  {
    hide *;
    ReconcileIs(b, plan, env);
    var stale := StaleStacks(plan);
    var rows, input, live := Snapshot(plan.world.db, plan.rendered).configs, plan.prepared.input, plan.world.live;
    RenderedFates(b, rows, input, stale, live, env.failing, t);
    assert Deploy(b, rows, input, stale, live, env.failing).1.Err?;
    assert Deploy(b, rows, input, stale, live, env.failing).1.error == DeployFailed(stale[FirstFailing(stale, env.failing)]);
    assert Reconcile(b, plan, env).1.error == DeployFailed(stale[FirstFailing(stale, env.failing)]);
  }

  lemma StaleRender(b: Build, w: World, version: string, plan: Plan)
    requires PlanFor(b, w, version, plan)
    ensures AllDifferent(StaleStacks(plan))
    ensures forall s :: s in StaleStacks(plan) ==>
      RenderStack(b, Snapshot(plan.world.db, plan.rendered).configs, s, plan.prepared.input).Some?
  {
    StaleFacts(b, w, version, plan);
  }

  lemma StaleInRank(b: Build, w: World, version: string, plan: Plan)
    requires PlanFor(b, w, version, plan)
    ensures Ranked(StaleStacks(plan))
    ensures forall s :: s in StaleStacks(plan) ==> (s == Sso ==> w.settings.sso.enabled)
  {
    OrderRanked(w.settings.sso.enabled);
    StaleFacts(b, w, version, plan);
    hide Order;
    StaleRanked(plan.world.db.configs, plan.rendered, Order(w.settings.sso.enabled));
  }

  /** A stack in front of the failed one renders, and if it is not stale it was running that render. */
  lemma FreshOrStale(b: Build, w: World, version: string, plan: Plan, env: Environment, s: Stack, t: Stack)
    requires C.Consistent(w.db) && Faithful(w) && PlanFor(b, w, version, plan)
    requires (s == Sso ==> w.settings.sso.enabled) && Rank(t) < Rank(s)
    ensures var fresh' := RenderStack(b, Snapshot(plan.world.db, plan.rendered).configs, t, plan.prepared.input);
      && fresh'.Some?
      && (t !in StaleStacks(plan) ==> At(Reconcile(b, plan, env).0.live, t) == fresh')
  {
    OrderRanked(w.settings.sso.enabled);
    StaleFacts(b, w, version, plan);
    assert t in Order(w.settings.sso.enabled);
    if t !in StaleStacks(plan) {
      UnchangedRunsFresh(b, w, version, plan, env, t);
    }
    hide PlanFor, Faithful, C.Consistent, Order, RenderedNames, StaleStacks, Deploy, Snapshot, RenderStack, Reconcile;
  }

  lemma RanksDiffer(s: Stack, t: Stack)
    ensures Rank(s) == Rank(t) <==> s == t
    ensures s != Sso ==> Rank(s) < Rank(Sso)
  {
  }

  lemma TextIs(b: Build, rows: map<string, C.ConfigRow>, input: RenderInput, s: Stack, name: string)
    requires name == StackConfig(s)
    ensures RenderStack(b, rows, s, input) == b.compose(s, TemplateText(b, rows, name), input)
  {
  }

  /** The fate of a stack by its rank. */
  lemma PlaceInOrder(stale: seq<Stack>, failing: map<Stack, Option<string>>, t: Stack, fresh': Option<string>, before: Option<string>)
    requires Ranked(stale) && FirstFailing(stale, failing) < |stale|
    ensures var s := stale[FirstFailing(stale, failing)];
      && s in failing
      && (t == s ==> Fate(stale, failing, t, fresh', before) == failing[s])
      && (Rank(t) < Rank(s) ==> Fate(stale, failing, t, fresh', before) == if t in stale then fresh' else before)
      && (Rank(t) > Rank(s) ==> Fate(stale, failing, t, fresh', before) == before)
  {
    var n := FirstFailing(stale, failing);
    hide FirstFailing;
    if t in stale {
      var i :| 0 <= i < |stale| && stale[i] == t;
      assert i < n ==> stale[..n][i] == t;
    }
    assert forall i :: 0 <= i < n ==> Rank(stale[..n][i]) < Rank(stale[n]);
  }

  // ---------------------------------------------------------------------------
  // An update that stops early
  // ---------------------------------------------------------------------------

  /** Single sign-on is on and cannot work. */
  ghost predicate SsoBroken(b: Build, s: SsoSettings) {
    s.enabled && (s.provider != "github" || s.clientId == "" || s.clientSecret == "" || !b.validDuration(s.cookieExpire))
  }

  ghost function Loaded(w: World, env: Environment): World {
    if w.settings.sso.enabled && w.cookie.None? then w.(cookie := Some(env.mintedCookie)) else w
  }

  lemma EarlyPrepare(b: Build, w: World, env: Environment)
    ensures var s := w.settings;
      var (w', r) := Prepare(b, w, true, env);
      && (s.domain == "" ==> (w', r) == (w, Err(NoDomain)))
      && (s.domain != "" && SsoBroken(b, s.sso) ==> (w', r) == (w, Err(InvalidSso)))
      && (s.domain != "" && !SsoBroken(b, s.sso) ==>
            && (w.admin.None? ==> (w', r) == (Loaded(w, env), Err(NoAdmin)))
            && (w.admin.Some? && s.acmeEmail == "" ==>
                  && (s.certPath == "" || s.keyPath == "" || s.certPath !in w.files ==> (w', r) == (Loaded(w, env), Err(NoCertificate)))
                  && (s.certPath != "" && s.keyPath != "" && s.certPath in w.files && s.keyPath !in w.files ==>
                        var (vault, cert) := Ensure(Secret, w.secrets, "cert", w.files[s.certPath], env.cert);
                        (w', r) == (Loaded(w, env).(secrets := vault), Err(if cert.Err? then ProvisionFailed else NoCertificate)))))
  {
    hide Ensure, EnsureConfigs, OtherHosts;
  }

  /** An update that stops before it renders: the first of these that holds is the error, and what the stages in front of it
      did stays, namely the sync, a minted cookie, and the version of a certificate whose key file is missing. */
  lemma EarlyFailures(b: Build, w: World, version: string, env: Environment)
    ensures var s := w.settings;
      var (w', r) := Update(b, w, version, env);
      var synced := w.(db := C.Sync(w.db, C.CONFIG_NAMES, b.embedded, version));
      && (env.preflightFails ==> (w', r) == (w, Err(PreflightFailed)))
      && (!env.preflightFails ==>
            && (s.domain == "" ==> (w', r) == (synced, Err(NoDomain)))
            && (s.domain != "" && SsoBroken(b, s.sso) ==> (w', r) == (synced, Err(InvalidSso)))
            && (s.domain != "" && !SsoBroken(b, s.sso) ==>
                  && (w.admin.None? ==> (w', r) == (Loaded(synced, env), Err(NoAdmin)))
                  && (w.admin.Some? && s.acmeEmail == "" ==>
                        && (s.certPath == "" || s.keyPath == "" || s.certPath !in w.files ==>
                              (w', r) == (Loaded(synced, env), Err(NoCertificate)))
                        && (s.certPath != "" && s.keyPath != "" && s.certPath in w.files && s.keyPath !in w.files ==>
                              var (vault, cert) := Ensure(Secret, w.secrets, "cert", w.files[s.certPath], env.cert);
                              (w', r) == (Loaded(synced, env).(secrets := vault),
                                          Err(if cert.Err? then ProvisionFailed else NoCertificate))))))
  {
    hide Ensure, Prepare, Reconcile, RenderPlan, C.Sync, SsoBroken;
    EarlyPrepare(b, w.(db := C.Sync(w.db, C.CONFIG_NAMES, b.embedded, version)), env);
  }

  // ---------------------------------------------------------------------------
  // A finished `up`
  // ---------------------------------------------------------------------------

  /** What a finished `up` runs at an enabled stack. */
  lemma UpRunsFresh(b: Build, w: World, version: string, i: R.Install, s: Stack)
    requires R.Deploys(b, w, version, i) && s in Order(w.settings.sso.enabled)
    ensures var w' := R.Up(b, w, version, i).0;
      && RenderAll(b, R.Synced(b, w, version).configs, R.InputOf(w, i)).Some?
      && At(w'.live, s) == RenderStack(b, R.Synced(b, w, version).configs, s, R.InputOf(w, i))
      && w'.db == Snapshot(R.Synced(b, w, version), RenderAll(b, R.Synced(b, w, version).configs, R.InputOf(w, i)).value)
  {
    var order, blocking := R.UpOrder(w.settings.sso.enabled), R.UpBlocking(b, w, version, i);
    R.UpOrderIs(w.settings.sso.enabled);
    assert FirstFailing(order, blocking) == |order| && !R.Installed(w) && !i.provisionFails;
    assert RenderAll(b, R.Synced(b, w, version).configs, R.InputOf(w, i)).Some?;
    var fresh', before := RenderStack(b, R.Synced(b, w, version).configs, s, R.InputOf(w, i)), At(w.live, s);
    assert R.UpFate(b, w, version, i, s) == Fate(order, blocking, s, fresh', before);
    hide *;
    R.UpDeploys(b, w, version, i, s);
    AllFresh(order, blocking, s, fresh', before);
  }

  lemma AllFresh(order: seq<Stack>, blocking: map<Stack, Option<string>>, s: Stack, fresh': Option<string>, before: Option<string>)
    requires FirstFailing(order, blocking) == |order| && s in order
    ensures Fate(order, blocking, s, fresh', before) == fresh'
  {
    assert order[..|order|] == order;
    hide FirstFailing;
  }

  lemma UpRunsRendered(b: Build, w: World, version: string, i: R.Install, s: Stack, name: string)
    requires C.Consistent(w.db) && R.Deploys(b, w, version, i) && name == StackConfig(s) && s in Order(w.settings.sso.enabled)
    ensures var w' := R.Up(b, w, version, i).0;
      RunsText(b, w'.db.configs, w'.live, R.InputOf(w, i), s, name) && StoresRunning(w'.db.configs, w'.live, s, name)
  {
    var db, input := R.Synced(b, w, version), R.InputOf(w, i);
    hide R.Up, R.Synced, Snapshot, RenderAll, Order, TemplateText, R.Deploys, RenderStack, C.Consistent;
    UpRunsFresh(b, w, version, i, s);
    R.SyncedCovers(b, w, version, s, None);
    R.SnapshotRow(b, db, input, s);
    SnapshotTexts(b, db, RenderAll(b, db.configs, input).value, name);
    TextIs(b, db.configs, input, s, name);
  }

  lemma UpSaves(b: Build, w: World, version: string, i: R.Install)
    requires R.Up(b, w, version, i).1
    ensures R.Deploys(b, w, version, i)
    ensures R.Up(b, w, version, i).0.settings ==
      w.settings.(tlsMode := i.tlsMode, certPath := i.certPath, keyPath := i.keyPath, acmeEmail := i.input.acmeEmail, domain := i.input.domain)
  {
    R.UpDeploys(b, w, version, i, Infra);
    hide R.Up, R.Deploys;
  }

  /** An `up` that gets through leaves every enabled stack running its own template, rendered from the flags, its row storing
      that, and the settings it was able to save. */
  lemma UpRunsTemplates(b: Build, w: World, version: string, i: R.Install)
    requires C.Consistent(w.db) && R.Up(b, w, version, i).1
    ensures var w' := R.Up(b, w, version, i).0;
      && EachRunsItsText(b, w'.db.configs, w'.live, i.input.(sso := w.settings.sso))
      && w'.settings == w.settings.(tlsMode := i.tlsMode, certPath := i.certPath, keyPath := i.keyPath,
                                    acmeEmail := i.input.acmeEmail, domain := i.input.domain)
  {
    hide R.Up, R.Deploys, RunsText, StoresRunning, C.Consistent;
    UpSaves(b, w, version, i);
    UpRunsRendered(b, w, version, i, Infra, "infra-stack");
    UpRunsRendered(b, w, version, i, Observability, "observability-stack");
    UpRunsRendered(b, w, version, i, Backup, "backup-stack");
    UpRunsRendered(b, w, version, i, Edge, "edge-stack");
    if w.settings.sso.enabled {
      UpRunsRendered(b, w, version, i, Sso, "sso-stack");
    }
  }

  /** An `up` refuses once a domain or a TLS mode is saved or a config row is the cluster's own, and then does nothing; one that
      fails to provision has synced the configs. */
  lemma UpRefuses(b: Build, w: World, version: string, i: R.Install)
    ensures var refused := w.settings.domain != "" || w.settings.tlsMode != "" ||
        exists n :: n in w.db.configs && w.db.configs[n].scope == C.Cluster;
      && (refused ==> R.Up(b, w, version, i) == (w, false))
      && (!refused && i.provisionFails ==> R.Up(b, w, version, i) == (w.(db := C.Sync(w.db, C.CONFIG_NAMES, b.embedded, version)), false))
      && (R.Up(b, w, version, i).1 ==> !refused && !i.provisionFails && !i.unhealthy)
  {
    hide C.Sync, Deploy, RenderAll, Snapshot;
  }
}
