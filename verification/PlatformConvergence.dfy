/** What `cluster update` promises: the swarm runs what would be rendered now, although stacks are compared
    through stored hashes only; and a repeated update does nothing, also where it should. */
module PlatformConvergence {
  import opened Common
  import opened VersionNames
  import opened VersionedObjects
  import opened PlatformUpdate
  import C = ConfigStore

  // ---------------------------------------------------------------------------
  // Provisioning a second time
  // ---------------------------------------------------------------------------

  /** The five platform bases never touch each other's versions. */
  lemma PlatformBasesApart()
    ensures Apart(CERT_BASE, KEY_BASE)
    ensures Apart(OTEL_BASE, TRAEFIK_BASE) && Apart(OTEL_BASE, EDGE_BASE) && Apart(TRAEFIK_BASE, EDGE_BASE)
    ensures forall a, b :: Apart(a, b) ==> Apart(b, a)
  {
    assert VersionPrefix(CERT_BASE)[0] == 'c' && VersionPrefix(KEY_BASE)[0] == 'k';
    assert VersionPrefix(OTEL_BASE)[10] == 'o' && VersionPrefix(TRAEFIK_BASE)[10] == 't' && VersionPrefix(EDGE_BASE)[10] == 'e';
  }

  /** Two tables from which every template body reads the same. */
  ghost predicate SameBodies(b: Build, rows: map<string, C.ConfigRow>, rows': map<string, C.ConfigRow>) {
    forall name :: Body(b, rows, name) == Body(b, rows', name)
  }

  /** Worlds that differ at most in snapshots and in what is running. */
  ghost predicate SameInputs(b: Build, w: World, u: World) {
    && u == w.(db := u.db, live := u.live)
    && SameBodies(b, w.db.configs, u.db.configs)
  }

  lemma SameStackRender(b: Build, rows: map<string, C.ConfigRow>, rows': map<string, C.ConfigRow>, s: Stack, input: RenderInput)
    requires SameBodies(b, rows, rows')
    ensures RenderStack(b, rows, s, input) == RenderStack(b, rows', s, input)
  {
    hide Body;
    assert Body(b, rows, StackConfig(s)) == Body(b, rows', StackConfig(s));
  }

  lemma SameConfigRender(b: Build, rows: map<string, C.ConfigRow>, rows': map<string, C.ConfigRow>, n: string, input: RenderInput)
    requires SameBodies(b, rows, rows')
    ensures RenderConfig(b, rows, n, input) == RenderConfig(b, rows', n, input)
    ensures RenderOtel(b, rows, input) == RenderOtel(b, rows', input)
    ensures RenderTraefik(b, rows, input) == RenderTraefik(b, rows', input)
  {
    assert Body(b, rows, OTEL_CONFIG) == Body(b, rows', OTEL_CONFIG);
    assert Body(b, rows, TRAEFIK_CONFIG) == Body(b, rows', TRAEFIK_CONFIG);
    SameStackRender(b, rows, rows', Infra, input);
    SameStackRender(b, rows, rows', Observability, input);
    SameStackRender(b, rows, rows', Backup, input);
    SameStackRender(b, rows, rows', Edge, input);
    SameStackRender(b, rows, rows', Sso, input);
    hide Body, RenderStack, SameBodies;
  }

  lemma SameRenders(b: Build, rows: map<string, C.ConfigRow>, rows': map<string, C.ConfigRow>, input: RenderInput)
    requires SameBodies(b, rows, rows')
    ensures forall s :: RenderStack(b, rows, s, input) == RenderStack(b, rows', s, input)
    ensures RenderOtel(b, rows, input) == RenderOtel(b, rows', input)
    ensures RenderTraefik(b, rows, input) == RenderTraefik(b, rows', input)
    ensures forall n :: RenderConfig(b, rows, n, input) == RenderConfig(b, rows', n, input)
    ensures RenderAll(b, rows, input) == RenderAll(b, rows', input)
  {
    hide RenderStack, RenderOtel, RenderTraefik, RenderConfig, RenderedNames, SameBodies;
    forall s
      ensures RenderStack(b, rows, s, input) == RenderStack(b, rows', s, input)
    {
      SameStackRender(b, rows, rows', s, input);
    }
    forall n
      ensures RenderConfig(b, rows, n, input) == RenderConfig(b, rows', n, input)
    {
      SameConfigRender(b, rows, rows', n, input);
    }
    SameConfigRender(b, rows, rows', "", input);
    var all, all' := RenderAll(b, rows, input), RenderAll(b, rows', input);
    assert all.Some? ==> all.value == all'.value;
  }

  lemma LoadAgain(b: Build, w: World, check: bool, env: Environment, u: World, check': bool, env': Environment)
    requires Load(b, w, check, env).1.Ok? && (check' ==> check)
    requires var w1 := Load(b, w, check, env).0;
      u.settings == w1.settings && u.admin == w1.admin && u.cookie == w1.cookie && u.hostCerts == w1.hostCerts
    ensures Load(b, u, check', env') == (u, Load(b, w, check, env).1)
  {
  }

  lemma TlsAgain(w: World, p: Prepared, env: Environment, u: World, env': Environment)
    requires EnsureTls(w, p, env).1.Ok?
    requires var w1 := EnsureTls(w, p, env).0;
      u.settings == w1.settings && u.files == w1.files && u.secrets == w1.secrets
    ensures EnsureTls(u, p.(minted := false), env') ==
            (u, Ok(EnsureTls(w, p, env).1.value.(minted := false)))
  {
    if p.input.acmeEmail == "" {
      PlatformBasesApart();
      var certData, keyData := w.files[w.settings.certPath], w.files[w.settings.keyPath];
      var (v1, cert) := Ensure(Secret, w.secrets, CERT_BASE, certData, env.cert);
      EnsureTwice(Secret, w.secrets, CERT_BASE, certData, env.cert);
      var (v2, key) := Ensure(Secret, v1, KEY_BASE, keyData, env.key);
      EnsureTwice(Secret, v1, KEY_BASE, keyData, env.key);
      ReuseSurvives(Secret, v1, CERT_BASE, certData, KEY_BASE, keyData, env.key);
      assert Ensure(Secret, v2, CERT_BASE, certData, env'.cert) == (v2, Ok(Ensured(cert.value.name, false)));
    }
  }

  predicate NotDeployError(r: Result<Prepared, UpdateError>) {
    r.Err? ==> !r.error.DeployFailed?
  }

  lemma TlsFrame(w: World, p: Prepared, env: Environment)
    ensures var (w', r) := EnsureTls(w, p, env);
      && w' == w.(secrets := w'.secrets)
      && (r.Ok? ==> r.value.input.sso == p.input.sso)
      && NotDeployError(r)
  {
    hide Ensure;
  }

  lemma OtelFrame(b: Build, w: World, p: Prepared, env: Environment)
    ensures var (w', r) := EnsureOtel(b, w, p, env);
      && w' == w.(configs := w'.configs)
      && (r.Ok? ==> r.value.input.sso == p.input.sso)
      && NotDeployError(r)
  {
    hide Ensure, RenderOtel;
  }

  lemma TraefikFrame(b: Build, w: World, p: Prepared, env: Environment)
    ensures var (w', r) := EnsureTraefik(b, w, p, env);
      && w' == w.(configs := w'.configs)
      && (r.Ok? ==> r.value.input.sso == p.input.sso)
      && NotDeployError(r)
  {
    hide Ensure, RenderTraefik;
  }

  lemma EdgeFrame(b: Build, w: World, p: Prepared, env: Environment)
    ensures var (w', r) := EnsureEdge(b, w, p, env);
      && w' == w.(configs := w'.configs)
      && (r.Ok? ==> r.value.input == p.input)
      && NotDeployError(r)
  {
    hide Ensure, RenderStack;
  }

  /** The stages change nothing but the objects they ensure. */
  lemma StageFrames(b: Build, w: World, p: Prepared, env: Environment)
    ensures EnsureTls(w, p, env).0 == w.(secrets := EnsureTls(w, p, env).0.secrets)
    ensures EnsureOtel(b, w, p, env).0 == w.(configs := EnsureOtel(b, w, p, env).0.configs)
    ensures EnsureTraefik(b, w, p, env).0 == w.(configs := EnsureTraefik(b, w, p, env).0.configs)
    ensures EnsureEdge(b, w, p, env).0 == w.(configs := EnsureEdge(b, w, p, env).0.configs)
    ensures EnsureTls(w, p, env).1.Ok? ==> EnsureTls(w, p, env).1.value.input.sso == p.input.sso
    ensures EnsureOtel(b, w, p, env).1.Ok? ==> EnsureOtel(b, w, p, env).1.value.input.sso == p.input.sso
    ensures EnsureTraefik(b, w, p, env).1.Ok? ==> EnsureTraefik(b, w, p, env).1.value.input.sso == p.input.sso
    ensures EnsureEdge(b, w, p, env).1.Ok? ==> EnsureEdge(b, w, p, env).1.value.input == p.input
    ensures NotDeployError(EnsureTls(w, p, env).1) && NotDeployError(EnsureOtel(b, w, p, env).1)
    ensures NotDeployError(EnsureTraefik(b, w, p, env).1) && NotDeployError(EnsureEdge(b, w, p, env).1)
  {
    hide EnsureTls, EnsureOtel, EnsureTraefik, EnsureEdge, NotDeployError;
    TlsFrame(w, p, env);
    OtelFrame(b, w, p, env);
    TraefikFrame(b, w, p, env);
    EdgeFrame(b, w, p, env);
  }

  lemma ConfigsFrame(b: Build, w: World, p: Prepared, env: Environment)
    ensures var (w', r) := EnsureConfigs(b, w, p, env);
      && w' == w.(configs := w'.configs)
      && (r.Ok? ==> r.value.input.sso == p.input.sso)
      && NotDeployError(r)
  {
    StageFrames(b, w, p, env);
    var (w1, r1) := EnsureOtel(b, w, p, env);
    if r1.Ok? {
      StageFrames(b, w1, r1.value, env);
      var (w2, r2) := EnsureTraefik(b, w1, r1.value, env);
      if r2.Ok? {
        StageFrames(b, w2, r2.value, env);
      }
    }
  }

  /** The three rendered configs are found again under the same names: each one's version survives the
      minting and the garbage collection of the other two. */
  lemma ConfigsAgain(b: Build, w: World, p: Prepared, env: Environment, u: World, env': Environment)
    requires EnsureConfigs(b, w, p, env).1.Ok?
    requires u.configs == EnsureConfigs(b, w, p, env).0.configs && SameBodies(b, w.db.configs, u.db.configs)
    ensures EnsureConfigs(b, u, p.(minted := false), env') ==
            (u, Ok(EnsureConfigs(b, w, p, env).1.value.(minted := false)))
  {
    PlatformBasesApart();
    StageFrames(b, w, p, env);
    var (w1, r1) := EnsureOtel(b, w, p, env);
    StageFrames(b, w1, r1.value, env);
    var (w2, r2) := EnsureTraefik(b, w1, r1.value, env);
    SameRenders(b, w.db.configs, u.db.configs, p.input);
    SameRenders(b, w.db.configs, u.db.configs, r1.value.input);
    SameRenders(b, w.db.configs, u.db.configs, r2.value.input);
    var otel := RenderOtel(b, w.db.configs, p.input).value;
    var traefik := RenderTraefik(b, w.db.configs, r1.value.input).value;
    var edge := RenderStack(b, w.db.configs, Edge, r2.value.input).value;
    var v0, v1, v2, v3 := w.configs, w1.configs, w2.configs, u.configs;
    EnsureTwice(DockerConfig, v0, OTEL_BASE, otel, env.otel);
    EnsureTwice(DockerConfig, v1, TRAEFIK_BASE, traefik, env.traefik);
    EnsureTwice(DockerConfig, v2, EDGE_BASE, edge, env.edge);
    ReuseSurvives(DockerConfig, v1, OTEL_BASE, otel, TRAEFIK_BASE, traefik, env.traefik);
    ReuseSurvives(DockerConfig, v2, OTEL_BASE, otel, EDGE_BASE, edge, env.edge);
    ReuseSurvives(DockerConfig, v2, TRAEFIK_BASE, traefik, EDGE_BASE, edge, env.edge);
    assert EnsureOtel(b, u, p.(minted := false), env') == (u, Ok(r1.value.(minted := false)));
    assert EnsureTraefik(b, u, r1.value.(minted := false), env') == (u, Ok(r2.value.(minted := false)));
  }

  lemma PrepareFrame(b: Build, w: World, check: bool, env: Environment)
    ensures var (w', r) := Prepare(b, w, check, env);
      && w' == w.(cookie := w'.cookie, secrets := w'.secrets, configs := w'.configs)
      && (r.Ok? ==> r.value.input.sso == w.settings.sso)
      && NotDeployError(r)
  {
    var (w0, r0) := Load(b, w, check, env);
    if r0.Ok? {
      StageFrames(b, w0, r0.value, env);
      var (w1, r1) := EnsureTls(w0, r0.value, env);
      if r1.Ok? {
        ConfigsFrame(b, w1, r1.value, env);
      }
    }
  }

  /** Provisioning again from what a successful provisioning left mints nothing and yields the same render
      input, whatever the environment does. */
  lemma PrepareAgain(b: Build, w: World, check: bool, env: Environment, u: World, check': bool, env': Environment)
    requires Prepare(b, w, check, env).1.Ok? && (check' ==> check)
    requires SameInputs(b, Prepare(b, w, check, env).0, u)
    ensures Prepare(b, u, check', env') == (u, Ok(Prepare(b, w, check, env).1.value.(minted := false)))
  {
    var (w0, r0) := Load(b, w, check, env);
    StageFrames(b, w0, r0.value, env);
    var (w1, r1) := EnsureTls(w0, r0.value, env);
    ConfigsFrame(b, w1, r1.value, env);
    LoadAgain(b, w, check, env, u, check', env');
    TlsAgain(w0, r0.value, env, u, env');
    ConfigsAgain(b, w1, r1.value, env, u, env');
  }

  // ---------------------------------------------------------------------------
  // Snapshots and deploys
  // ---------------------------------------------------------------------------

  lemma SnapshotKeepsBodies(b: Build, db: C.ConfigDb, rendered: map<string, string>)
    ensures SameBodies(b, db.configs, Snapshot(db, rendered).configs)
    ensures Snapshot(db, rendered).configs.Keys == db.configs.Keys
  {
  }

  lemma SnapshotKeepsConsistent(db: C.ConfigDb, rendered: map<string, string>)
    requires C.Consistent(db)
    ensures C.Consistent(Snapshot(db, rendered))
  {
    var db' := Snapshot(db, rendered);
    forall v | v in db'.versions
      ensures C.OwnsVersion(db', v)
    {
      C.OwnerSurvives(db, db', v);
    }
  }

  lemma DeployOneEffect(b: Build, rows: map<string, C.ConfigRow>, input: RenderInput, t: Stack,
                        live: map<Stack, string>, failing: map<Stack, Option<string>>, s: Stack)
    ensures var (live', r) := DeployOne(b, rows, input, t, live, failing);
      && (s != t ==> (s in live' <==> s in live) && (s in live ==> live'[s] == live[s]))
      && (r.Ok? && s == t ==> s !in failing && s in live' && RenderStack(b, rows, s, input) == Some(live'[s]))
  {
    hide RenderStack;
  }

  /** A stack in the list of a successful deploy runs its fresh render; a stack outside the list runs what it
      ran before, also when the deploy stops half-way. */
  lemma {:induction false} DeployEffect(b: Build, rows: map<string, C.ConfigRow>, input: RenderInput, stacks: seq<Stack>,
                                        live: map<Stack, string>, failing: map<Stack, Option<string>>, s: Stack)
    ensures var (live', r) := Deploy(b, rows, input, stacks, live, failing);
      && (s !in stacks ==> (s in live' <==> s in live) && (s in live ==> live'[s] == live[s]))
      && (r.Ok? && s in stacks ==> s !in failing && s in live' && RenderStack(b, rows, s, input) == Some(live'[s]))
  {
    hide RenderStack, DeployOne;
    if stacks != [] {
      var front, last := stacks[..|stacks| - 1], stacks[|stacks| - 1];
      DeployEffect(b, rows, input, front, live, failing, s);
      assert stacks == front + [last];
      DeployOneEffect(b, rows, input, last, Deploy(b, rows, input, front, live, failing).0, failing, s);
    }
  }

  /** Where in a list of stacks the first one stands that the environment makes fail; its length if none does. */
  function FirstFailing(stacks: seq<Stack>, failing: map<Stack, Option<string>>): (n: nat)
    ensures n <= |stacks| && (n < |stacks| ==> stacks[n] in failing)
  {
    if stacks == [] then 0
    else
      var n := FirstFailing(stacks[..|stacks| - 1], failing);
      if n < |stacks| - 1 || stacks[|stacks| - 1] in failing then n else |stacks|
  }

  ghost predicate AllDifferent(stacks: seq<Stack>) {
    forall i, j :: 0 <= i < j < |stacks| ==> stacks[i] != stacks[j]
  }

  function At(live: map<Stack, string>, s: Stack): Option<string> {
    if s in live then Some(live[s]) else None
  }

  /** What a deploy makes of one stack, read off its arguments: the fresh render in front of the first failing stack,
      what the failure leaves at it, and what was there before behind it or outside the list. */
  function Fate(stacks: seq<Stack>, failing: map<Stack, Option<string>>, s: Stack, fresh': Option<string>, before: Option<string>): Option<string> {
    var n := FirstFailing(stacks, failing);
    if s in stacks[..n] then fresh'
    else if n < |stacks| && s == stacks[n] then failing[s]
    else before
  }

  lemma FirstFailingStep(front: seq<Stack>, last: Stack, failing: map<Stack, Option<string>>)
    ensures var n := FirstFailing(front, failing);
      FirstFailing(front + [last], failing) == if n < |front| || last in failing then n else |front| + 1
  {
    var stacks := front + [last];
    assert stacks[..|stacks| - 1] == front && stacks[|stacks| - 1] == last;
  }

  /** One more stack in the list. */
  lemma FateStep(front: seq<Stack>, last: Stack, failing: map<Stack, Option<string>>, s: Stack, fresh': Option<string>, before: Option<string>)
    requires last !in front
    ensures Fate(front + [last], failing, s, fresh', before) ==
      if FirstFailing(front, failing) == |front| && s == last then (if last in failing then failing[last] else fresh')
      else Fate(front, failing, s, fresh', before)
  {
    FirstFailingStep(front, last, failing);
    hide FirstFailing;
    var stacks, n := front + [last], FirstFailing(front, failing);
    if n < |front| {
      assert stacks[..n] == front[..n] && stacks[n] == front[n];
    } else {
      assert front[..n] == front;
      assert stacks[..n] == front && stacks[n] == last;
      assert stacks[..|stacks|] == stacks;
      assert s in stacks <==> s in front || s == last;
    }
  }

  /** The stacks a deploy cannot get past, with what it leaves there: one that does not render keeps what it was running. */
  ghost function Blocking(b: Build, rows: map<string, C.ConfigRow>, input: RenderInput, live: map<Stack, string>,
                          failing: map<Stack, Option<string>>): map<Stack, Option<string>>
  {
    map s: Stack | s in failing || RenderStack(b, rows, s, input).None? ::
      if RenderStack(b, rows, s, input).None? then At(live, s) else failing[s]
  }

  /** The deploy succeeds if and only if no stack of the list blocks it, names the first one that does, and ends with
      exactly this content at a stack. */
  ghost predicate MeetsFate(b: Build, rows: map<string, C.ConfigRow>, input: RenderInput, stacks: seq<Stack>,
                            live: map<Stack, string>, failing: map<Stack, Option<string>>, s: Stack)
  {
    var (live', r) := Deploy(b, rows, input, stacks, live, failing);
    var blocking := Blocking(b, rows, input, live, failing);
    var n := FirstFailing(stacks, blocking);
    && (r.Ok? <==> n == |stacks|)
    && (r.Err? ==> r.error == if RenderStack(b, rows, stacks[n], input).None? then RenderFailed else DeployFailed(stacks[n]))
    && At(live', s) == Fate(stacks, blocking, s, RenderStack(b, rows, s, input), At(live, s))
  }

  /** Every deploy of different stacks has exactly this outcome, at every stack. */
  lemma {:induction false} DeployFates(b: Build, rows: map<string, C.ConfigRow>, input: RenderInput, stacks: seq<Stack>,
                                       live: map<Stack, string>, failing: map<Stack, Option<string>>, s: Stack)
    requires AllDifferent(stacks)
    ensures MeetsFate(b, rows, input, stacks, live, failing, s)
  {
    if stacks != [] {
      var front, last := stacks[..|stacks| - 1], stacks[|stacks| - 1];
      assert stacks == front + [last] && last !in front;
      hide MeetsFate;
      DeployFates(b, rows, input, front, live, failing, s);
      DeployFates(b, rows, input, front, live, failing, last);
      OneMoreFate(b, rows, input, front, last, live, failing, s);
    }
  }

  lemma DeployLast(b: Build, rows: map<string, C.ConfigRow>, input: RenderInput, front: seq<Stack>, last: Stack,
                   live: map<Stack, string>, failing: map<Stack, Option<string>>)
    ensures var (live1, r) := Deploy(b, rows, input, front, live, failing);
      Deploy(b, rows, input, front + [last], live, failing) ==
        if r.Err? then (live1, r) else DeployOne(b, rows, input, last, live1, failing)
  {
    hide RenderStack, DeployOne;
    assert (front + [last])[..|front|] == front;
  }

  lemma OneMoreFate(b: Build, rows: map<string, C.ConfigRow>, input: RenderInput, front: seq<Stack>, last: Stack,
                    live: map<Stack, string>, failing: map<Stack, Option<string>>, s: Stack)
    requires last !in front && MeetsFate(b, rows, input, front, live, failing, s) && MeetsFate(b, rows, input, front, live, failing, last)
    ensures MeetsFate(b, rows, input, front + [last], live, failing, s)
  {
    var blocking := Blocking(b, rows, input, live, failing);
    DeployLast(b, rows, input, front, last, live, failing);
    BlockingAt(b, rows, input, live, failing, last);
    hide RenderStack, DeployOne, Blocking, Fate, FirstFailing, At, Deploy;
    FirstFailingStep(front, last, blocking);
    FateStep(front, last, blocking, s, RenderStack(b, rows, s, input), At(live, s));
    var (live1, r1) := Deploy(b, rows, input, front, live, failing);
    assert r1.Ok? <==> FirstFailing(front, blocking) == |front|;
    if FirstFailing(front, blocking) == |front| {
      OutsideFate(front, blocking, last, RenderStack(b, rows, last, input), At(live, last));
      DeployOneFate(b, rows, input, last, live1, failing, s);
    }
  }

  lemma BlockingAt(b: Build, rows: map<string, C.ConfigRow>, input: RenderInput, live: map<Stack, string>,
                   failing: map<Stack, Option<string>>, s: Stack)
    ensures var blocking := Blocking(b, rows, input, live, failing);
      && (s in blocking <==> s in failing || RenderStack(b, rows, s, input).None?)
      && (s in blocking ==> blocking[s] == if RenderStack(b, rows, s, input).None? then At(live, s) else failing[s])
  {
    hide RenderStack;
  }

  lemma OutsideFate(stacks: seq<Stack>, failing: map<Stack, Option<string>>, s: Stack, fresh': Option<string>, before: Option<string>)
    requires s !in stacks && FirstFailing(stacks, failing) == |stacks|
    ensures Fate(stacks, failing, s, fresh', before) == before
  {
  }

  /** The outcome for stacks that all render. */
  lemma RenderedFates(b: Build, rows: map<string, C.ConfigRow>, input: RenderInput, stacks: seq<Stack>,
                      live: map<Stack, string>, failing: map<Stack, Option<string>>, s: Stack)
    requires AllDifferent(stacks) && forall t :: t in stacks ==> RenderStack(b, rows, t, input).Some?
    ensures var (live', r) := Deploy(b, rows, input, stacks, live, failing);
      var n := FirstFailing(stacks, failing);
      && (r.Ok? <==> n == |stacks|)
      && (r.Err? ==> r.error == DeployFailed(stacks[n]))
      && At(live', s) == Fate(stacks, failing, s, RenderStack(b, rows, s, input), At(live, s))
  {
    DeployFates(b, rows, input, stacks, live, failing, s);
    RenderedBlocking(b, rows, input, live, failing, stacks, s, RenderStack(b, rows, s, input), At(live, s));
    hide RenderStack, Blocking, Deploy, Fate, FirstFailing, At;
  }

  lemma {:induction false} SameFirstFailing(stacks: seq<Stack>, failing: map<Stack, Option<string>>, failing': map<Stack, Option<string>>)
    requires forall t :: t in stacks ==> (t in failing <==> t in failing')
    ensures FirstFailing(stacks, failing) == FirstFailing(stacks, failing')
  {
    if stacks != [] {
      SameFirstFailing(stacks[..|stacks| - 1], failing, failing');
    }
  }

  lemma RenderedBlocking(b: Build, rows: map<string, C.ConfigRow>, input: RenderInput, live: map<Stack, string>,
                         failing: map<Stack, Option<string>>, stacks: seq<Stack>, s: Stack, fresh': Option<string>, before: Option<string>)
    requires forall t :: t in stacks ==> RenderStack(b, rows, t, input).Some?
    ensures var blocking := Blocking(b, rows, input, live, failing);
      && FirstFailing(stacks, blocking) == FirstFailing(stacks, failing)
      && Fate(stacks, blocking, s, fresh', before) == Fate(stacks, failing, s, fresh', before)
  {
    var blocking := Blocking(b, rows, input, live, failing);
    hide RenderStack;
    forall t | t in stacks
      ensures t in blocking <==> t in failing
      ensures t in failing ==> blocking[t] == failing[t]
    {
      BlockingAt(b, rows, input, live, failing, t);
    }
    hide Blocking, FirstFailing;
    SameFirstFailing(stacks, failing, blocking);
  }

  lemma DeployOneFate(b: Build, rows: map<string, C.ConfigRow>, input: RenderInput, t: Stack,
                      live: map<Stack, string>, failing: map<Stack, Option<string>>, s: Stack)
    ensures var (live', r) := DeployOne(b, rows, input, t, live, failing);
      var text := RenderStack(b, rows, t, input);
      && (r.Ok? <==> t !in failing && text.Some?)
      && (r.Err? ==> r.error == if text.None? then RenderFailed else DeployFailed(t))
      && At(live', s) == if s != t || text.None? then At(live, s) else if t in failing then failing[t] else text
  {
    hide RenderStack;
  }

  lemma {:induction false} CalmDeploySucceeds(b: Build, rows: map<string, C.ConfigRow>, input: RenderInput, stacks: seq<Stack>,
                                              live: map<Stack, string>)
    requires forall s :: s in stacks ==> RenderStack(b, rows, s, input).Some?
    ensures Deploy(b, rows, input, stacks, live, map[]).1.Ok?
  {
    if stacks != [] {
      CalmDeploySucceeds(b, rows, input, stacks[..|stacks| - 1], live);
    }
  }

  lemma ConfigNames()
    ensures C.Distinct(C.CONFIG_NAMES)
    ensures forall n :: n in C.CONFIG_NAMES <==> n in RenderedNames(true)
    ensures forall s :: StackConfig(s) in C.CONFIG_NAMES
    ensures forall s, sso :: s in Order(sso) <==> StackConfig(s) in RenderedNames(sso)
    ensures forall s, t :: StackConfig(s) == StackConfig(t) ==> s == t
  {
    var names := C.CONFIG_NAMES;
    assert names[0] == "infra-stack" && names[1] == "observability-stack" && names[2] == "backup-stack" &&
           names[3] == "edge-stack" && names[4] == "sso-stack" && names[5] == OTEL_CONFIG && names[6] == TRAEFIK_CONFIG;
    forall sso: bool, s | s !in Order(sso)
      ensures StackConfig(s) !in RenderedNames(sso)
    {
      assert Order(false) == [Observability, Infra, Edge, Backup];
      assert Order(true) == [Observability, Infra, Edge, Backup, Sso];
      assert s == Sso;
    }
    forall sso: bool, s | s in Order(sso) {
      OrderIsRendered(sso, s);
    }
  }

  lemma SyncAfterSnapshot(db: C.ConfigDb, embedded: string -> string, version: string, rendered: map<string, string>)
    requires C.Consistent(db)
    ensures var db' := Snapshot(C.Sync(db, C.CONFIG_NAMES, embedded, version), rendered);
      C.Sync(db', C.CONFIG_NAMES, embedded, version) == db'
  {
    ConfigNames();
    C.SyncEffect(db, C.CONFIG_NAMES, embedded, version, "");
    var synced := C.Sync(db, C.CONFIG_NAMES, embedded, version);
    var db' := Snapshot(synced, rendered);
    SnapshotKeepsConsistent(synced, rendered);
    forall n | n in C.CONFIG_NAMES
      ensures n in db'.configs
      ensures C.IsTemplate(db'.configs[n]) && db'.configs[n].version != version ==> db'.configs[n].content == embedded(n)
    {
      C.SyncEffect(db, C.CONFIG_NAMES, embedded, version, n);
    }
    C.SettledSyncIsNoop(db', C.CONFIG_NAMES, embedded, version);
  }

  // ---------------------------------------------------------------------------
  // Plans
  // ---------------------------------------------------------------------------

  /** The plan reads the synced tables, has rendered every config from them, and nothing is redeployed yet. */
  ghost predicate PlanFor(b: Build, w: World, version: string, plan: Plan) {
    && plan.world.db == C.Sync(w.db, C.CONFIG_NAMES, b.embedded, version)
    && plan.world.live == w.live
    && plan.world.settings == w.settings
    && plan.prepared.input.sso == w.settings.sso
    && plan.rendered.Keys == RenderedNames(w.settings.sso.enabled)
    && forall n :: n in plan.rendered ==> RenderConfig(b, plan.world.db.configs, n, plan.prepared.input) == Some(plan.rendered[n])
  }

  lemma RenderPlanGives(b: Build, w: World, p: Prepared)
    ensures var r := RenderPlan(b, w, p);
      && (r.Err? ==> r.error == RenderFailed)
      && (r.Ok? ==> r.value.world == w && r.value.prepared == p && r.value.rendered.Keys == RenderedNames(p.input.sso.enabled))
      && (r.Ok? ==> forall n :: n in r.value.rendered ==> RenderConfig(b, w.db.configs, n, p.input) == Some(r.value.rendered[n]))
  {
  }

  lemma MakePlanGives(b: Build, w: World, version: string, env: Environment)
    ensures var (w', r) := MakePlan(b, w, version, env);
      && w'.live == w.live && w'.settings == w.settings
      && (w'.db == w.db || w'.db == C.Sync(w.db, C.CONFIG_NAMES, b.embedded, version))
      && (r.Ok? ==> PlanFor(b, w, version, r.value) && r.value.world == w')
      && (r.Err? ==> !r.error.DeployFailed?)
  {
    if !env.preflightFails {
      var synced := w.(db := C.Sync(w.db, C.CONFIG_NAMES, b.embedded, version));
      var (w1, p) := Prepare(b, synced, true, env);
      PlanFromPrepared(b, w, version, env, w1, p);
    }
  }

  lemma PlanFromPrepared(b: Build, w: World, version: string, env: Environment, w1: World, p: Result<Prepared, UpdateError>)
    requires Prepare(b, w.(db := C.Sync(w.db, C.CONFIG_NAMES, b.embedded, version)), true, env) == (w1, p)
    ensures w1.live == w.live && w1.settings == w.settings && w1.db == C.Sync(w.db, C.CONFIG_NAMES, b.embedded, version)
    ensures NotDeployError(p)
    ensures p.Ok? && RenderPlan(b, w1, p.value).Ok? ==> PlanFor(b, w, version, RenderPlan(b, w1, p.value).value)
  {
    PrepareFrame(b, w.(db := C.Sync(w.db, C.CONFIG_NAMES, b.embedded, version)), true, env);
    if p.Ok? {
      RenderPlanGives(b, w1, p.value);
    }
  }

  lemma AgreeReflexive(v: Vault, base: string)
    ensures AgreeOn(v, v, base)
  {
  }

  lemma TlsAgrees(w: World, p: Prepared, env: Environment, base: string)
    requires Apart(CERT_BASE, base) && Apart(KEY_BASE, base)
    ensures AgreeOn(w.secrets, EnsureTls(w, p, env).0.secrets, base)
  {
    AgreeReflexive(w.secrets, base);
    hide Ensure, AgreeOn, Apart;
    if w.settings.certPath in w.files {
      var (v1, cert) := Ensure(Secret, w.secrets, CERT_BASE, w.files[w.settings.certPath], env.cert);
      EnsureAgrees(Secret, w.secrets, CERT_BASE, w.files[w.settings.certPath], env.cert, base);
      if w.settings.keyPath in w.files {
        EnsureAgrees(Secret, v1, KEY_BASE, w.files[w.settings.keyPath], env.key, base);
        AgreeTransitive(w.secrets, v1, Ensure(Secret, v1, KEY_BASE, w.files[w.settings.keyPath], env.key).0, base);
      }
    }
  }

  lemma PrepareAgrees(b: Build, w: World, env: Environment, base: string)
    requires Apart(CERT_BASE, base) && Apart(KEY_BASE, base)
    ensures AgreeOn(w.secrets, Prepare(b, w, true, env).0.secrets, base)
  {
    var (w0, r0) := Load(b, w, true, env);
    if r0.Ok? {
      TlsAgrees(w0, r0.value, env, base);
      var (w1, r1) := EnsureTls(w0, r0.value, env);
      if r1.Ok? {
        ConfigsFrame(b, w1, r1.value, env);
      }
    }
  }

  /** An update leaves every secret alone that is not a version of the cluster's own certificate or key. */
  lemma UpdateAgrees(b: Build, w: World, version: string, env: Environment, base: string)
    requires Apart(CERT_BASE, base) && Apart(KEY_BASE, base)
    ensures AgreeOn(w.secrets, Update(b, w, version, env).0.secrets, base)
  {
    PrepareAgrees(b, w.(db := C.Sync(w.db, C.CONFIG_NAMES, b.embedded, version)), env, base);
    PlannedSecrets(b, w, version, env);
  }

  lemma PlannedSecrets(b: Build, w: World, version: string, env: Environment)
    ensures Update(b, w, version, env).0.secrets ==
      if env.preflightFails then w.secrets
      else Prepare(b, w.(db := C.Sync(w.db, C.CONFIG_NAMES, b.embedded, version)), true, env).0.secrets
  {
    MakePlanGives(b, w, version, env);
  }

  /** The row of a config holds a fresh render and its hash. */
  ghost predicate Stored(db: C.ConfigDb, n: string, rendered: map<string, string>)
    requires n in rendered
  {
    n in db.configs && db.configs[n].rendered == rendered[n] && db.configs[n].renderedHash == ContentHash(rendered[n])
  }

  /** The tables once a plan's snapshots are stored. */
  lemma PlannedRow(b: Build, w: World, version: string, plan: Plan, n: string)
    requires C.Consistent(w.db) && PlanFor(b, w, version, plan)
    ensures var db := Snapshot(plan.world.db, plan.rendered);
      && C.Consistent(db)
      && (n in plan.rendered ==> n in plan.world.db.configs && Stored(db, n, plan.rendered))
      && (n in db.configs && n !in plan.rendered ==>
            db.configs[n].renderedHash == (if n in w.db.configs then w.db.configs[n].renderedHash else NoDigest))
      && (n in plan.world.db.configs ==>
            plan.world.db.configs[n].renderedHash == (if n in w.db.configs then w.db.configs[n].renderedHash else NoDigest))
  {
    ConfigNames();
    C.SyncEffect(w.db, C.CONFIG_NAMES, b.embedded, version, n);
    SnapshotKeepsConsistent(plan.world.db, plan.rendered);
  }

  /** The second render, after the snapshots are stored, is the first one. */
  lemma PlannedRender(b: Build, w: World, version: string, plan: Plan, s: Stack)
    requires PlanFor(b, w, version, plan) && s in Order(w.settings.sso.enabled)
    ensures StackConfig(s) in plan.rendered
    ensures RenderStack(b, Snapshot(plan.world.db, plan.rendered).configs, s, plan.prepared.input) == Some(plan.rendered[StackConfig(s)])
  {
    ConfigNames();
    SnapshotKeepsBodies(b, plan.world.db, plan.rendered);
    SameRenders(b, plan.world.db.configs, Snapshot(plan.world.db, plan.rendered).configs, plan.prepared.input);
    assert RenderConfig(b, plan.world.db.configs, StackConfig(s), plan.prepared.input) == RenderStack(b, plan.world.db.configs, s, plan.prepared.input);
  }

  /** Planning again from stored snapshots gives the same renders and input, and mints nothing. */
  lemma PlanAgain(b: Build, w: World, version: string, env: Environment, live: map<Stack, string>, env': Environment)
    requires C.Consistent(w.db) && MakePlan(b, w, version, env).1.Ok? && !env'.preflightFails
    ensures var plan := MakePlan(b, w, version, env).1.value;
      var u := plan.world.(db := Snapshot(plan.world.db, plan.rendered), live := live);
      && MakePlan(b, u, version, env') == (u, Ok(Plan(u, plan.prepared.(minted := false), plan.rendered)))
      && RenderClusterConfigs(b, u, env') == (u, Ok(plan.rendered))
  {
    var synced := w.(db := C.Sync(w.db, C.CONFIG_NAMES, b.embedded, version));
    var (w1, p) := Prepare(b, synced, true, env);
    var plan := MakePlan(b, w, version, env).1.value;
    var u := plan.world.(db := Snapshot(plan.world.db, plan.rendered), live := live);
    PrepareFrame(b, synced, true, env);
    SnapshotKeepsBodies(b, plan.world.db, plan.rendered);
    SyncAfterSnapshot(w.db, b.embedded, version, plan.rendered);
    assert u.(db := C.Sync(u.db, C.CONFIG_NAMES, b.embedded, version)) == u;
    assert SameInputs(b, w1, u);
    PrepareAgain(b, synced, true, env, u, true, env');
    PrepareAgain(b, synced, true, env, u, false, env');
    SameRenders(b, w1.db.configs, u.db.configs, p.value.input);
  }

  lemma {:induction false} NothingStale(db: C.ConfigDb, rendered: map<string, string>, order: seq<Stack>)
    requires forall s :: s in order ==> StackConfig(s) in rendered
    requires forall n :: n in rendered ==> Stored(db, n, rendered)
    ensures Stale(db.configs, rendered, order) == []
  {
    if order != [] {
      NothingStale(db, rendered, order[..|order| - 1]);
      assert Stored(db, StackConfig(order[|order| - 1]), rendered);
    }
  }

  lemma SnapshotStored(db: C.ConfigDb, rendered: map<string, string>)
    requires forall n :: n in rendered ==> Stored(db, n, rendered)
    ensures Snapshot(db, rendered) == db
  {
    var db' := Snapshot(db, rendered);
    forall n | n in db.configs
      ensures db'.configs[n] == db.configs[n]
    {
      if n in rendered {
        assert Stored(db, n, rendered);
      }
    }
    assert db'.configs == db.configs;
  }

  /** Reconciling a plan whose snapshots are all stored already changes nothing. */
  lemma ReconcileStored(b: Build, plan: Plan, env: Environment)
    requires plan.rendered.Keys == RenderedNames(plan.prepared.input.sso.enabled)
    requires forall n :: n in plan.rendered ==> Stored(plan.world.db, n, plan.rendered)
    ensures Reconcile(b, plan, env) == (plan.world, Ok(Report(plan.prepared.minted, [])))
  {
    var order := Order(plan.prepared.input.sso.enabled);
    forall s | s in order {
      OrderIsRendered(plan.prepared.input.sso.enabled, s);
    }
    NothingStale(plan.world.db, plan.rendered, order);
    SnapshotStored(plan.world.db, plan.rendered);
  }

  /** After an update has stored its snapshots, a further update in the same build mints nothing, deploys
      nothing and leaves the world exactly as it is: whatever the environment does and WHATEVER is running.
      That is the promised no-op after a success, and equally what hides a stack that failed to deploy or
      was taken down after its hash was stored. */
  lemma UpdateAgainIsNoop(b: Build, w: World, version: string, env: Environment, live: map<Stack, string>, env': Environment)
    requires C.Consistent(w.db) && MakePlan(b, w, version, env).1.Ok? && !env'.preflightFails
    ensures var u := Update(b, w, version, env).0.(live := live);
      Update(b, u, version, env') == (u, Ok(Report(false, [])))
  {
    MakePlanGives(b, w, version, env);
    var plan := MakePlan(b, w, version, env).1.value;
    var u := plan.world.(db := Snapshot(plan.world.db, plan.rendered), live := live);
    assert Update(b, w, version, env).0.(live := live) == u;
    PlanAgain(b, w, version, env, live, env');
    forall n | n in plan.rendered
      ensures Stored(u.db, n, plan.rendered)
    {
      PlannedRow(b, w, version, plan, n);
    }
    ReconcileStored(b, Plan(u, plan.prepared.(minted := false), plan.rendered), env');
  }

  /** An update reads the per-host certificate rows and leaves them alone. */
  lemma UpdateKeepsRows(b: Build, w: World, version: string, env: Environment)
    ensures Update(b, w, version, env).0.hostCerts == w.hostCerts
  {
    if !env.preflightFails {
      PrepareFrame(b, w.(db := C.Sync(w.db, C.CONFIG_NAMES, b.embedded, version)), true, env);
      hide Prepare, C.Sync, RenderAll, Deploy, Snapshot, Stale;
    }
  }

  // ---------------------------------------------------------------------------
  // Stored hashes agree with what is running
  // ---------------------------------------------------------------------------

  ghost predicate FaithfulTo(db: C.ConfigDb, live: map<Stack, string>, s: Stack) {
    StackConfig(s) in db.configs && db.configs[StackConfig(s)].renderedHash != NoDigest ==>
      s in live && db.configs[StackConfig(s)].renderedHash == ContentHash(live[s])
  }

  /** Every stored snapshot hash of a stack is the hash of the content that stack is running. */
  ghost predicate Faithful(w: World) {
    forall s :: FaithfulTo(w.db, w.live, s)
  }

  ghost predicate RunsFresh(live: map<Stack, string>, rendered: map<string, string>, s: Stack) {
    s in live && StackConfig(s) in rendered && live[s] == rendered[StackConfig(s)]
  }

  /** An enabled stack that is not stale already runs its fresh render: equal hashes mean equal contents. */
  lemma UnchangedRunsFresh(b: Build, w: World, version: string, plan: Plan, env: Environment, s: Stack)
    requires C.Consistent(w.db) && Faithful(w) && PlanFor(b, w, version, plan)
    requires s in Order(w.settings.sso.enabled) && s !in StaleStacks(plan)
    ensures RunsFresh(Reconcile(b, plan, env).0.live, plan.rendered, s)
  {
    ConfigNames();
    PlannedRow(b, w, version, plan, StackConfig(s));
    assert FaithfulTo(w.db, w.live, s);
    DeployEffect(b, Snapshot(plan.world.db, plan.rendered).configs, plan.prepared.input, StaleStacks(plan), w.live, env.failing, s);
  }

  lemma DeployedRunsFresh(b: Build, w: World, version: string, plan: Plan, env: Environment, s: Stack)
    requires PlanFor(b, w, version, plan)
    requires Reconcile(b, plan, env).1.Ok? && s in StaleStacks(plan)
    ensures RunsFresh(Reconcile(b, plan, env).0.live, plan.rendered, s)
  {
    hide RenderStack, RenderConfig, Snapshot, Deploy;
    var rows, input, stale := Snapshot(plan.world.db, plan.rendered).configs, plan.prepared.input, StaleStacks(plan);
    assert s in Order(w.settings.sso.enabled);
    var (live, r) := Deploy(b, rows, input, stale, plan.world.live, env.failing);
    assert r.Ok? && Reconcile(b, plan, env).0.live == live;
    hide PlanFor, Reconcile, StaleStacks;
    PlannedRender(b, w, version, plan, s);
    DeployEffect(b, rows, input, stale, plan.world.live, env.failing, s);
  }

  lemma DisabledStaysFaithful(b: Build, w: World, version: string, plan: Plan, env: Environment, s: Stack)
    requires C.Consistent(w.db) && Faithful(w) && PlanFor(b, w, version, plan)
    requires s !in Order(w.settings.sso.enabled)
    ensures s !in StaleStacks(plan)
    ensures FaithfulTo(Snapshot(plan.world.db, plan.rendered), Reconcile(b, plan, env).0.live, s)
  {
    ConfigNames();
    PlannedRow(b, w, version, plan, StackConfig(s));
    assert FaithfulTo(w.db, w.live, s);
    DeployEffect(b, Snapshot(plan.world.db, plan.rendered).configs, plan.prepared.input, StaleStacks(plan), w.live, env.failing, s);
  }

  lemma EnabledFaithfulIff(b: Build, w: World, version: string, plan: Plan, live: map<Stack, string>, s: Stack)
    requires C.Consistent(w.db) && PlanFor(b, w, version, plan) && s in Order(w.settings.sso.enabled)
    ensures FaithfulTo(Snapshot(plan.world.db, plan.rendered), live, s) <==> RunsFresh(live, plan.rendered, s)
  {
    OrderIsRendered(w.settings.sso.enabled, s);
    PlannedRow(b, w, version, plan, StackConfig(s));
  }

  lemma FaithfulStackIff(b: Build, w: World, version: string, plan: Plan, env: Environment, s: Stack)
    requires C.Consistent(w.db) && Faithful(w) && PlanFor(b, w, version, plan)
    ensures var w' := Reconcile(b, plan, env).0;
      FaithfulTo(w'.db, w'.live, s) <==> (s in StaleStacks(plan) ==> RunsFresh(w'.live, plan.rendered, s))
  {
    if s in Order(w.settings.sso.enabled) {
      EnabledFaithfulIff(b, w, version, plan, Reconcile(b, plan, env).0.live, s);
      if s !in StaleStacks(plan) {
        UnchangedRunsFresh(b, w, version, plan, env, s);
      }
    } else {
      DisabledStaysFaithful(b, w, version, plan, env, s);
    }
  }

  lemma FaithfulIffDeployed(b: Build, w: World, version: string, plan: Plan, env: Environment)
    requires C.Consistent(w.db) && Faithful(w) && PlanFor(b, w, version, plan)
    ensures var w' := Reconcile(b, plan, env).0;
      && C.Consistent(w'.db)
      && (Faithful(w') <==> forall s :: s in StaleStacks(plan) ==> RunsFresh(w'.live, plan.rendered, s))
  {
    PlannedRow(b, w, version, plan, "");
    forall s {
      FaithfulStackIff(b, w, version, plan, env, s);
    }
  }

  lemma {:induction false} StaleDifferent(rows: map<string, C.ConfigRow>, rendered: map<string, string>, order: seq<Stack>)
    requires AllDifferent(order) && forall s :: s in order ==> StackConfig(s) in rendered
    ensures AllDifferent(Stale(rows, rendered, order))
  {
    if order != [] {
      hide Changed;
      var front, last := order[..|order| - 1], order[|order| - 1];
      assert order == front + [last] && last !in front;
      StaleDifferent(rows, rendered, front);
    }
  }

  lemma OrderDifferent(sso: bool)
    ensures AllDifferent(Order(sso))
  {
    assert Order(false) == [Observability, Infra, Edge, Backup];
    assert Order(true) == [Observability, Infra, Edge, Backup, Sso];
  }

  /** Whether an enabled stack ends up running its fresh render, decided before the first deploy: by where it stands among
      the stale stacks, by what the first failure leaves, and by what it is running already. */
  predicate EndsFresh(stale: seq<Stack>, failing: map<Stack, Option<string>>, live: map<Stack, string>, rendered: map<string, string>, s: Stack)
    requires StackConfig(s) in rendered
  {
    Fate(stale, failing, s, Some(rendered[StackConfig(s)]), At(live, s)) == Some(rendered[StackConfig(s)])
  }

  /** The stale stacks are different, enabled and rendered, and the second render will be the first one. */
  lemma StaleFacts(b: Build, w: World, version: string, plan: Plan)
    requires PlanFor(b, w, version, plan)
    ensures AllDifferent(StaleStacks(plan))
    ensures forall s :: s in StaleStacks(plan) ==> s in Order(w.settings.sso.enabled)
    ensures forall s :: s in Order(w.settings.sso.enabled) ==>
      StackConfig(s) in plan.rendered &&
      RenderStack(b, Snapshot(plan.world.db, plan.rendered).configs, s, plan.prepared.input) == Some(plan.rendered[StackConfig(s)])
  {
    OrderDifferent(w.settings.sso.enabled);
    hide Changed;
    forall s | s in Order(w.settings.sso.enabled)
      ensures StackConfig(s) in plan.rendered &&
        RenderStack(b, Snapshot(plan.world.db, plan.rendered).configs, s, plan.prepared.input) == Some(plan.rendered[StackConfig(s)])
    {
      PlannedRender(b, w, version, plan, s);
    }
    StaleDifferent(plan.world.db.configs, plan.rendered, Order(w.settings.sso.enabled));
    hide RenderStack, RenderConfig, Snapshot, Order;
  }

  lemma ReconcileIs(b: Build, plan: Plan, env: Environment)
    requires plan.rendered.Keys == RenderedNames(plan.prepared.input.sso.enabled)
    ensures var (live, r) := Deploy(b, Snapshot(plan.world.db, plan.rendered).configs, plan.prepared.input, StaleStacks(plan),
                                    plan.world.live, env.failing);
      && Reconcile(b, plan, env).0.live == live
      && (Reconcile(b, plan, env).1.Ok? <==> r.Ok?)
      && (r.Err? ==> Reconcile(b, plan, env).1 == Err(r.error))
  {
    hide Snapshot, RenderStack, DeployOne, Stale;
    var db := Snapshot(plan.world.db, plan.rendered);
    var (live, r) := Deploy(b, db.configs, plan.prepared.input, StaleStacks(plan), plan.world.live, env.failing);
    assert Reconcile(b, plan, env).1 == if r.Err? then Err(r.error) else Ok(Report(plan.prepared.minted, StaleStacks(plan)));
  }

  lemma EndsFreshIff(b: Build, w: World, version: string, plan: Plan, env: Environment, s: Stack)
    requires PlanFor(b, w, version, plan) && s in Order(w.settings.sso.enabled)
    ensures StackConfig(s) in plan.rendered
    ensures RunsFresh(Reconcile(b, plan, env).0.live, plan.rendered, s) <==> EndsFresh(StaleStacks(plan), env.failing, w.live, plan.rendered, s)
    ensures Reconcile(b, plan, env).1.Ok? <==> FirstFailing(StaleStacks(plan), env.failing) == |StaleStacks(plan)|
    ensures Reconcile(b, plan, env).1.Err? ==>
      Reconcile(b, plan, env).1.error == DeployFailed(StaleStacks(plan)[FirstFailing(StaleStacks(plan), env.failing)])
  {
    assert plan.rendered.Keys == RenderedNames(plan.prepared.input.sso.enabled);
    StaleFacts(b, w, version, plan);
    ReconcileIs(b, plan, env);
    assert plan.world.live == w.live;
    hide RenderStack, RenderConfig, Snapshot, Order, StaleStacks, Fate, FirstFailing, Deploy, Reconcile, PlanFor, RenderedNames, AllDifferent;
    RenderedFates(b, Snapshot(plan.world.db, plan.rendered).configs, plan.prepared.input, StaleStacks(plan), w.live, env.failing, s);
  }

  /** A stack at a known place among the stale ones. */
  lemma StaleEndsFresh(stale: seq<Stack>, failing: map<Stack, Option<string>>, live: map<Stack, string>, rendered: map<string, string>, i: nat)
    requires AllDifferent(stale) && i < |stale| && StackConfig(stale[i]) in rendered
    ensures var n := FirstFailing(stale, failing);
      EndsFresh(stale, failing, live, rendered, stale[i]) <==>
        if i < n then true
        else if i == n then failing[stale[n]] == Some(rendered[StackConfig(stale[n])])
        else RunsFresh(live, rendered, stale[i])
  {
    var n := FirstFailing(stale, failing);
    hide FirstFailing;
    assert stale[i] in stale[..n] <==> i < n by {
      if i < n {
        assert stale[..n][i] == stale[i];
      }
    }
  }

  /** It takes one of two things for all stale stacks to end up running their fresh renders: none of them is made to
      fail; or the first one that is leaves its fresh render behind anyway, and every one queued behind it is running its
      own already. */
  predicate NoneLeftBehind(stale: seq<Stack>, failing: map<Stack, Option<string>>, live: map<Stack, string>, rendered: map<string, string>)
    requires forall s :: s in stale ==> StackConfig(s) in rendered
  {
    var n := FirstFailing(stale, failing);
    || n == |stale|
    || (failing[stale[n]] == Some(rendered[StackConfig(stale[n])]) &&
        forall i :: n < i < |stale| ==> stale[i] in live && live[stale[i]] == rendered[StackConfig(stale[i])])
  }

  lemma AllEndFreshIff(stale: seq<Stack>, failing: map<Stack, Option<string>>, live: map<Stack, string>, rendered: map<string, string>)
    requires AllDifferent(stale) && forall s :: s in stale ==> StackConfig(s) in rendered
    ensures (forall s :: s in stale ==> EndsFresh(stale, failing, live, rendered, s)) <==> NoneLeftBehind(stale, failing, live, rendered)
  {
    forall i | 0 <= i < |stale|
      ensures var n := FirstFailing(stale, failing);
        EndsFresh(stale, failing, live, rendered, stale[i]) <==>
          if i < n then true
          else if i == n then failing[stale[n]] == Some(rendered[StackConfig(stale[n])])
          else RunsFresh(live, rendered, stale[i])
    {
      StaleEndsFresh(stale, failing, live, rendered, i);
    }
    hide EndsFresh, FirstFailing;
    var n := FirstFailing(stale, failing);
    if forall s :: s in stale ==> EndsFresh(stale, failing, live, rendered, s) {
      assert forall i :: n <= i < |stale| ==> stale[i] in stale;
    }
  }

  /** When the stored hashes describe what is running after a reconcile, read off what is known before it deploys: every
      hash is stored up front, so they do exactly if no stale stack is left behind. */
  lemma FaithfulAfterReconcileIff(b: Build, w: World, version: string, plan: Plan, env: Environment)
    requires C.Consistent(w.db) && Faithful(w) && PlanFor(b, w, version, plan)
    ensures forall s :: s in StaleStacks(plan) ==> StackConfig(s) in plan.rendered
    ensures C.Consistent(Reconcile(b, plan, env).0.db)
    ensures Faithful(Reconcile(b, plan, env).0) <==> NoneLeftBehind(StaleStacks(plan), env.failing, w.live, plan.rendered)
  {
    assert plan.rendered.Keys == RenderedNames(plan.prepared.input.sso.enabled);
    FaithfulIffDeployed(b, w, version, plan, env);
    StaleFacts(b, w, version, plan);
    hide FirstFailing, Reconcile, RunsFresh, StaleStacks, Order, EndsFresh, Faithful, PlanFor, NoneLeftBehind, AllDifferent, RenderedNames;
    AllEndFreshIff(StaleStacks(plan), env.failing, w.live, plan.rendered);
    forall s | s in StaleStacks(plan)
      ensures RunsFresh(Reconcile(b, plan, env).0.live, plan.rendered, s) <==>
        EndsFresh(StaleStacks(plan), env.failing, w.live, plan.rendered, s)
    {
      EndsFreshIff(b, w, version, plan, env, s);
    }
  }

  lemma ReconcileConverges(b: Build, w: World, version: string, plan: Plan, env: Environment)
    requires C.Consistent(w.db) && Faithful(w) && PlanFor(b, w, version, plan) && Reconcile(b, plan, env).1.Ok?
    ensures var w' := Reconcile(b, plan, env).0;
      && Faithful(w') && C.Consistent(w'.db)
      && forall s :: s in Order(w.settings.sso.enabled) ==> RunsFresh(w'.live, plan.rendered, s)
  {
    var w' := Reconcile(b, plan, env).0;
    forall s | s in Order(w.settings.sso.enabled)
      ensures RunsFresh(w'.live, plan.rendered, s)
    {
      if s in StaleStacks(plan) {
        DeployedRunsFresh(b, w, version, plan, env, s);
      } else {
        UnchangedRunsFresh(b, w, version, plan, env, s);
      }
    }
    FaithfulIffDeployed(b, w, version, plan, env);
  }

  /** A successful update leaves every enabled stack running exactly what a read-only rendering reports from
      the world it leaves, although it redeployed only the stacks whose stored hash differed; the hashes it
      stores describe what is running. */
  lemma UpdateConverges(b: Build, w: World, version: string, env: Environment, env': Environment)
    requires C.Consistent(w.db) && Faithful(w) && !env'.preflightFails
    requires Update(b, w, version, env).1.Ok?
    ensures var w' := Update(b, w, version, env).0;
      && Faithful(w') && C.Consistent(w'.db) && w'.settings == w.settings
      && RenderClusterConfigs(b, w', env').0 == w'
      && RenderClusterConfigs(b, w', env').1.Ok?
      && (forall s :: s in Order(w.settings.sso.enabled) ==> RunsFresh(w'.live, RenderClusterConfigs(b, w', env').1.value, s))
  {
    var w' := Update(b, w, version, env).0;
    MakePlanGives(b, w, version, env);
    var plan := MakePlan(b, w, version, env).1.value;
    ReconcileConverges(b, w, version, plan, env);
    PlanAgain(b, w, version, env, w'.live, env');
    assert w' == plan.world.(db := Snapshot(plan.world.db, plan.rendered), live := w'.live);
  }

  lemma CalmReconcileSucceeds(b: Build, w: World, version: string, plan: Plan, env: Environment)
    requires PlanFor(b, w, version, plan) && env.failing == map[]
    ensures Reconcile(b, plan, env).1.Ok?
  {
    forall s | s in StaleStacks(plan)
      ensures RenderStack(b, Snapshot(plan.world.db, plan.rendered).configs, s, plan.prepared.input).Some?
    {
      PlannedRender(b, w, version, plan, s);
    }
    CalmDeploySucceeds(b, Snapshot(plan.world.db, plan.rendered).configs, plan.prepared.input, StaleStacks(plan), w.live);
  }

  lemma EarlyStopKeepsFaithful(b: Build, w: World, version: string, env: Environment)
    requires C.Consistent(w.db) && Faithful(w)
    ensures var w' := MakePlan(b, w, version, env).0; Faithful(w') && C.Consistent(w'.db)
  {
    var w' := MakePlan(b, w, version, env).0;
    MakePlanGives(b, w, version, env);
    ConfigNames();
    C.SyncEffect(w.db, C.CONFIG_NAMES, b.embedded, version, "");
    forall s
      ensures FaithfulTo(w'.db, w'.live, s)
    {
      C.SyncEffect(w.db, C.CONFIG_NAMES, b.embedded, version, StackConfig(s));
      assert FaithfulTo(w.db, w.live, s);
    }
  }

  /** Without failing deploys an update keeps hashes and running stacks in agreement, also when it gives up
      before reconciling. */
  lemma CalmUpdateKeepsFaithful(b: Build, w: World, version: string, env: Environment)
    requires C.Consistent(w.db) && Faithful(w) && env.failing == map[]
    ensures var w' := Update(b, w, version, env).0; Faithful(w') && C.Consistent(w'.db)
  {
    EarlyStopKeepsFaithful(b, w, version, env);
    MakePlanGives(b, w, version, env);
    var r := MakePlan(b, w, version, env).1;
    if r.Ok? {
      CalmReconcileSucceeds(b, w, version, r.value, env);
      ReconcileConverges(b, w, version, r.value, env);
    }
  }

  // ---------------------------------------------------------------------------
  // Where the index goes wrong
  // ---------------------------------------------------------------------------

  /** The bad run: a stack fails to deploy after all hashes were stored. What was left behind keeps running: the next
      update reports success, deploys nothing and changes nothing, and so does every one after it. An enabled stack runs
      its fresh render then if and only if it was queued in front of the failing one, or it is the failing one and the
      failure left just that, or it was running it already. */
  lemma FailedDeployIsNeverRetried(b: Build, w: World, version: string, env: Environment, s: Stack, env': Environment)
    requires C.Consistent(w.db) && !env'.preflightFails
    requires Update(b, w, version, env).1 == Err(DeployFailed(s))
    ensures MakePlan(b, w, version, env).1.Ok?
    ensures var w' := Update(b, w, version, env).0;
      Update(b, w', version, env') == (w', Ok(Report(false, [])))
    ensures var plan := MakePlan(b, w, version, env).1.value;
      PlanFor(b, w, version, plan) &&
      var stale := StaleStacks(plan);
      var n := FirstFailing(stale, env.failing);
      && n < |stale| && s == stale[n]
      && forall t :: t in Order(w.settings.sso.enabled) ==>
           StackConfig(t) in plan.rendered &&
           (RunsFresh(Update(b, w, version, env).0.live, plan.rendered, t) <==> EndsFresh(stale, env.failing, w.live, plan.rendered, t))
  {
    var w' := Update(b, w, version, env).0;
    MakePlanGives(b, w, version, env);
    var plan := MakePlan(b, w, version, env).1.value;
    UpdateAgainIsNoop(b, w, version, env, w'.live, env');
    assert w' == w'.(live := w'.live);
    assert (w', Update(b, w, version, env).1) == Reconcile(b, plan, env);
    hide Update, MakePlan, Reconcile, PlanFor, EndsFresh, RunsFresh, FirstFailing;
    forall t | t in Order(w.settings.sso.enabled)
      ensures StackConfig(t) in plan.rendered
      ensures RunsFresh(w'.live, plan.rendered, t) <==> EndsFresh(StaleStacks(plan), env.failing, w.live, plan.rendered, t)
    {
      EndsFreshIff(b, w, version, plan, env, t);
    }
    assert Infra in Order(w.settings.sso.enabled);
    EndsFreshIff(b, w, version, plan, env, Infra);
  }
}
