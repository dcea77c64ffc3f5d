/** What every Compose document written from a manifest satisfies. */
module ComposeTheorems {
  import opened Common
  import opened Manifest
  import opened Compose

  // ---------------------------------------------------------------------------
  // One document, whatever the iteration order
  // ---------------------------------------------------------------------------

  ghost predicate Permuted<T>(a: seq<T>, b: seq<T>) {
    multiset(a) == multiset(b)
  }

  lemma PermutedMembers<T>(a: seq<T>, b: seq<T>)
    requires Permuted(a, b)
    ensures forall x :: x in a <==> x in b
  {
    forall x
      ensures x in a <==> x in b
    {
      assert x in a <==> x in multiset(a);
      assert x in b <==> x in multiset(b);
    }
  }

  /** The written document is a function of the representation up to the order of its services, volumes and
      secrets. */
  lemma OrderDoesNotMatter(ir: IR, ir': IR, root: string, doc: Document, doc': Document)
    requires ir'.name == ir.name && ir'.env == ir.env && ir'.version == ir.version
    requires Permuted(ir.services, ir'.services) && Permuted(ir.volumes, ir'.volumes) && Permuted(ir.secrets, ir'.secrets)
    requires Written(doc, ir, root) && Written(doc', ir', root)
    ensures doc == doc'
  {
    hide WriteService;
    PermutedMembers(ir.services, ir'.services);
    PermutedMembers(ir.volumes, ir'.volumes);
    PermutedMembers(ir.secrets, ir'.secrets);
    SameServices(ir, ir', root, doc, doc');
    SameServices(ir', ir, root, doc', doc);
    assert doc.services == doc'.services;
    assert doc.volumes == doc'.volumes;
    assert doc.secrets == doc'.secrets;
  }

  lemma SameServices(ir: IR, ir': IR, root: string, doc: Document, doc': Document)
    requires ir'.name == ir.name && ir'.env == ir.env && ir'.version == ir.version
    requires forall s :: s in ir.services ==> s in ir'.services
    requires Written(doc, ir, root) && Written(doc', ir', root)
    ensures forall n :: n in doc.services ==> n in doc'.services && doc'.services[n] == doc.services[n]
    ensures Exposed(ir) ==> Exposed(ir')
  {
    hide WriteService;
    forall n | n in doc.services
      ensures n in doc'.services && doc'.services[n] == doc.services[n]
    {
      var i :| 0 <= i < |ir.services| && ir.services[i].name == n;
      assert ir.services[i] in ir'.services;
    }
    if Exposed(ir) {
      var i :| 0 <= i < |ir.services| && ir.services[i].expose.Some?;
      assert ir.services[i] in ir'.services;
    }
  }

  ghost predicate AppExposed(app: App) {
    exists n :: n in app.services && app.services[n].expose.Some?
  }

  /** The document of a manifest, stated on the manifest itself. */
  ghost predicate DocumentOf(doc: Document, app: App, res: Resolver, root: string) {
    && Translates(app, res)
    && doc.services.Keys == app.services.Keys
    && (forall n :: n in app.services ==> doc.services[n] == WriteService(Translated(app, n, res), app.name, app.env, app.version, root))
    && (forall v :: v in doc.volumes <==> UsesVolume(app, v))
    && (forall v :: v in doc.volumes ==> doc.volumes[v] == (root + "/" + app.name + "/") + v)
    && doc.networks == Networks(app.name, AppExposed(app))
    && (forall s :: s in doc.secrets <==> UsesSecret(app, s))
  }

  lemma TranslatedIndex(ir: IR, app: App, res: Resolver, n: string) returns (i: nat)
    requires Represents(ir, app, res) && n in app.services
    ensures i < |ir.services| && ir.services[i] == Translated(app, n, res) && ir.services[i].name == n
  {
    hide TranslateService;
    TranslatedName(app, n, res);
    assert Translated(app, n, res) in ir.services;
    i :| 0 <= i < |ir.services| && ir.services[i] == Translated(app, n, res);
  }

  lemma WrittenServices(doc: Document, ir: IR, app: App, res: Resolver, root: string)
    requires Represents(ir, app, res) && Written(doc, ir, root)
    ensures doc.services.Keys == app.services.Keys
    ensures forall n :: n in app.services ==>
      doc.services[n] == WriteService(Translated(app, n, res), app.name, app.env, app.version, root)
  {
    hide WriteService, Translated, Networks;
    forall n | n in app.services
      ensures n in doc.services && doc.services[n] == WriteService(Translated(app, n, res), app.name, app.env, app.version, root)
    {
      var i := TranslatedIndex(ir, app, res, n);
      assert doc.services[ir.services[i].name] == WriteService(ir.services[i], ir.name, ir.env, ir.version, root);
    }
    forall n | n in doc.services
      ensures n in app.services
    {
      var i :| 0 <= i < |ir.services| && ir.services[i].name == n;
      assert ir.services[i] in ir.services;
    }
  }

  lemma WrittenIsDocumentOf(doc: Document, ir: IR, app: App, res: Resolver, root: string)
    requires Represents(ir, app, res) && Written(doc, ir, root)
    ensures DocumentOf(doc, app, res, root)
  {
    hide WriteService, Translated, Networks, UsesVolume, UsesSecret;
    WrittenServices(doc, ir, app, res, root);
    ExposedSame(ir, app, res);
  }

  lemma TranslatedName(app: App, n: string, res: Resolver)
    requires n in app.services && Resolves(app.services[n].env, res)
    ensures Translated(app, n, res).name == n && Translated(app, n, res).expose == app.services[n].expose
  {
  }

  lemma ExposedSame(ir: IR, app: App, res: Resolver)
    requires Represents(ir, app, res)
    ensures Exposed(ir) <==> AppExposed(app)
  {
    if Exposed(ir) {
      var i :| 0 <= i < |ir.services| && ir.services[i].expose.Some?;
      assert ir.services[i] in ir.services;
      TranslatedName(app, ir.services[i].name, res);
    }
    if AppExposed(app) {
      var n :| n in app.services && app.services[n].expose.Some?;
      TranslatedName(app, n, res);
      var i := TranslatedIndex(ir, app, res, n);
    }
  }

  /** Both passes over the maps choose their own order; the outcome is fixed by the manifest. Translation
      fails exactly when some env value does not resolve. */
  method TranslateIR(app: App, res: Resolver, volumeRoot: string) returns (out: Option<Document>)
    ensures out.Some? <==> Translates(app, res)
    ensures out.Some? ==> DocumentOf(out.value, app, res, Root(volumeRoot))
  {
    var ir := BuildIR(app, res);
    if ir.None? {
      return None;
    }
    var doc := Write(ir.value, volumeRoot);
    WrittenIsDocumentOf(doc, ir.value, app, res, Root(volumeRoot));
    out := Some(doc);
  }

  lemma DocumentIsUnique(app: App, res: Resolver, root: string, doc: Document, doc': Document)
    requires DocumentOf(doc, app, res, root) && DocumentOf(doc', app, res, root)
    ensures doc == doc'
  {
    hide WriteService;
    assert doc.services == doc'.services;
    assert doc.volumes == doc'.volumes;
    assert doc.secrets == doc'.secrets;
  }

  // ---------------------------------------------------------------------------
  // Everything a service uses is declared
  // ---------------------------------------------------------------------------

  ghost predicate VolumeDeclared(doc: Document, v: string) {
    IsBind(v) || VolumeSource(v) in doc.volumes
  }

  ghost predicate ServiceClosed(doc: Document, cs: ComposeService) {
    && (forall net :: net in cs.networks ==> net in doc.networks)
    && (forall secret :: secret in cs.secrets ==> secret in doc.secrets)
    && (forall v :: v in cs.volumes ==> VolumeDeclared(doc, v))
  }

  ghost predicate Closed(doc: Document) {
    forall n :: n in doc.services ==> ServiceClosed(doc, doc.services[n])
  }

  lemma {:induction false} RelocatedMembers(root: string, app: string, volumes: seq<string>)
    ensures forall v :: v in Relocated(root, app, volumes) <==> exists w :: w in volumes && v == Relocate(root, app, w)
  {
    if volumes != [] {
      var front, last := volumes[..|volumes| - 1], volumes[|volumes| - 1];
      RelocatedMembers(root, app, front);
      assert volumes == front + [last];
      forall v
        ensures v in Relocated(root, app, volumes) <==> exists w :: w in volumes && v == Relocate(root, app, w)
      {
        assert v in Relocated(root, app, volumes) <==> v in Relocated(root, app, front) || v == Relocate(root, app, last);
        assert forall w :: w in volumes <==> w in front || w == last;
      }
    }
  }

  /** A moved bind is a bind again under a root that starts with a slash, and a named volume keeps its text. */
  lemma RelocateKeepsKind(root: string, app: string, v: string)
    requires ':' in v
    ensures IsBind(v) ==> (IsBind(Relocate(root, app, v)) <==> "/" <= root + "/")
    ensures !IsBind(v) ==> Relocate(root, app, v) == v
  {
    if IsBind(v) {
      var moved := Relocate(root, app, v);
      assert moved[0] == (root + "/")[0];
      assert IndexOf(moved, ':') == 0 <==> moved[0] == ':';
    }
  }

  /** What a mount needs to have its source declared: a source, and one that is still a path after moving, or else is
      the name of a volume of the app. */
  ghost predicate Declarable(app: App, root: string, v: string) {
    && VolumeSource(v) != ""
    && (IsBind(v) && !("/" <= root + "/") ==> UsesVolume(app, VolumeSource(Relocate(root, app.name, v))))
  }

  lemma MountDeclaredIff(app: App, res: Resolver, root: string, doc: Document, n: string, i: nat)
    requires DocumentOf(doc, app, res, root) && n in app.services && i < |app.services[n].volumes|
    requires ':' in app.services[n].volumes[i]
    ensures var v := app.services[n].volumes[i];
      VolumeDeclared(doc, Relocate(root, app.name, v)) <==> Declarable(app, root, v)
  {
    var v := app.services[n].volumes[i];
    var moved := Relocate(root, app.name, v);
    RelocateKeepsKind(root, app.name, v);
    assert forall x :: x in doc.volumes <==> UsesVolume(app, x);
    hide DocumentOf, Relocate;
    if !IsBind(v) && VolumeSource(v) != "" {
      assert UsesVolume(app, VolumeSource(v));
    }
  }

  lemma ServiceVolumes(app: App, res: Resolver, root: string, doc: Document, n: string)
    requires DocumentOf(doc, app, res, root) && n in app.services
    requires forall i :: 0 <= i < |app.services[n].volumes| ==> ':' in app.services[n].volumes[i]
    ensures n in doc.services
    ensures (forall v :: v in doc.services[n].volumes ==> VolumeDeclared(doc, v)) <==>
            (forall v :: v in app.services[n].volumes ==> Declarable(app, root, v))
  {
    var volumes := app.services[n].volumes;
    assert doc.services[n].volumes == Relocated(root, app.name, volumes);
    hide DocumentOf, VolumeDeclared, Declarable, Relocate;
    RelocatedMembers(root, app.name, volumes);
    forall w | w in volumes
      ensures VolumeDeclared(doc, Relocate(root, app.name, w)) <==> Declarable(app, root, w)
      ensures Relocate(root, app.name, w) in doc.services[n].volumes
    {
      var i :| 0 <= i < |volumes| && volumes[i] == w;
      MountDeclaredIff(app, res, root, doc, n, i);
    }
  }

  lemma ServiceNetworksAndSecrets(app: App, res: Resolver, root: string, doc: Document, n: string)
    requires DocumentOf(doc, app, res, root) && n in app.services
    ensures n in doc.services
    ensures forall net :: net in doc.services[n].networks ==> net in doc.networks
    ensures forall secret :: secret in doc.services[n].secrets ==> secret in doc.secrets
  {
    assert doc.services[n].secrets == app.services[n].secrets;
    assert app.services[n].expose.Some? ==> AppExposed(app);
  }

  lemma ServiceClosedIff(app: App, hostOk: string -> bool, res: Resolver, root: string, doc: Document, n: string)
    requires Validate(app, hostOk) && DocumentOf(doc, app, res, root) && n in app.services
    ensures ServiceClosed(doc, doc.services[n]) <==> forall v :: v in app.services[n].volumes ==> Declarable(app, root, v)
  {
    hide Validate, DocumentOf, Declarable, VolumeDeclared;
    MountsHaveColons(app, hostOk, n);
    ServiceVolumes(app, res, root, doc, n);
    ServiceNetworksAndSecrets(app, res, root, doc, n);
  }

  lemma MountsHaveColons(app: App, hostOk: string -> bool, n: string)
    requires Validate(app, hostOk) && n in app.services
    ensures forall i :: 0 <= i < |app.services[n].volumes| ==> ':' in app.services[n].volumes[i]
  {
    assert ValidService(app.services[n], hostOk);
  }

  /** The document of a validated manifest declares every network, named volume and secret its services use if and only
      if no volume entry has an empty source, which validation lets pass, and no bind is moved to what reads as the name
      of an undeclared volume, which only a root that is no absolute path can do. */
  lemma ClosedIff(app: App, hostOk: string -> bool, res: Resolver, root: string, doc: Document)
    requires Validate(app, hostOk) && DocumentOf(doc, app, res, root)
    ensures Closed(doc) <==> forall n, v :: n in app.services && v in app.services[n].volumes ==> Declarable(app, root, v)
  {
    assert doc.services.Keys == app.services.Keys;
    hide Validate, DocumentOf, Declarable, ServiceClosed;
    forall n | n in app.services
      ensures ServiceClosed(doc, doc.services[n]) <==> forall v :: v in app.services[n].volumes ==> Declarable(app, root, v)
    {
      ServiceClosedIff(app, hostOk, res, root, doc, n);
    }
  }

  /** Every env value that refers to a secret becomes the path where that same service mounts it, and the
      secret is declared. */
  lemma SecretRefsAreMounted(app: App, hostOk: string -> bool, res: Resolver, root: string, doc: Document, n: string, k: string)
    requires Validate(app, hostOk) && DocumentOf(doc, app, res, root)
    requires n in app.services && k in app.services[n].env
    requires ParseEnvRef(app.services[n].env[k]).Some? && ParseEnvRef(app.services[n].env[k]).value.kind == SecretRef
    ensures var secret := ParseEnvRef(app.services[n].env[k]).value.name;
      && k in doc.services[n].environment && doc.services[n].environment[k] == "/run/secrets/" + secret
      && secret in doc.services[n].secrets && secret in doc.secrets
  {
    assert ValidService(app.services[n], hostOk);
    assert ValidEnvValue(app.services[n].env[k], app.services[n].secrets);
    ServiceNetworksAndSecrets(app, res, root, doc, n);
  }

  /** An app's private network is its own overlay unless it is exposed under a name whose network is one of
      the two shared ones, which then take its place. */
  lemma PrivateNetworkIff(app: App, res: Resolver, root: string, doc: Document)
    requires DocumentOf(doc, app, res, root)
    ensures app.name + PRIVATE_SUFFIX in doc.networks
    ensures doc.networks[app.name + PRIVATE_SUFFIX] == Overlay <==> !(AppExposed(app) && (app.name == "traefik" || app.name == "monitoring"))
  {
    hide DocumentOf, AppExposed;
    DocumentNetworks(app, res, root, doc);
    SharedNames(app.name);
    SharedNamesDiffer();
  }

  lemma DocumentNetworks(app: App, res: Resolver, root: string, doc: Document)
    requires DocumentOf(doc, app, res, root)
    ensures doc.networks == Networks(app.name, AppExposed(app))
  {
  }

  lemma SharedNames(name: string)
    ensures name + PRIVATE_SUFFIX == TRAEFIK_NET <==> name == "traefik"
    ensures name + PRIVATE_SUFFIX == MONITORING_NET <==> name == "monitoring"
  {
    assert TRAEFIK_NET == "traefik" + PRIVATE_SUFFIX && MONITORING_NET == "monitoring" + PRIVATE_SUFFIX;
    SameSuffix(name, "traefik", PRIVATE_SUFFIX);
    SameSuffix(name, "monitoring", PRIVATE_SUFFIX);
  }

  lemma SharedNamesDiffer()
    ensures TRAEFIK_NET != MONITORING_NET
  {
    assert TRAEFIK_NET[0] == 't' && MONITORING_NET[0] == 'm';
  }

  lemma SameSuffix(a: string, b: string, suffix: string)
    ensures a + suffix == b + suffix <==> a == b
  {
    if a + suffix == b + suffix {
      assert |a| == |b| && (a + suffix)[..|a|] == a && (b + suffix)[..|b|] == b;
    }
  }

  /** A long-running service gets the replicas it asked for unless it asked for none: zero passes validation
      and is deployed as one. */
  lemma ReplicasIff(app: App, hostOk: string -> bool, res: Resolver, root: string, doc: Document, n: string)
    requires Validate(app, hostOk) && DocumentOf(doc, app, res, root) && n in app.services
    requires app.services[n].replicas.Some?
    ensures doc.services[n].deploy.replicas == app.services[n].replicas <==> app.services[n].replicas != Some(0)
    ensures app.services[n].replicas == Some(0) ==> doc.services[n].deploy.replicas == Some(1)
  {
    assert ValidService(app.services[n], hostOk);
  }

  // ---------------------------------------------------------------------------
  // Routers
  // ---------------------------------------------------------------------------

  /** An alias's router key determines the alias index and the field. */
  lemma AliasKeyInjective(scope: string, i: nat, f: string, j: nat, g: string)
    requires "." <= f && "." <= g && RouterKey(AliasScope(scope, i), f) == RouterKey(AliasScope(scope, j), g)
    ensures i == j && f == g
  {
    var p := ROUTERS + scope + "-alias";
    var x, y := RouterKey(AliasScope(scope, i), f), RouterKey(AliasScope(scope, j), g);
    assert x == p + (Decimal(i) + f) && y == p + (Decimal(j) + g);
    assert x[|p|..] == Decimal(i) + f && y[|p|..] == Decimal(j) + g;
    ScanBefore(i, f);
    ScanBefore(j, g);
    assert (Decimal(i) + f)[|Decimal(i)|..] == f;
    assert (Decimal(j) + g)[|Decimal(j)|..] == g;
  }

  lemma AliasKeysDiffer(scope: string, i: nat, f: string, j: nat, g: string)
    requires "." <= f && "." <= g && (i != j || f != g)
    ensures RouterKey(AliasScope(scope, i), f) != RouterKey(AliasScope(scope, j), g)
  {
    if RouterKey(AliasScope(scope, i), f) == RouterKey(AliasScope(scope, j), g) {
      AliasKeyInjective(scope, i, f, j, g);
    }
  }

  lemma ScanBefore(i: nat, f: string)
    requires "." <= f
    ensures ScanDigits(0, Decimal(i) + f) == i
  {
    ScanDigitsAppend(0, Decimal(i), f);
    ScanDecimal(i);
  }

  lemma MainKeyDiffers(scope: string, f: string, j: nat, g: string)
    requires "." <= f
    ensures RouterKey(scope, f) != RouterKey(AliasScope(scope, j), g)
  {
    var at := |ROUTERS| + |scope|;
    assert RouterKey(scope, f)[at] == '.';
    assert RouterKey(AliasScope(scope, j), g)[at] == '-';
  }

  /** A complete router: rule, entrypoint, TLS and, unless there is none, its middleware. */
  ghost predicate Routes(labels: map<string, string>, scope: string, host: string, middleware: Option<string>) {
    && (middleware.Some? ==> RouterKey(scope, ".middlewares") in labels && labels[RouterKey(scope, ".middlewares")] == middleware.value)
    && RouterKey(scope, ".rule") in labels && labels[RouterKey(scope, ".rule")] == HostRule(host)
    && RouterKey(scope, ".entrypoints") in labels && labels[RouterKey(scope, ".entrypoints")] == "websecure"
    && RouterKey(scope, ".tls") in labels && labels[RouterKey(scope, ".tls")] == "true"
  }

  lemma RouterKeyFields(scope: string)
    ensures RouterKey(scope, ".rule") != RouterKey(scope, ".entrypoints")
    ensures RouterKey(scope, ".rule") != RouterKey(scope, ".tls")
    ensures RouterKey(scope, ".entrypoints") != RouterKey(scope, ".tls")
    ensures RouterKey(scope, ".middlewares") != RouterKey(scope, ".rule")
    ensures RouterKey(scope, ".middlewares") != RouterKey(scope, ".entrypoints")
    ensures RouterKey(scope, ".middlewares") != RouterKey(scope, ".tls")
  {
    var p := ROUTERS + scope;
    assert RouterKey(scope, ".rule")[|p|..] == ".rule";
    assert RouterKey(scope, ".entrypoints")[|p|..] == ".entrypoints";
    assert RouterKey(scope, ".tls")[|p|..] == ".tls";
    assert RouterKey(scope, ".middlewares")[|p|..] == ".middlewares";
  }

  lemma AddRouterRoutes(labels: map<string, string>, scope: string, host: string, middleware: Option<string>)
    ensures Routes(AddRouter(labels, scope, host, middleware), scope, host, middleware)
    ensures forall k ::
      (k in labels && k != RouterKey(scope, ".rule") && k != RouterKey(scope, ".entrypoints") &&
       k != RouterKey(scope, ".tls") && k != RouterKey(scope, ".middlewares")) ==>
        k in AddRouter(labels, scope, host, middleware) && AddRouter(labels, scope, host, middleware)[k] == labels[k]
  {
    RouterKeyFields(scope);
  }

  lemma RoutesSurvive(labels: map<string, string>, scope: string, host: string, j: nat, other: string, otherHost: string, middleware: Option<string>)
    requires Routes(labels, other, otherHost, middleware)
    requires other == scope || exists i: nat :: i != j && other == AliasScope(scope, i)
    ensures Routes(AddRouter(labels, AliasScope(scope, j), host, middleware), other, otherHost, middleware)
  {
    AddRouterRoutes(labels, AliasScope(scope, j), host, middleware);
    hide AddRouter, RouterKey, AliasScope;
    KeysApart(scope, j, other);
  }

  lemma KeysApart(scope: string, j: nat, other: string)
    requires other == scope || exists i: nat :: i != j && other == AliasScope(scope, i)
    ensures forall f, g :: f in {".rule", ".entrypoints", ".tls", ".middlewares"} && g in {".rule", ".entrypoints", ".tls", ".middlewares"} ==>
      RouterKey(other, f) != RouterKey(AliasScope(scope, j), g)
  {
    hide RouterKey, AliasScope;
    forall f, g | f in {".rule", ".entrypoints", ".tls", ".middlewares"} && g in {".rule", ".entrypoints", ".tls", ".middlewares"}
      ensures RouterKey(other, f) != RouterKey(AliasScope(scope, j), g)
    {
      if other == scope {
        MainKeyDiffers(scope, f, j, g);
      } else {
        var i: nat :| i != j && other == AliasScope(scope, i);
        AliasKeysDiffer(scope, i, f, j, g);
      }
    }
  }

  /** Every alias keeps the router of the host. */
  lemma {:induction false} HostRoutes(labels: map<string, string>, scope: string, host: string, aliases: seq<string>, middleware: Option<string>)
    requires Routes(labels, scope, host, middleware)
    ensures Routes(AddAliases(labels, scope, aliases, middleware), scope, host, middleware)
  {
    if aliases != [] {
      var n := |aliases| - 1;
      hide Routes, AddRouter, AliasScope;
      HostRoutes(labels, scope, host, aliases[..n], middleware);
      RoutesSurvive(AddAliases(labels, scope, aliases[..n], middleware), scope, aliases[n], n, scope, host, middleware);
    }
  }

  /** The aliases behind one keep its router. */
  lemma {:induction false} AliasRoutes(labels: map<string, string>, scope: string, aliases: seq<string>, middleware: Option<string>, i: nat)
    requires i < |aliases|
    ensures Routes(AddAliases(labels, scope, aliases, middleware), AliasScope(scope, i), aliases[i], middleware)
  {
    var n := |aliases| - 1;
    var front := AddAliases(labels, scope, aliases[..n], middleware);
    hide Routes, AddRouter, AliasScope;
    if i == n {
      AddRouterRoutes(front, AliasScope(scope, n), aliases[n], middleware);
    } else {
      AliasRoutes(labels, scope, aliases[..n], middleware, i);
      RoutesSurvive(front, scope, aliases[n], n, AliasScope(scope, i), aliases[i], middleware);
    }
  }

  lemma AliasesRoute(labels: map<string, string>, scope: string, host: string, aliases: seq<string>, middleware: Option<string>)
    requires Routes(labels, scope, host, middleware)
    ensures var all := AddAliases(labels, scope, aliases, middleware);
      && Routes(all, scope, host, middleware)
      && forall i :: 0 <= i < |aliases| ==> Routes(all, AliasScope(scope, i), aliases[i], middleware)
  {
    hide Routes, AddAliases;
    HostRoutes(labels, scope, host, aliases, middleware);
    forall i | 0 <= i < |aliases| {
      AliasRoutes(labels, scope, aliases, middleware, i);
    }
  }

  lemma ServiceLabels(app: App, res: Resolver, root: string, doc: Document, n: string)
    requires DocumentOf(doc, app, res, root) && n in app.services && app.services[n].expose.Some?
    ensures
      var standard := map["service" := n, "application" := app.name, "environment" := app.env, "version" := app.version];
      var routed := TraefikLabels(standard, app.name, n, app.services[n].expose.value);
      doc.services[n].deploy.labels == if app.services[n].skipFilelog then routed["io.pmcluster.skip_filelog" := "true"] else routed
  {
    hide TraefikLabels;
  }

  lemma SkipLabelKeepsRoutes(labels: map<string, string>, scope: string, host: string, middleware: Option<string>)
    requires Routes(labels, scope, host, middleware)
    ensures Routes(labels["io.pmcluster.skip_filelog" := "true"], scope, host, middleware)
  {
    assert RouterKey(scope, ".rule")[0] == RouterKey(scope, ".entrypoints")[0] == RouterKey(scope, ".tls")[0] == 't';
    assert RouterKey(scope, ".middlewares")[0] == 't';
    assert "io.pmcluster.skip_filelog"[0] == 'i';
  }

  /** The middleware the routers of a service go through: none, the cluster's default, or one of its own that
      admits the foreign origins of its aliases. */
  function RouterMiddleware(scope: string, e: Expose): Option<string> {
    if e.corsDisabled then None
    else Some(if e.aliases != [] then scope + "-cors@swarm" else "cors-default@file")
  }

  function OriginsKey(scope: string): string {
    "traefik.http.middlewares." + scope + "-cors.headers." + "accesscontrolalloworiginlistregex"
  }

  /** A middleware of the service's own is defined by the same labels, with the escaped pattern of its origins. */
  ghost predicate OwnMiddlewareDefined(labels: map<string, string>, scope: string, e: Expose) {
    RouterMiddleware(scope, e) == Some(scope + "-cors@swarm") && e.aliases != [] ==>
      OriginsKey(scope) in labels && Unescaped(labels[OriginsKey(scope)]) == Some(OriginRegex(e))
  }

  /** An exposed service's labels hold a complete router for its host and one for each of its aliases, and define
      the middleware these name if it is not the cluster's: no label overwrites another one's. */
  lemma EveryHostIsRouted(app: App, res: Resolver, root: string, doc: Document, n: string)
    requires DocumentOf(doc, app, res, root) && n in app.services && app.services[n].expose.Some?
    ensures var labels, e, scope := doc.services[n].deploy.labels, app.services[n].expose.value, Scope(app.name, n);
      && Routes(labels, scope, e.host, RouterMiddleware(scope, e))
      && (forall i :: 0 <= i < |e.aliases| ==> Routes(labels, AliasScope(scope, i), e.aliases[i], RouterMiddleware(scope, e)))
      && OwnMiddlewareDefined(labels, scope, e)
  {
    hide TraefikLabels, WriteService, Routes, RouterMiddleware, Unescaped, OriginRegex;
    var e, scope := app.services[n].expose.value, Scope(app.name, n);
    var standard := map["service" := n, "application" := app.name, "environment" := app.env, "version" := app.version];
    TraefikRoutes(standard, app.name, n, e);
    var routed := TraefikLabels(standard, app.name, n, e);
    ServiceLabels(app, res, root, doc, n);
    if app.services[n].skipFilelog {
      SkipLabelKeepsRoutes(routed, scope, e.host, RouterMiddleware(scope, e));
      forall i | 0 <= i < |e.aliases| {
        SkipLabelKeepsRoutes(routed, AliasScope(scope, i), e.aliases[i], RouterMiddleware(scope, e));
      }
      assert OriginsKey(scope)[0] == 't' && "io.pmcluster.skip_filelog"[0] == 'i';
    }
  }

  lemma {:induction false} AliasesFrame(labels: map<string, string>, scope: string, aliases: seq<string>, middleware: Option<string>, k: string)
    requires !(ROUTERS <= k) && k in labels
    ensures var all := AddAliases(labels, scope, aliases, middleware);
      k in all && all[k] == labels[k]
  {
    if aliases != [] {
      var n := |aliases| - 1;
      var front := AddAliases(labels, scope, aliases[..n], middleware);
      AliasesFrame(labels, scope, aliases[..n], middleware, k);
      RouterFrame(front, AliasScope(scope, n), aliases[n], middleware, k);
    }
  }

  lemma RouterFrame(labels: map<string, string>, scope: string, host: string, middleware: Option<string>, k: string)
    requires !(ROUTERS <= k) && k in labels
    ensures k in AddRouter(labels, scope, host, middleware) && AddRouter(labels, scope, host, middleware)[k] == labels[k]
  {
    assert forall f :: f in {".rule", ".entrypoints", ".tls", ".middlewares"} ==> RouterKey(scope, f) == ROUTERS + (scope + f);
    AddRouterRoutes(labels, scope, host, middleware);
  }

  lemma OriginsDiffer(p: string)
    ensures forall x :: x in {"accesscontrolallowcredentials", "accesscontrolallowmethods", "accesscontrolallowheaders",
                              "accesscontrolmaxage", "addvaryheader"} ==>
      p + "accesscontrolalloworiginlistregex" != p + x
  {
    var origins := "accesscontrolalloworiginlistregex";
    assert origins[18] == 'o' && origins[13] == 'a' && origins[1] == 'c';
    SuffixesDiffer(p, origins, "accesscontrolallowcredentials", 18);
    SuffixesDiffer(p, origins, "accesscontrolallowmethods", 18);
    SuffixesDiffer(p, origins, "accesscontrolallowheaders", 18);
    SuffixesDiffer(p, origins, "accesscontrolmaxage", 13);
    SuffixesDiffer(p, origins, "addvaryheader", 1);
  }

  lemma FirstStays(labels: map<string, string>, k: string, v: string, ks: seq<string>, vs: seq<string>)
    requires |ks| == 5 && |vs| == 5 && k !in ks
    ensures var all := labels[k := v][ks[0] := vs[0]][ks[1] := vs[1]][ks[2] := vs[2]][ks[3] := vs[3]][ks[4] := vs[4]];
      k in all && all[k] == v
  {
  }

  lemma CorsDefines(labels: map<string, string>, scope: string, e: Expose)
    ensures OriginsKey(scope) in CorsLabels(labels, scope, e)
    ensures CorsLabels(labels, scope, e)[OriginsKey(scope)] == EscapeCompose(OriginRegex(e))
  {
    hide EscapeCompose, OriginRegex;
    var cors := "traefik.http.middlewares." + scope + "-cors.headers.";
    var key := cors + "accesscontrolalloworiginlistregex";
    OriginsDiffer(cors);
    FirstStays(labels, key, EscapeCompose(OriginRegex(e)),
               [cors + "accesscontrolallowcredentials", cors + "accesscontrolallowmethods", cors + "accesscontrolallowheaders",
                cors + "accesscontrolmaxage", cors + "addvaryheader"],
               ["true", "GET,POST,PUT,PATCH,DELETE,OPTIONS", "Content-Type,Authorization,X-Pmcluster-Signature,X-Request-Id", "600", "true"]);
  }

  lemma OriginsNotRouter(scope: string)
    ensures !(ROUTERS <= OriginsKey(scope))
  {
    assert OriginsKey(scope)[13] == 'm' && ROUTERS[13] == 'r';
  }

  lemma SuffixesDiffer(p: string, a: string, b: string, i: nat)
    requires i < |a| && i < |b| && a[i] != b[i]
    ensures p + a != p + b
  {
    assert (p + a)[|p| + i] == a[i] && (p + b)[|p| + i] == b[i];
  }

  lemma TraefikRoutes(labels: map<string, string>, app: string, service: string, e: Expose)
    ensures var all, scope := TraefikLabels(labels, app, service, e), Scope(app, service);
      && Routes(all, scope, e.host, RouterMiddleware(scope, e))
      && (forall i :: 0 <= i < |e.aliases| ==> Routes(all, AliasScope(scope, i), e.aliases[i], RouterMiddleware(scope, e)))
      && OwnMiddlewareDefined(all, scope, e)
  {
    var scope := Scope(app, service);
    var base := labels["traefik.enable" := "true"]
                      ["traefik.http.services." + scope + ".loadbalancer.server.port" := Itoa(e.port)]
                      ["traefik.docker.network" := TRAEFIK_NET];
    var aliasCors := e.aliases != [] && !e.corsDisabled;
    var middleware := RouterMiddleware(scope, e);
    var withCors := if aliasCors then CorsLabels(base, scope, e) else base;
    assert TraefikLabels(labels, app, service, e) ==
           AddAliases(AddRouter(withCors, scope, e.host, middleware), scope, e.aliases, middleware);
    hide TraefikLabels, Routes, CorsLabels, EscapeCompose, Unescaped, OriginRegex, AddRouter, AddAliases, OriginsKey;
    AddRouterRoutes(withCors, scope, e.host, middleware);
    AliasesRoute(AddRouter(withCors, scope, e.host, middleware), scope, e.host, e.aliases, middleware);
    if aliasCors {
      CorsDefines(base, scope, e);
      OriginsNotRouter(scope);
      RouterFrame(withCors, scope, e.host, middleware, OriginsKey(scope));
      AliasesFrame(AddRouter(withCors, scope, e.host, middleware), scope, e.aliases, middleware, OriginsKey(scope));
      EscapeSurvives(OriginRegex(e));
    }
  }

  // ---------------------------------------------------------------------------
  // Dollar signs
  // ---------------------------------------------------------------------------

  /** What Compose's own interpolation makes of a text: a doubled dollar sign is a literal one, a single one would
      start a variable. */
  function Unescaped(s: string): Option<string> {
    if s == "" then Some("")
    else if "$$" <= s then
      (match Unescaped(s[2..]) case None => None case Some(t) => Some("$" + t))
    else if s[0] == '$' then None
    else
      (match Unescaped(s[1..]) case None => None case Some(t) => Some([s[0]] + t))
  }

  /** An escaped text survives Compose's interpolation unchanged. */
  lemma {:induction false} EscapeSurvives(s: string)
    ensures Unescaped(EscapeCompose(s)) == Some(s)
  {
    if s != "" {
      var rest := EscapeCompose(s[1..]);
      EscapeSurvives(s[1..]);
      if s[0] == '$' {
        assert ("$$" + rest)[2..] == rest;
        assert "$" + s[1..] == s;
      } else {
        assert ([s[0]] + rest)[1..] == rest;
        assert [s[0]] + s[1..] == s;
      }
    }
  }

  // ---------------------------------------------------------------------------
  // Router names
  // ---------------------------------------------------------------------------

  /** Within one app, routers of different services never share a name, except that an alias's router has the name
      of a service called like it. */
  lemma RouterNamesIff(app: string, s: string, i: nat, t: string, j: nat)
    ensures Scope(app, s) == Scope(app, t) <==> s == t
    ensures AliasScope(Scope(app, s), i) == Scope(app, t) <==> t == s + "-alias" + Decimal(i)
    ensures AliasScope(Scope(app, s), i) == AliasScope(Scope(app, t), j) <==> s == t && i == j
  {
    var p := app + "-";
    assert Scope(app, s)[|p|..] == s && Scope(app, t)[|p|..] == t;
    var a, b := s + "-alias" + Decimal(i), t + "-alias" + Decimal(j);
    assert AliasScope(Scope(app, s), i) == p + a && AliasScope(Scope(app, t), j) == p + b;
    assert (p + a)[|p|..] == a && (p + b)[|p|..] == b && p + t == Scope(app, t);
    if a == b {
      AliasSuffix(s, i, t, j);
    }
  }

  function LastDash(x: string): int {
    if x == "" then -1 else if x[|x| - 1] == '-' then |x| - 1 else LastDash(x[..|x| - 1])
  }

  lemma {:induction false} LastDashAt(s: string, d: string)
    requires '-' !in d
    ensures LastDash(s + "-" + d) == |s|
  {
    if d != "" {
      var x, front := s + "-" + d, d[..|d| - 1];
      assert x[|x| - 1] == d[|d| - 1] && x[..|x| - 1] == s + "-" + front;
      LastDashAt(s, front);
    }
  }

  lemma AliasSuffix(s: string, i: nat, t: string, j: nat)
    requires s + "-alias" + Decimal(i) == t + "-alias" + Decimal(j)
    ensures s == t && i == j
  {
    assert AllDigits(Decimal(i)) && AllDigits(Decimal(j));
    DashAlias(s, Decimal(i));
    DashAlias(t, Decimal(j));
    LastDashCuts(s, "alias" + Decimal(i), t, "alias" + Decimal(j));
    assert ("alias" + Decimal(i))[5..] == Decimal(i) && ("alias" + Decimal(j))[5..] == Decimal(j);
    ScanDecimal(i);
    ScanDecimal(j);
  }

  lemma DashAlias(s: string, d: string)
    requires AllDigits(d)
    ensures s + "-alias" + d == s + "-" + ("alias" + d) && '-' !in "alias" + d
  {
  }

  lemma LastDashCuts(s: string, d: string, t: string, e: string)
    requires '-' !in d && '-' !in e && s + "-" + d == t + "-" + e
    ensures s == t && d == e
  {
    var x := s + "-" + d;
    LastDashAt(s, d);
    LastDashAt(t, e);
    assert x[..|s|] == s && x[..|t|] == t;
    assert x[|s| + 1..] == d && x[|t| + 1..] == e;
  }

  /** One app's name is the other's, a dash, and a rest that can start a service's name. */
  predicate Extends(a: string, b: string) {
    a + "-" <= b && |b| > |a| + 1 && 'a' <= b[|a| + 1] <= 'z'
  }

  /** Router scopes are meant to keep apps apart. Two apps can have services of one scope exactly when one name is the
      other, a dash, and a rest that starts with a letter. */
  lemma ScopesCollideIff(a: string, b: string)
    requires ValidName(a) && ValidName(b) && a != b
    ensures (exists s, t :: ValidName(s) && ValidName(t) && Scope(a, s) == Scope(b, t)) <==> Extends(a, b) || Extends(b, a)
  {
    hide Extends;
    forall s, t | ValidName(s) && ValidName(t) && Scope(a, s) == Scope(b, t)
      ensures Extends(a, b) || Extends(b, a)
    {
      if |a| <= |b| {
        SharedScopeExtends(a, s, b, t);
      } else {
        SharedScopeExtends(b, t, a, s);
      }
    }
    if Extends(a, b) {
      CollidingServices(a, b);
    }
    if Extends(b, a) {
      CollidingServices(b, a);
    }
  }

  lemma SharedScopeExtends(a: string, s: string, b: string, t: string)
    requires ValidName(b) && ValidName(s) && ValidName(t) && a != b && Scope(a, s) == Scope(b, t) && |a| <= |b|
    ensures Extends(a, b)
  {
    var x := Scope(a, s);
    assert x[|a| + 1] == s[0];
    ScopePrefix(a, s, b, t);
    assert x[..|b|] == b;
    assert Scope(b, t)[|b|] == '-';
    assert |b| != |a| + 1;
    assert b[|a| + 1] == x[|a| + 1];
  }

  lemma ScopePrefix(a: string, s: string, b: string, t: string)
    requires Scope(a, s) == Scope(b, t)
    ensures |a| < |b| ==> a + "-" <= b
    ensures |a| == |b| ==> a == b
  {
    var x := Scope(a, s);
    assert x[..|a|] == a && x[|a|] == '-';
    assert x[..|b|] == b;
    if |a| < |b| {
      assert b[..|a|] == a && b[|a|] == '-';
    }
  }

  lemma CollidingServices(a: string, b: string)
    requires ValidName(a) && ValidName(b) && Extends(a, b)
    ensures exists s, t :: ValidName(s) && ValidName(t) && Scope(a, s) == Scope(b, t)
  {
    var rest := b[|a| + 1..];
    assert b == a + "-" + rest;
    var s := rest + "-w";
    assert forall i :: 0 <= i < |rest| ==> s[i] == b[|a| + 1 + i];
    assert ValidName(s) && ValidName("w");
    assert Scope(a, s) == Scope(b, "w");
  }
}
