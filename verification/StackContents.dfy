/** What a deploy, a sync, a rollback and a removal leave recorded and running, said in the manifest, the payload and the
    tables they started from. */
module StackContents {
  import opened Common
  import opened StackRevisions
  import opened DocumentFields
  import opened Templates
  import C = Compose
  import D = ComposeTheorems
  import M = Manifest
  import P = ManifestPipeline
  import I = Interpolate
  import T = Placeholders

  // ---------------------------------------------------------------------------
  // Recording and running
  // ---------------------------------------------------------------------------

  /** The revision is the first free one at the clock, it is the current one of the stack, and nothing of another stack has
      changed. */
  ghost predicate RecordedAs(w: World, w': World, name: string, id: int, now: int, rev: Revision) {
    && now <= id < now + 10000 && id !in History(w.db, name) && (forall x :: now <= x < id ==> x in History(w.db, name))
    && History(w'.db, name) == History(w.db, name)[id := rev]
    && name in w'.db.stacks && w'.db.stacks[name].current == id
    && w'.inputs == w.inputs
    && (forall n :: n != name ==> History(w'.db, n) == History(w.db, n))
    && (forall n :: n != name ==> (n in w'.db.stacks <==> n in w.db.stacks))
    && (forall n :: n != name && n in w.db.stacks ==> w'.db.stacks[n] == w.db.stacks[n])
  }

  /** The row keeps the provenance it has where the new one is empty. */
  ghost predicate Provenance(w: World, w': World, name: string, repoUrl: string, file: string)
    requires name in w'.db.stacks
  {
    var row, known := w'.db.stacks[name], name in w.db.stacks;
    && row.repoUrl == (if repoUrl != "" then repoUrl else if known then w.db.stacks[name].repoUrl else "")
    && row.sourceFile == (if file != "" then file else if known then w.db.stacks[name].sourceFile else "")
  }

  /** A recorded revision ends in one of three ways: blocked by its backup with everything running on, failed with what the
      failure left, or running under its text. */
  ghost predicate EndsAs(w: World, w': World, r: Result<Outcome, StackError>, name: string, id: int, text: string, strict: bool, f: Faults) {
    if strict && f.backupFails then r == Err(BackupFailed) && w'.live == w.live
    else if f.deployFails then
      r == Err(DeployFailed) && w'.live == (match f.left case Some(left) => w.live[name := left] case None => w.live - {name})
    else r == Ok(Outcome(name, id, text, true)) && w'.live == w.live[name := text]
  }

  ghost predicate NoRoom(w: World, name: string, now: int) {
    forall x :: now <= x < now + 10000 ==> x in History(w.db, name)
  }

  lemma AppendCases(w: World, name: string, rev: Revision, repoUrl: string, now: int, strict: bool, f: Faults) returns (id: int)
    ensures var (w', r) := Append(w, name, rev, repoUrl, now, strict, f);
      && (NoRoom(w, name, now) ==> (w', r) == (w, Err(NoFreeRevision)))
      && (!NoRoom(w, name, now) ==>
            && RecordedAs(w, w', name, id, now, rev)
            && Provenance(w, w', name, repoUrl, rev.sourceFile)
            && EndsAs(w, w', r, name, id, rev.rendered, strict, f))
  {
    var next := NextFree(History(w.db, name).Keys, now, 10000);
    id := if next.Some? then next.value else now;
    hide NextFree;
    if next.Some? {
      AppendRecords(w, name, rev, repoUrl, now, strict, f);
      hide Append, EndsAs;
      forall n | n != name {
        AppendFrame(w, name, rev, repoUrl, now, strict, f, n);
      }
    }
  }

  lemma AppendRecords(w: World, name: string, rev: Revision, repoUrl: string, now: int, strict: bool, f: Faults)
    requires NextFree(History(w.db, name).Keys, now, 10000).Some?
    ensures var id := NextFree(History(w.db, name).Keys, now, 10000).value;
      var (w', r) := Append(w, name, rev, repoUrl, now, strict, f);
      && History(w'.db, name) == History(w.db, name)[id := rev]
      && name in w'.db.stacks && w'.db.stacks[name].current == id && w'.inputs == w.inputs
      && Provenance(w, w', name, repoUrl, rev.sourceFile)
      && EndsAs(w, w', r, name, id, rev.rendered, strict, f)
  {
    hide NextFree;
  }

  lemma DeployCases(pl: Pipeline, w: World, p: Payload, out: Option<string>, now: int, f: Faults, src: Source, name: string) returns (id: int)
    requires p.manifest != "" && pl.parse(p.manifest) == Some(src) && name == if p.appName != "" then p.appName else src.app.name
    ensures var (w', r) := Deploy(pl, w, p, out, now, f);
      && (out.None? ==> (w', r) == (w, Err(RenderFailed)))
      && (out.Some? && NoRoom(w, name, now) ==> (w', r) == (w, Err(NoFreeRevision)))
      && (out.Some? && !NoRoom(w, name, now) ==>
            && RecordedAs(w, w', name, id, now, Revision(p.manifest, out.value, Sha256(out.value), p.file))
            && name in w'.db.stacks && Provenance(w, w', name, p.repoUrl, p.file)
            && EndsAs(w, w', r, name, id, out.value, src.backupBefore && src.strictBackup, f))
  {
    hide Append, EndsAs, NoRoom, Provenance;
    id := now;
    if out.Some? {
      id := AppendCases(w, name, Revision(p.manifest, out.value, Sha256(out.value), p.file), p.repoUrl, now, src.backupBefore && src.strictBackup, f);
    }
  }

  // ---------------------------------------------------------------------------
  // The manifest that is translated
  // ---------------------------------------------------------------------------

  ghost predicate ListRendered(xs: seq<string>, ys: seq<string>, cx: I.Context)
    requires "" !in cx.builtins
  {
    |xs| == |ys| && forall i :: 0 <= i < |xs| ==> I.Renders(xs[i], ys[i], cx)
  }

  ghost predicate ExposeRendered(e: M.Expose, f: M.Expose, cx: I.Context)
    requires "" !in cx.builtins
  {
    && I.Renders(e.host, f.host, cx) && ListRendered(e.aliases, f.aliases, cx)
    && f.port == e.port && f.corsDisabled == e.corsDisabled
  }

  ghost predicate ServiceRendered(s: M.Service, t: M.Service, cx: I.Context)
    requires "" !in cx.builtins
  {
    && I.Renders(s.image, t.image, cx) && ListRendered(s.command, t.command, cx) && ListRendered(s.entrypoint, t.entrypoint, cx)
    && ListRendered(s.volumes, t.volumes, cx)
    && t.env.Keys == s.env.Keys && (forall k :: k in s.env ==> I.Renders(s.env[k], t.env[k], cx))
    && (s.expose.Some? <==> t.expose.Some?) && (s.expose.Some? ==> ExposeRendered(s.expose.value, t.expose.value, cx))
    && t.secrets == s.secrets && t.replicas == s.replicas && t.runOnce == s.runOnce && t.skipFilelog == s.skipFilelog
    && t.placement == s.placement && t.healthcheck == s.healthcheck && t.update == s.update
  }

  /** Field by field: name and environment are kept, the other texts are renderings of those of the manifest. */
  ghost predicate Rendered(raw: M.App, b: M.App, cx: I.Context)
    requires "" !in cx.builtins
  {
    && b.name == raw.name && b.env == raw.env
    && I.Renders(raw.domain, b.domain, cx) && I.Renders(raw.version, b.version, cx) && I.Renders(raw.registry, b.registry, cx)
    && I.Renders(raw.repoUrl, b.repoUrl, cx) && I.Renders(raw.envFile, b.envFile, cx)
    && ListRendered(raw.secrets, b.secrets, cx)
    && b.services.Keys == raw.services.Keys && forall n :: n in raw.services ==> ServiceRendered(raw.services[n], b.services[n], cx)
  }

  lemma ServiceFieldsRendered(s: M.Service, t: M.Service, cx: I.Context)
    requires "" !in cx.builtins && I.ServiceBecame(s, t, true, cx)
    ensures ServiceRendered(s, t, cx)
  {
    hide I.Renders;
  }

  lemma InterpolatedFields(raw: M.App, b: M.App, cx: I.Context)
    requires "" !in cx.builtins && I.AppBecame(raw, b, true, cx)
    ensures Rendered(raw, b, cx)
  {
    hide I.Renders, I.ServiceBecame, ServiceRendered;
    forall n | n in raw.services
      ensures n in b.services && ServiceRendered(raw.services[n], b.services[n], cx)
    {
      ServiceFieldsRendered(raw.services[n], b.services[n], cx);
    }
  }

  /** The text marshals a document of a validated rendering of the manifest, among the configs as they are. */
  ghost predicate TranslationOf(pl: Pipeline, app: M.App, inputs: Inputs, text: string, b: M.App, doc: C.Document) {
    var raw := app.(version := if app.version == "" then "latest" else app.version);
    var builtins := map["${app}" := raw.name, "${env}" := raw.env, "${version}" := raw.version, "${registry}" := raw.registry,
                        "${domain}" := raw.domain];
    && "" !in builtins && Rendered(raw, b, I.Context(builtins, inputs.env))
    && M.Validate(b, pl.hostOk)
    && D.DocumentOf(doc, b, Some(map n | n in inputs.configs :: inputs.configs[n].content),
                    if inputs.volumeRoot == "" then "/var/stack/data" else inputs.volumeRoot)
    && text == pl.marshal(doc)
  }

  lemma ProducedIs(pl: Pipeline, app: M.App, inputs: Inputs, text: string) returns (b: M.App, doc: C.Document)
    requires Produces(pl, app, inputs, Some(text))
    ensures TranslationOf(pl, app, inputs, text, b, doc)
  {
    hide I.AppBecame, I.AppMentions, I.Fails, M.Validate, D.DocumentOf, C.Translates, Rendered;
    var r :| P.Outcome(app, inputs.env, pl.hostOk, ResolverOf(inputs), C.Root(inputs.volumeRoot), r) && Some(text) == TextOf(pl, r);
    doc := r.value;
    b :| P.Interpolated(app, inputs.env, b) && P.EndsFrom(b, pl.hostOk, ResolverOf(inputs), C.Root(inputs.volumeRoot), r);
    InterpolatedFields(I.WithVersion(app), b, P.ContextOf(app, inputs.env));
  }

  /** A deploy that gets to record runs and records one text: that of the manifest under the payload's name and version
      where it gives them. */
  lemma DeployRuns(pl: Pipeline, w: World, p: Payload, out: Option<string>, now: int, f: Faults, src: Source, app: M.App)
    returns (id: int, b: M.App, doc: C.Document)
    requires p.manifest != "" && pl.parse(p.manifest) == Some(src) && PayloadProduces(pl, p, w.inputs, out)
    requires app == src.app.(name := if p.appName != "" then p.appName else src.app.name,
                             version := if p.version != "" then p.version else src.app.version)
    requires var r := Deploy(pl, w, p, out, now, f).1; r.Ok? || r == Err(DeployFailed) || r == Err(BackupFailed)
    ensures out.Some? && TranslationOf(pl, app, w.inputs, out.value, b, doc)
    ensures var (w', r) := Deploy(pl, w, p, out, now, f);
      && RecordedAs(w, w', app.name, id, now, Revision(p.manifest, out.value, Sha256(out.value), p.file))
      && EndsAs(w, w', r, app.name, id, out.value, src.backupBefore && src.strictBackup, f)
  {
    assert out.Some? ==> Produces(pl, app, w.inputs, out);
    hide Deploy, RecordedAs, EndsAs, NoRoom, TranslationOf, Produces, PayloadProduces;
    id := DeployCases(pl, w, p, out, now, f, src, app.name);
    b, doc := ProducedIs(pl, app, w.inputs, out.value);
  }

  // ---------------------------------------------------------------------------
  // Texts of the deployed document
  // ---------------------------------------------------------------------------

  lemma {:induction false} NothingReplaced(s: string, builtins: map<string, string>, order: seq<string>)
    requires '$' !in s && forall i :: 0 <= i < |order| ==> order[i] in builtins && order[i] != "" && T.Shaped(order[i])
    ensures T.ReplaceBuiltins(s, builtins, order) == s
  {
    if order != [] {
      var last := order[|order| - 1];
      NothingReplaced(s, builtins, order[..|order| - 1]);
      T.SkipPlain(s, "", last, builtins[last]);
      assert s + "" == s;
    }
  }

  /** A text without a dollar sign is its own rendering. */
  lemma PlainRenders(s: string, t: string, cx: I.Context)
    requires '$' !in s && "" !in cx.builtins && (forall k :: k in cx.builtins ==> T.Shaped(k)) && I.Renders(s, t, cx)
    ensures t == s
  {
    var order :| T.IsOrder(order, cx.builtins) && T.SubstituteIn(s, cx.builtins, order, cx.env) == Ok(t);
    NothingReplaced(s, cx.builtins, order);
    T.PassPlain(s, "", cx.env);
    assert s + "" == s;
  }

  lemma BuiltinKeys(app: M.App)
    ensures forall k :: k in I.Builtins(app) ==> T.Shaped(k)
    ensures "" !in I.Builtins(app)
    ensures I.Builtins(app) == map["${app}" := app.name, "${env}" := app.env, "${version}" := app.version,
                                   "${registry}" := app.registry, "${domain}" := app.domain]
  {
    I.PlaceholdersShaped();
  }

  /** Every service is labelled with the version: the payload's if it gives one, else the manifest's, else `latest`. */
  lemma VersionDeployed(pl: Pipeline, app: M.App, inputs: Inputs, text: string, b: M.App, doc: C.Document, n: string)
    requires TranslationOf(pl, app, inputs, text, b, doc) && '$' !in app.version && n in app.services
    ensures n in doc.services
    ensures Labelled(doc.services[n].deploy.labels, "version", if app.version == "" then "latest" else app.version)
    ensures Labelled(doc.services[n].deploy.labels, "application", app.name) && Labelled(doc.services[n].deploy.labels, "environment", app.env)
  {
    hide TranslationOf, I.Renders, I.Builtins, D.DocumentOf, ServiceRendered, AppLabels, Labelled;
    var raw := app.(version := if app.version == "" then "latest" else app.version);
    var cx := I.Context(I.Builtins(raw), inputs.env);
    BuiltinKeys(raw);
    TranslationParts(pl, app, inputs, text, b, doc);
    PlainRenders(raw.version, b.version, cx);
    LabelsAre(b, ResolverOf(inputs), C.Root(inputs.volumeRoot), doc, n);
    StandardOnes(doc.services[n].deploy.labels, b, n);
  }

  lemma TranslationParts(pl: Pipeline, app: M.App, inputs: Inputs, text: string, b: M.App, doc: C.Document)
    requires TranslationOf(pl, app, inputs, text, b, doc)
    ensures var raw := app.(version := if app.version == "" then "latest" else app.version);
      "" !in I.Builtins(raw) && Rendered(raw, b, I.Context(I.Builtins(raw), inputs.env))
    ensures D.DocumentOf(doc, b, ResolverOf(inputs), C.Root(inputs.volumeRoot))
  {
    hide Rendered, D.DocumentOf, M.Validate;
    BuiltinKeys(app.(version := if app.version == "" then "latest" else app.version));
  }

  lemma StandardOnes(labels: map<string, string>, app: M.App, n: string)
    requires n in app.services && AppLabels(labels, app, n, app.services[n])
    ensures Labelled(labels, "application", app.name) && Labelled(labels, "environment", app.env) && Labelled(labels, "version", app.version)
  {
  }

  /** Among fields without placeholders, the image of a service is what its text in the manifest says. */
  lemma ImageDeployed(pl: Pipeline, app: M.App, inputs: Inputs, text: string, b: M.App, doc: C.Document, n: string, ps: seq<Part>)
    requires TranslationOf(pl, app, inputs, text, b, doc) && PlainFields(app)
    requires n in app.services && GoodParts(ps) && app.services[n].image == Text(ps)
    ensures n in doc.services && doc.services[n].image == Meant(ps, app, inputs.env) && !MissesVariable(ps, inputs.env)
  {
    hide TranslationOf, I.Renders, I.Builtins, D.DocumentOf, Text, Meant, MissesVariable, GoodParts, PlainFields;
    var raw := app.(version := if app.version == "" then "latest" else app.version);
    var cx := I.Context(I.Builtins(raw), inputs.env);
    TranslationParts(pl, app, inputs, text, b, doc);
    assert ServiceRendered(raw.services[n], b.services[n], cx);
    hide Rendered, ServiceRendered;
    TextMeans(ps, app, inputs.env);
    ServiceFields(b, ResolverOf(inputs), C.Root(inputs.volumeRoot), doc, n);
  }

  /** In particular a deploy with a version of its own labels every service with that version. */
  lemma OverrideDeployed(pl: Pipeline, w: World, p: Payload, out: Option<string>, now: int, f: Faults, src: Source, n: string)
    returns (doc: C.Document)
    requires p.manifest != "" && pl.parse(p.manifest) == Some(src) && PayloadProduces(pl, p, w.inputs, out)
    requires Deploy(pl, w, p, out, now, f).1.Ok? && p.version != "" && '$' !in p.version && n in src.app.services
    ensures var (w', r) := Deploy(pl, w, p, out, now, f);
      r.value.name in w'.live && w'.live[r.value.name] == pl.marshal(doc)
    ensures n in doc.services && Labelled(doc.services[n].deploy.labels, "version", p.version)
  {
    hide Deploy, TranslationOf, PayloadProduces, Labelled, RecordedAs;
    var app := src.app.(name := if p.appName != "" then p.appName else src.app.name, version := p.version);
    var id, b, d := DeployRuns(pl, w, p, out, now, f, src, app);
    doc := d;
    VersionDeployed(pl, app, w.inputs, out.value, b, doc, n);
    MarshalledText(pl, app, w.inputs, out.value, b, doc);
  }

  lemma MarshalledText(pl: Pipeline, app: M.App, inputs: Inputs, text: string, b: M.App, doc: C.Document)
    requires TranslationOf(pl, app, inputs, text, b, doc)
    ensures text == pl.marshal(doc)
  {
    hide Rendered, D.DocumentOf, M.Validate;
  }

  // ---------------------------------------------------------------------------
  // Rollback, sync, removal
  // ---------------------------------------------------------------------------

  /** A rollback records the row of the old revision again, without its file, and ends like a deploy of its compose; no
      backup is asked for. */
  lemma RollbackCases(w: World, name: string, source: int, now: int, f: Faults) returns (id: int)
    ensures var (w', r) := Rollback(w, name, source, now, f);
      && (source !in History(w.db, name) ==> (w', r) == (w, Err(RevisionNotFound)))
      && (source in History(w.db, name) && NoRoom(w, name, now) ==> (w', r) == (w, Err(NoFreeRevision)))
      && (source in History(w.db, name) && !NoRoom(w, name, now) ==>
            var earlier := History(w.db, name)[source];
            && RecordedAs(w, w', name, id, now, Revision(earlier.source, earlier.rendered, earlier.renderedHash, ""))
            && name in w'.db.stacks && Provenance(w, w', name, "", "")
            && EndsAs(w, w', r, name, id, earlier.rendered, false, f))
  {
    hide Append, EndsAs, NoRoom, Provenance;
    id := now;
    if source in History(w.db, name) {
      id := AppendCases(w, name, History(w.db, name)[source].(sourceFile := ""), "", now, false, f);
    }
  }

  /** A sync looks at the largest revision. If the text it gets again has that revision's hash it changes nothing and reports
      it; otherwise it is a deploy of that revision's manifest under the stack's name, without version and provenance. */
  lemma SyncCases(pl: Pipeline, w: World, name: string, again: Option<string>, out: Option<string>, now: int, f: Faults) returns (id: int)
    ensures History(w.db, name) == map[] ==> Sync(pl, w, name, again, out, now, f) == (w, Err(NoRevisions))
    ensures History(w.db, name) != map[] ==>
      && id in History(w.db, name) && (forall x :: x in History(w.db, name) ==> x <= id)
      && var latest := History(w.db, name)[id];
         Sync(pl, w, name, again, out, now, f) ==
           if again.Some? && latest.renderedHash == Sha256(again.value) then (w, Ok(Outcome(name, id, again.value, false)))
           else Deploy(pl, w, Payload(name, "", latest.source, "", ""), out, now, f)
  {
    hide Deploy;
    id := if History(w.db, name) != map[] then LatestId(w.db, name) else now;
  }

  /** The text a sync compares with is a translation of the recorded manifest under the stack's name. */
  lemma SyncSees(pl: Pipeline, w: World, name: string, again: Option<string>, out: Option<string>) returns (b: M.App, doc: C.Document)
    requires History(w.db, name) != map[] && SyncTranslates(pl, w, name, again, out) && again.Some?
    ensures var parsed := pl.parse(Latest(w.db, name).source);
      parsed.Some? && TranslationOf(pl, parsed.value.app.(name := name), w.inputs, again.value, b, doc)
  {
    hide TranslationOf, Produces, PayloadProduces;
    b, doc := ProducedIs(pl, pl.parse(Latest(w.db, name).source).value.app.(name := name), w.inputs, again.value);
  }

  /** A removal stops the stack, then deletes its configs, then its row and its revisions, and gets as far as it gets;
      everything of other stacks stays. */
  lemma UndeployCases(w: World, name: string, fault: UndeployFault)
    ensures var (w', r) := Undeploy(w, name, fault);
      && (name !in w.db.stacks ==> (w', r) == (w, Err(StackNotFound)))
      && (name in w.db.stacks && fault.RemovalFails? ==> (w', r) == (w, Err(RemoveFailed)))
      && (name in w.db.stacks && !fault.RemovalFails? ==>
            && (r == if fault.NoFault? then Ok(()) else Err(DeleteFailed))
            && w'.live == w.live - {name}
            && w'.inputs.env == w.inputs.env && w'.inputs.volumeRoot == w.inputs.volumeRoot
            && (forall n :: n in w'.inputs.configs <==>
                  n in w.inputs.configs && (fault == DeletionFails(false) || w.inputs.configs[n].stack != name))
            && (forall n :: n in w'.inputs.configs ==> w'.inputs.configs[n] == w.inputs.configs[n])
            && (fault.NoFault? ==> w'.db == StackDb(w.db.stacks - {name}, w.db.revisions - {name}))
            && (!fault.NoFault? ==> w'.db == w.db))
  {
  }
}
