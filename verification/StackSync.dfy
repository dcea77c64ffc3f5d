/** When a sync skips, and what is then really running: the stored hash stands for a translation that walks maps in
    arbitrary orders, for a payload that may have had a version override, and for a deploy that may have failed. */
module StackSync {
  import opened Common
  import opened StackRevisions
  import C = Compose
  import M = Manifest
  import P = ManifestPipeline
  import T = Placeholders
  import I = Interpolate
  import F = RawFields

  // ---------------------------------------------------------------------------
  // Translations
  // ---------------------------------------------------------------------------

  /** A nice manifest translates to one text only. */
  lemma ProducesOnce(pl: Pipeline, app: M.App, inputs: Inputs, out: Option<string>, out': Option<string>)
    requires P.Nice(app, inputs.env) && Produces(pl, app, inputs, out) && Produces(pl, app, inputs, out')
    ensures out == out'
  {
    hide P.Nice, P.Outcome;
    var root, res := C.Root(inputs.volumeRoot), ResolverOf(inputs);
    var r :| P.Outcome(app, inputs.env, pl.hostOk, res, root, r) && out == TextOf(pl, r);
    var r' :| P.Outcome(app, inputs.env, pl.hostOk, res, root, r') && out' == TextOf(pl, r');
    P.CompilesOnce(app, inputs.env, pl.hostOk, res, root, r, r');
  }

  predicate Skips(r: Result<Outcome, StackError>) {
    r.Ok? && !r.value.changed
  }

  lemma DeployNeverSkips(pl: Pipeline, w: World, p: Payload, out: Option<string>, now: int, f: Faults)
    ensures !Skips(Deploy(pl, w, p, out, now, f).1)
  {
  }

  lemma SyncIs(pl: Pipeline, w: World, name: string, again: Option<string>, out: Option<string>, now: int, f: Faults)
    requires History(w.db, name) != map[]
    ensures var (w', r) := Sync(pl, w, name, again, out, now, f);
      && (Skips(r) <==> UpToDate(Latest(w.db, name), again))
      && (Skips(r) ==> w' == w && r.value == Outcome(name, LatestId(w.db, name), again.value, false))
  {
    DeployNeverSkips(pl, w, Resync(name, Latest(w.db, name).source), out, now, f);
    hide Deploy;
  }

  /** A sync skips exactly when the latest revision carries a hash and its manifest was just translated to what is
      already running; skipping changes nothing and reports that revision. For a nice manifest it is enough that
      what is running is something the manifest can translate to. */
  lemma SyncSkipsIff(pl: Pipeline, w: World, name: string, again: Option<string>, out: Option<string>, now: int, f: Faults)
    requires AllLive(w) && History(w.db, name) != map[]
    requires ResyncProduces(pl, name, Latest(w.db, name).source, w.inputs, again)
    ensures var (w', r) := Sync(pl, w, name, again, out, now, f);
      var latest := Latest(w.db, name);
      && name in w.live
      && (Skips(r) <==> latest.renderedHash != NoDigest && again == Some(w.live[name]))
      && (Skips(r) ==> w' == w && r.value.rendered == w.live[name] && r.value.revision == LatestId(w.db, name))
    ensures var latest := Latest(w.db, name);
      var source := pl.parse(latest.source);
      source.Some? && P.Nice(source.value.app.(name := name), w.inputs.env) ==>
        (Skips(Sync(pl, w, name, again, out, now, f).1) <==>
         latest.renderedHash != NoDigest && Produces(pl, source.value.app.(name := name), w.inputs, Some(w.live[name])))
  {
    assert StackLive(w, name);
    hide Produces, P.Nice, Sync, Skips;
    SyncIs(pl, w, name, again, out, now, f);
    var source := pl.parse(Latest(w.db, name).source);
    if source.Some? && P.Nice(source.value.app.(name := name), w.inputs.env) {
      if Produces(pl, source.value.app.(name := name), w.inputs, Some(w.live[name])) {
        ProducesOnce(pl, source.value.app.(name := name), w.inputs, again, Some(w.live[name]));
      }
    }
  }

  // ---------------------------------------------------------------------------
  // Right after a deploy
  // ---------------------------------------------------------------------------

  /** The manifest as a sync translates it: under the stack's name, with its own version. */
  function Plain(pl: Pipeline, p: Payload): M.App
    requires pl.parse(p.manifest).Some?
  {
    Named(pl.parse(p.manifest).value.app, p.appName, "")
  }

  /** What a deploy leaves behind once it has recorded its revision. */
  lemma DeployRecords(pl: Pipeline, w: World, p: Payload, out: Option<string>, now: int, f: Faults)
    requires AllHistoriesOk(w.db, now)
    requires var r := Deploy(pl, w, p, out, now, f).1; r.Ok? || r == Err(DeployFailed) || r == Err(BackupFailed)
    ensures p.manifest != "" && pl.parse(p.manifest).Some? && out.Some?
    ensures var name := Plain(pl, p).name;
      var (w', r) := Deploy(pl, w, p, out, now, f);
      && w'.inputs == w.inputs
      && History(w'.db, name) != map[] && Latest(w'.db, name) == Recorded(p, out.value)
      && (r.Ok? ==> r.value == Outcome(name, LatestId(w'.db, name), out.value, true))
  {
    var (source, text) := Compiled(pl, p, out).value;
    assert HistoryOk(w.db, source.app.name, now);
    AppendGrows(w, source.app.name, Recorded(p, text), p.repoUrl, now, source.backupBefore && source.strictBackup, f);
  }

  /** A deploy of a text that meets no fault and finds a free revision runs that text. */
  lemma CalmDeployRuns(pl: Pipeline, w: World, p: Payload, text: string, now: int, f: Faults)
    requires Calm(f) && p.manifest != "" && pl.parse(p.manifest).Some?
    requires NextFree(History(w.db, Plain(pl, p).name).Keys, now, MAX_ATTEMPTS).Some?
    ensures var name := Plain(pl, p).name;
      var id := NextFree(History(w.db, name).Keys, now, MAX_ATTEMPTS).value;
      var (w', r) := Deploy(pl, w, p, Some(text), now, f);
      && r == Ok(Outcome(name, id, text, true)) && w'.inputs == w.inputs
      && name in w'.live && w'.live[name] == text
      && History(w'.db, name).Keys == History(w.db, name).Keys + {id}
  {
  }

  /** A sync that translates the recorded manifest to another text, with no fault and a free revision, deploys it. */
  lemma CalmSyncRuns(pl: Pipeline, w: World, name: string, p: Payload, text: string, now: int, f: Faults)
    requires Calm(f) && History(w.db, name) != map[] && p.manifest != "" && Latest(w.db, name).source == p.manifest
    requires pl.parse(p.manifest).Some? && Plain(pl, Resync(name, p.manifest)).name == name
    requires Latest(w.db, name).renderedHash != ContentHash(text)
    requires NextFree(History(w.db, name).Keys, now, MAX_ATTEMPTS).Some?
    ensures var (w', r) := Sync(pl, w, name, Some(text), Some(text), now, f);
      r.Ok? && r.value.changed && name in w'.live && w'.live[name] == text
  {
    CalmDeployRuns(pl, w, Resync(name, p.manifest), text, now, f);
    hide Deploy, NextFree;
  }

  lemma SecondIsFree(now: int, later: int)
    requires now <= later
    ensures NextFree({}, now, MAX_ATTEMPTS) == Some(now) && NextFree({now}, later, MAX_ATTEMPTS).Some?
  {
    assert later !in {now} || later + 1 !in {now};
  }

  /** A first deploy and a sync that translates the same manifest to another text: both succeed, and the second text
      takes the place of the first. */
  lemma CalmDeployThenSync(pl: Pipeline, w: World, p: Payload, text: string, text': string, now: int, f: Faults, later: int, f': Faults)
    requires AllHistoriesOk(w.db, now) && now <= later && Calm(f) && Calm(f') && text != text'
    requires p.manifest != "" && p.version == "" && pl.parse(p.manifest).Some?
    requires History(w.db, Plain(pl, p).name) == map[] && Plain(pl, Resync(Plain(pl, p).name, p.manifest)).name == Plain(pl, p).name
    ensures var name := Plain(pl, p).name;
      var (w', d) := Deploy(pl, w, p, Some(text), now, f);
      var (w'', r) := Sync(pl, w', name, Some(text'), Some(text'), later, f');
      && d.Ok? && w'.inputs == w.inputs && History(w'.db, name) != map[] && Latest(w'.db, name).source == p.manifest
      && r.Ok? && r.value.changed
      && name in w'.live && w'.live[name] == text && name in w''.live && w''.live[name] == text'
  {
    var name := Plain(pl, p).name;
    SecondIsFree(now, later);
    hide NextFree, AllHistoriesOk;
    CalmDeployRuns(pl, w, p, text, now, f);
    DeployRecords(pl, w, p, Some(text), now, f);
    hide Deploy, Sync;
    var w' := Deploy(pl, w, p, Some(text), now, f).0;
    assert History(w'.db, name).Keys == {now};
    CalmSyncRuns(pl, w', name, p, text', later, f');
  }

  lemma ResyncOf(pl: Pipeline, p: Payload, inputs: Inputs, again: Option<string>)
    requires pl.parse(p.manifest).Some? && p.manifest != ""
    ensures ResyncProduces(pl, Plain(pl, p).name, p.manifest, inputs, again) <==> Produces(pl, Plain(pl, p), inputs, again)
    ensures p.version == "" ==> (PayloadProduces(pl, p, inputs, again) <==> Produces(pl, Plain(pl, p), inputs, again))
  {
    hide Produces;
    var parsed := pl.parse(p.manifest).value.app;
    assert parsed.(name := Plain(pl, p).name) == Plain(pl, p);
    assert p.version == "" ==> Named(parsed, p.appName, p.version) == Plain(pl, p);
  }

  /** Right after a deploy, with the same inputs, a sync skips exactly when it translates the manifest, without the
      payload's version override, to the deployed text again. For a nice manifest that is so exactly when the text
      is one the manifest gives without the override; with no override it always is, and nothing changes. */
  lemma SyncAfterDeployIff(pl: Pipeline, w: World, p: Payload, out: Option<string>, now: int, f: Faults,
                           again: Option<string>, out': Option<string>, later: int, f': Faults)
    requires AllHistoriesOk(w.db, now) && PayloadProduces(pl, p, w.inputs, out) && Deploy(pl, w, p, out, now, f).1.Ok?
    requires ResyncProduces(pl, Deploy(pl, w, p, out, now, f).1.value.name, p.manifest, w.inputs, again)
    ensures pl.parse(p.manifest).Some?
    ensures var (w', d) := Deploy(pl, w, p, out, now, f);
      var (w'', r) := Sync(pl, w', d.value.name, again, out', later, f');
      var nice := P.Nice(Plain(pl, p), w.inputs.env);
      && (Skips(r) <==> again == Some(d.value.rendered))
      && (nice ==> (Skips(r) <==> Produces(pl, Plain(pl, p), w.inputs, Some(d.value.rendered))))
      && (nice && p.version == "" ==>
            w'' == w' && r == Ok(Outcome(d.value.name, d.value.revision, d.value.rendered, false)))
  {
    DeployRecords(pl, w, p, out, now, f);
    var (w', d) := Deploy(pl, w, p, out, now, f);
    SyncIs(pl, w', d.value.name, again, out', later, f');
    hide Produces, P.Nice, Deploy, Sync;
    ResyncOf(pl, p, w.inputs, again);
    ResyncOf(pl, p, w.inputs, out);
    if P.Nice(Plain(pl, p), w.inputs.env) && Produces(pl, Plain(pl, p), w.inputs, out) {
      ProducesOnce(pl, Plain(pl, p), w.inputs, again, out);
    }
  }

  /** The manifest translates to one outcome only. */
  ghost predicate Unambiguous(pl: Pipeline, app: M.App, inputs: Inputs) {
    forall o, o' :: Produces(pl, app, inputs, o) && Produces(pl, app, inputs, o') ==> o == o'
  }

  /** Every sync that can follow a deploy skips. */
  ghost predicate SyncAlwaysSkips(pl: Pipeline, w: World, p: Payload, out: Option<string>, now: int, f: Faults, later: int, f': Faults)
    requires Deploy(pl, w, p, out, now, f).1.Ok?
  {
    var (w', d) := Deploy(pl, w, p, out, now, f);
    forall again, out' :: ResyncProduces(pl, d.value.name, p.manifest, w.inputs, again) ==>
      Skips(Sync(pl, w', d.value.name, again, out', later, f').1)
  }

  /** Without an override, the sync after a deploy is sure to skip, map orders notwithstanding, if and only if the
      manifest translates to one outcome only. */
  lemma SyncAlwaysSkipsIff(pl: Pipeline, w: World, p: Payload, out: Option<string>, now: int, f: Faults, later: int, f': Faults)
    requires AllHistoriesOk(w.db, now) && PayloadProduces(pl, p, w.inputs, out) && Deploy(pl, w, p, out, now, f).1.Ok?
    requires p.version == ""
    ensures pl.parse(p.manifest).Some?
    ensures SyncAlwaysSkips(pl, w, p, out, now, f, later, f') <==> Unambiguous(pl, Plain(pl, p), w.inputs)
  {
    DeployRecords(pl, w, p, out, now, f);
    var (w', d) := Deploy(pl, w, p, out, now, f);
    ResyncOf(pl, p, w.inputs, out);
    hide Produces, Deploy, Sync, Skips, ResyncProduces, PayloadProduces;
    forall again, out'
      ensures ResyncProduces(pl, d.value.name, p.manifest, w.inputs, again) <==> Produces(pl, Plain(pl, p), w.inputs, again)
      ensures Skips(Sync(pl, w', d.value.name, again, out', later, f').1) <==> again == out
    {
      ResyncOf(pl, p, w.inputs, again);
      SyncIs(pl, w', d.value.name, again, out', later, f');
    }
    if SyncAlwaysSkips(pl, w, p, out, now, f, later, f') {
      forall o | Produces(pl, Plain(pl, p), w.inputs, o)
        ensures o == out
      {
        assert Skips(Sync(pl, w', d.value.name, o, None, later, f').1);
      }
    }
  }

  /** What can be checked beforehand: with a nice manifest every such sync skips. */
  lemma NiceAlwaysSkips(pl: Pipeline, w: World, p: Payload, out: Option<string>, now: int, f: Faults, later: int, f': Faults)
    requires AllHistoriesOk(w.db, now) && PayloadProduces(pl, p, w.inputs, out) && Deploy(pl, w, p, out, now, f).1.Ok?
    requires p.version == "" && pl.parse(p.manifest).Some? && P.Nice(Plain(pl, p), w.inputs.env)
    ensures SyncAlwaysSkips(pl, w, p, out, now, f, later, f')
  {
    hide P.Nice, Produces, Deploy, PayloadProduces, SyncAlwaysSkips;
    SyncAlwaysSkipsIff(pl, w, p, out, now, f, later, f');
    forall o, o' | Produces(pl, Plain(pl, p), w.inputs, o) && Produces(pl, Plain(pl, p), w.inputs, o')
      ensures o == o'
    {
      ProducesOnce(pl, Plain(pl, p), w.inputs, o, o');
    }
  }

  /** In particular with one raw field, if that field, as written, mentions no other builtin or no text of the manifest
      holds its placeholder. */
  lemma RawFieldAlwaysSkips(pl: Pipeline, w: World, p: Payload, out: Option<string>, now: int, f: Faults, later: int, f': Faults, d: string)
    requires AllHistoriesOk(w.db, now) && PayloadProduces(pl, p, w.inputs, out) && Deploy(pl, w, p, out, now, f).1.Ok?
    requires p.version == "" && pl.parse(p.manifest).Some?
    requires var raw := I.WithVersion(Plain(pl, p));
      F.OneRawField(raw, d) && F.AllWellFormed(raw) &&
      ((forall k :: k in I.Builtins(raw) && k != d ==> T.Hole(k) !in T.Tokens(I.Builtins(raw)[d])) || !F.Holds(raw, d))
    ensures SyncAlwaysSkips(pl, w, p, out, now, f, later, f')
  {
    hide P.Nice, PayloadProduces, Deploy, SyncAlwaysSkips, F.AllWellFormed, F.Holds, I.Builtins;
    F.RawFieldIff(Plain(pl, p), w.inputs.env, d);
    NiceAlwaysSkips(pl, w, p, out, now, f, later, f');
  }

  // ---------------------------------------------------------------------------
  // After a failure
  // ---------------------------------------------------------------------------

  /** Whether the backup the manifest insists on stopped the deploy. */
  predicate BackupBlocks(pl: Pipeline, p: Payload, f: Faults)
    requires pl.parse(p.manifest).Some?
  {
    var source := pl.parse(p.manifest).value;
    source.backupBefore && source.strictBackup && f.backupFails
  }

  /** A revision is recorded before it is deployed. If the deploy then fails, whatever it left behind stays: a sync of
      a nice manifest with unchanged inputs takes the recorded hash at its word and skips. What is then running is
      the recorded compose if and only if a blocked deploy found it running already, or a failed one left it. */
  lemma FailedDeployIsSkippedBySync(pl: Pipeline, w: World, p: Payload, out: Option<string>, now: int, f: Faults,
                                    again: Option<string>, out': Option<string>, later: int, f': Faults)
    requires AllHistoriesOk(w.db, now) && p.version == "" && PayloadProduces(pl, p, w.inputs, out)
    requires Deploy(pl, w, p, out, now, f).1 == Err(DeployFailed) || Deploy(pl, w, p, out, now, f).1 == Err(BackupFailed)
    requires p.manifest != "" && pl.parse(p.manifest).Some?
    requires P.Nice(Plain(pl, p), w.inputs.env)
    requires ResyncProduces(pl, Plain(pl, p).name, p.manifest, w.inputs, again)
    ensures out.Some?
    ensures var w' := Deploy(pl, w, p, out, now, f).0;
      var name := Plain(pl, p).name;
      var (w'', r) := Sync(pl, w', name, again, out', later, f');
      && w'' == w' && Skips(r) && r.value.rendered == out.value
      && (name in w''.live && w''.live[name] == r.value.rendered <==>
          if BackupBlocks(pl, p, f) then name in w.live && w.live[name] == out.value else f.left == Some(out.value))
  {
    var name, w' := Plain(pl, p).name, Deploy(pl, w, p, out, now, f).0;
    DeployRecords(pl, w, p, out, now, f);
    FailedDeployLeaves(pl, w, p, out, now, f);
    SyncIs(pl, w', name, again, out', later, f');
    hide Produces, P.Nice, Deploy, Sync, AllHistoriesOk, Skips;
    ResyncOf(pl, p, w.inputs, again);
    ResyncOf(pl, p, w.inputs, out);
    ProducesOnce(pl, Plain(pl, p), w.inputs, again, out);
  }

  /** What runs after a failure: what ran before if the backup blocked the deploy, else what the failed one left. */
  lemma FailedDeployLeaves(pl: Pipeline, w: World, p: Payload, out: Option<string>, now: int, f: Faults)
    requires Deploy(pl, w, p, out, now, f).1 == Err(DeployFailed) || Deploy(pl, w, p, out, now, f).1 == Err(BackupFailed)
    requires p.version == ""
    ensures pl.parse(p.manifest).Some?
    ensures var name, live := Plain(pl, p).name, Deploy(pl, w, p, out, now, f).0.live;
      forall text :: (name in live && live[name] == text) <==>
        if BackupBlocks(pl, p, f) then name in w.live && w.live[name] == text else f.left == Some(text)
  {
  }

  /** A removal that gets through the swarm and then fails on the records leaves a history with nothing running: a
      sync that translates the manifest to the recorded text skips all the same. */
  lemma HalfUndeployedIsSkipped(pl: Pipeline, w: World, name: string, configsGone: bool,
                                again: Option<string>, out: Option<string>, later: int, f: Faults)
    requires History(w.db, name) != map[] && name in w.db.stacks
    requires Latest(w.db, name).renderedHash != NoDigest && HashOk(Latest(w.db, name))
    ensures var w' := Undeploy(w, name, DeletionFails(configsGone)).0;
      var (w'', r) := Sync(pl, w', name, again, out, later, f);
      && name !in w'.live
      && (Skips(r) <==> again == Some(Latest(w.db, name).rendered))
      && (Skips(r) ==> w'' == w')
  {
  }
}
