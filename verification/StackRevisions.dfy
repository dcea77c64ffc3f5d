/** Application stacks: an append-only revision history with a current pointer, and a sync that skips when
    the re-rendered manifest hashes like the latest revision. */
module StackRevisions {
  import opened Common
  import C = Compose
  import M = Manifest
  import P = ManifestPipeline

  /** One row of `stack_revisions`, keyed by stack and revision id. */
  datatype Revision = Revision(source: string, rendered: string, renderedHash: Digest, sourceFile: string)

  datatype StackRow = StackRow(current: int, repoUrl: string, sourceFile: string)

  datatype StackDb = StackDb(stacks: map<string, StackRow>, revisions: map<string, map<int, Revision>>)

  /** A parsed manifest with its backup wishes. */
  datatype Source = Source(app: M.App, backupBefore: bool, strictBackup: bool)

  /** A row of the config store as far as stacks are concerned: the stack that owns it and its content. */
  datatype ConfigEntry = ConfigEntry(stack: string, content: string)

  /** What a translation reads besides the manifest. */
  datatype Inputs = Inputs(configs: map<string, ConfigEntry>, env: map<string, string>, volumeRoot: string)

  /** Parsing, the hostname pattern and marshalling; what lies between them is `ManifestPipeline`. */
  datatype Pipeline = Pipeline(parse: string -> Option<Source>, hostOk: string -> bool, marshal: C.Document -> string)

  datatype Payload = Payload(appName: string, version: string, manifest: string, repoUrl: string, file: string)

  datatype World = World(db: StackDb, live: map<string, string>, inputs: Inputs)

  /** How removing a stack fails: in the swarm, or, once that is done, on its records, with or without its configs
      deleted by then. */
  datatype UndeployFault = NoFault | RemovalFails | DeletionFails(configsGone: bool)

  /** Outcomes chosen by the environment. A failing deploy leaves `left` running. */
  datatype Faults = Faults(backupFails: bool, deployFails: bool, left: Option<string>)

  datatype StackError =
    | ManifestRequired | ParseFailed | RenderFailed | NoFreeRevision | DuplicateRevision | RevisionNotFound | NoRevisions
    | StackNotFound | BackupFailed | DeployFailed | RemoveFailed | DeleteFailed

  datatype Outcome = Outcome(name: string, revision: int, rendered: string, changed: bool)

  const MAX_ATTEMPTS := 10000

  // ---------------------------------------------------------------------------
  // The tables
  // ---------------------------------------------------------------------------

  function History(db: StackDb, name: string): map<int, Revision> {
    if name in db.revisions then db.revisions[name] else map[]
  }

  /** Inserts the revision and upserts the stack row; a missing stack row is inserted first, and empty
      provenance keeps what the row already has. */
  function Record(db: StackDb, name: string, id: int, rev: Revision, repoUrl: string): Result<StackDb, StackError> {
    if id in History(db, name) then Err(DuplicateRevision)
    else
      var row := if name in db.stacks then db.stacks[name] else StackRow(id, "", "");
      var row' := StackRow(id, if repoUrl != "" then repoUrl else row.repoUrl, if rev.sourceFile != "" then rev.sourceFile else row.sourceFile);
      Ok(StackDb(db.stacks[name := row'], db.revisions[name := History(db, name)[id := rev]]))
  }

  /** The smallest unused id from `candidate` on, looking at `attempts` ids. */
  ghost function NextFree(used: set<int>, candidate: int, attempts: nat): (r: Option<int>)
    ensures r.Some? ==> candidate <= r.value < candidate + attempts && r.value !in used
    ensures r.Some? ==> forall x :: candidate <= x < r.value ==> x in used
    ensures r.None? ==> forall x :: candidate <= x < candidate + attempts ==> x in used
    decreases attempts
  {
    if attempts == 0 then None
    else if candidate !in used then Some(candidate)
    else NextFree(used, candidate + 1, attempts - 1)
  }

  lemma NextFreeStep(used: set<int>, candidate: int, attempts: nat)
    requires attempts > 0
    ensures NextFree(used, candidate, attempts) == if candidate !in used then Some(candidate) else NextFree(used, candidate + 1, attempts - 1)
  {
  }

  ghost function Max(ids: set<int>): (m: int)
    requires ids != {}
    ensures m in ids && forall x :: x in ids ==> x <= m
  {
    assert (forall x :: x !in ids) ==> ids == {};
    var x :| x in ids;
    if ids == {x} then x
    else
      var rest := Max(ids - {x});
      assert forall y :: y in ids ==> y == x || y in ids - {x};
      if x > rest then x else rest
  }

  ghost function LatestId(db: StackDb, name: string): int
    requires History(db, name) != map[]
  {
    Max(History(db, name).Keys)
  }

  ghost function Latest(db: StackDb, name: string): Revision
    requires History(db, name) != map[]
  {
    History(db, name)[LatestId(db, name)]
  }

  method RecordDeploy(db: StackDb, name: string, id: int, rev: Revision, repoUrl: string) returns (r: Result<StackDb, StackError>)
    ensures r.Err? <==> id in History(db, name)
    ensures r.Ok? ==>
      && r.value.stacks.Keys == db.stacks.Keys + {name} && r.value.stacks[name].current == id
      && History(r.value, name) == History(db, name)[id := rev]
      && (forall n :: n != name ==> History(r.value, n) == History(db, n))
      && (forall n :: n in db.stacks && n != name ==> r.value.stacks[n] == db.stacks[n])
      && (repoUrl != "" ==> r.value.stacks[name].repoUrl == repoUrl)
      && (repoUrl == "" ==> r.value.stacks[name].repoUrl == if name in db.stacks then db.stacks[name].repoUrl else "")
      && (rev.sourceFile != "" ==> r.value.stacks[name].sourceFile == rev.sourceFile)
      && (rev.sourceFile == "" ==> r.value.stacks[name].sourceFile == if name in db.stacks then db.stacks[name].sourceFile else "")
  {
    r := Record(db, name, id, rev, repoUrl);
  }

  // ---------------------------------------------------------------------------
  // The service
  // ---------------------------------------------------------------------------

  function Named(app: M.App, name: string, version: string): M.App {
    app.(name := if name != "" then name else app.name, version := if version != "" then version else app.version)
  }

  function ResolverOf(inputs: Inputs): C.Resolver {
    Some(map n | n in inputs.configs :: inputs.configs[n].content)
  }

  function TextOf(pl: Pipeline, r: Result<C.Document, P.CompileError>): Option<string> {
    match r case Err(_) => None case Ok(doc) => Some(pl.marshal(doc))
  }

  /** A translation of the manifest may give this text, or fail if there is none: the maps it walks decide. */
  ghost predicate Produces(pl: Pipeline, app: M.App, inputs: Inputs, out: Option<string>) {
    exists r :: P.Outcome(app, inputs.env, pl.hostOk, ResolverOf(inputs), C.Root(inputs.volumeRoot), r) && out == TextOf(pl, r)
  }

  method Translate(pl: Pipeline, app: M.App, inputs: Inputs) returns (out: Option<string>)
    ensures Produces(pl, app, inputs, out)
  {
    var r := P.Compile(app, inputs.env, pl.hostOk, ResolverOf(inputs), inputs.volumeRoot);
    out := TextOf(pl, r);
  }

  /** What a payload is deployed as, given what its translation produced. */
  function Compiled(pl: Pipeline, p: Payload, out: Option<string>): Result<(Source, string), StackError> {
    if p.manifest == "" then Err(ManifestRequired)
    else match pl.parse(p.manifest)
      case None => Err(ParseFailed)
      case Some(source) =>
        match out
        case None => Err(RenderFailed)
        case Some(text) => Ok((source.(app := Named(source.app, p.appName, p.version)), text))
  }

  ghost predicate PayloadProduces(pl: Pipeline, p: Payload, inputs: Inputs, out: Option<string>) {
    p.manifest != "" && pl.parse(p.manifest).Some? ==>
      Produces(pl, Named(pl.parse(p.manifest).value.app, p.appName, p.version), inputs, out)
  }

  /** Records a revision under the next free id, then deploys unless the strict backup failed. */
  ghost function Append(w: World, name: string, rev: Revision, repoUrl: string, now: int, strict: bool, f: Faults)
    : (World, Result<Outcome, StackError>)
  {
    match NextFree(History(w.db, name).Keys, now, MAX_ATTEMPTS)
    case None => (w, Err(NoFreeRevision))
    case Some(id) =>
      var db := Record(w.db, name, id, rev, repoUrl).value;
      if strict && f.backupFails then (w.(db := db), Err(BackupFailed))
      else if f.deployFails then
        (w.(db := db, live := if f.left.Some? then w.live[name := f.left.value] else w.live - {name}), Err(DeployFailed))
      else (w.(db := db, live := w.live[name := rev.rendered]), Ok(Outcome(name, id, rev.rendered, true)))
  }

  ghost function Deploy(pl: Pipeline, w: World, p: Payload, out: Option<string>, now: int, f: Faults): (World, Result<Outcome, StackError>) {
    match Compiled(pl, p, out)
    case Err(e) => (w, Err(e))
    case Ok((source, text)) =>
      Append(w, source.app.name, Revision(p.manifest, text, ContentHash(text), p.file), p.repoUrl, now, source.backupBefore && source.strictBackup, f)
  }

  ghost function Rollback(w: World, name: string, source: int, now: int, f: Faults): (World, Result<Outcome, StackError>) {
    if source !in History(w.db, name) then (w, Err(RevisionNotFound))
    else
      var row := History(w.db, name)[source];
      Append(w, name, row.(sourceFile := ""), "", now, false, f)
  }

  function Resync(name: string, source: string): Payload {
    Payload(name, "", source, "", "")
  }

  /** What translating a stored manifest again under the stack's name may give. */
  ghost predicate ResyncProduces(pl: Pipeline, name: string, source: string, inputs: Inputs, again: Option<string>) {
    match pl.parse(source)
    case None => again == None
    case Some(src) => Produces(pl, src.app.(name := name), inputs, again)
  }

  predicate UpToDate(latest: Revision, again: Option<string>) {
    latest.renderedHash != NoDigest && again.Some? && ContentHash(again.value) == latest.renderedHash
  }

  /** The second translation happens only if the first one is not what is recorded. */
  ghost predicate SyncTranslates(pl: Pipeline, w: World, name: string, again: Option<string>, out: Option<string>) {
    History(w.db, name) != map[] ==>
      && ResyncProduces(pl, name, Latest(w.db, name).source, w.inputs, again)
      && (!UpToDate(Latest(w.db, name), again) ==> PayloadProduces(pl, Resync(name, Latest(w.db, name).source), w.inputs, out))
  }

  /** `again` is what the stored manifest translates to; `out` what the deploy's own translation gives. */
  ghost function Sync(pl: Pipeline, w: World, name: string, again: Option<string>, out: Option<string>, now: int, f: Faults)
    : (World, Result<Outcome, StackError>)
  {
    if History(w.db, name) == map[] then (w, Err(NoRevisions))
    else
      var latest := Latest(w.db, name);
      if UpToDate(latest, again) then (w, Ok(Outcome(name, LatestId(w.db, name), again.value, false)))
      else Deploy(pl, w, Resync(name, latest.source), out, now, f)
  }

  function WithoutConfigsOf(inputs: Inputs, name: string): Inputs {
    inputs.(configs := map n | n in inputs.configs && inputs.configs[n].stack != name :: inputs.configs[n])
  }

  ghost function Undeploy(w: World, name: string, fault: UndeployFault): (World, Result<(), StackError>) {
    if name !in w.db.stacks then (w, Err(StackNotFound))
    else
      match fault
      case RemovalFails => (w, Err(RemoveFailed))
      case DeletionFails(configsGone) =>
        (w.(live := w.live - {name}, inputs := if configsGone then WithoutConfigsOf(w.inputs, name) else w.inputs), Err(DeleteFailed))
      case NoFault =>
        (World(StackDb(w.db.stacks - {name}, w.db.revisions - {name}), w.live - {name}, WithoutConfigsOf(w.inputs, name)), Ok(()))
  }

  class Service {
    var stacks: map<string, StackRow>
    var revisions: map<string, map<int, Revision>>
    var live: map<string, string>
    var inputs: Inputs

    ghost function Now(): World
      reads this
    {
      World(StackDb(stacks, revisions), live, inputs)
    }

    constructor (inputs: Inputs)
      ensures Now() == World(StackDb(map[], map[]), map[], inputs)
    {
      stacks, revisions, live := map[], map[], map[];
      this.inputs := inputs;
    }

    method NextFreeRevision(name: string, candidate: int) returns (r: Option<int>)
      ensures r == NextFree(History(Now().db, name).Keys, candidate, MAX_ATTEMPTS)
    {
      var used := if name in revisions then revisions[name] else map[];
      ghost var taken := used.Keys;
      for i := 0 to MAX_ATTEMPTS
        invariant NextFree(taken, candidate, MAX_ATTEMPTS) == NextFree(taken, candidate + i, MAX_ATTEMPTS - i)
      {
        NextFreeStep(taken, candidate + i, MAX_ATTEMPTS - i);
        hide NextFree;
        if candidate + i !in used {
          return Some(candidate + i);
        }
      }
      r := None;
    }

    method LatestRevision(name: string) returns (id: int)
      requires History(Now().db, name) != map[]
      ensures id == LatestId(Now().db, name)
    {
      var ids := revisions[name].Keys;
      assert (forall x :: x !in ids) ==> ids == {};
      id :| id in ids;
      var left := ids - {id};
      while left != {}
        invariant left <= ids && id in ids
        invariant forall x :: x in ids && x !in left ==> x <= id
      {
        assert (forall x :: x !in left) ==> left == {};
        var x :| x in left;
        if x > id { id := x; }
        left := left - {x};
      }
    }

    method AppendRevision(name: string, rev: Revision, repoUrl: string, now: int, strict: bool, f: Faults)
      returns (r: Result<Outcome, StackError>)
      modifies this
      ensures (Now(), r) == Append(old(Now()), name, rev, repoUrl, now, strict, f)
    {
      var next := NextFreeRevision(name, now);
      if next.None? {
        return Err(NoFreeRevision);
      }
      var recorded := Record(StackDb(stacks, revisions), name, next.value, rev, repoUrl);
      stacks, revisions := recorded.value.stacks, recorded.value.revisions;
      if strict && f.backupFails {
        return Err(BackupFailed);
      }
      if f.deployFails {
        live := if f.left.Some? then live[name := f.left.value] else live - {name};
        return Err(DeployFailed);
      }
      live := live[name := rev.rendered];
      r := Ok(Outcome(name, next.value, rev.rendered, true));
    }

    method DeployStack(pl: Pipeline, p: Payload, now: int, f: Faults) returns (r: Result<Outcome, StackError>)
      modifies this
      ensures exists out :: PayloadProduces(pl, p, old(inputs), out) && (Now(), r) == Deploy(pl, old(Now()), p, out, now, f)
    {
      if p.manifest == "" || pl.parse(p.manifest).None? {
        assert PayloadProduces(pl, p, inputs, None);
        return Err(if p.manifest == "" then ManifestRequired else ParseFailed);
      }
      var out := Translate(pl, Named(pl.parse(p.manifest).value.app, p.appName, p.version), inputs);
      assert PayloadProduces(pl, p, inputs, out);
      var compiled := Compiled(pl, p, out);
      if compiled.Err? {
        return Err(compiled.error);
      }
      var (source, text) := compiled.value;
      r := AppendRevision(source.app.name, Revision(p.manifest, text, ContentHash(text), p.file), p.repoUrl, now,
                          source.backupBefore && source.strictBackup, f);
    }

    method RollbackStack(name: string, source: int, now: int, f: Faults) returns (r: Result<Outcome, StackError>)
      modifies this
      ensures (Now(), r) == Rollback(old(Now()), name, source, now, f)
    {
      if name !in revisions || source !in revisions[name] {
        return Err(RevisionNotFound);
      }
      r := AppendRevision(name, revisions[name][source].(sourceFile := ""), "", now, false, f);
    }

    method SyncStack(pl: Pipeline, name: string, now: int, f: Faults) returns (r: Result<Outcome, StackError>)
      modifies this
      ensures exists again, out :: SyncTranslates(pl, old(Now()), name, again, out) && (Now(), r) == Sync(pl, old(Now()), name, again, out, now, f)
    {
      if name !in revisions || revisions[name] == map[] {
        assert SyncTranslates(pl, Now(), name, None, None);
        return Err(NoRevisions);
      }
      var id := LatestRevision(name);
      var latest := revisions[name][id];
      var parsed := pl.parse(latest.source);
      var again: Option<string> := None;
      if parsed.Some? {
        again := Translate(pl, parsed.value.app.(name := name), inputs);
      }
      if UpToDate(latest, again) {
        assert SyncTranslates(pl, Now(), name, again, None);
        return Ok(Outcome(name, id, again.value, false));
      }
      ghost var before := Now();
      r := DeployStack(pl, Resync(name, latest.source), now, f);
      ghost var out :| PayloadProduces(pl, Resync(name, latest.source), before.inputs, out) &&
        (Now(), r) == Deploy(pl, before, Resync(name, latest.source), out, now, f);
      assert SyncTranslates(pl, before, name, again, out);
    }

    method UndeployStack(name: string, fault: UndeployFault) returns (r: Result<(), StackError>)
      modifies this
      ensures (Now(), r) == Undeploy(old(Now()), name, fault)
    {
      if name !in stacks {
        return Err(StackNotFound);
      }
      if fault.RemovalFails? {
        return Err(RemoveFailed);
      }
      live := live - {name};
      if fault.NoFault? || fault.configsGone {
        inputs := WithoutConfigsOf(inputs, name);
      }
      if fault.DeletionFails? {
        return Err(DeleteFailed);
      }
      stacks := stacks - {name};
      revisions := revisions - {name};
      r := Ok(());
    }
  }

  // ---------------------------------------------------------------------------
  // Ids only grow
  // ---------------------------------------------------------------------------

  /** The next free id is above every used one exactly when there is no gap between the clock and the
      largest used id. */
  lemma NextFreeIsNewestIff(used: set<int>, now: int, attempts: nat)
    requires used != {} && NextFree(used, now, attempts).Some?
    ensures NextFree(used, now, attempts).value > Max(used) <==> forall x :: now <= x <= Max(used) ==> x in used
  {
  }

  /** A stack's history at a clock value: the pointer is the largest id, and every id from the clock up to
      it is used. */
  ghost predicate HistoryOk(db: StackDb, name: string, now: int) {
    && (History(db, name) != map[] <==> name in db.stacks)
    && (name in db.stacks ==>
          && db.stacks[name].current == LatestId(db, name)
          && forall x :: now <= x <= LatestId(db, name) ==> x in History(db, name))
  }

  ghost predicate AllHistoriesOk(db: StackDb, now: int) {
    forall name :: HistoryOk(db, name, now)
  }

  lemma MaxIs(ids: set<int>, m: int)
    requires m in ids && forall x :: x in ids ==> x <= m
    ensures Max(ids) == m
  {
  }

  /** Recording at a clock value no gap lies above gives the stack a new largest id, one past the old one or
      the clock itself, and the pointer follows. */
  lemma AppendGrows(w: World, name: string, rev: Revision, repoUrl: string, now: int, strict: bool, f: Faults)
    requires HistoryOk(w.db, name, now)
    ensures var (w', r) := Append(w, name, rev, repoUrl, now, strict, f);
      && HistoryOk(w'.db, name, now)
      && (w'.db != w.db ==>
            && LatestId(w'.db, name) !in History(w.db, name)
            && (forall x :: x in History(w.db, name) ==> x < LatestId(w'.db, name))
            && History(w'.db, name) == History(w.db, name)[LatestId(w'.db, name) := rev])
      && (r.Ok? ==> w'.db != w.db && r.value.revision == LatestId(w'.db, name))
      && (w'.db == w.db <==> NextFree(History(w.db, name).Keys, now, MAX_ATTEMPTS).None?)
      && w'.inputs == w.inputs
  {
    var used := History(w.db, name).Keys;
    var w' := Append(w, name, rev, repoUrl, now, strict, f).0;
    if NextFree(used, now, MAX_ATTEMPTS).Some? {
      var id := NextFree(used, now, MAX_ATTEMPTS).value;
      if used != {} {
        NextFreeIsNewestIff(used, now, MAX_ATTEMPTS);
      }
      assert History(w'.db, name) == History(w.db, name)[id := rev];
      MaxIs(History(w'.db, name).Keys, id);
      assert id in History(w'.db, name) && id !in History(w.db, name);
    }
  }

  lemma AppendFrame(w: World, name: string, rev: Revision, repoUrl: string, now: int, strict: bool, f: Faults, other: string)
    requires other != name
    ensures var w' := Append(w, name, rev, repoUrl, now, strict, f).0;
      && History(w'.db, other) == History(w.db, other)
      && (other in w'.db.stacks <==> other in w.db.stacks)
      && (other in w.db.stacks ==> w'.db.stacks[other] == w.db.stacks[other])
      && (other in w'.live <==> other in w.live) && (other in w.live ==> w'.live[other] == w.live[other])
  {
  }

  /** Deploys and syncs come with what their translations gave; the results below hold whatever that was. */
  datatype Op =
    | Deploying(payload: Payload, out: Option<string>)
    | Syncing(name: string, again: Option<string>, out: Option<string>)
    | RollingBack(name: string, source: int)
    | Undeploying(name: string, fault: UndeployFault)
    | Reconfiguring(inputs: Inputs)

  datatype Event = Event(op: Op, at: int, faults: Faults)

  ghost function Step(pl: Pipeline, w: World, e: Event): World {
    match e.op
    case Deploying(p, out) => Deploy(pl, w, p, out, e.at, e.faults).0
    case Syncing(name, again, out) => Sync(pl, w, name, again, out, e.at, e.faults).0
    case RollingBack(name, source) => Rollback(w, name, source, e.at, e.faults).0
    case Undeploying(name, fault) => Undeploy(w, name, fault).0
    case Reconfiguring(inputs) => w.(inputs := inputs)
  }

  ghost function Run(pl: Pipeline, w: World, events: seq<Event>): World {
    if events == [] then w else Step(pl, Run(pl, w, events[..|events| - 1]), events[|events| - 1])
  }

  ghost predicate ClockRuns(start: int, events: seq<Event>) {
    && (forall e :: e in events ==> start <= e.at)
    && (forall i, j :: 0 <= i < j < |events| ==> events[i].at <= events[j].at)
  }

  lemma LaterClock(db: StackDb, name: string, now: int, later: int)
    requires HistoryOk(db, name, now) && now <= later
    ensures HistoryOk(db, name, later)
  {
  }

  lemma AppendKeepsAll(w: World, name: string, rev: Revision, repoUrl: string, now: int, strict: bool, f: Faults)
    requires AllHistoriesOk(w.db, now)
    ensures AllHistoriesOk(Append(w, name, rev, repoUrl, now, strict, f).0.db, now)
  {
    AppendGrows(w, name, rev, repoUrl, now, strict, f);
    var db' := Append(w, name, rev, repoUrl, now, strict, f).0.db;
    forall other
      ensures HistoryOk(db', other, now)
    {
      if other != name {
        assert HistoryOk(w.db, other, now);
        AppendFrame(w, name, rev, repoUrl, now, strict, f, other);
      }
    }
  }

  /** What a deploy records, when it gets that far. */
  ghost function Recorded(p: Payload, text: string): Revision {
    Revision(p.manifest, text, ContentHash(text), p.file)
  }

  lemma DeployKeepsAll(pl: Pipeline, w: World, p: Payload, out: Option<string>, now: int, f: Faults)
    requires AllHistoriesOk(w.db, now)
    ensures AllHistoriesOk(Deploy(pl, w, p, out, now, f).0.db, now)
  {
    var c := Compiled(pl, p, out);
    if c.Ok? {
      AppendKeepsAll(w, c.value.0.app.name, Recorded(p, c.value.1), p.repoUrl, now, c.value.0.backupBefore && c.value.0.strictBackup, f);
    }
  }

  lemma StepKeepsHistories(pl: Pipeline, w: World, e: Event)
    requires AllHistoriesOk(w.db, e.at)
    ensures AllHistoriesOk(Step(pl, w, e).db, e.at)
  {
    match e.op
    case Deploying(p, out) => DeployKeepsAll(pl, w, p, out, e.at, e.faults);
    case Syncing(name, again, out) =>
      if History(w.db, name) != map[] {
        DeployKeepsAll(pl, w, Resync(name, Latest(w.db, name).source), out, e.at, e.faults);
      }
    case RollingBack(name, source) =>
      if source in History(w.db, name) {
        AppendKeepsAll(w, name, History(w.db, name)[source].(sourceFile := ""), "", e.at, false, e.faults);
      }
    case Undeploying(name, fault) =>
      forall other
        ensures HistoryOk(Step(pl, w, e).db, other, e.at)
      {
        assert HistoryOk(w.db, other, e.at);
      }
    case Reconfiguring(inputs) =>
  }

  /** With a clock that never goes back, along every run the current pointer of each stack is its largest
      revision id, and the ids from the clock to it have no gap. Failing deploys do not matter here. */
  lemma {:induction false} CurrentIsNewest(pl: Pipeline, w: World, events: seq<Event>, start: int)
    requires AllHistoriesOk(w.db, start) && ClockRuns(start, events)
    ensures AllHistoriesOk(Run(pl, w, events).db, if events == [] then start else events[|events| - 1].at)
  {
    if events != [] {
      var before, e := events[..|events| - 1], events[|events| - 1];
      CurrentIsNewest(pl, w, before, start);
      var clock := if before == [] then start else before[|before| - 1].at;
      assert e in events;
      var u := Run(pl, w, before);
      forall name
        ensures HistoryOk(u.db, name, e.at)
      {
        LaterClock(u.db, name, clock, e.at);
      }
      StepKeepsHistories(pl, u, e);
    }
  }

  ghost predicate GrownBy(before: map<int, Revision>, after: map<int, Revision>, id: int) {
    && id !in before && after.Keys == before.Keys + {id}
    && (forall x :: x in before ==> x < id && after[x] == before[x])
  }

  /** One row was added, under an id above all others. */
  ghost predicate Appended(before: map<int, Revision>, after: map<int, Revision>) {
    exists id :: GrownBy(before, after, id)
  }

  /** One step along such a run either leaves a stack's history, clears it (undeploy), or appends one id
      larger than all before: within a stack's life the ids strictly increase. */
  lemma StepAppendsOrClears(pl: Pipeline, w: World, e: Event, name: string)
    requires AllHistoriesOk(w.db, e.at)
    ensures var before, after := History(w.db, name), History(Step(pl, w, e).db, name);
      || after == before
      || (after == map[] && e.op == Undeploying(name, NoFault))
      || Appended(before, after)
  {
    assert HistoryOk(w.db, name, e.at);
    match e.op
    case Deploying(p, out) => DeployAppends(pl, w, p, out, e.at, e.faults, name);
    case Syncing(n, again, out) =>
      if History(w.db, n) != map[] {
        DeployAppends(pl, w, Resync(n, Latest(w.db, n).source), out, e.at, e.faults, name);
      }
    case RollingBack(n, source) =>
      if source in History(w.db, n) {
        AppendAppends(w, n, History(w.db, n)[source].(sourceFile := ""), "", e.at, false, e.faults, name);
      }
    case Undeploying(n, fault) =>
    case Reconfiguring(inputs) =>
  }

  lemma AppendAppends(w: World, n: string, rev: Revision, repoUrl: string, now: int, strict: bool, f: Faults, name: string)
    requires HistoryOk(w.db, n, now)
    ensures var before, after := History(w.db, name), History(Append(w, n, rev, repoUrl, now, strict, f).0.db, name);
      after == before || Appended(before, after)
  {
    if n == name {
      AppendGrows(w, n, rev, repoUrl, now, strict, f);
      var w' := Append(w, n, rev, repoUrl, now, strict, f).0;
      if w'.db != w.db {
        assert GrownBy(History(w.db, n), History(w'.db, n), LatestId(w'.db, n));
      }
    } else {
      AppendFrame(w, n, rev, repoUrl, now, strict, f, name);
    }
  }

  lemma DeployAppends(pl: Pipeline, w: World, p: Payload, out: Option<string>, now: int, f: Faults, name: string)
    requires AllHistoriesOk(w.db, now)
    ensures var before, after := History(w.db, name), History(Deploy(pl, w, p, out, now, f).0.db, name);
      after == before || Appended(before, after)
  {
    var c := Compiled(pl, p, out);
    if c.Ok? {
      assert HistoryOk(w.db, c.value.0.app.name, now);
      AppendAppends(w, c.value.0.app.name, Recorded(p, c.value.1), p.repoUrl, now, c.value.0.backupBefore && c.value.0.strictBackup, f, name);
    }
  }

  /** A clock that went back below a gap makes the pointer leave the largest id: the revision just deployed
      is then not the one a sync reads. */
  lemma BackwardClockMisleadsSync(w: World, name: string, rev: Revision, repoUrl: string, now: int, strict: bool, f: Faults, gap: int)
    requires History(w.db, name) != map[] && now <= gap < LatestId(w.db, name) && gap !in History(w.db, name)
    requires gap < now + MAX_ATTEMPTS
    ensures var w' := Append(w, name, rev, repoUrl, now, strict, f).0;
      && History(w'.db, name) != map[]
      && w'.db.stacks[name].current < LatestId(w'.db, name) == LatestId(w.db, name)
      && Latest(w'.db, name) == Latest(w.db, name)
  {
    var used := History(w.db, name).Keys;
    var id := NextFree(used, now, MAX_ATTEMPTS);
    assert id.Some? && id.value <= gap;
    var w' := Append(w, name, rev, repoUrl, now, strict, f).0;
    assert LatestId(w.db, name) in History(w'.db, name);
    MaxIs(History(w'.db, name).Keys, LatestId(w.db, name));
  }

  // ---------------------------------------------------------------------------
  // What runs is the latest revision
  // ---------------------------------------------------------------------------

  ghost predicate HashOk(rev: Revision) {
    rev.renderedHash == NoDigest || rev.renderedHash == ContentHash(rev.rendered)
  }

  ghost predicate StackLive(w: World, name: string) {
    && (forall id :: id in History(w.db, name) ==> HashOk(History(w.db, name)[id]))
    && (History(w.db, name) != map[] ==> name in w.live && w.live[name] == Latest(w.db, name).rendered)
  }

  ghost predicate AllLive(w: World) {
    forall name :: StackLive(w, name)
  }

  /** No deploy fails and no strict backup blocks one. */
  ghost predicate Calm(f: Faults) {
    !f.backupFails && !f.deployFails
  }

  lemma AppendKeepsLive(w: World, name: string, rev: Revision, repoUrl: string, now: int, strict: bool, f: Faults)
    requires AllHistoriesOk(w.db, now) && AllLive(w) && Calm(f) && HashOk(rev)
    ensures AllLive(Append(w, name, rev, repoUrl, now, strict, f).0)
  {
    var w' := Append(w, name, rev, repoUrl, now, strict, f).0;
    assert HistoryOk(w.db, name, now);
    AppendGrows(w, name, rev, repoUrl, now, strict, f);
    forall other
      ensures StackLive(w', other)
    {
      assert StackLive(w, other);
      if other != name {
        AppendFrame(w, name, rev, repoUrl, now, strict, f, other);
      }
    }
  }

  lemma DeployKeepsLive(pl: Pipeline, w: World, p: Payload, out: Option<string>, now: int, f: Faults)
    requires AllHistoriesOk(w.db, now) && AllLive(w) && Calm(f)
    ensures AllLive(Deploy(pl, w, p, out, now, f).0)
  {
    var c := Compiled(pl, p, out);
    if c.Ok? {
      AppendKeepsLive(w, c.value.0.app.name, Recorded(p, c.value.1), p.repoUrl, now, c.value.0.backupBefore && c.value.0.strictBackup, f);
    }
  }

  /** Nor does a removed stack keep its records. */
  ghost predicate CalmEvent(e: Event) {
    Calm(e.faults) && (e.op.Undeploying? ==> !e.op.fault.DeletionFails?)
  }

  lemma StepKeepsLive(pl: Pipeline, w: World, e: Event)
    requires AllHistoriesOk(w.db, e.at) && AllLive(w) && CalmEvent(e)
    ensures AllLive(Step(pl, w, e))
  {
    match e.op
    case Deploying(p, out) => DeployKeepsLive(pl, w, p, out, e.at, e.faults);
    case Syncing(name, again, out) =>
      if History(w.db, name) != map[] {
        DeployKeepsLive(pl, w, Resync(name, Latest(w.db, name).source), out, e.at, e.faults);
      }
    case RollingBack(name, source) =>
      assert StackLive(w, name);
      if source in History(w.db, name) {
        AppendKeepsLive(w, name, History(w.db, name)[source].(sourceFile := ""), "", e.at, false, e.faults);
      }
    case Undeploying(name, fault) =>
      forall other
        ensures StackLive(Step(pl, w, e), other)
      {
        assert StackLive(w, other) && HistoryOk(w.db, other, e.at);
      }
    case Reconfiguring(inputs) =>
      forall other
        ensures StackLive(Step(pl, w, e), other)
      {
        assert StackLive(w, other);
      }
  }

  /** Along every run with a forward clock and no failing deploy, each stack runs the compose of its newest
      revision, through deploys, syncs, rollbacks and undeploys. */
  lemma {:induction false} NewestRevisionRuns(pl: Pipeline, w: World, events: seq<Event>, start: int)
    requires AllHistoriesOk(w.db, start) && ClockRuns(start, events) && AllLive(w)
    requires forall e :: e in events ==> CalmEvent(e)
    ensures AllLive(Run(pl, w, events))
  {
    if events != [] {
      var before, e := events[..|events| - 1], events[|events| - 1];
      NewestRevisionRuns(pl, w, before, start);
      CurrentIsNewest(pl, w, before, start);
      var clock := if before == [] then start else before[|before| - 1].at;
      assert e in events;
      var u := Run(pl, w, before);
      forall name
        ensures HistoryOk(u.db, name, e.at)
      {
        LaterClock(u.db, name, clock, e.at);
      }
      StepKeepsLive(pl, u, e);
    }
  }

  /** A successful rollback runs the old compose again under a new, larger revision that carries the old
      source and hash, and forgets nothing. */
  lemma RollbackReapplies(w: World, name: string, source: int, now: int, f: Faults)
    requires AllHistoriesOk(w.db, now) && Rollback(w, name, source, now, f).1.Ok?
    ensures var (w', r) := Rollback(w, name, source, now, f);
      var earlier := History(w.db, name)[source];
      && w'.live == w.live[name := earlier.rendered]
      && History(w'.db, name) != map[] && name in w'.db.stacks
      && r.value.revision == LatestId(w'.db, name) == w'.db.stacks[name].current
      && r.value.revision > source
      && Latest(w'.db, name) == earlier.(sourceFile := "")
      && (forall id :: id in History(w.db, name) ==> id in History(w'.db, name) && History(w'.db, name)[id] == History(w.db, name)[id])
      && (name in w.db.stacks ==> w'.db.stacks[name].sourceFile == w.db.stacks[name].sourceFile)
  {
    assert HistoryOk(w.db, name, now);
    AppendGrows(w, name, History(w.db, name)[source].(sourceFile := ""), "", now, false, f);
  }
}
