/** The config table with its edit history, and the sync of the platform templates into it. */
module ConfigStore {
  import opened Common

  datatype Scope = Cluster | Service

  datatype ConfigKind = Template | File | EnvValue

  /** One row of `configs`; the row's name is its key in the table. */
  datatype ConfigRow = ConfigRow(
    id: nat, scope: Scope, stack: string, kind: ConfigKind,
    content: string, version: string, hash: Digest,
    rendered: string, renderedHash: Digest)

  /** One row of `config_versions`; its id is its key in the table. */
  datatype VersionRow = VersionRow(configId: nat, content: string, hash: Digest)

  datatype ConfigDb = ConfigDb(configs: map<string, ConfigRow>, versions: map<nat, VersionRow>)

  datatype ConfigError = ConfigNotFound | ConfigExists | ConfigVersionNotFound

  // ---------------------------------------------------------------------------
  // Row ids
  // ---------------------------------------------------------------------------

  ghost function MaxId(ids: set<nat>): (m: nat)
    ensures forall i :: i in ids ==> i <= m
    ensures m > 0 ==> m in ids
  {
    if ids == {} then 0
    else
      var i :| i in ids;
      var rest := MaxId(ids - {i});
      assert forall j :: j in ids ==> j == i || j in ids - {i};
      if i > rest then i else rest
  }

  lemma MaxIdIs(ids: set<nat>, m: nat)
    requires forall i :: i in ids ==> i <= m
    requires m > 0 ==> m in ids
    ensures MaxId(ids) == m
  {
  }

  ghost function ConfigIds(db: ConfigDb): set<nat> {
    set n | n in db.configs :: db.configs[n].id
  }

  /** The rowid SQLite gives the next row: one above the largest in use. */
  ghost function NextConfigId(db: ConfigDb): nat {
    MaxId(ConfigIds(db)) + 1
  }

  ghost function NextVersionId(db: ConfigDb): nat {
    MaxId(db.versions.Keys) + 1
  }

  // ---------------------------------------------------------------------------
  // Operations on the tables
  // ---------------------------------------------------------------------------

  ghost function Create(db: ConfigDb, scope: Scope, stack: string, name: string, kind: ConfigKind, content: string, version: string)
    : (ConfigDb, Result<nat, ConfigError>)
  {
    if name in db.configs then (db, Err(ConfigExists))
    else
      var id := NextConfigId(db);
      var row := ConfigRow(id, scope, stack, kind, content, version, ContentHash(content), "", NoDigest);
      (db.(configs := db.configs[name := row]), Ok(id))
  }

  /** The current value goes into the history, then the row takes the new one. */
  ghost function Replace(db: ConfigDb, name: string, content: string, hash: Digest, version: string): ConfigDb
    requires name in db.configs
  {
    var row := db.configs[name];
    ConfigDb(
      db.configs[name := row.(content := content, hash := hash, version := version)],
      db.versions[NextVersionId(db) := VersionRow(row.id, row.content, row.hash)])
  }

  ghost function Update(db: ConfigDb, name: string, content: string, version: string): (ConfigDb, Result<Digest, ConfigError>) {
    if name !in db.configs then (db, Err(ConfigNotFound))
    else if ContentHash(content) == db.configs[name].hash then (db, Ok(db.configs[name].hash))
    else (Replace(db, name, content, ContentHash(content), version), Ok(ContentHash(content)))
  }

  ghost function Rollback(db: ConfigDb, name: string, versionId: nat): (ConfigDb, Result<Digest, ConfigError>) {
    if name !in db.configs then (db, Err(ConfigNotFound))
    else if versionId !in db.versions || db.versions[versionId].configId != db.configs[name].id then (db, Err(ConfigVersionNotFound))
    else
      var v := db.versions[versionId];
      (Replace(db, name, v.content, v.hash, db.configs[name].version), Ok(v.hash))
  }

  /** Deleting a row cascades to its history. */
  ghost function Delete(db: ConfigDb, name: string): (ConfigDb, Result<(), ConfigError>) {
    if name !in db.configs then (db, Err(ConfigNotFound))
    else
      (ConfigDb(db.configs - {name},
                map v | v in db.versions && db.versions[v].configId != db.configs[name].id :: db.versions[v]),
       Ok(()))
  }

  ghost function SetRendered(db: ConfigDb, name: string, content: string): (ConfigDb, Result<(), ConfigError>) {
    if name !in db.configs then (db, Err(ConfigNotFound))
    else
      (db.(configs := db.configs[name := db.configs[name].(rendered := content, renderedHash := ContentHash(content))]), Ok(()))
  }

  // ---------------------------------------------------------------------------
  // The platform templates
  // ---------------------------------------------------------------------------

  /** The config row names of the bundled files. */
  const CONFIG_NAMES: seq<string> :=
    ["infra-stack", "observability-stack", "backup-stack", "edge-stack", "sso-stack",
     "otel-collector-config", "traefik-dynamic"]

  predicate IsTemplate(row: ConfigRow) {
    row.scope == Cluster && row.kind == Template
  }

  /** The template body used for a platform file: its row when the row is a cluster template stamped with
      the running build, else the embedded default. */
  function ReadConfigFile(configs: map<string, ConfigRow>, name: string, embedded: string -> string, build: string): string {
    if name in configs && IsTemplate(configs[name]) && configs[name].version == build then configs[name].content
    else embedded(name)
  }

  ghost function SyncOne(db: ConfigDb, name: string, embedded: string -> string, version: string): ConfigDb {
    if name !in db.configs then Create(db, Cluster, "", name, Template, embedded(name), version).0
    else if !IsTemplate(db.configs[name]) || db.configs[name].version == version then db
    else Update(db, name, embedded(name), version).0
  }

  ghost function Sync(db: ConfigDb, names: seq<string>, embedded: string -> string, version: string): ConfigDb {
    if names == [] then db
    else SyncOne(Sync(db, names[..|names| - 1], embedded, version), names[|names| - 1], embedded, version)
  }

  /** The store, updated in place. */
  class Store {
    var configs: map<string, ConfigRow>
    var versions: map<nat, VersionRow>

    ghost function Db(): ConfigDb
      reads this
    {
      ConfigDb(configs, versions)
    }

    constructor ()
      ensures Db() == ConfigDb(map[], map[])
    {
      configs, versions := map[], map[];
    }

    static method LargestId(ids: set<nat>) returns (m: nat)
      ensures m == MaxId(ids)
    {
      m := 0;
      var left := ids;
      while left != {}
        invariant left <= ids
        invariant forall i :: i in ids - left ==> i <= m
        invariant m > 0 ==> m in ids
      {
        var i :| i in left;
        assert forall j :: j in ids - (left - {i}) ==> j == i || j in ids - left;
        if i > m { m := i; }
        left := left - {i};
      }
      assert ids - left == ids;
      MaxIdIs(ids, m);
    }

    method CreateConfig(scope: Scope, stack: string, name: string, kind: ConfigKind, content: string, version: string)
      returns (r: Result<nat, ConfigError>)
      modifies this
      ensures (Db(), r) == Create(old(Db()), scope, stack, name, kind, content, version)
    {
      if name in configs {
        return Err(ConfigExists);
      }
      var largest := LargestId(set n | n in configs :: configs[n].id);
      configs := configs[name := ConfigRow(largest + 1, scope, stack, kind, content, version, ContentHash(content), "", NoDigest)];
      r := Ok(largest + 1);
    }

    method UpdateConfig(name: string, newContent: string, version: string) returns (r: Result<Digest, ConfigError>)
      modifies this
      ensures (Db(), r) == Update(old(Db()), name, newContent, version)
    {
      if name !in configs {
        return Err(ConfigNotFound);
      }
      var row := configs[name];
      var newHash := ContentHash(newContent);
      if newHash == row.hash {
        return Ok(row.hash);
      }
      var largest := LargestId(versions.Keys);
      versions := versions[largest + 1 := VersionRow(row.id, row.content, row.hash)];
      configs := configs[name := row.(content := newContent, version := version, hash := newHash)];
      r := Ok(newHash);
    }

    method RollbackConfig(name: string, versionId: nat) returns (r: Result<Digest, ConfigError>)
      modifies this
      ensures (Db(), r) == Rollback(old(Db()), name, versionId)
    {
      if name !in configs {
        return Err(ConfigNotFound);
      }
      var row := configs[name];
      if versionId !in versions || versions[versionId].configId != row.id {
        return Err(ConfigVersionNotFound);
      }
      var restored := versions[versionId];
      var largest := LargestId(versions.Keys);
      versions := versions[largest + 1 := VersionRow(row.id, row.content, row.hash)];
      configs := configs[name := row.(content := restored.content, hash := restored.hash)];
      r := Ok(restored.hash);
    }

    method DeleteConfig(name: string) returns (r: Result<(), ConfigError>)
      modifies this
      ensures (Db(), r) == Delete(old(Db()), name)
    {
      if name !in configs {
        return Err(ConfigNotFound);
      }
      var id := configs[name].id;
      configs := configs - {name};
      versions := map v | v in versions && versions[v].configId != id :: versions[v];
      r := Ok(());
    }

    method SetRenderedConfig(name: string, content: string) returns (r: Result<(), ConfigError>)
      modifies this
      ensures (Db(), r) == SetRendered(old(Db()), name, content)
    {
      if name !in configs {
        return Err(ConfigNotFound);
      }
      configs := configs[name := configs[name].(rendered := content, renderedHash := ContentHash(content))];
      r := Ok(());
    }

    method SyncClusterConfigs(embedded: string -> string, version: string)
      modifies this
      ensures Db() == Sync(old(Db()), CONFIG_NAMES, embedded, version)
    {
      for i := 0 to |CONFIG_NAMES|
        invariant Db() == Sync(old(Db()), CONFIG_NAMES[..i], embedded, version)
      {
        var name := CONFIG_NAMES[i];
        assert CONFIG_NAMES[..i + 1][..i] == CONFIG_NAMES[..i];
        if name !in configs {
          var _ := CreateConfig(Cluster, "", name, Template, embedded(name), version);
        } else if IsTemplate(configs[name]) && configs[name].version != version {
          var _ := UpdateConfig(name, embedded(name), version);
        }
      }
      assert CONFIG_NAMES[..|CONFIG_NAMES|] == CONFIG_NAMES;
    }
  }

  // ---------------------------------------------------------------------------
  // Consistency of the tables
  // ---------------------------------------------------------------------------

  /** Every hash describes the content beside it. */
  ghost predicate HashesAgree(db: ConfigDb) {
    && (forall n :: n in db.configs ==> db.configs[n].hash == ContentHash(db.configs[n].content))
    && (forall v :: v in db.versions ==> db.versions[v].hash == ContentHash(db.versions[v].content))
    && (forall n :: n in db.configs && db.configs[n].renderedHash != NoDigest ==>
          db.configs[n].renderedHash == ContentHash(db.configs[n].rendered))
  }

  ghost predicate OwnsVersion(db: ConfigDb, v: nat)
    requires v in db.versions
  {
    exists n :: n in db.configs && db.configs[n].id == db.versions[v].configId
  }

  /** Ids identify rows, and no history row is an orphan, so a reused row id can never inherit another
      config's history. */
  ghost predicate IdsAgree(db: ConfigDb) {
    && (forall m, n :: m in db.configs && n in db.configs && db.configs[m].id == db.configs[n].id ==> m == n)
    && (forall v :: v in db.versions ==> OwnsVersion(db, v))
  }

  ghost predicate Consistent(db: ConfigDb) {
    HashesAgree(db) && IdsAgree(db)
  }

  datatype DbOp =
    | Creating(scope: Scope, stack: string, name: string, kind: ConfigKind, content: string, version: string)
    | Updating(name: string, content: string, version: string)
    | RollingBack(name: string, versionId: nat)
    | Deleting(name: string)
    | Rendering(name: string, content: string)

  ghost function Apply(db: ConfigDb, op: DbOp): ConfigDb {
    match op
    case Creating(scope, stack, name, kind, content, version) => Create(db, scope, stack, name, kind, content, version).0
    case Updating(name, content, version) => Update(db, name, content, version).0
    case RollingBack(name, versionId) => Rollback(db, name, versionId).0
    case Deleting(name) => Delete(db, name).0
    case Rendering(name, content) => SetRendered(db, name, content).0
  }

  lemma FreshConfigId(db: ConfigDb)
    ensures forall n :: n in db.configs ==> db.configs[n].id < NextConfigId(db)
  {
    forall n | n in db.configs
      ensures db.configs[n].id < NextConfigId(db)
    {
      assert db.configs[n].id in ConfigIds(db);
    }
  }

  /** A history row keeps its owner as long as the owner's row survives. */
  lemma OwnerSurvives(db: ConfigDb, db': ConfigDb, v: nat)
    requires v in db.versions && OwnsVersion(db, v)
    requires v in db'.versions && db'.versions[v] == db.versions[v]
    requires forall n :: n in db.configs && db.configs[n].id == db.versions[v].configId ==> n in db'.configs && db'.configs[n].id == db.configs[n].id
    ensures OwnsVersion(db', v)
  {
    var n :| n in db.configs && db.configs[n].id == db.versions[v].configId;
    assert n in db'.configs;
  }

  lemma ReplaceKeepsConsistent(db: ConfigDb, name: string, content: string, version: string)
    requires Consistent(db) && name in db.configs
    ensures Consistent(Replace(db, name, content, ContentHash(content), version))
  {
    var db' := Replace(db, name, content, ContentHash(content), version);
    forall v | v in db'.versions
      ensures OwnsVersion(db', v)
    {
      if v == NextVersionId(db) {
        assert db'.configs[name].id == db'.versions[v].configId;
      } else {
        OwnerSurvives(db, db', v);
      }
    }
  }

  lemma CreateKeepsIds(db: ConfigDb, op: DbOp)
    requires op.Creating? && op.name !in db.configs && IdsAgree(db)
    ensures IdsAgree(Apply(db, op))
  {
    var db' := Apply(db, op);
    FreshConfigId(db);
    forall v | v in db'.versions
      ensures OwnsVersion(db', v)
    {
      OwnerSurvives(db, db', v);
    }
  }

  lemma DeleteKeepsIds(db: ConfigDb, name: string)
    requires name in db.configs && IdsAgree(db)
    ensures IdsAgree(Delete(db, name).0)
  {
    var db' := Delete(db, name).0;
    forall v | v in db'.versions
      ensures OwnsVersion(db', v)
    {
      OwnerSurvives(db, db', v);
    }
  }

  lemma RenderKeepsConsistent(db: ConfigDb, name: string, content: string)
    requires Consistent(db)
    ensures Consistent(SetRendered(db, name, content).0)
  {
    var db' := SetRendered(db, name, content).0;
    forall v | v in db'.versions
      ensures OwnsVersion(db', v)
    {
      OwnerSurvives(db, db', v);
    }
  }

  lemma ApplyKeepsConsistent(db: ConfigDb, op: DbOp)
    requires Consistent(db)
    ensures Consistent(Apply(db, op))
  {
    match op
    case Creating(_, _, name, _, _, _) =>
      if name !in db.configs { CreateKeepsIds(db, op); }
    case Updating(name, content, version) =>
      if Apply(db, op) != db { ReplaceKeepsConsistent(db, name, content, version); }
    case RollingBack(name, versionId) =>
      if Rollback(db, name, versionId).1.Ok? {
        ReplaceKeepsConsistent(db, name, db.versions[versionId].content, db.configs[name].version);
      }
    case Deleting(name) =>
      if name in db.configs { DeleteKeepsIds(db, name); }
    case Rendering(name, content) =>
      RenderKeepsConsistent(db, name, content);
  }

  // ---------------------------------------------------------------------------
  // No content is ever lost
  // ---------------------------------------------------------------------------

  /** The contents every live row has held since it was created. */
  ghost function Held(db: ConfigDb, ops: seq<DbOp>): map<string, set<string>> {
    if ops == [] then map n | n in db.configs :: {db.configs[n].content}
    else
      var before := ops[..|ops| - 1];
      var held := Held(db, before);
      var after := Run(db, ops);
      map n | n in after.configs :: (if n in held then held[n] else {}) + {after.configs[n].content}
  }

  ghost function Run(db: ConfigDb, ops: seq<DbOp>): ConfigDb {
    if ops == [] then db else Apply(Run(db, ops[..|ops| - 1]), ops[|ops| - 1])
  }

  ghost predicate InHistory(db: ConfigDb, name: string, content: string)
    requires name in db.configs
  {
    exists v :: v in db.versions && db.versions[v].configId == db.configs[name].id && db.versions[v].content == content
  }

  /** One step keeps a surviving row's id, drops nothing from its history, and moves its old content there
      whenever the content changes. */
  lemma ApplyExtendsHistory(db: ConfigDb, op: DbOp, name: string)
    requires IdsAgree(db) && name in db.configs && name in Apply(db, op).configs
    ensures var db' := Apply(db, op);
      && db'.configs[name].id == db.configs[name].id
      && (forall v :: v in db.versions && db.versions[v].configId == db.configs[name].id ==> v in db'.versions && db'.versions[v] == db.versions[v])
      && (db'.configs[name].content != db.configs[name].content ==> InHistory(db', name, db.configs[name].content))
  {
    var db' := Apply(db, op);
    if db'.configs[name].content != db.configs[name].content {
      assert NextVersionId(db) in db'.versions;
    }
  }

  lemma ApplyKeepsHistory(db: ConfigDb, op: DbOp, name: string, content: string)
    requires IdsAgree(db) && name in db.configs && name in Apply(db, op).configs
    requires content == db.configs[name].content || InHistory(db, name, content)
    ensures content == Apply(db, op).configs[name].content || InHistory(Apply(db, op), name, content)
  {
    ApplyExtendsHistory(db, op, name);
    if InHistory(db, name, content) {
      var v :| v in db.versions && db.versions[v].configId == db.configs[name].id && db.versions[v].content == content;
      assert v in Apply(db, op).versions;
    }
  }

  /** Along every run the tables stay consistent, and every content a live row ever held is its current
      content or one of its history rows. */
  lemma {:induction false} EveryContentIsKept(db: ConfigDb, ops: seq<DbOp>)
    requires Consistent(db)
    ensures Consistent(Run(db, ops))
    ensures Held(db, ops).Keys == Run(db, ops).configs.Keys
    ensures forall n, c :: n in Held(db, ops) && c in Held(db, ops)[n] ==>
      c == Run(db, ops).configs[n].content || InHistory(Run(db, ops), n, c)
  {
    if ops != [] {
      var before, op := ops[..|ops| - 1], ops[|ops| - 1];
      EveryContentIsKept(db, before);
      var u, after := Run(db, before), Run(db, ops);
      ApplyKeepsConsistent(u, op);
      forall n, c | n in Held(db, ops) && c in Held(db, ops)[n]
        ensures c == after.configs[n].content || InHistory(after, n, c)
      {
        if n in Held(db, before) && c in Held(db, before)[n] {
          ApplyKeepsHistory(u, op, n, c);
        }
      }
    }
  }

  /** Rolling back to the entry the last change pushed restores the content and hash before that change;
      the entry is the newest one, and the rollback pushes the value it replaces. The version stamp is not
      part of what comes back. */
  lemma RollbackUndoesLastChange(db: ConfigDb, op: DbOp, name: string)
    requires Consistent(db) && name in db.configs && name in Apply(db, op).configs
    requires Apply(db, op).versions != db.versions
    requires (op.Updating? || op.RollingBack?) && op.name == name
    ensures
      var changed := Apply(db, op);
      var pushed := NextVersionId(db);
      var (restored, r) := Rollback(changed, name, pushed);
      && pushed == MaxId(changed.versions.Keys)
      && r == Ok(db.configs[name].hash)
      && restored.configs[name] == changed.configs[name].(content := db.configs[name].content, hash := db.configs[name].hash)
      && (forall n :: n in db.configs && n != name ==> restored.configs[n] == db.configs[n])
      && InHistory(restored, name, changed.configs[name].content)
      && Rollback(restored, name, NextVersionId(changed)).0.configs[name] == changed.configs[name]
  {
    var changed := Apply(db, op);
    var pushed := NextVersionId(db);
    MaxIdIs(changed.versions.Keys, pushed);
    var restored := Rollback(changed, name, pushed).0;
    assert restored.versions[NextVersionId(changed)].content == changed.configs[name].content;
  }

  /** Rolling back to any entry of a row: its content and hash come back, the rest of the row stays, the value they replace
      is the one new entry, and no other row or entry changes. An entry of another row, or none, is refused. */
  lemma RollbackRestores(db: ConfigDb, name: string, versionId: nat)
    ensures var (db', r) := Rollback(db, name, versionId);
      if name !in db.configs then db' == db && r == Err(ConfigNotFound)
      else if versionId !in db.versions || db.versions[versionId].configId != db.configs[name].id then
        db' == db && r == Err(ConfigVersionNotFound)
      else
        var row, entry := db.configs[name], db.versions[versionId];
        && r == Ok(entry.hash)
        && db'.configs.Keys == db.configs.Keys
        && db'.configs[name] == row.(content := entry.content, hash := entry.hash)
        && (forall n :: n in db.configs && n != name ==> db'.configs[n] == db.configs[n])
        && OneMoreEntry(db, db', VersionRow(row.id, row.content, row.hash))
  {
    FreshVersionId(db);
  }

  /** The history has one entry more, and all others as they were. */
  ghost predicate OneMoreEntry(db: ConfigDb, db': ConfigDb, entry: VersionRow) {
    exists v: nat :: v !in db.versions && db'.versions == db.versions[v := entry] && forall u :: u in db.versions ==> u < v
  }

  lemma FreshVersionId(db: ConfigDb)
    ensures NextVersionId(db) !in db.versions && forall u :: u in db.versions ==> u < NextVersionId(db)
  {
    assert forall u :: u in db.versions ==> u in db.versions.Keys;
  }

  /** Updating a row: other content replaces it, with its hash and stamp, and is pushed; equal content changes nothing. */
  lemma UpdateReplaces(db: ConfigDb, name: string, content: string, version: string)
    requires Consistent(db)
    ensures var (db', r) := Update(db, name, content, version);
      if name !in db.configs then db' == db && r == Err(ConfigNotFound)
      else if content == db.configs[name].content then db' == db && r == Ok(Sha256(content))
      else
        var row := db.configs[name];
        && r == Ok(Sha256(content))
        && db'.configs.Keys == db.configs.Keys
        && db'.configs[name] == row.(content := content, hash := Sha256(content), version := version)
        && (forall n :: n in db.configs && n != name ==> db'.configs[n] == db.configs[n])
        && OneMoreEntry(db, db', VersionRow(row.id, row.content, row.hash))
  {
    FreshVersionId(db);
  }

  /** Creating a row: under a new name only, with the given fields, an unused id, no snapshot and no history. */
  lemma CreateInserts(db: ConfigDb, scope: Scope, stack: string, name: string, kind: ConfigKind, content: string, version: string)
    requires Consistent(db)
    ensures var (db', r) := Create(db, scope, stack, name, kind, content, version);
      if name in db.configs then db' == db && r == Err(ConfigExists)
      else
        && r.Ok? && (forall n :: n in db.configs ==> db.configs[n].id != r.value)
        && (forall v :: v in db.versions ==> db.versions[v].configId != r.value)
        && db'.versions == db.versions
        && db'.configs == db.configs[name := ConfigRow(r.value, scope, stack, kind, content, version, Sha256(content), "", NoDigest)]
  {
    FreshConfigId(db);
    forall v | v in db.versions
      ensures db.versions[v].configId < NextConfigId(db)
    {
      assert OwnsVersion(db, v);
    }
  }

  /** Deleting a row takes exactly it and its own history; storing a snapshot touches exactly the two snapshot columns. */
  lemma DeleteAndRender(db: ConfigDb, name: string, content: string)
    requires name in db.configs
    ensures var db' := Delete(db, name).0;
      && db'.configs == db.configs - {name}
      && (forall v :: v in db'.versions <==> v in db.versions && db.versions[v].configId != db.configs[name].id)
      && (forall v :: v in db'.versions ==> db'.versions[v] == db.versions[v])
    ensures var db' := SetRendered(db, name, content).0;
      && db'.versions == db.versions
      && db'.configs == db.configs[name := db.configs[name].(rendered := content, renderedHash := Sha256(content))]
  {
  }

  /** An update keeps the old stamp exactly when the content did not change; a rollback always keeps it. */
  lemma UpdateStampsIff(db: ConfigDb, name: string, content: string, version: string)
    requires Consistent(db) && name in db.configs
    ensures var row := Update(db, name, content, version).0.configs[name];
      && row.content == content
      && (row.version == version <==> content != db.configs[name].content || db.configs[name].version == version)
  {
    if content != db.configs[name].content {
      assert ContentHash(content) != db.configs[name].hash;
    }
  }

  // ---------------------------------------------------------------------------
  // Syncing the templates
  // ---------------------------------------------------------------------------

  lemma SyncOneEffect(db: ConfigDb, name: string, embedded: string -> string, version: string)
    requires Consistent(db)
    ensures var db' := SyncOne(db, name, embedded, version);
      && Consistent(db')
      && name in db'.configs
      && ReadConfigFile(db'.configs, name, embedded, version) == ReadConfigFile(db.configs, name, embedded, version)
      && (name in db.configs ==> db'.configs[name].renderedHash == db.configs[name].renderedHash)
      && (name !in db.configs ==> db'.configs[name].renderedHash == NoDigest)
      && (name in db.configs && (!IsTemplate(db.configs[name]) || db.configs[name].version == version) ==> db'.configs[name] == db.configs[name])
      && (IsTemplate(db'.configs[name]) && db'.configs[name].version != version ==> db'.configs[name].content == embedded(name))
  {
    if name !in db.configs {
      ApplyKeepsConsistent(db, Creating(Cluster, "", name, Template, embedded(name), version));
    } else if IsTemplate(db.configs[name]) && db.configs[name].version != version {
      ApplyKeepsConsistent(db, Updating(name, embedded(name), version));
      UpdateStampsIff(db, name, embedded(name), version);
    }
  }

  lemma SyncOneFrame(db: ConfigDb, name: string, embedded: string -> string, version: string, other: string)
    requires other != name
    ensures var db' := SyncOne(db, name, embedded, version);
      && (other in db'.configs <==> other in db.configs)
      && (other in db.configs ==> db'.configs[other] == db.configs[other])
  {
  }

  predicate Distinct(names: seq<string>) {
    forall i, j :: 0 <= i < j < |names| ==> names[i] != names[j]
  }

  /** After a sync at a build every listed name has a row, and the body read for it at that build is the
      row's own content where the row already was a template of that build, and the embedded default
      everywhere else. That holds even for a stale row whose content equals the default, which keeps its
      old stamp. Rows of another scope or kind, and unlisted rows, are untouched, and no snapshot hash moves. */
  lemma {:induction false} SyncEffect(db: ConfigDb, names: seq<string>, embedded: string -> string, version: string, n: string)
    requires Consistent(db) && Distinct(names)
    ensures var db' := Sync(db, names, embedded, version);
      && Consistent(db')
      && (n in db'.configs <==> n in db.configs || n in names)
      && (n in names ==>
            && ReadConfigFile(db'.configs, n, embedded, version) == ReadConfigFile(db.configs, n, embedded, version)
            && (IsTemplate(db'.configs[n]) && db'.configs[n].version != version ==> db'.configs[n].content == embedded(n)))
      && (n in db.configs && (n !in names || !IsTemplate(db.configs[n]) || db.configs[n].version == version) ==>
            db'.configs[n] == db.configs[n])
      && (n in db'.configs ==> db'.configs[n].renderedHash == (if n in db.configs then db.configs[n].renderedHash else NoDigest))
  {
    if names != [] {
      var front, last := names[..|names| - 1], names[|names| - 1];
      SyncEffect(db, front, embedded, version, n);
      var u := Sync(db, front, embedded, version);
      SyncOneEffect(u, last, embedded, version);
      assert names == front + [last];
      assert last !in front;
      if n != last {
        SyncOneFrame(u, last, embedded, version, n);
      }
    }
  }

  /** What becomes of a bundled name: a missing row is created as the cluster's template, with the bundled text and this stamp;
      a cluster template with another stamp and text gets both; any other row stays. */
  ghost predicate SyncedRow(db: ConfigDb, db': ConfigDb, n: string, text: string, version: string) {
    && n in db'.configs
    && var row' := db'.configs[n];
       if n !in db.configs then
         && row'.scope == Cluster && row'.stack == "" && row'.kind == Template
         && row'.content == text && row'.version == version && row'.hash == Sha256(text)
         && row'.rendered == "" && row'.renderedHash == NoDigest
       else
         var row := db.configs[n];
         if row.scope == Cluster && row.kind == Template && row.version != version && row.content != text then
           row' == row.(content := text, hash := Sha256(text), version := version)
         else row' == row
  }

  lemma {:induction false} SyncUntouched(db: ConfigDb, names: seq<string>, embedded: string -> string, version: string, n: string)
    requires Consistent(db) && Distinct(names) && n !in names
    ensures var db' := Sync(db, names, embedded, version);
      Consistent(db') && (n in db'.configs <==> n in db.configs) && (n in db.configs ==> db'.configs[n] == db.configs[n])
  {
    SyncEffect(db, names, embedded, version, n);
  }

  lemma OneWritten(db: ConfigDb, n: string, embedded: string -> string, version: string)
    requires Consistent(db)
    ensures SyncedRow(db, SyncOne(db, n, embedded, version), n, embedded(n), version)
  {
    UpdateReplaces(db, n, embedded(n), version);
  }

  /** A sync writes each bundled name so. */
  lemma SyncWrites(db: ConfigDb, names: seq<string>, embedded: string -> string, version: string, n: string)
    requires Consistent(db) && Distinct(names) && n in names
    ensures SyncedRow(db, Sync(db, names, embedded, version), n, embedded(n), version)
    decreases |names|
  {
    var front, last := names[..|names| - 1], names[|names| - 1];
    var u := Sync(db, front, embedded, version);
    assert names == front + [last] && last !in front;
    if n == last {
      SyncUntouched(db, front, embedded, version, n);
      OneWritten(u, n, embedded, version);
    } else {
      SyncWrites(db, front, embedded, version, n);
      SyncEffect(db, front, embedded, version, n);
      SyncOneFrame(u, last, embedded, version, n);
    }
  }

  /** A sync keeps the scope of every row, and the rows it creates are the cluster's. */
  lemma {:induction false} SyncScopes(db: ConfigDb, names: seq<string>, embedded: string -> string, version: string, n: string)
    ensures var db' := Sync(db, names, embedded, version);
      && (n in db'.configs <==> n in db.configs || n in names)
      && (n in db'.configs ==> db'.configs[n].scope == if n in db.configs then db.configs[n].scope else Cluster)
  {
    if names != [] {
      SyncScopes(db, names[..|names| - 1], embedded, version, n);
      SyncScopes(db, names[..|names| - 1], embedded, version, names[|names| - 1]);
    }
  }

  lemma {:induction false} SettledSyncIsNoop(db: ConfigDb, names: seq<string>, embedded: string -> string, version: string)
    requires Consistent(db)
    requires forall n :: n in names ==> n in db.configs
    requires forall n :: n in names && IsTemplate(db.configs[n]) && db.configs[n].version != version ==> db.configs[n].content == embedded(n)
    ensures Sync(db, names, embedded, version) == db
  {
    if names != [] {
      SettledSyncIsNoop(db, names[..|names| - 1], embedded, version);
      assert names[|names| - 1] in names;
    }
  }

  /** A second sync of the same build changes nothing, although rows whose content equals the default may
      still carry an older stamp. */
  lemma SyncTwiceIsOnce(db: ConfigDb, names: seq<string>, embedded: string -> string, version: string)
    requires Consistent(db) && Distinct(names)
    ensures Sync(Sync(db, names, embedded, version), names, embedded, version) == Sync(db, names, embedded, version)
  {
    SyncEffect(db, names, embedded, version, "");
    forall n | n in names {
      SyncEffect(db, names, embedded, version, n);
    }
    SettledSyncIsNoop(Sync(db, names, embedded, version), names, embedded, version);
  }
}
