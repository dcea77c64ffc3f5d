/** Versioned swarm secrets and configs: reuse of the current version, minting of the next one,
    garbage collection of the old ones, and what stays true along whole runs of these calls. */
module VersionedObjects {
  import opened Common
  import opened VersionNames

  /** Secrets are write-only, so reuse is decided from a recorded hash; configs are read back. */
  datatype Kind = Secret | DockerConfig

  /** The listed objects of one kind with their payloads, and the recorded hash per base. */
  datatype Vault = Vault(objects: map<string, string>, recorded: map<string, Digest>)

  /** What the daemon and the settings table do with one call: whether the create and the hash
      write fail, and which old versions cannot be removed. */
  datatype Faults = Faults(createFails: bool, recordFails: bool, stuck: set<string>)

  datatype Ensured = Ensured(name: string, created: bool)

  datatype EnsureError = CreateFailed | RecordFailed

  function Recorded(v: Vault, base: string): Digest {
    if base in v.recorded then v.recorded[base] else NoDigest
  }

  /** The highest version any name carries under the base, 0 when there is none. */
  ghost function MaxVersion(base: string, names: set<string>): (m: nat)
    ensures forall n :: n in names ==> VersionOf(base, n) <= m
    ensures m > 0 ==> exists n :: n in names && VersionOf(base, n) == m
  {
    if names == {} then 0
    else
      var n :| n in names;
      var rest := MaxVersion(base, names - {n});
      assert forall x :: x in names ==> x == n || x in names - {n};
      if VersionOf(base, n) > rest then VersionOf(base, n) else rest
  }

  ghost function Newest(base: string, v: Vault): nat {
    MaxVersion(base, v.objects.Keys)
  }

  ghost function CurrentName(base: string, v: Vault): string {
    VersionedName(base, Newest(base, v))
  }

  /** The test under which the current version is handed out again instead of minting a new one. */
  ghost predicate Reuses(kind: Kind, v: Vault, base: string, data: string) {
    && Newest(base, v) > 0
    && match kind
       case Secret => Recorded(v, base) == ContentHash(data)
       case DockerConfig =>
         CurrentName(base, v) in v.objects && ContentHash(v.objects[CurrentName(base, v)]) == ContentHash(data)
  }

  /** Everything under the base's prefix goes, except the kept name and what could not be removed. */
  ghost function Collected(objects: map<string, string>, base: string, keep: string, stuck: set<string>): map<string, string> {
    map n | n in objects && (!(VersionPrefix(base) <= n) || n == keep || n in stuck) :: objects[n]
  }

  ghost function Ensure(kind: Kind, v: Vault, base: string, data: string, f: Faults): (Vault, Result<Ensured, EnsureError>) {
    if Reuses(kind, v, base, data) then (v, Ok(Ensured(CurrentName(base, v), false)))
    else
      var name := VersionedName(base, Newest(base, v) + 1);
      if f.createFails then (v, Err(CreateFailed))
      else
        var objects := v.objects[name := data];
        if kind == Secret && f.recordFails then (v.(objects := objects), Err(RecordFailed))
        else
          var recorded := if kind == Secret then v.recorded[base := ContentHash(data)] else v.recorded;
          (Vault(Collected(objects, base, name, f.stuck), recorded), Ok(Ensured(name, true)))
  }

  /** The swarm as `EnsureVersionedSecret` and `EnsureConfig` see it. */
  class Swarm {
    var secrets: map<string, string>
    var configs: map<string, string>
    var hashes: map<string, Digest>

    ghost function Secrets(): Vault
      reads this
    {
      Vault(secrets, hashes)
    }

    ghost function Configs(): Vault
      reads this
    {
      Vault(configs, map[])
    }

    constructor ()
      ensures secrets == map[] && configs == map[] && hashes == map[]
    {
      secrets, configs, hashes := map[], map[], map[];
    }

    /** A listing in whatever order the daemon answers. */
    static method List(objects: map<string, string>) returns (names: seq<string>)
      ensures forall n :: n in names <==> n in objects
    {
      names := [];
      var left := objects.Keys;
      while left != {}
        invariant left <= objects.Keys
        invariant forall n :: n in names <==> n in objects.Keys - left
      {
        var n :| n in left;
        names := names + [n];
        left := left - {n};
      }
    }

    static method ScanNewest(base: string, existing: seq<string>, ghost names: set<string>) returns (maxVer: nat)
      requires forall n :: n in existing <==> n in names
      ensures maxVer == MaxVersion(base, names)
    {
      maxVer := 0;
      for i := 0 to |existing|
        invariant forall j :: 0 <= j < i ==> VersionOf(base, existing[j]) <= maxVer
        invariant maxVer > 0 ==> exists j :: 0 <= j < i && VersionOf(base, existing[j]) == maxVer
      {
        if VersionOf(base, existing[i]) > maxVer {
          maxVer := VersionOf(base, existing[i]);
        }
      }
      assert forall n :: n in names ==> VersionOf(base, n) <= maxVer;
    }

    static method Collect(objects: map<string, string>, base: string, existing: seq<string>, keep: string, stuck: set<string>)
      returns (left: map<string, string>)
      requires forall n :: n in existing ==> n in objects
      requires forall n :: n in objects ==> n in existing || n == keep
      ensures left == Collected(objects, base, keep, stuck)
    {
      left := objects;
      for i := 0 to |existing|
        invariant forall n :: n in left <==>
          n in objects && (n !in existing[..i] || !(VersionPrefix(base) <= n) || n == keep || n in stuck)
        invariant forall n :: n in left ==> left[n] == objects[n]
      {
        var name := existing[i];
        if VersionPrefix(base) <= name && name != keep && name !in stuck {
          left := map n | n in left && n != name :: left[n];
        }
        assert existing[..i + 1] == existing[..i] + [name];
      }
      assert existing[..|existing|] == existing;
    }

    method EnsureVersionedSecret(base: string, data: string, f: Faults) returns (r: Result<Ensured, EnsureError>)
      modifies this
      ensures (Secrets(), r) == Ensure(Secret, old(Secrets()), base, data, f)
      ensures configs == old(configs)
    {
      var existing := List(secrets);
      var maxVer := ScanNewest(base, existing, secrets.Keys);
      if maxVer > 0 {
        var stored := if base in hashes then hashes[base] else NoDigest;
        if stored != NoDigest && stored == ContentHash(data) {
          return Ok(Ensured(VersionedName(base, maxVer), false));
        }
      }
      var name := VersionedName(base, maxVer + 1);
      if f.createFails {
        return Err(CreateFailed);
      }
      secrets := secrets[name := data];
      if f.recordFails {
        return Err(RecordFailed);
      }
      hashes := hashes[base := ContentHash(data)];
      secrets := Collect(secrets, base, existing, name, f.stuck);
      r := Ok(Ensured(name, true));
    }

    method EnsureConfig(base: string, data: string, f: Faults) returns (r: Result<Ensured, EnsureError>)
      modifies this
      ensures (Configs(), r) == Ensure(DockerConfig, old(Configs()), base, data, f)
      ensures secrets == old(secrets) && hashes == old(hashes)
    {
      var existing := List(configs);
      var maxVer := ScanNewest(base, existing, configs.Keys);
      if maxVer > 0 {
        var current := VersionedName(base, maxVer);
        if current in configs && ContentHash(configs[current]) == ContentHash(data) {
          return Ok(Ensured(current, false));
        }
      }
      var name := VersionedName(base, maxVer + 1);
      if f.createFails {
        return Err(CreateFailed);
      }
      configs := configs[name := data];
      configs := Collect(configs, base, existing, name, f.stuck);
      r := Ok(Ensured(name, true));
    }
  }

  // ---------------------------------------------------------------------------
  // What the newest version is after a step
  // ---------------------------------------------------------------------------

  lemma NewestIs(base: string, names: set<string>, m: nat)
    requires forall n :: n in names ==> VersionOf(base, n) <= m
    requires m > 0 ==> exists n :: n in names && VersionOf(base, n) == m
    ensures MaxVersion(base, names) == m
  {
  }

  /** Only names under the base's prefix count. */
  lemma NewestFrame(base: string, names: set<string>, names': set<string>)
    requires forall n :: VersionPrefix(base) <= n ==> (n in names <==> n in names')
    ensures MaxVersion(base, names) == MaxVersion(base, names')
  {
    var m := MaxVersion(base, names);
    forall n | n in names'
      ensures VersionOf(base, n) <= m
    {
      if VersionPrefix(base) <= n { assert n in names; }
    }
    if m > 0 {
      var n :| n in names && VersionOf(base, n) == m;
      assert n in names';
    }
    NewestIs(base, names', m);
  }

  lemma MintedNameIsNew(base: string, v: Vault)
    ensures VersionedName(base, Newest(base, v) + 1) !in v.objects
  {
    ScanPrinted(base, Newest(base, v) + 1);
  }

  /** A successful call leaves the returned name as the newest version of its base, one higher than
      before when it was minted, and the objects of every other base as they were. */
  lemma EnsureNewest(kind: Kind, v: Vault, base: string, data: string, f: Faults)
    requires Ensure(kind, v, base, data, f).1.Ok?
    ensures var (v', r) := Ensure(kind, v, base, data, f);
      && r.value.name == CurrentName(base, v')
      && Newest(base, v') == Newest(base, v) + (if r.value.created then 1 else 0)
      && Newest(base, v') > 0
      && (r.value.created ==> r.value.name in v'.objects && v'.objects[r.value.name] == data)
  {
    var (v', r) := Ensure(kind, v, base, data, f);
    if r.value.created {
      var m := Newest(base, v) + 1;
      ScanPrinted(base, m);
      assert VersionedName(base, m) in v'.objects;
      NewestIs(base, v'.objects.Keys, m);
    }
  }

  // ---------------------------------------------------------------------------
  // One call, case by case
  // ---------------------------------------------------------------------------

  /** The number is the highest version that any of the names carries under the base. */
  ghost predicate IsHighest(base: string, names: set<string>, m: nat) {
    && (forall n :: n in names ==> VersionOf(base, n) <= m)
    && (m > 0 ==> exists n :: n in names && VersionOf(base, n) == m)
  }

  /** When the highest version is handed out again: a secret by the recorded hash, a config by its own bytes. */
  lemma ReusesIff(kind: Kind, v: Vault, base: string, data: string, f: Faults, m: nat)
    requires IsHighest(base, v.objects.Keys, m)
    ensures var current := VersionedName(base, m);
      var kept := m > 0 && match kind
                           case Secret => base in v.recorded && v.recorded[base] == ContentHash(data)
                           case DockerConfig => current in v.objects && v.objects[current] == data;
      var (v', r) := Ensure(kind, v, base, data, f);
      && (kept ==> v' == v && r == Ok(Ensured(current, false)))
      && (r.Ok? && !r.value.created ==> kept)
  {
    NewestIs(base, v.objects.Keys, m);
  }

  /** What a call that cannot reuse leaves: a failed create changes nothing; a failed hash write only adds the new secret; a
      mint stores the bytes one version up, records a secret's hash, and touches no other base's. */
  lemma MintCases(kind: Kind, v: Vault, base: string, data: string, f: Faults, m: nat)
    requires IsHighest(base, v.objects.Keys, m)
    requires var r := Ensure(kind, v, base, data, f).1; r.Ok? ==> r.value.created
    ensures var name := VersionedName(base, m + 1);
      var (v', r) := Ensure(kind, v, base, data, f);
      && name !in v.objects
      && (f.createFails ==> v' == v && r == Err(CreateFailed))
      && (!f.createFails && kind == Secret && f.recordFails ==>
            r == Err(RecordFailed) && v'.recorded == v.recorded && v'.objects == v.objects[name := data])
      && (!f.createFails && !(kind == Secret && f.recordFails) ==>
            && r == Ok(Ensured(name, true)) && name in v'.objects && v'.objects[name] == data
            && v'.recorded == (if kind == Secret then v.recorded[base := ContentHash(data)] else v.recorded))
  {
    NewestIs(base, v.objects.Keys, m);
    MintedNameIsNew(base, v);
    assert Newest(base, v) == m;
    hide Newest, MaxVersion, VersionedName, IsHighest, Reuses;
  }

  /** What a call takes away, for secrets and configs alike: a name under the base's prefix goes exactly if the call minted
      another and the daemon let this one go; everything else stays, with its payload. */
  lemma CollectsIff(kind: Kind, v: Vault, base: string, data: string, f: Faults, name: string)
    requires name in v.objects
    ensures var (v', r) := Ensure(kind, v, base, data, f);
      && (name !in v'.objects <==> r.Ok? && r.value.created && base + "_v" <= name && name !in f.stuck)
      && (name in v'.objects ==> v'.objects[name] == v.objects[name])
  {
    MintedNameIsNew(base, v);
  }

  /** After a mint with nothing stuck one name is left under the prefix, the one returned. */
  lemma OneVersionLeft(kind: Kind, v: Vault, base: string, data: string, f: Faults, name: string)
    requires var r := Ensure(kind, v, base, data, f).1; r.Ok? && r.value.created
    requires forall n :: n in f.stuck ==> !(base + "_v" <= n)
    ensures var (v', r) := Ensure(kind, v, base, data, f);
      (name in v'.objects && base + "_v" <= name) <==> name == r.value.name
  {
    assert base + "_v" <= Ensure(kind, v, base, data, f).1.value.name;
    if name in v.objects {
      CollectsIff(kind, v, base, data, f, name);
    }
  }

  // ---------------------------------------------------------------------------
  // Soundness of a base: what is recorded is what the newest version holds
  // ---------------------------------------------------------------------------

  ghost predicate AllPrinted(v: Vault, base: string) {
    forall n :: n in v.objects && VersionPrefix(base) <= n ==> Printed(base, n)
  }

  ghost predicate RecordAgrees(v: Vault, base: string) {
    Newest(base, v) > 0 && Recorded(v, base) != NoDigest ==>
      && CurrentName(base, v) in v.objects
      && ContentHash(v.objects[CurrentName(base, v)]) == Recorded(v, base)
  }

  /** Configs are compared with their own bytes, so they need nothing; a secret base needs its
      recorded hash to describe its newest version. */
  ghost predicate Sound(kind: Kind, v: Vault, base: string) {
    kind == Secret ==> AllPrinted(v, base) && RecordAgrees(v, base)
  }

  lemma PrintedNewestExists(v: Vault, base: string)
    requires AllPrinted(v, base) && Newest(base, v) > 0
    ensures CurrentName(base, v) in v.objects
  {
    var n :| n in v.objects && VersionOf(base, n) == Newest(base, v);
    assert VersionPrefix(base) <= n;
  }

  /** The name handed out holds exactly the given bytes, whatever the removals do, and the base is
      sound again afterwards. */
  lemma EnsureHoldsData(kind: Kind, v: Vault, base: string, data: string, f: Faults)
    requires Sound(kind, v, base)
    requires Ensure(kind, v, base, data, f).1.Ok?
    ensures var (v', r) := Ensure(kind, v, base, data, f);
      && r.value.name in v'.objects && v'.objects[r.value.name] == data
      && Sound(kind, v', base)
  {
    var (v', r) := Ensure(kind, v, base, data, f);
    EnsureNewest(kind, v, base, data, f);
    if r.value.created {
      ScanPrinted(base, Newest(base, v) + 1);
    }
  }

  /** A failed create changes nothing, so soundness is also kept there. */
  lemma EnsureKeepsSound(kind: Kind, v: Vault, base: string, data: string, f: Faults)
    requires Sound(kind, v, base) && !f.recordFails
    ensures Sound(kind, Ensure(kind, v, base, data, f).0, base)
  {
    if Ensure(kind, v, base, data, f).1.Ok? {
      EnsureHoldsData(kind, v, base, data, f);
    }
  }

  lemma EnsureKeepsOthers(kind: Kind, v: Vault, base: string, data: string, f: Faults, other: string)
    requires Apart(base, other)
    ensures var v' := Ensure(kind, v, base, data, f).0;
      && (forall n :: VersionPrefix(other) <= n ==> (n in v'.objects <==> n in v.objects))
      && (forall n :: VersionPrefix(other) <= n && n in v.objects ==> v'.objects[n] == v.objects[n])
      && Recorded(v', other) == Recorded(v, other)
  {
    var v' := Ensure(kind, v, base, data, f).0;
    forall n | (n in v.objects || n in v'.objects || n == VersionedName(base, Newest(base, v) + 1)) && VersionPrefix(other) <= n
      ensures !(VersionPrefix(base) <= n)
    {
      ApartNames(other, base, n);
    }
    assert base != other;
  }

  /** Calls for one base neither create, remove nor change an object under a base apart from it. */
  lemma EnsureFrame(kind: Kind, v: Vault, base: string, data: string, f: Faults, other: string)
    requires Apart(base, other)
    ensures var v' := Ensure(kind, v, base, data, f).0;
      && (forall n :: VersionPrefix(other) <= n ==> (n in v'.objects <==> n in v.objects))
      && (forall n :: VersionPrefix(other) <= n && n in v.objects ==> v'.objects[n] == v.objects[n])
      && Recorded(v', other) == Recorded(v, other)
      && Newest(other, v') == Newest(other, v)
      && (forall k :: Sound(k, v, other) ==> Sound(k, v', other))
  {
    var v' := Ensure(kind, v, base, data, f).0;
    EnsureKeepsOthers(kind, v, base, data, f, other);
    hide Ensure;
    NewestFrame(other, v.objects.Keys, v'.objects.Keys);
  }

  /** Two vaults that agree about everything under a base. */
  ghost predicate AgreeOn(v: Vault, v': Vault, base: string) {
    && (forall n :: VersionPrefix(base) <= n ==> (n in v.objects <==> n in v'.objects))
    && (forall n :: VersionPrefix(base) <= n && n in v.objects ==> v'.objects[n] == v.objects[n])
    && Recorded(v', base) == Recorded(v, base)
  }

  lemma EnsureAgrees(kind: Kind, v: Vault, base: string, data: string, f: Faults, other: string)
    requires Apart(base, other)
    ensures AgreeOn(v, Ensure(kind, v, base, data, f).0, other)
  {
    EnsureFrame(kind, v, base, data, f, other);
  }

  lemma AgreeTransitive(v: Vault, v': Vault, v'': Vault, base: string)
    requires AgreeOn(v, v', base) && AgreeOn(v', v'', base)
    ensures AgreeOn(v, v'', base)
  {
  }

  /** A handed-out secret holds the given bytes exactly when the call minted it or the newest
      version already held them: nothing else is checked before a reuse. */
  lemma SecretReuseIff(v: Vault, base: string, data: string, f: Faults)
    requires AllPrinted(v, base)
    requires Ensure(Secret, v, base, data, f).1.Ok?
    ensures var (v', r) := Ensure(Secret, v, base, data, f);
      && r.value.name in v'.objects
      && (v'.objects[r.value.name] == data <==>
          (Recorded(v, base) != ContentHash(data) || Newest(base, v) == 0 || v.objects[CurrentName(base, v)] == data))
  {
    EnsureNewest(Secret, v, base, data, f);
    if Reuses(Secret, v, base, data) {
      PrintedNewestExists(v, base);
    }
  }

  /** The hash is written after the secret exists. If that write fails, the base stays sound exactly
      when no hash had been recorded before. */
  lemma LostHashWriteIff(v: Vault, base: string, data: string, f: Faults)
    requires Sound(Secret, v, base) && f.recordFails && !f.createFails
    requires !Reuses(Secret, v, base, data)
    ensures var (v', r) := Ensure(Secret, v, base, data, f);
      && r == Err(RecordFailed)
      && (Sound(Secret, v', base) <==> Recorded(v, base) == NoDigest || Recorded(v, base) == ContentHash(data))
  {
    var v' := Ensure(Secret, v, base, data, f).0;
    var m := Newest(base, v) + 1;
    ScanPrinted(base, m);
    assert VersionedName(base, m) in v'.objects;
    NewestIs(base, v'.objects.Keys, m);
  }

  /** The bad run this allows: store `a`, fail to record `b`, then ask for `a` again. The last call
      succeeds without creating anything and names the version that holds `b`. */
  lemma LostHashWriteServesWrongBytes(v: Vault, base: string, a: string, b: string, ok: Faults, lost: Faults)
    requires Sound(Secret, v, base) && a != b
    requires !ok.createFails && !ok.recordFails && !lost.createFails && lost.recordFails
    ensures
      var v1 := Ensure(Secret, v, base, a, ok).0;
      var v2 := Ensure(Secret, v1, base, b, lost).0;
      var (v3, r) := Ensure(Secret, v2, base, a, ok);
      r.Ok? && !r.value.created && r.value.name in v3.objects && v3.objects[r.value.name] == b
  {
    var v1 := Ensure(Secret, v, base, a, ok).0;
    EnsureHoldsData(Secret, v, base, a, ok);
    assert Recorded(v1, base) == ContentHash(a);
    var v2 := Ensure(Secret, v1, base, b, lost).0;
    var m := Newest(base, v1) + 1;
    ScanPrinted(base, m);
    assert VersionedName(base, m) in v2.objects;
    NewestIs(base, v2.objects.Keys, m);
  }

  /** Asking again for the same bytes changes nothing and gives the same name, whatever the daemon does. */
  lemma EnsureTwice(kind: Kind, v: Vault, base: string, data: string, f: Faults)
    requires Ensure(kind, v, base, data, f).1.Ok?
    ensures var (v', r) := Ensure(kind, v, base, data, f);
      && Reuses(kind, v', base, data) && CurrentName(base, v') == r.value.name
      && (forall f' :: Ensure(kind, v', base, data, f') == (v', Ok(Ensured(r.value.name, false))))
  {
    EnsureNewest(kind, v, base, data, f);
  }

  /** A base that would be reused is still reused, under the same name, after a call for another base. */
  lemma ReuseSurvives(kind: Kind, v: Vault, base: string, data: string, other: string, data': string, f: Faults)
    requires Apart(other, base) && Reuses(kind, v, base, data)
    ensures var v' := Ensure(kind, v, other, data', f).0;
      Reuses(kind, v', base, data) && CurrentName(base, v') == CurrentName(base, v)
  {
    EnsureFrame(kind, v, other, data', f, base);
    assert VersionPrefix(base) <= CurrentName(base, v);
  }

  // ---------------------------------------------------------------------------
  // Whole runs
  // ---------------------------------------------------------------------------

  /** A call of `Ensure`, or the removal of objects by someone else. */
  datatype Event =
    | Ensuring(base: string, data: string, faults: Faults)
    | Removing(names: set<string>)

  datatype Given = Given(base: string, name: string, data: string)

  ghost function StepVault(kind: Kind, v: Vault, e: Event): Vault {
    match e
    case Ensuring(base, data, f) => Ensure(kind, v, base, data, f).0
    case Removing(names) => v.(objects := map n | n in v.objects && n !in names :: v.objects[n])
  }

  ghost function StepGiven(kind: Kind, v: Vault, e: Event): seq<Given> {
    match e
    case Ensuring(base, data, f) =>
      var r := Ensure(kind, v, base, data, f).1;
      if r.Ok? then [Given(base, r.value.name, data)] else []
    case Removing(_) => []
  }

  ghost function RunVault(kind: Kind, v: Vault, events: seq<Event>): Vault {
    if events == [] then v
    else StepVault(kind, RunVault(kind, v, events[..|events| - 1]), events[|events| - 1])
  }

  /** Every name handed out along a run, with the bytes it was handed out for. */
  ghost function RunGiven(kind: Kind, v: Vault, events: seq<Event>): seq<Given> {
    if events == [] then []
    else
      var before := events[..|events| - 1];
      RunGiven(kind, v, before) + StepGiven(kind, RunVault(kind, v, before), events[|events| - 1])
  }

  /** An event the runs below allow in a state: bases come from a family that is pairwise apart, hash
      writes succeed, and an outside removal leaves the newest version of every base. */
  ghost predicate Allowed(v: Vault, bases: set<string>, e: Event) {
    match e
    case Ensuring(base, _, f) => base in bases && !f.recordFails
    case Removing(names) => forall b :: b in bases && Newest(b, v) > 0 ==> CurrentName(b, v) !in names
  }

  ghost predicate AllowedRun(kind: Kind, v: Vault, bases: set<string>, events: seq<Event>) {
    events == [] ||
    (var before := events[..|events| - 1];
     && AllowedRun(kind, v, bases, before)
     && Allowed(RunVault(kind, v, before), bases, events[|events| - 1]))
  }

  ghost predicate Family(bases: set<string>) {
    forall a, b :: a in bases && b in bases && a != b ==> Apart(a, b)
  }

  ghost predicate AllSound(kind: Kind, v: Vault, bases: set<string>) {
    forall b :: b in bases ==> AllPrinted(v, b) && Sound(kind, v, b)
  }

  /** A handed-out name stays at or below its base's newest version; while it is the newest, the
      object still holds the bytes it was handed out for. */
  ghost predicate Accounted(v: Vault, g: Given) {
    exists k: nat ::
      && g.name == VersionedName(g.base, k)
      && 0 < k <= Newest(g.base, v)
      && (k == Newest(g.base, v) ==> g.name in v.objects && v.objects[g.name] == g.data)
  }

  lemma RemovalKeepsNewest(v: Vault, names: set<string>, b: string)
    requires AllPrinted(v, b)
    requires Newest(b, v) > 0 ==> CurrentName(b, v) !in names
    ensures var v' := StepVault(DockerConfig, v, Removing(names));
      && Newest(b, v') == Newest(b, v)
      && AllPrinted(v', b)
      && (Newest(b, v) > 0 ==> CurrentName(b, v) in v'.objects && v'.objects[CurrentName(b, v)] == v.objects[CurrentName(b, v)])
  {
    var v' := StepVault(DockerConfig, v, Removing(names));
    var m := Newest(b, v);
    if m > 0 {
      PrintedNewestExists(v, b);
      ScanPrinted(b, m);
      assert CurrentName(b, v) in v'.objects;
    }
    NewestIs(b, v'.objects.Keys, m);
  }

  lemma StepKeepsSound(kind: Kind, v: Vault, bases: set<string>, e: Event)
    requires Family(bases) && AllSound(kind, v, bases) && Allowed(v, bases, e)
    ensures AllSound(kind, StepVault(kind, v, e), bases)
  {
    var v' := StepVault(kind, v, e);
    forall b | b in bases
      ensures AllPrinted(v', b) && Sound(kind, v', b)
    {
      match e
      case Ensuring(base, data, f) =>
        if b == base {
          EnsureKeepsSound(kind, v, base, data, f);
          ScanPrinted(base, Newest(base, v) + 1);
        } else {
          EnsureFrame(kind, v, base, data, f, b);
        }
      case Removing(names) =>
        RemovalKeepsNewest(v, names, b);
    }
  }

  lemma StepKeepsAccount(kind: Kind, v: Vault, bases: set<string>, e: Event, g: Given)
    requires Family(bases) && AllSound(kind, v, bases) && Allowed(v, bases, e)
    requires g.base in bases && Accounted(v, g)
    ensures Accounted(StepVault(kind, v, e), g)
  {
    var v' := StepVault(kind, v, e);
    var k: nat :| g.name == VersionedName(g.base, k) && 0 < k <= Newest(g.base, v) &&
      (k == Newest(g.base, v) ==> g.name in v.objects && v.objects[g.name] == g.data);
    match e
    case Ensuring(base, data, f) =>
      if g.base != base {
        EnsureFrame(kind, v, base, data, f, g.base);
        assert VersionPrefix(g.base) <= g.name;
      } else if Ensure(kind, v, base, data, f).1.Ok? {
        EnsureNewest(kind, v, base, data, f);
      }
    case Removing(names) =>
      RemovalKeepsNewest(v, names, g.base);
  }

  lemma {:induction false} RunAccounts(kind: Kind, v: Vault, bases: set<string>, events: seq<Event>)
    requires Family(bases) && AllSound(kind, v, bases) && AllowedRun(kind, v, bases, events)
    ensures AllSound(kind, RunVault(kind, v, events), bases)
    ensures forall g :: g in RunGiven(kind, v, events) ==> g.base in bases && Accounted(RunVault(kind, v, events), g)
  {
    if events != [] {
      var before, e := events[..|events| - 1], events[|events| - 1];
      RunAccounts(kind, v, bases, before);
      var u := RunVault(kind, v, before);
      StepKeepsSound(kind, u, bases, e);
      forall g | g in RunGiven(kind, v, before)
        ensures Accounted(RunVault(kind, v, events), g)
      {
        StepKeepsAccount(kind, u, bases, e, g);
      }
      if e.Ensuring? && Ensure(kind, u, e.base, e.data, e.faults).1.Ok? {
        EnsureNewest(kind, u, e.base, e.data, e.faults);
        EnsureHoldsData(kind, u, e.base, e.data, e.faults);
      }
    }
  }

  /** Along every allowed run a name is handed out for one content only, across all bases, although
      old versions may fail to be removed at every step; and right after a call its name holds the
      bytes asked for. */
  lemma {:induction false} NamesNeverReused(kind: Kind, v: Vault, bases: set<string>, events: seq<Event>)
    requires Family(bases) && AllSound(kind, v, bases) && AllowedRun(kind, v, bases, events)
    ensures forall g, h :: g in RunGiven(kind, v, events) && h in RunGiven(kind, v, events) && g.name == h.name ==> g == h
  {
    if events != [] {
      var before, e := events[..|events| - 1], events[|events| - 1];
      NamesNeverReused(kind, v, bases, before);
      RunAccounts(kind, v, bases, before);
      var u := RunVault(kind, v, before);
      forall g | g in RunGiven(kind, v, before) && StepGiven(kind, u, e) != [] && g.name == StepGiven(kind, u, e)[0].name
        ensures g == StepGiven(kind, u, e)[0]
      {
        NewGiftAgrees(kind, u, bases, e, g);
      }
    }
  }

  lemma NewGiftAgrees(kind: Kind, u: Vault, bases: set<string>, e: Event, g: Given)
    requires Family(bases) && AllSound(kind, u, bases) && Allowed(u, bases, e)
    requires g.base in bases && Accounted(u, g)
    requires StepGiven(kind, u, e) != [] && StepGiven(kind, u, e)[0].name == g.name
    ensures StepGiven(kind, u, e)[0] == g
  {
    var (u', r) := Ensure(kind, u, e.base, e.data, e.faults);
    EnsureNewest(kind, u, e.base, e.data, e.faults);
    EnsureHoldsData(kind, u, e.base, e.data, e.faults);
    assert VersionPrefix(g.base) <= g.name && VersionPrefix(e.base) <= g.name;
    if g.base != e.base {
      ApartNames(g.base, e.base, g.name);
    }
    var k: nat :| g.name == VersionedName(g.base, k) && 0 < k <= Newest(g.base, u) &&
      (k == Newest(g.base, u) ==> g.name in u.objects && u.objects[g.name] == g.data);
    ScanPrinted(g.base, k);
    ScanPrinted(e.base, Newest(e.base, u'));
  }

  /** When names can come back: after objects were removed from outside, the next version minted for a base is above
      every version it had before if and only if the removal left the base's newest version alone. If it did not, the
      minted name carries a version the base had already passed. */
  lemma RemovalReissuesIff(kind: Kind, v: Vault, base: string, names: set<string>, data: string, f: Faults)
    requires var u := StepVault(kind, v, Removing(names));
      Ensure(kind, u, base, data, f).1.Ok? && Ensure(kind, u, base, data, f).1.value.created
    ensures var u := StepVault(kind, v, Removing(names));
      var name := Ensure(kind, u, base, data, f).1.value.name;
      && ((forall n :: n in v.objects ==> VersionOf(base, n) < VersionOf(base, name)) <==> Newest(base, u) == Newest(base, v))
      && (Newest(base, u) != Newest(base, v) ==> 0 < VersionOf(base, name) <= Newest(base, v))
  {
    var u := StepVault(kind, v, Removing(names));
    ScanPrinted(base, Newest(base, u) + 1);
    assert forall n :: n in u.objects ==> n in v.objects;
    if Newest(base, v) > 0 {
      var top :| top in v.objects && VersionOf(base, top) == Newest(base, v);
      assert Newest(base, u) <= Newest(base, v);
    }
  }
}
