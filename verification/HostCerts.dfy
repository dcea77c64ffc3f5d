/** Per-host (bring-your-own) certificates: their versioned secrets and the rows that point at them. */
module HostCerts {
  import opened Common
  import opened VersionNames
  import opened VersionedObjects
  import P = PlatformUpdate
  import PC = PlatformConvergence

  // ---------------------------------------------------------------------------
  // Secret bases
  // ---------------------------------------------------------------------------

  /** Lower case as far as it matters here: the ASCII letters, and the two others whose lower case is one (the dotted
      capital I and the Kelvin sign). */
  function LowerChar(c: char): char {
    if 'A' <= c <= 'Z' then c - 'A' + 'a'
    else if c == '\U{130}' then 'i'
    else if c == '\U{212A}' then 'k'
    else c
  }

  function Lower(s: string): string {
    seq(|s|, i requires 0 <= i < |s| => LowerChar(s[i]))
  }

  predicate IsBaseChar(c: char) {
    'a' <= c <= 'z' || '0' <= c <= '9'
  }

  /** Lower case, with everything but letters and digits collapsed to a dash. */
  function Collapsed(host: string): string {
    seq(|host|, i requires 0 <= i < |host| => if IsBaseChar(LowerChar(host[i])) then LowerChar(host[i]) else '-')
  }

  function CertBase(host: string): string {
    "hostcert-" + Collapsed(host)
  }

  function KeyBase(host: string): string {
    "hostkey-" + Collapsed(host)
  }

  method HostSecretBase(kind: string, host: string) returns (base: string)
    ensures base == "host" + kind + "-" + Collapsed(host)
  {
    var b := "";
    var lower := Lower(host);
    for i := 0 to |lower|
      invariant b == Collapsed(host)[..i]
    {
      if IsBaseChar(lower[i]) {
        b := b + [lower[i]];
      } else {
        b := b + "-";
      }
    }
    base := "host" + kind + "-" + b;
  }

  lemma OneKindApartIff(kind: string, a: string, b: string)
    requires '_' !in kind && '_' !in a && '_' !in b
    ensures Apart(kind + a, kind + b) <==> a != b
  {
    assert (kind + a)[|kind|..] == a && (kind + b)[|kind|..] == b;
    if a != b {
      UnderscoreFreeApart(kind + a, kind + b);
    }
  }

  /** Two hosts share their bases exactly when they collapse to the same text. Otherwise none of their four
      bases, nor the two of the cluster's own certificate, reaches into another one's versions. */
  lemma BasesApartIff(h1: string, h2: string)
    ensures Apart(CertBase(h1), CertBase(h2)) <==> Collapsed(h1) != Collapsed(h2)
    ensures Apart(KeyBase(h1), KeyBase(h2)) <==> Collapsed(h1) != Collapsed(h2)
    ensures Apart(CertBase(h1), KeyBase(h2)) && Apart(KeyBase(h2), CertBase(h1))
    ensures Apart(CertBase(h1), P.CERT_BASE) && Apart(CertBase(h1), P.KEY_BASE)
    ensures Apart(KeyBase(h1), P.CERT_BASE) && Apart(KeyBase(h1), P.KEY_BASE)
  {
    OneKindApartIff("hostcert-", Collapsed(h1), Collapsed(h2));
    OneKindApartIff("hostkey-", Collapsed(h1), Collapsed(h2));
    assert CertBase(h1)[4] == 'c' && KeyBase(h2)[4] == 'k';
    assert VersionPrefix(CertBase(h1))[4] == 'c' && VersionPrefix(KeyBase(h2))[4] == 'k';
    assert VersionPrefix(CertBase(h1))[0] == 'h' && VersionPrefix(KeyBase(h1))[0] == 'h';
    assert VersionPrefix(P.CERT_BASE)[0] == 'c' && VersionPrefix(P.KEY_BASE)[0] == 'k';
  }

  /** Different host names can collapse to the same bases. */
  lemma HostsCanCollide()
    ensures "a-b.com" != "a.b.com" && CertBase("a-b.com") == CertBase("a.b.com") && KeyBase("a-b.com") == KeyBase("a.b.com")
  {
    assert "a-b.com"[1] != "a.b.com"[1];
    assert Collapsed("a-b.com") == "a-b-com" == Collapsed("a.b.com");
  }

  // ---------------------------------------------------------------------------
  // Applying and removing
  // ---------------------------------------------------------------------------

  datatype CertRow = CertRow(certSecret: string, keySecret: string, certHash: Digest, keyHash: Digest)

  /** The listed secrets with their recorded hashes, and the rows of every host but the cluster's own. */
  datatype CertState = CertState(vault: Vault, rows: map<string, CertRow>)

  datatype CertError = InvalidCertificate | SecretFailed(cause: EnsureError) | RefreshFailed | CertNotFound | OwnCertificate

  ghost function Apply(s: CertState, host: string, cert: string, key: string, valid: bool, fc: Faults, fk: Faults, refreshFails: bool)
    : (CertState, Result<CertRow, CertError>)
  {
    if !valid then (s, Err(InvalidCertificate))
    else
      var (v1, c) := Ensure(Secret, s.vault, CertBase(host), cert, fc);
      if c.Err? then (s.(vault := v1), Err(SecretFailed(c.error)))
      else
        var (v2, k) := Ensure(Secret, v1, KeyBase(host), key, fk);
        if k.Err? then (s.(vault := v2), Err(SecretFailed(k.error)))
        else if refreshFails then (s.(vault := v2), Err(RefreshFailed))
        else
          var row := CertRow(c.value.name, k.value.name, ContentHash(cert), ContentHash(key));
          (CertState(v2, s.rows[host := row]), Ok(row))
  }

  ghost function Dropped(v: Vault, name: string, stuck: bool): Vault {
    if stuck then v else v.(objects := v.objects - {name})
  }

  /** Not for the cluster's own domain. The row goes first; its two secrets are removed if the daemon lets them. */
  ghost function Remove(s: CertState, own: string, host: string, certStuck: bool, keyStuck: bool): (CertState, Result<(), CertError>) {
    if host == own then (s, Err(OwnCertificate))
    else if host !in s.rows then (s, Err(CertNotFound))
    else
      var row := s.rows[host];
      (CertState(Dropped(Dropped(s.vault, row.certSecret, certStuck), row.keySecret, keyStuck), s.rows - {host}), Ok(()))
  }

  class CertManager {
    const swarm: Swarm
    var rows: map<string, CertRow>

    ghost function State(): CertState
      reads this, swarm
    {
      CertState(swarm.Secrets(), rows)
    }

    constructor (swarm: Swarm)
      ensures this.swarm == swarm && rows == map[]
    {
      this.swarm, rows := swarm, map[];
    }

    /** The row is stored last, behind the refresh, which touches none of what is modelled here. */
    method ApplyCert(domain: string, cert: string, key: string, valid: bool, fc: Faults, fk: Faults, refreshFails: bool)
      returns (r: Result<CertRow, CertError>)
      requires swarm as object != this
      modifies this, swarm
      ensures (State(), r) == Apply(old(State()), Lower(domain), cert, key, valid, fc, fk, refreshFails)
    {
      if !valid {
        return Err(InvalidCertificate);
      }
      var host := Lower(domain);
      var certBase := HostSecretBase("cert", host);
      assert certBase == CertBase(host);
      var c := swarm.EnsureVersionedSecret(certBase, cert, fc);
      if c.Err? {
        return Err(SecretFailed(c.error));
      }
      var keyBase := HostSecretBase("key", host);
      assert keyBase == KeyBase(host);
      var k := swarm.EnsureVersionedSecret(keyBase, key, fk);
      if k.Err? {
        return Err(SecretFailed(k.error));
      }
      if refreshFails {
        return Err(RefreshFailed);
      }
      var row := CertRow(c.value.name, k.value.name, ContentHash(cert), ContentHash(key));
      rows := rows[host := row];
      r := Ok(row);
    }

    /** A refresh that fails behind the removal takes nothing back. */
    method RemoveCert(own: string, domain: string, certStuck: bool, keyStuck: bool, refreshFails: bool)
      returns (r: Result<(), CertError>)
      requires swarm as object != this
      modifies this, swarm
      ensures var (s, removed) := Remove(old(State()), own, Lower(domain), certStuck, keyStuck);
        State() == s && r == if removed.Ok? && refreshFails then Err(RefreshFailed) else removed
    {
      var host := Lower(domain);
      if host == own {
        return Err(OwnCertificate);
      }
      if host !in rows {
        return Err(CertNotFound);
      }
      var row := rows[host];
      rows := rows - {host};
      if !certStuck {
        swarm.secrets := swarm.secrets - {row.certSecret};
      }
      if !keyStuck {
        swarm.secrets := swarm.secrets - {row.keySecret};
      }
      r := if refreshFails then Err(RefreshFailed) else Ok(());
    }
  }

  // ---------------------------------------------------------------------------
  // Every row points at the certificate it describes
  // ---------------------------------------------------------------------------

  /** The name is the newest version of the base and holds the bytes of the hash. */
  ghost predicate Serves(v: Vault, base: string, name: string, hash: Digest) {
    && Newest(base, v) > 0 && name == CurrentName(base, v)
    && name in v.objects && ContentHash(v.objects[name]) == hash
  }

  ghost predicate BaseOk(v: Vault, base: string) {
    AllPrinted(v, base) && Sound(Secret, v, base)
  }

  ghost predicate HostOk(s: CertState, host: string) {
    && BaseOk(s.vault, CertBase(host)) && BaseOk(s.vault, KeyBase(host))
    && (host in s.rows ==>
          && Serves(s.vault, CertBase(host), s.rows[host].certSecret, s.rows[host].certHash)
          && Serves(s.vault, KeyBase(host), s.rows[host].keySecret, s.rows[host].keyHash))
  }

  ghost predicate AllOk(s: CertState, hosts: set<string>) {
    s.rows.Keys <= hosts && forall h :: h in hosts ==> HostOk(s, h)
  }

  ghost predicate Separate(hosts: set<string>) {
    forall g, h :: g in hosts && h in hosts && g != h ==> Collapsed(g) != Collapsed(h)
  }

  lemma AgreementKeepsBase(v: Vault, v': Vault, base: string, name: string, hash: Digest)
    requires AgreeOn(v, v', base) && BaseOk(v, base)
    ensures BaseOk(v', base)
    ensures Serves(v, base, name, hash) ==> Serves(v', base, name, hash)
  {
    NewestFrame(base, v.objects.Keys, v'.objects.Keys);
    assert VersionPrefix(base) <= CurrentName(base, v);
  }

  lemma AgreementKeepsHost(s: CertState, s': CertState, host: string)
    requires HostOk(s, host)
    requires AgreeOn(s.vault, s'.vault, CertBase(host)) && AgreeOn(s.vault, s'.vault, KeyBase(host))
    requires host in s'.rows ==> host in s.rows && s'.rows[host] == s.rows[host]
    ensures HostOk(s', host)
  {
    var row := if host in s.rows then s.rows[host] else CertRow("", "", NoDigest, NoDigest);
    AgreementKeepsBase(s.vault, s'.vault, CertBase(host), row.certSecret, row.certHash);
    AgreementKeepsBase(s.vault, s'.vault, KeyBase(host), row.keySecret, row.keyHash);
  }

  lemma EnsureServes(v: Vault, base: string, data: string, f: Faults)
    requires BaseOk(v, base) && !f.recordFails
    ensures var (v', r) := Ensure(Secret, v, base, data, f);
      BaseOk(v', base) && (r.Ok? ==> Serves(v', base, r.value.name, ContentHash(data)))
  {
    EnsureKeepsSound(Secret, v, base, data, f);
    if Ensure(Secret, v, base, data, f).1.Ok? {
      EnsureHoldsData(Secret, v, base, data, f);
      EnsureNewest(Secret, v, base, data, f);
      ScanPrinted(base, Newest(base, v) + 1);
    }
  }

  // ---------------------------------------------------------------------------
  // Applying, decided before the call
  // ---------------------------------------------------------------------------

  /** A secret with these bytes is not there to be reused: no version is, or the recorded hash is another one. */
  ghost predicate Fresh(v: Vault, base: string, data: string) {
    Newest(base, v) == 0 || Recorded(v, base) != ContentHash(data)
  }

  /** A new version is needed, and its creation or the recording of its hash fails. */
  ghost predicate Blocked(v: Vault, base: string, data: string, f: Faults) {
    Fresh(v, base, data) && (f.createFails || f.recordFails)
  }

  lemma EnsureOutcome(v: Vault, base: string, data: string, f: Faults)
    ensures var r := Ensure(Secret, v, base, data, f).1;
      && (r.Ok? <==> !Blocked(v, base, data, f))
      && (r.Ok? ==> (r.value.created <==> Fresh(v, base, data)))
  {
  }

  /** What comes of both calls of an apply. */
  lemma ApplyOutcome(v: Vault, host: string, cert: string, key: string, fc: Faults, fk: Faults)
    ensures var (v1, c) := Ensure(Secret, v, CertBase(host), cert, fc);
      var k := Ensure(Secret, v1, KeyBase(host), key, fk).1;
      && (c.Ok? <==> !Blocked(v, CertBase(host), cert, fc)) && (c.Ok? ==> (c.value.created <==> Fresh(v, CertBase(host), cert)))
      && (k.Ok? <==> !Blocked(v, KeyBase(host), key, fk)) && (k.Ok? ==> (k.value.created <==> Fresh(v, KeyBase(host), key)))
  {
    BasesApartIff(host, host);
    var v1 := Ensure(Secret, v, CertBase(host), cert, fc).0;
    EnsureOutcome(v, CertBase(host), cert, fc);
    EnsureOutcome(v1, KeyBase(host), key, fk);
    hide Ensure;
    EnsureFrame(Secret, v, CertBase(host), cert, fc, KeyBase(host));
  }

  /** Whether an apply leaves its host's row right: there is none, or it is replaced, or nothing is minted under the host's
      bases before the call fails. */
  ghost predicate RowFollows(s: CertState, host: string, cert: string, key: string, fc: Faults, fk: Faults, refreshFails: bool) {
    var certFails, keyFails := Blocked(s.vault, CertBase(host), cert, fc), Blocked(s.vault, KeyBase(host), key, fk);
    || host !in s.rows || certFails
    || (!keyFails && !refreshFails)
    || (!Fresh(s.vault, CertBase(host), cert) && (keyFails || !Fresh(s.vault, KeyBase(host), key)))
  }

  /** A failed call whose hash write did not fail changes nothing. */
  lemma FailedEnsureChangesNothing(v: Vault, base: string, data: string, f: Faults)
    requires !f.recordFails && Ensure(Secret, v, base, data, f).1.Err?
    ensures Ensure(Secret, v, base, data, f).0 == v
  {
  }

  lemma ApplyKeepsOwn(s: CertState, host: string, cert: string, key: string, fc: Faults, fk: Faults, refreshFails: bool)
    requires HostOk(s, host) && !fc.recordFails && !fk.recordFails && RowFollows(s, host, cert, key, fc, fk, refreshFails)
    ensures HostOk(Apply(s, host, cert, key, true, fc, fk, refreshFails).0, host)
  {
    BasesApartIff(host, host);
    ApplyOutcome(s.vault, host, cert, key, fc, fk);
    hide Fresh, Blocked;
    var (v1, c) := Ensure(Secret, s.vault, CertBase(host), cert, fc);
    if c.Err? {
      FailedEnsureChangesNothing(s.vault, CertBase(host), cert, fc);
    } else {
      var (v2, k) := Ensure(Secret, v1, KeyBase(host), key, fk);
      EnsureServes(s.vault, CertBase(host), cert, fc);
      EnsureAgrees(Secret, s.vault, CertBase(host), cert, fc, KeyBase(host));
      AgreementKeepsBase(s.vault, v1, KeyBase(host), if host in s.rows then s.rows[host].keySecret else "",
                         if host in s.rows then s.rows[host].keyHash else NoDigest);
      hide Ensure;
      if k.Err? {
        FailedEnsureChangesNothing(v1, KeyBase(host), key, fk);
        if !c.value.created {
          ReusedIsUnchanged(s.vault, CertBase(host), cert, fc);
        }
      } else {
        EnsureServes(v1, KeyBase(host), key, fk);
        EnsureAgrees(Secret, v1, KeyBase(host), key, fk, CertBase(host));
        AgreementKeepsBase(v1, v2, CertBase(host), c.value.name, ContentHash(cert));
      }
    }
  }

  /** A mint leaves the version it found behind, whatever else happens under other bases. */
  lemma MintMovesOn(v: Vault, base: string, data: string, f: Faults, after: Vault, name: string)
    requires Ensure(Secret, v, base, data, f).1.Ok? && Ensure(Secret, v, base, data, f).1.value.created
    requires AgreeOn(Ensure(Secret, v, base, data, f).0, after, base) && name == CurrentName(base, v)
    ensures forall hash :: !Serves(after, base, name, hash)
  {
    var v' := Ensure(Secret, v, base, data, f).0;
    EnsureNewest(Secret, v, base, data, f);
    NewestFrame(base, v'.objects.Keys, after.objects.Keys);
    ScanPrinted(base, Newest(base, v));
    ScanPrinted(base, Newest(base, v) + 1);
  }

  /** When hash writes succeed, an apply leaves its host right exactly if the row follows. */
  lemma ApplyKeepsOwnIff(s: CertState, host: string, cert: string, key: string, fc: Faults, fk: Faults, refreshFails: bool)
    requires HostOk(s, host) && !fc.recordFails && !fk.recordFails
    ensures HostOk(Apply(s, host, cert, key, true, fc, fk, refreshFails).0, host) <==>
            RowFollows(s, host, cert, key, fc, fk, refreshFails)
  {
    if RowFollows(s, host, cert, key, fc, fk, refreshFails) {
      ApplyKeepsOwn(s, host, cert, key, fc, fk, refreshFails);
    } else {
      BasesApartIff(host, host);
      ApplyOutcome(s.vault, host, cert, key, fc, fk);
      hide Fresh, Blocked;
      var (v1, c) := Ensure(Secret, s.vault, CertBase(host), cert, fc);
      var (v2, k) := Ensure(Secret, v1, KeyBase(host), key, fk);
      EnsureAgrees(Secret, s.vault, CertBase(host), cert, fc, KeyBase(host));
      EnsureAgrees(Secret, v1, KeyBase(host), key, fk, CertBase(host));
      SameCurrent(s.vault, v1, KeyBase(host));
      hide Ensure;
      if c.value.created {
        MintMovesOn(s.vault, CertBase(host), cert, fc, v2, s.rows[host].certSecret);
      } else {
        PC.AgreeReflexive(v2, KeyBase(host));
        MintMovesOn(v1, KeyBase(host), key, fk, v2, s.rows[host].keySecret);
      }
    }
  }

  lemma SameCurrent(v: Vault, v': Vault, base: string)
    requires AgreeOn(v, v', base)
    ensures CurrentName(base, v') == CurrentName(base, v)
  {
    NewestFrame(base, v.objects.Keys, v'.objects.Keys);
  }

  lemma ReusedIsUnchanged(v: Vault, base: string, data: string, f: Faults)
    requires Ensure(Secret, v, base, data, f).1.Ok? && !Ensure(Secret, v, base, data, f).1.value.created
    ensures Ensure(Secret, v, base, data, f).0 == v
  {
  }

  lemma ApplyAgrees(s: CertState, host: string, cert: string, key: string, valid: bool, fc: Faults, fk: Faults, refreshFails: bool, base: string)
    requires Apart(CertBase(host), base) && Apart(KeyBase(host), base)
    ensures AgreeOn(s.vault, Apply(s, host, cert, key, valid, fc, fk, refreshFails).0.vault, base)
  {
    var v1 := Ensure(Secret, s.vault, CertBase(host), cert, fc).0;
    EnsureAgrees(Secret, s.vault, CertBase(host), cert, fc, base);
    EnsureAgrees(Secret, v1, KeyBase(host), key, fk, base);
    AgreeTransitive(s.vault, v1, Ensure(Secret, v1, KeyBase(host), key, fk).0, base);
  }

  lemma ApplyRows(s: CertState, host: string, cert: string, key: string, valid: bool, fc: Faults, fk: Faults, refreshFails: bool)
    ensures var (s', r) := Apply(s, host, cert, key, valid, fc, fk, refreshFails);
      s'.rows == if r.Ok? then s.rows[host := r.value] else s.rows
  {
  }

  lemma ApplyKeepsOther(s: CertState, host: string, cert: string, key: string, valid: bool, fc: Faults, fk: Faults, refreshFails: bool, other: string)
    requires HostOk(s, other) && Collapsed(other) != Collapsed(host)
    ensures HostOk(Apply(s, host, cert, key, valid, fc, fk, refreshFails).0, other)
  {
    BasesApartIff(host, other);
    BasesApartIff(other, host);
    ApplyAgrees(s, host, cert, key, valid, fc, fk, refreshFails, CertBase(other));
    ApplyAgrees(s, host, cert, key, valid, fc, fk, refreshFails, KeyBase(other));
    ApplyRows(s, host, cert, key, valid, fc, fk, refreshFails);
    AgreementKeepsHost(s, Apply(s, host, cert, key, valid, fc, fk, refreshFails).0, other);
  }

  // ---------------------------------------------------------------------------
  // Removing
  // ---------------------------------------------------------------------------

  /** What can be seen before a version is removed: no hash is recorded for its base, or nothing else is left of it, or
      what is left newest holds the same bytes. */
  ghost predicate SafeToRemove(v: Vault, base: string, name: string)
  {
    var left := Dropped(v, name, false);
    && name in v.objects
    && (|| Recorded(v, base) == NoDigest
        || Newest(base, left) == 0
        || (CurrentName(base, left) in left.objects && left.objects[CurrentName(base, left)] == v.objects[name]))
  }

  /** Once its newest version is gone, a base is sound exactly if that version was safe to remove: the recorded hash
      outlives the secret. */
  lemma DropKeepsSoundIff(v: Vault, base: string)
    requires BaseOk(v, base) && Newest(base, v) > 0
    ensures CurrentName(base, v) in v.objects
    ensures BaseOk(Dropped(v, CurrentName(base, v), false), base) <==> SafeToRemove(v, base, CurrentName(base, v))
  {
    PrintedNewestExists(v, base);
    var v' := Dropped(v, CurrentName(base, v), false);
    if Newest(base, v') > 0 {
      PrintedNewestExists(v', base);
    }
  }

  lemma DropAgrees(v: Vault, name: string, stuck: bool, base: string, own: string)
    requires Apart(own, base) && VersionPrefix(own) <= name
    ensures AgreeOn(v, Dropped(v, name, stuck), base)
  {
    ApartNames(own, base, name);
  }

  datatype Event =
    | Applying(host: string, cert: string, key: string, valid: bool, fc: Faults, fk: Faults, refreshFails: bool)
    | Removing(own: string, host: string, certStuck: bool, keyStuck: bool)
    | Refreshing(vault: Vault)

  ghost function Step(s: CertState, e: Event): CertState {
    match e
    case Applying(host, cert, key, valid, fc, fk, refreshFails) => Apply(s, host, cert, key, valid, fc, fk, refreshFails).0
    case Removing(own, host, certStuck, keyStuck) => Remove(s, own, host, certStuck, keyStuck).0
    case Refreshing(vault) => s.(vault := vault)
  }

  /** Both secrets of a row may go, as far as the daemon lets them. */
  ghost predicate SafeRemoval(s: CertState, host: string, certStuck: bool, keyStuck: bool)
    requires host in s.rows
  {
    && (certStuck || SafeToRemove(s.vault, CertBase(host), s.rows[host].certSecret))
    && (keyStuck || SafeToRemove(s.vault, KeyBase(host), s.rows[host].keySecret))
  }

  /** The events of the sequences below, each admitted by the exact condition under which its host stays right: applies
      whose hash writes succeed and whose row follows, removals of versions that are safe to remove, and refreshes, which
      leave the hosts' bases alone. */
  ghost predicate Completed(s: CertState, hosts: set<string>, e: Event) {
    match e
    case Applying(host, cert, key, valid, fc, fk, refreshFails) =>
      && host in hosts && !fc.recordFails && !fk.recordFails
      && (valid ==> RowFollows(s, host, cert, key, fc, fk, refreshFails))
    case Removing(own, host, certStuck, keyStuck) =>
      host in s.rows && host != own ==> SafeRemoval(s, host, certStuck, keyStuck)
    case Refreshing(vault) =>
      forall h :: h in hosts ==> AgreeOn(s.vault, vault, CertBase(h)) && AgreeOn(s.vault, vault, KeyBase(h))
  }

  /** What a removal does to the two bases, one at a time. */
  lemma RemoveBases(s: CertState, own: string, host: string, certStuck: bool, keyStuck: bool)
    requires HostOk(s, host) && host in s.rows && host != own
    ensures var v' := Remove(s, own, host, certStuck, keyStuck).0.vault;
      && AgreeOn(Dropped(s.vault, s.rows[host].certSecret, certStuck), v', CertBase(host))
      && AgreeOn(Dropped(s.vault, s.rows[host].keySecret, keyStuck), v', KeyBase(host))
  {
    BasesApartIff(host, host);
    var row := s.rows[host];
    DropAgrees(Dropped(s.vault, row.certSecret, certStuck), row.keySecret, keyStuck, CertBase(host), KeyBase(host));
    DropAgrees(s.vault, row.certSecret, certStuck, KeyBase(host), CertBase(host));
    ApartNames(CertBase(host), KeyBase(host), row.certSecret);
    ApartNames(KeyBase(host), CertBase(host), row.keySecret);
  }

  lemma AgreementMovesBase(v: Vault, v': Vault, base: string)
    requires AgreeOn(v, v', base)
    ensures BaseOk(v, base) <==> BaseOk(v', base)
  {
    if BaseOk(v, base) {
      AgreementKeepsBase(v, v', base, "", NoDigest);
    }
    if BaseOk(v', base) {
      AgreementKeepsBase(v', v, base, "", NoDigest);
    }
  }

  /** A removal leaves its host right exactly if it is safe. */
  lemma RemovalKeepsHostIff(s: CertState, own: string, host: string, certStuck: bool, keyStuck: bool)
    requires HostOk(s, host) && host in s.rows && host != own
    ensures HostOk(Remove(s, own, host, certStuck, keyStuck).0, host) <==> SafeRemoval(s, host, certStuck, keyStuck)
  {
    var v' := Remove(s, own, host, certStuck, keyStuck).0.vault;
    RemoveBases(s, own, host, certStuck, keyStuck);
    AgreementMovesBase(Dropped(s.vault, s.rows[host].certSecret, certStuck), v', CertBase(host));
    AgreementMovesBase(Dropped(s.vault, s.rows[host].keySecret, keyStuck), v', KeyBase(host));
    DropKeepsSoundIff(s.vault, CertBase(host));
    DropKeepsSoundIff(s.vault, KeyBase(host));
    hide BaseOk, AgreeOn, SafeToRemove;
  }

  lemma RemoveKeepsOther(s: CertState, own: string, host: string, certStuck: bool, keyStuck: bool, other: string)
    requires HostOk(s, host) && HostOk(s, other) && host in s.rows && host != own && Collapsed(other) != Collapsed(host)
    ensures HostOk(Remove(s, own, host, certStuck, keyStuck).0, other)
  {
    BasesApartIff(host, other);
    BasesApartIff(other, host);
    var row := s.rows[host];
    var v1 := Dropped(s.vault, row.certSecret, certStuck);
    var v2 := Dropped(v1, row.keySecret, keyStuck);
    forall base | base == CertBase(other) || base == KeyBase(other)
      ensures AgreeOn(s.vault, v2, base)
    {
      DropAgrees(s.vault, row.certSecret, certStuck, base, CertBase(host));
      DropAgrees(v1, row.keySecret, keyStuck, base, KeyBase(host));
      AgreeTransitive(s.vault, v1, v2, base);
    }
    AgreementKeepsHost(s, Remove(s, own, host, certStuck, keyStuck).0, other);
  }

  lemma ApplyKeepsHost(s: CertState, hosts: set<string>, e: Event, h: string)
    requires Separate(hosts) && AllOk(s, hosts) && Completed(s, hosts, e) && e.Applying? && h in hosts
    ensures HostOk(Step(s, e), h)
  {
    hide HostOk, RowFollows;
    if h != e.host {
      ApplyKeepsOther(s, e.host, e.cert, e.key, e.valid, e.fc, e.fk, e.refreshFails, h);
    } else if e.valid {
      ApplyKeepsOwn(s, e.host, e.cert, e.key, e.fc, e.fk, e.refreshFails);
    }
  }

  lemma RemovalKeepsHost(s: CertState, hosts: set<string>, e: Event, h: string)
    requires Separate(hosts) && AllOk(s, hosts) && Completed(s, hosts, e) && e.Removing? && h in hosts
    ensures HostOk(Step(s, e), h)
  {
    hide HostOk, SafeRemoval;
    if e.host in s.rows && e.host != e.own {
      if h == e.host {
        RemovalKeepsHostIff(s, e.own, e.host, e.certStuck, e.keyStuck);
      } else {
        RemoveKeepsOther(s, e.own, e.host, e.certStuck, e.keyStuck, h);
      }
    }
  }

  lemma StepRows(s: CertState, hosts: set<string>, e: Event)
    requires AllOk(s, hosts) && Completed(s, hosts, e)
    ensures Step(s, e).rows.Keys <= hosts
  {
    hide HostOk, Ensure, SafeRemoval, RowFollows;
  }

  lemma StepKeepsOk(s: CertState, hosts: set<string>, e: Event)
    requires Separate(hosts) && AllOk(s, hosts) && Completed(s, hosts, e)
    ensures AllOk(Step(s, e), hosts)
  {
    StepRows(s, hosts, e);
    forall h | h in hosts
      ensures HostOk(Step(s, e), h)
    {
      match e
      case Applying(_, _, _, _, _, _, _) => ApplyKeepsHost(s, hosts, e, h);
      case Removing(_, _, _, _) => RemovalKeepsHost(s, hosts, e, h);
      case Refreshing(vault) => AgreementKeepsHost(s, Step(s, e), h);
    }
  }

  ghost function Run(s: CertState, events: seq<Event>): CertState {
    if events == [] then s else Step(Run(s, events[..|events| - 1]), events[|events| - 1])
  }

  ghost predicate CompletedRun(s: CertState, hosts: set<string>, events: seq<Event>) {
    events == [] ||
    (CompletedRun(s, hosts, events[..|events| - 1]) &&
     Completed(Run(s, events[..|events| - 1]), hosts, events[|events| - 1]))
  }

  /** Along every completed sequence over hosts with distinct bases, each row names two existing secrets that
      hold exactly the bytes its hashes describe, and they are the newest of their bases, although removals
      of old versions may fail all the time. */
  lemma {:induction false} RowsStayServed(s: CertState, hosts: set<string>, events: seq<Event>)
    requires Separate(hosts) && AllOk(s, hosts) && CompletedRun(s, hosts, events)
    ensures AllOk(Run(s, events), hosts)
    ensures forall h :: h in Run(s, events).rows ==>
      var t, row := Run(s, events), Run(s, events).rows[h];
      && row.certSecret in t.vault.objects && ContentHash(t.vault.objects[row.certSecret]) == row.certHash
      && row.keySecret in t.vault.objects && ContentHash(t.vault.objects[row.keySecret]) == row.keyHash
  {
    if events != [] {
      RowsStayServed(s, hosts, events[..|events| - 1]);
      StepKeepsOk(Run(s, events[..|events| - 1]), hosts, events[|events| - 1]);
    }
    forall h | h in Run(s, events).rows
      ensures HostOk(Run(s, events), h)
    {
    }
  }

  /** A platform update in between is such a refresh: it touches only the cluster's own two bases. */
  lemma UpdateIsRefresh(b: P.Build, w: P.World, version: string, env: P.Environment, host: string)
    ensures var w' := P.Update(b, w, version, env).0;
      AgreeOn(w.secrets, w'.secrets, CertBase(host)) && AgreeOn(w.secrets, w'.secrets, KeyBase(host))
  {
    BasesApartIff(host, host);
    PC.UpdateAgrees(b, w, version, env, CertBase(host));
    PC.UpdateAgrees(b, w, version, env, KeyBase(host));
  }

  // ---------------------------------------------------------------------------
  // Where it goes wrong
  // ---------------------------------------------------------------------------

  /** A recorded hash without its version: the newest of the other versions is handed out in its place. */
  lemma LeftoverIsReused(v: Vault, base: string, data: string, f: Faults)
    requires AllPrinted(v, base) && Recorded(v, base) == ContentHash(data) && Newest(base, v) > 0
    ensures CurrentName(base, v) in v.objects
    ensures Ensure(Secret, v, base, data, f) == (v, Ok(Ensured(CurrentName(base, v), false)))
  {
    PrintedNewestExists(v, base);
  }

  /** Applying with a sound key base and no faults succeeds whenever the certificate's secret is ensured. */
  lemma ApplyAfterCert(s: CertState, host: string, cert: string, key: string, f: Faults, fk: Faults)
    requires Ensure(Secret, s.vault, CertBase(host), cert, f).1.Ok? && !fk.createFails && !fk.recordFails
    ensures var (v1, c) := Ensure(Secret, s.vault, CertBase(host), cert, f);
      var (after, r) := Apply(s, host, cert, key, true, f, fk, false);
      && r.Ok? && r.value.certSecret == c.value.name && r.value.certHash == ContentHash(cert)
      && after.rows == s.rows[host := r.value]
      && AgreeOn(v1, after.vault, CertBase(host))
  {
    BasesApartIff(host, host);
    var v1 := Ensure(Secret, s.vault, CertBase(host), cert, f).0;
    EnsureAgrees(Secret, v1, KeyBase(host), key, fk, CertBase(host));
  }

  /** The bytes a row's certificate secret holds. */
  ghost function CertOf(s: CertState, host: string): string
    requires HostOk(s, host) && host in s.rows
  {
    s.vault.objects[s.rows[host].certSecret]
  }

  ghost function KeyOf(s: CertState, host: string): string
    requires HostOk(s, host) && host in s.rows
  {
    s.vault.objects[s.rows[host].keySecret]
  }

  /** The state of a base after an unsafe removal: the hash of the removed bytes is recorded, and the newest version left
      holds others. */
  lemma UnsafeLeaves(v: Vault, base: string)
    requires BaseOk(v, base) && Newest(base, v) > 0
    ensures CurrentName(base, v) in v.objects
    ensures !SafeToRemove(v, base, CurrentName(base, v)) ==>
      var left, data := Dropped(v, CurrentName(base, v), false), v.objects[CurrentName(base, v)];
      && AllPrinted(left, base) && Newest(base, left) > 0 && CurrentName(base, left) in left.objects
      && Recorded(left, base) == ContentHash(data) && left.objects[CurrentName(base, left)] != data
  {
    PrintedNewestExists(v, base);
    var left := Dropped(v, CurrentName(base, v), false);
    if Newest(base, left) > 0 {
      PrintedNewestExists(left, base);
    }
  }

  lemma MovedLeftover(v: Vault, v': Vault, base: string, data: string, f: Faults)
    requires AgreeOn(v, v', base) && AllPrinted(v, base) && Newest(base, v) > 0
    requires Recorded(v, base) == ContentHash(data) && CurrentName(base, v) in v.objects && v.objects[CurrentName(base, v)] != data
    ensures var (v'', r) := Ensure(Secret, v', base, data, f);
      && v'' == v' && r.Ok? && VersionPrefix(base) <= r.value.name
      && r.value.name in v'.objects && v'.objects[r.value.name] != data
  {
    NewestFrame(base, v.objects.Keys, v'.objects.Keys);
    assert VersionPrefix(base) <= CurrentName(base, v);
    LeftoverIsReused(v', base, data, f);
  }

  /** The bad run an unsafe removal allows: the removed certificate's hash is still recorded, so applying the same
      certificate again succeeds with a row that names an older version and its different bytes. */
  lemma UnsafeCertRemovalServesOther(s: CertState, own: string, host: string, keyStuck: bool, key: string, f: Faults, fk: Faults)
    requires HostOk(s, host) && host in s.rows && host != own
    requires !SafeToRemove(s.vault, CertBase(host), s.rows[host].certSecret)
    requires !fk.createFails && !fk.recordFails
    ensures var removed := Remove(s, own, host, false, keyStuck).0;
      var (after, r) := Apply(removed, host, CertOf(s, host), key, true, f, fk, false);
      && r.Ok? && r.value.certHash == ContentHash(CertOf(s, host))
      && r.value.certSecret in after.vault.objects && after.vault.objects[r.value.certSecret] != CertOf(s, host)
  {
    var removed := Remove(s, own, host, false, keyStuck).0;
    RemoveBases(s, own, host, false, keyStuck);
    UnsafeLeaves(s.vault, CertBase(host));
    var left := Dropped(s.vault, s.rows[host].certSecret, false);
    hide HostOk, Remove, SafeToRemove;
    MovedLeftover(left, removed.vault, CertBase(host), CertOf(s, host), f);
    ApplyAfterCert(removed, host, CertOf(s, host), key, f, fk);
  }

  /** The same for the key: any certificate applied with the removed key gets a row whose key secret holds another. */
  lemma UnsafeKeyRemovalServesOther(s: CertState, own: string, host: string, certStuck: bool, cert: string, f: Faults, fk: Faults)
    requires HostOk(s, host) && host in s.rows && host != own
    requires !SafeToRemove(s.vault, KeyBase(host), s.rows[host].keySecret)
    requires !f.createFails && !f.recordFails
    ensures var removed := Remove(s, own, host, certStuck, false).0;
      var (after, r) := Apply(removed, host, cert, KeyOf(s, host), true, f, fk, false);
      && r.Ok? && r.value.keyHash == ContentHash(KeyOf(s, host))
      && r.value.keySecret in after.vault.objects && after.vault.objects[r.value.keySecret] != KeyOf(s, host)
  {
    var removed := Remove(s, own, host, certStuck, false).0;
    RemoveBases(s, own, host, certStuck, false);
    UnsafeLeaves(s.vault, KeyBase(host));
    var left := Dropped(s.vault, s.rows[host].keySecret, false);
    hide HostOk, Remove, SafeToRemove;
    var v1 := Ensure(Secret, removed.vault, CertBase(host), cert, f).0;
    AgreesPastCert(left, removed.vault, host, cert, f);
    hide Ensure;
    MovedLeftover(left, v1, KeyBase(host), KeyOf(s, host), fk);
    ApplyBeforeKey(removed, host, cert, KeyOf(s, host), f, fk);
  }

  lemma AgreesPastCert(left: Vault, v: Vault, host: string, cert: string, f: Faults)
    requires AgreeOn(left, v, KeyBase(host))
    ensures AgreeOn(left, Ensure(Secret, v, CertBase(host), cert, f).0, KeyBase(host))
  {
    BasesApartIff(host, host);
    hide Ensure;
    EnsureAgrees(Secret, v, CertBase(host), cert, f, KeyBase(host));
    AgreeTransitive(left, v, Ensure(Secret, v, CertBase(host), cert, f).0, KeyBase(host));
  }

  /** Applying with a certificate that meets no fault succeeds whenever the key's secret is ensured. */
  lemma ApplyBeforeKey(s: CertState, host: string, cert: string, key: string, f: Faults, fk: Faults)
    requires !f.createFails && !f.recordFails
    ensures var v1 := Ensure(Secret, s.vault, CertBase(host), cert, f).0;
      var (v2, k) := Ensure(Secret, v1, KeyBase(host), key, fk);
      var (after, r) := Apply(s, host, cert, key, true, f, fk, false);
      k.Ok? ==> r.Ok? && after.vault == v2 && r.value.keySecret == k.value.name && r.value.keyHash == ContentHash(key)
  {
    var (v1, c) := Ensure(Secret, s.vault, CertBase(host), cert, f);
    assert c.Ok?;
    hide Ensure;
  }

  /** What a call takes away from its base: a version that was there is gone exactly when the bytes are not to be reused,
      no fault stops the mint, and the daemon lets the version go. */
  lemma EnsureLosesIff(v: Vault, base: string, data: string, f: Faults, name: string)
    requires name in v.objects && VersionPrefix(base) <= name
    ensures var v' := Ensure(Secret, v, base, data, f).0;
      name !in v'.objects <==> Fresh(v, base, data) && !f.createFails && !f.recordFails && name !in f.stuck
  {
    MintedNameIsNew(base, v);
  }

  /** Both secrets of an apply, before its refresh. */
  ghost function Minted(v: Vault, host: string, cert: string, key: string, fc: Faults, fk: Faults): Vault {
    Ensure(Secret, Ensure(Secret, v, CertBase(host), cert, fc).0, KeyBase(host), key, fk).0
  }

  /** What an apply takes away from its host's row. */
  lemma OwnSecretsIff(s: CertState, host: string, cert: string, key: string, fc: Faults, fk: Faults)
    requires HostOk(s, host) && host in s.rows && !Blocked(s.vault, CertBase(host), cert, fc)
    ensures var v2 := Minted(s.vault, host, cert, key, fc, fk);
      && (s.rows[host].certSecret !in v2.objects <==>
            Recorded(s.vault, CertBase(host)) != ContentHash(cert) && s.rows[host].certSecret !in fc.stuck)
      && (s.rows[host].keySecret !in v2.objects <==>
            Recorded(s.vault, KeyBase(host)) != ContentHash(key) && !fk.createFails && !fk.recordFails &&
            s.rows[host].keySecret !in fk.stuck)
  {
    RowNames(s, host);
    BasesApartIff(host, host);
    hide Ensure, HostOk;
    var row := s.rows[host];
    var v1 := Ensure(Secret, s.vault, CertBase(host), cert, fc).0;
    EnsureLosesIff(s.vault, CertBase(host), cert, fc, row.certSecret);
    EnsureFrame(Secret, s.vault, CertBase(host), cert, fc, KeyBase(host));
    EnsureLosesIff(v1, KeyBase(host), key, fk, row.keySecret);
    EnsureFrame(Secret, v1, KeyBase(host), key, fk, CertBase(host));
  }

  /** An apply that gets its certificate and fails on the key or in the refresh keeps the old row. Its certificate is gone
      then exactly when another hash was recorded and the daemon let the old version go; its key exactly when the same
      holds of the key and it was the refresh that failed. */
  lemma HalfAppliedDanglesIff(s: CertState, host: string, cert: string, key: string, fc: Faults, fk: Faults, refreshFails: bool)
    requires HostOk(s, host) && host in s.rows
    requires !Blocked(s.vault, CertBase(host), cert, fc) && (refreshFails || Blocked(s.vault, KeyBase(host), key, fk))
    ensures var (s', r) := Apply(s, host, cert, key, true, fc, fk, refreshFails);
      && r.Err? && s'.rows == s.rows
      && (s.rows[host].certSecret !in s'.vault.objects <==>
            Recorded(s.vault, CertBase(host)) != ContentHash(cert) && s.rows[host].certSecret !in fc.stuck)
      && (s.rows[host].keySecret !in s'.vault.objects <==>
            Recorded(s.vault, KeyBase(host)) != ContentHash(key) && !fk.createFails && !fk.recordFails &&
            s.rows[host].keySecret !in fk.stuck)
  {
    ApplyOutcome(s.vault, host, cert, key, fc, fk);
    OwnSecretsIff(s, host, cert, key, fc, fk);
    hide Ensure, HostOk, Blocked;
  }

  /** Hosts that share a base take each other's certificate away: a second host's successful apply leaves the first one's
      row without its certificate exactly when the two certificates differ and the old version was collected. */
  lemma CollidingHostLosesIff(s: CertState, first: string, second: string, cert: string, key: string, f: Faults, fk: Faults)
    requires first in s.rows && HostOk(s, first) && CertBase(first) == CertBase(second) && first != second
    requires Recorded(s.vault, CertBase(first)) == s.rows[first].certHash
    requires Apply(s, second, cert, key, true, f, fk, false).1.Ok?
    ensures var after := Apply(s, second, cert, key, true, f, fk, false).0;
      && first in after.rows && after.rows[first] == s.rows[first]
      && (after.rows[first].certSecret !in after.vault.objects <==>
            s.rows[first].certHash != ContentHash(cert) && s.rows[first].certSecret !in f.stuck)
  {
    BasesApartIff(second, second);
    ApplyOutcome(s.vault, second, cert, key, f, fk);
    var row := s.rows[first];
    var v1 := Ensure(Secret, s.vault, CertBase(second), cert, f).0;
    EnsureLosesIff(s.vault, CertBase(second), cert, f, row.certSecret);
    EnsureFrame(Secret, v1, KeyBase(second), key, fk, CertBase(second));
  }

  // ---------------------------------------------------------------------------
  // Applying with a refresh
  // ---------------------------------------------------------------------------

  /** The refresh of an apply runs between its secrets and its row, and renders the old rows. What it finds of them: the
      host's own old certificate and key exactly if the hash recorded for each is that of the new bytes, or the daemon did
      not let the old version go; and the secrets of every other host. */
  lemma RefreshFindsIff(b: P.Build, w: P.World, version: string, env: P.Environment, s: CertState,
                        host: string, cert: string, key: string, fc: Faults, fk: Faults, other: string)
    requires w.secrets == s.vault && HostOk(s, host) && host in s.rows
    requires HostOk(s, other) && other in s.rows && Collapsed(other) != Collapsed(host)
    requires !Blocked(s.vault, CertBase(host), cert, fc) && !Blocked(s.vault, KeyBase(host), key, fk)
    ensures var w' := P.Update(b, w.(secrets := Minted(s.vault, host, cert, key, fc, fk)), version, env).0;
      && w'.hostCerts == w.hostCerts
      && (s.rows[host].certSecret in w'.secrets.objects <==>
            Recorded(s.vault, CertBase(host)) == ContentHash(cert) || s.rows[host].certSecret in fc.stuck)
      && (s.rows[host].keySecret in w'.secrets.objects <==>
            Recorded(s.vault, KeyBase(host)) == ContentHash(key) || s.rows[host].keySecret in fk.stuck)
      && s.rows[other].certSecret in w'.secrets.objects && s.rows[other].keySecret in w'.secrets.objects
  {
    var v2 := Minted(s.vault, host, cert, key, fc, fk);
    var u := w.(secrets := v2);
    OwnSecretsIff(s, host, cert, key, fc, fk);
    MintedAgrees(s.vault, host, cert, key, fc, fk, other);
    RowNames(s, host);
    RowNames(s, other);
    hide Minted, HostOk, P.Update;
    UpdateIsRefresh(b, u, version, env, host);
    UpdateIsRefresh(b, u, version, env, other);
    PC.UpdateKeepsRows(b, u, version, env);
  }

  lemma RowNames(s: CertState, host: string)
    requires HostOk(s, host) && host in s.rows
    ensures VersionPrefix(CertBase(host)) <= s.rows[host].certSecret && VersionPrefix(KeyBase(host)) <= s.rows[host].keySecret
    ensures s.rows[host].certSecret in s.vault.objects && s.rows[host].keySecret in s.vault.objects
  {
  }

  lemma MintedAgrees(v: Vault, host: string, cert: string, key: string, fc: Faults, fk: Faults, other: string)
    requires Collapsed(other) != Collapsed(host)
    ensures AgreeOn(v, Minted(v, host, cert, key, fc, fk), CertBase(other))
    ensures AgreeOn(v, Minted(v, host, cert, key, fc, fk), KeyBase(other))
  {
    BasesApartIff(host, other);
    BasesApartIff(other, host);
    hide Ensure, AgreeOn, Apart;
    var v1 := Ensure(Secret, v, CertBase(host), cert, fc).0;
    EnsureAgrees(Secret, v, CertBase(host), cert, fc, CertBase(other));
    EnsureAgrees(Secret, v1, KeyBase(host), key, fk, CertBase(other));
    AgreeTransitive(v, v1, Minted(v, host, cert, key, fc, fk), CertBase(other));
    EnsureAgrees(Secret, v, CertBase(host), cert, fc, KeyBase(other));
    EnsureAgrees(Secret, v1, KeyBase(host), key, fk, KeyBase(other));
    AgreeTransitive(v, v1, Minted(v, host, cert, key, fc, fk), KeyBase(other));
  }

  // ---------------------------------------------------------------------------
  // What a call leaves
  // ---------------------------------------------------------------------------

  /** The part of a secret's name that stands for the host, character by character. */
  lemma CollapsedIs(host: string, i: nat)
    requires i < |host|
    ensures |Collapsed(host)| == |host|
    ensures 'a' <= host[i] <= 'z' || '0' <= host[i] <= '9' ==> Collapsed(host)[i] == host[i]
    ensures 'A' <= host[i] <= 'Z' ==> Collapsed(host)[i] == "abcdefghijklmnopqrstuvwxyz"[host[i] as int - 'A' as int]
    ensures host[i] < '0' || '9' < host[i] < 'A' || 'Z' < host[i] < 'a' || 'z' < host[i] < '\U{80}' ==> Collapsed(host)[i] == '-'
  {
    if 'A' <= host[i] <= 'Z' {
      LowerLetter(host[i]);
    }
  }

  lemma LowerLetter(c: char)
    requires 'A' <= c <= 'Z'
    ensures LowerChar(c) == "abcdefghijklmnopqrstuvwxyz"[c as int - 'A' as int]
  {
    var letters := "abcdefghijklmnopqrstuvwxyz";
    assert forall i :: 0 <= i < 26 ==> letters[i] as int == 'a' as int + i;
  }

  /** An apply that succeeds on sound bases leaves a row naming a secret with exactly the certificate and one with exactly
      the key, each under the host's prefix, with their hashes; no other row changes. One that does not touches no row. */
  lemma ApplyStores(s: CertState, host: string, cert: string, key: string, valid: bool, fc: Faults, fk: Faults, refreshFails: bool)
    requires HostOk(s, host)
    ensures var (s', r) := Apply(s, host, cert, key, valid, fc, fk, refreshFails);
      && (r.Err? ==> s'.rows == s.rows)
      && (r.Ok? ==>
            && valid && !refreshFails && s'.rows == s.rows[host := r.value]
            && "hostcert-" + Collapsed(host) + "_v" <= r.value.certSecret && r.value.certSecret in s'.vault.objects
            && s'.vault.objects[r.value.certSecret] == cert && r.value.certHash == Sha256(cert)
            && "hostkey-" + Collapsed(host) + "_v" <= r.value.keySecret && r.value.keySecret in s'.vault.objects
            && s'.vault.objects[r.value.keySecret] == key && r.value.keyHash == Sha256(key))
      && (!valid ==> s' == s && r == Err(InvalidCertificate))
  {
    if Apply(s, host, cert, key, valid, fc, fk, refreshFails).1.Ok? {
      assert CertBase(host) + "_v" == "hostcert-" + Collapsed(host) + "_v" && KeyBase(host) + "_v" == "hostkey-" + Collapsed(host) + "_v";
      BothHold(s.vault, host, cert, key, fc, fk);
    }
    hide Ensure, Collapsed, CertBase, KeyBase, HostOk;
  }

  /** The two secrets of an apply, certificate and key. */
  lemma BothHold(v: Vault, host: string, cert: string, key: string, fc: Faults, fk: Faults)
    requires BaseOk(v, CertBase(host)) && BaseOk(v, KeyBase(host))
    requires Ensure(Secret, v, CertBase(host), cert, fc).1.Ok?
    requires Ensure(Secret, Ensure(Secret, v, CertBase(host), cert, fc).0, KeyBase(host), key, fk).1.Ok?
    ensures var (v1, c) := Ensure(Secret, v, CertBase(host), cert, fc);
      var (v2, k) := Ensure(Secret, v1, KeyBase(host), key, fk);
      && CertBase(host) + "_v" <= c.value.name && c.value.name in v2.objects && v2.objects[c.value.name] == cert
      && KeyBase(host) + "_v" <= k.value.name && k.value.name in v2.objects && v2.objects[k.value.name] == key
  {
    BasesApartIff(host, host);
    hide Ensure, Collapsed, Sound, Newest, CertBase, KeyBase, Apart;
    var (v1, c) := Ensure(Secret, v, CertBase(host), cert, fc);
    EnsureHoldsData(Secret, v, CertBase(host), cert, fc);
    EnsureNewest(Secret, v, CertBase(host), cert, fc);
    EnsureFrame(Secret, v, CertBase(host), cert, fc, KeyBase(host));
    EnsureHoldsData(Secret, v1, KeyBase(host), key, fk);
    EnsureNewest(Secret, v1, KeyBase(host), key, fk);
    EnsureFrame(Secret, v1, KeyBase(host), key, fk, CertBase(host));
  }

  /** A removal takes the row and the secrets it names, except those the daemon keeps, and nothing else; the hashes stay. */
  lemma RemovalTakes(s: CertState, own: string, host: string, certStuck: bool, keyStuck: bool)
    ensures var (s', r) := Remove(s, own, host, certStuck, keyStuck);
      && (host == own ==> s' == s && r == Err(OwnCertificate))
      && (host != own && host !in s.rows ==> s' == s && r == Err(CertNotFound))
      && (host != own && host in s.rows ==>
            var row := s.rows[host];
            && r == Ok(()) && s'.rows == s.rows - {host} && s'.vault.recorded == s.vault.recorded
            && (forall n :: n in s'.vault.objects <==>
                  n in s.vault.objects && (n == row.certSecret ==> certStuck) && (n == row.keySecret ==> keyStuck))
            && (forall n :: n in s'.vault.objects ==> s'.vault.objects[n] == s.vault.objects[n]))
  {
  }
}
