/** Applying the embedded migrations in order, each in its own transaction, and resuming after a failure. */
module Migrations {
  import opened Common

  datatype File = File(name: string, body: string)

  const SUFFIX := ".sql"

  predicate IsMigration(name: string) {
    |name| >= |SUFFIX| && name[|name| - |SUFFIX|..] == SUFFIX
  }

  function FileVersion(name: string): string
    requires IsMigration(name)
  {
    name[..|name| - |SUFFIX|]
  }

  /** Exactly the names that end in `.sql` are migrations, and the version is what stands before that. */
  lemma NamedBy(name: string, version: string)
    ensures IsMigration(version + ".sql") && FileVersion(version + ".sql") == version
    ensures IsMigration(name) ==> name == FileVersion(name) + ".sql"
  {
    assert (version + ".sql")[|version|..] == ".sql";
  }

  /** A directory listing: every name once. */
  ghost predicate Listing(files: seq<File>) {
    && (forall i :: 0 <= i < |files| ==> IsMigration(files[i].name))
    && (forall i, j :: 0 <= i < j < |files| ==> files[i].name != files[j].name)
  }

  /** The rows of `schema_version`, and everything else in the database. */
  datatype State<S> = State(applied: set<string>, db: S)

  /** Running one migration body on the database; it may fail. */
  type Exec<!S> = (S, string) -> Option<S>

  // ---------------------------------------------------------------------------
  // The runner
  // ---------------------------------------------------------------------------

  /** One transaction. `faulty` holds the versions whose read, begin, insert or commit fails in this run. */
  function Transaction<S>(st: State<S>, version: string, body: string, exec: Exec<S>, faulty: set<string>): Option<State<S>> {
    match exec(st.db, body)
    case None => None
    case Some(db) =>
      if version in faulty || version in st.applied then None
      else Some(State(st.applied + {version}, db))
  }

  /** What a run does, given the versions known as applied when it started. */
  function RunFrom<S>(files: seq<File>, known: set<string>, st: State<S>, exec: Exec<S>, faulty: set<string>): (State<S>, bool)
    requires forall i :: 0 <= i < |files| ==> IsMigration(files[i].name)
  {
    if files == [] then (st, true)
    else
      var version := FileVersion(files[0].name);
      if version in known then RunFrom(files[1..], known, st, exec, faulty)
      else
        match Transaction(st, version, files[0].body, exec, faulty)
        case None => (st, false)
        case Some(next) => RunFrom(files[1..], known, next, exec, faulty)
  }

  function Run<S>(files: seq<File>, st: State<S>, exec: Exec<S>, faulty: set<string>): (State<S>, bool)
    requires forall i :: 0 <= i < |files| ==> IsMigration(files[i].name)
  {
    RunFrom(files, st.applied, st, exec, faulty)
  }

  class Database<S> {
    var applied: set<string>
    var db: S

    constructor (empty: S)
      ensures applied == {} && db == empty
    {
      applied, db := {}, empty;
    }

    function Current(): State<S>
      reads this
    {
      State(applied, db)
    }

    method ApplyMigration(version: string, body: string, exec: Exec<S>, faulty: set<string>) returns (ok: bool)
      modifies this
      ensures var after := Transaction(old(Current()), version, body, exec, faulty);
        && ok == after.Some?
        && Current() == if ok then after.value else old(Current())
    {
      var executed := exec(db, body);
      if executed.None? {
        return false;
      }
      if version in faulty || version in applied {
        return false; // the transaction rolls back
      }
      db := executed.value;
      applied := applied + {version};
      ok := true;
    }

    method RunMigrations(files: seq<File>, exec: Exec<S>, faulty: set<string>) returns (ok: bool)
      requires forall i :: 0 <= i < |files| ==> IsMigration(files[i].name)
      modifies this
      ensures (Current(), ok) == Run(files, old(Current()), exec, faulty)
    {
      var known := applied;
      for i := 0 to |files|
        invariant RunFrom(files[i..], known, Current(), exec, faulty) == Run(files, old(Current()), exec, faulty)
      {
        assert files[i..][1..] == files[i + 1..];
        var version := FileVersion(files[i].name);
        if version in known {
          continue;
        }
        ok := ApplyMigration(version, files[i].body, exec, faulty);
        if !ok {
          return;
        }
      }
      ok := true;
    }
  }

  // ---------------------------------------------------------------------------
  // Prefixes
  // ---------------------------------------------------------------------------

  ghost function Versions(files: seq<File>): set<string>
    requires forall i :: 0 <= i < |files| ==> IsMigration(files[i].name)
  {
    set i | 0 <= i < |files| :: FileVersion(files[i].name)
  }

  /** The bodies run one after another, each once. */
  ghost function Fold<S>(db: S, files: seq<File>, exec: Exec<S>): Option<S> {
    if files == [] then Some(db)
    else
      match Fold(db, files[..|files| - 1], exec)
      case None => None
      case Some(before) => exec(before, files[|files| - 1].body)
  }

  /** Exactly the first `k` migrations are recorded, and the database is what their bodies made of the first one. */
  ghost predicate AtPrefix<S>(files: seq<File>, k: nat, first: S, st: State<S>, exec: Exec<S>)
    requires Listing(files) && k <= |files|
  {
    st.applied == Versions(files[..k]) && Fold(first, files[..k], exec) == Some(st.db)
  }

  lemma VersionsDistinct(files: seq<File>, k: nat, i: nat)
    requires Listing(files) && k <= i < |files|
    ensures FileVersion(files[i].name) !in Versions(files[..k])
  {
    forall j | 0 <= j < k
      ensures FileVersion(files[..k][j].name) != FileVersion(files[i].name)
    {
      assert files[..k][j].name == FileVersion(files[..k][j].name) + SUFFIX;
      assert files[i].name == FileVersion(files[i].name) + SUFFIX;
    }
  }

  lemma VersionsGrow(files: seq<File>, k: nat)
    requires Listing(files) && k < |files|
    ensures Versions(files[..k + 1]) == Versions(files[..k]) + {FileVersion(files[k].name)}
  {
    var a, b := files[..k + 1], files[..k];
    assert forall j :: 0 <= j < k ==> a[j] == b[j];
    forall v | v in Versions(b)
      ensures v in Versions(a)
    {
      var j :| 0 <= j < k && v == FileVersion(b[j].name);
      assert a[j] == b[j];
    }
    assert a[k] == files[k];
  }

  /** Some migration of the list from `i` on cannot be applied in this run. */
  ghost predicate Blocked<S>(files: seq<File>, i: nat, first: S, exec: Exec<S>, faulty: set<string>)
    requires Listing(files) && i < |files|
  {
    FileVersion(files[i].name) in faulty || Fold(first, files[..i + 1], exec).None?
  }

  lemma FoldStep<S>(first: S, files: seq<File>, i: nat, exec: Exec<S>)
    requires i < |files|
    ensures Fold(first, files[..i + 1], exec) ==
      match Fold(first, files[..i], exec) case None => None case Some(before) => exec(before, files[i].body)
  {
    assert files[..i + 1][..i] == files[..i];
  }

  /** The loop, from any position at or behind the prefix, stops in front of the first blocked migration. */
  lemma {:induction false} RunsToBlock<S>(files: seq<File>, k: nat, i: nat, first: S, st: State<S>, exec: Exec<S>, faulty: set<string>)
    returns (k': nat)
    requires Listing(files) && k <= i <= |files| && AtPrefix(files, i, first, st, exec)
    ensures i <= k' <= |files|
    ensures var (after, ok) := RunFrom(files[i..], Versions(files[..k]), st, exec, faulty);
      AtPrefix(files, k', first, after, exec) && (ok <==> k' == |files|)
    ensures forall j :: i <= j < k' ==> !Blocked(files, j, first, exec, faulty)
    ensures k' < |files| ==> Blocked(files, k', first, exec, faulty)
    decreases |files| - i
  {
    k' := i;
    if i < |files| {
      VersionsDistinct(files, k, i);
      VersionsDistinct(files, i, i);
      FoldStep(first, files, i, exec);
      var version := FileVersion(files[i].name);
      var next := Transaction(st, version, files[i].body, exec, faulty);
      assert files[i..][0] == files[i] && files[i..][1..] == files[i + 1..];
      if next.Some? {
        VersionsGrow(files, i);
        k' := RunsToBlock(files, k, i + 1, first, next.value, exec, faulty);
      }
    }
  }

  lemma {:induction false} SkipsKnown<S>(files: seq<File>, k: nat, i: nat, st: State<S>, exec: Exec<S>, faulty: set<string>)
    requires Listing(files) && i <= k <= |files|
    ensures RunFrom(files[i..], Versions(files[..k]), st, exec, faulty) == RunFrom(files[k..], Versions(files[..k]), st, exec, faulty)
    decreases k - i
  {
    if i < k {
      assert files[..k][i] == files[i];
      assert files[i..][0] == files[i] && files[i..][1..] == files[i + 1..];
      SkipsKnown(files, k, i + 1, st, exec, faulty);
    }
  }

  /** Any run, failing anywhere, keeps the applied set a prefix with the database equal to exactly those bodies,
      and gets as far as the first blocked migration. */
  lemma PrefixStays<S>(files: seq<File>, k: nat, first: S, st: State<S>, exec: Exec<S>, faulty: set<string>) returns (k': nat)
    requires Listing(files) && k <= |files| && AtPrefix(files, k, first, st, exec)
    ensures k <= k' <= |files|
    ensures var (after, ok) := Run(files, st, exec, faulty);
      AtPrefix(files, k', first, after, exec) && (ok <==> k' == |files|)
    ensures forall j :: k <= j < k' ==> !Blocked(files, j, first, exec, faulty)
    ensures k' < |files| ==> Blocked(files, k', first, exec, faulty)
  {
    assert files[0..] == files;
    SkipsKnown(files, k, 0, st, exec, faulty);
    k' := RunsToBlock(files, k, k, first, st, exec, faulty);
  }

  /** A run succeeds exactly when none of the migrations still to be applied is blocked. */
  lemma RunOkIff<S>(files: seq<File>, k: nat, first: S, st: State<S>, exec: Exec<S>, faulty: set<string>)
    requires Listing(files) && k <= |files| && AtPrefix(files, k, first, st, exec)
    ensures Run(files, st, exec, faulty).1 <==> forall j :: k <= j < |files| ==> !Blocked(files, j, first, exec, faulty)
  {
    var k' := PrefixStays(files, k, first, st, exec, faulty);
  }

  // ---------------------------------------------------------------------------
  // Resuming
  // ---------------------------------------------------------------------------

  /** One run after another, each with its own faults. */
  ghost function Runs<S>(files: seq<File>, st: State<S>, exec: Exec<S>, faults: seq<set<string>>): State<S>
    requires Listing(files)
    decreases |faults|
  {
    if faults == [] then st
    else Run(files, Runs(files, st, exec, faults[..|faults| - 1]), exec, faults[|faults| - 1]).0
  }

  lemma {:induction false} RunsKeepPrefix<S>(files: seq<File>, k: nat, first: S, st: State<S>, exec: Exec<S>, faults: seq<set<string>>)
    returns (k': nat)
    requires Listing(files) && k <= |files| && AtPrefix(files, k, first, st, exec)
    ensures k <= k' <= |files| && AtPrefix(files, k', first, Runs(files, st, exec, faults), exec)
    decreases |faults|
  {
    k' := k;
    if faults != [] {
      var front, last := faults[..|faults| - 1], faults[|faults| - 1];
      var between := RunsKeepPrefix(files, k, first, st, exec, front);
      k' := PrefixStays(files, between, first, Runs(files, st, exec, front), exec, last);
    }
  }

  /** However many runs fail, and wherever, a run that then succeeds leaves exactly the state that one
      uninterrupted run on the fresh database leaves. */
  lemma ResumeReachesTheSame<S>(files: seq<File>, first: S, exec: Exec<S>, faults: seq<set<string>>, faulty: set<string>)
    requires Listing(files)
    requires Run(files, Runs(files, State({}, first), exec, faults), exec, faulty).1
    ensures Run(files, State({}, first), exec, {}).1
    ensures Run(files, Runs(files, State({}, first), exec, faults), exec, faulty).0 == Run(files, State({}, first), exec, {}).0
    ensures Fold(first, files, exec).Some?
    ensures Run(files, State({}, first), exec, {}).0 == State(Versions(files), Fold(first, files, exec).value)
  {
    var st := State({}, first);
    assert files[..0] == [];
    assert AtPrefix(files, 0, first, st, exec);
    var k := RunsKeepPrefix(files, 0, first, st, exec, faults);
    var k' := PrefixStays(files, k, first, Runs(files, st, exec, faults), exec, faulty);
    var whole := PrefixStays(files, 0, first, st, exec, {});
    assert files[..|files|] == files;
    FoldBelow(first, files, whole, exec);
  }

  /** If all bodies run, every shorter list of them runs. */
  lemma {:induction false} FoldBelow<S>(first: S, files: seq<File>, k: nat, exec: Exec<S>)
    requires k <= |files| && Fold(first, files, exec).Some?
    ensures Fold(first, files[..k], exec).Some?
    ensures k < |files| ==> Fold(first, files[..k + 1], exec).Some?
    decreases |files|
  {
    assert files[..|files|] == files;
    if k < |files| {
      var front := files[..|files| - 1];
      FoldBelow(first, front, k, exec);
      assert front[..k] == files[..k];
      if k < |front| {
        assert front[..k + 1] == files[..k + 1];
      }
    }
  }

  // ---------------------------------------------------------------------------
  // Any applied set
  // ---------------------------------------------------------------------------

  ghost predicate Named(files: seq<File>) {
    forall i :: 0 <= i < |files| ==> IsMigration(files[i].name)
  }

  /** The files of the list whose versions are recorded, or are not, in list order. */
  function Selected(files: seq<File>, applied: set<string>, recorded: bool): (part: seq<File>)
    requires forall i :: 0 <= i < |files| ==> IsMigration(files[i].name)
    ensures forall i :: 0 <= i < |part| ==> IsMigration(part[i].name)
  {
    if files == [] then []
    else
      var rest := Selected(files[1..], applied, recorded);
      if (FileVersion(files[0].name) in applied) == recorded then [files[0]] + rest else rest
  }

  lemma {:induction false} SelectedMembers(files: seq<File>, applied: set<string>, recorded: bool)
    requires Named(files)
    ensures forall f :: f in Selected(files, applied, recorded) ==> (FileVersion(f.name) in applied) == recorded
  {
    if files != [] {
      SelectedMembers(files[1..], applied, recorded);
    }
  }

  lemma {:induction false} FoldAppend<S>(db: S, a: seq<File>, b: seq<File>, exec: Exec<S>)
    ensures Fold(db, a + b, exec) == match Fold(db, a, exec) case None => None case Some(mid) => Fold(mid, b, exec)
    decreases |b|
  {
    if b == [] {
      assert a + b == a;
    } else {
      var front := b[..|b| - 1];
      assert (a + b)[..|a + b| - 1] == a + front && (a + b)[|a + b| - 1] == b[|b| - 1];
      FoldAppend(db, a, front, exec);
    }
  }

  lemma FoldOne<S>(db: S, f: File, exec: Exec<S>)
    ensures Fold(db, [f], exec) == exec(db, f.body)
  {
    assert [f][..0] == [];
  }

  ghost predicate NoneFaulty(files: seq<File>, faulty: set<string>)
    requires Named(files)
  {
    forall f :: f in files ==> FileVersion(f.name) !in faulty
  }

  /** The files behind the first one have other versions. */
  lemma ListingRest(files: seq<File>)
    requires Listing(files) && files != []
    ensures Listing(files[1..])
    ensures forall f :: f in files[1..] ==> FileVersion(f.name) != FileVersion(files[0].name)
  {
    var rest := files[1..];
    assert forall i :: 0 <= i < |rest| ==> rest[i] == files[i + 1];
    forall f | f in rest
      ensures FileVersion(f.name) != FileVersion(files[0].name)
    {
      assert f.name == FileVersion(f.name) + SUFFIX && files[0].name == FileVersion(files[0].name) + SUFFIX;
    }
  }

  ghost function VersionsOf(files: seq<File>): set<string>
    requires Named(files)
  {
    set f | f in files :: FileVersion(f.name)
  }

  /** What a run is to make of a database with a list of files still to be applied. */
  ghost predicate Applies<S>(missing: seq<File>, st: State<S>, exec: Exec<S>, faulty: set<string>, after: State<S>, ok: bool)
    requires Named(missing)
  {
    && (ok <==> Fold(st.db, missing, exec).Some? && NoneFaulty(missing, faulty))
    && (ok ==> after == State(st.applied + VersionsOf(missing), Fold(st.db, missing, exec).value))
  }

  lemma AppliesFirst<S>(f: File, missing: seq<File>, st: State<S>, exec: Exec<S>, faulty: set<string>, after: State<S>, ok: bool)
    requires IsMigration(f.name) && Named(missing) && FileVersion(f.name) !in st.applied
    requires match Transaction(st, FileVersion(f.name), f.body, exec, faulty)
             case None => !ok
             case Some(next) => Applies(missing, next, exec, faulty, after, ok)
    ensures Named([f] + missing) && Applies([f] + missing, st, exec, faulty, after, ok)
  {
    FoldAppend(st.db, [f], missing, exec);
    FoldOne(st.db, f, exec);
    hide Fold;
    assert NoneFaulty([f] + missing, faulty) <==> FileVersion(f.name) !in faulty && NoneFaulty(missing, faulty);
    assert st.applied + {FileVersion(f.name)} + VersionsOf(missing) == st.applied + VersionsOf([f] + missing);
  }

  lemma {:induction false} RunsMissingFrom<S>(files: seq<File>, known: set<string>, st: State<S>, exec: Exec<S>, faulty: set<string>)
    requires Listing(files)
    requires forall f :: f in files ==> (FileVersion(f.name) in st.applied <==> FileVersion(f.name) in known)
    ensures var (after, ok) := RunFrom(files, known, st, exec, faulty);
      Applies(Selected(files, known, false), st, exec, faulty, after, ok)
  {
    if files == [] {
      assert st.applied + VersionsOf([]) == st.applied;
    } else {
      ListingRest(files);
      var f, rest := files[0], files[1..];
      hide Applies;
      assert forall g :: g in rest ==> g in files;
      if FileVersion(f.name) in known {
        RunsMissingFrom(rest, known, st, exec, faulty);
      } else {
        var next := Transaction(st, FileVersion(f.name), f.body, exec, faulty);
        if next.Some? {
          RunsMissingFrom(rest, known, next.value, exec, faulty);
        }
        var (after, ok) := RunFrom(files, known, st, exec, faulty);
        AppliesFirst(f, Selected(rest, known, false), st, exec, faulty, after, ok);
      }
    }
  }

  /** Whatever is recorded, a run applies the missing migrations in list order behind everything applied before: it
      succeeds if and only if all of them run there and none is faulty. A database that is what the recorded bodies made
      of the first one then is what the recorded bodies, and after them the missing ones, make of it. */
  lemma RunsMissing<S>(files: seq<File>, first: S, st: State<S>, exec: Exec<S>, faulty: set<string>)
    requires Listing(files) && Fold(first, Selected(files, st.applied, true), exec) == Some(st.db)
    ensures var done, missing := Selected(files, st.applied, true), Selected(files, st.applied, false);
      var (after, ok) := Run(files, st, exec, faulty);
      && (ok <==> Fold(first, done + missing, exec).Some? && NoneFaulty(missing, faulty))
      && (ok ==> after == State(st.applied + VersionsOf(missing), Fold(first, done + missing, exec).value))
  {
    RunsMissingFrom(files, st.applied, st, exec, faulty);
    FoldAppend(first, Selected(files, st.applied, true), Selected(files, st.applied, false), exec);
  }

  /** The recorded files come first in the list. */
  ghost predicate PrefixApplied(files: seq<File>, applied: set<string>)
    requires Named(files)
  {
    forall i, j :: 0 <= i < j < |files| && FileVersion(files[j].name) in applied ==> FileVersion(files[i].name) in applied
  }

  lemma {:induction false} SelectedAll(files: seq<File>, applied: set<string>, recorded: bool)
    requires Named(files) && forall f :: f in files ==> (FileVersion(f.name) in applied) == recorded
    ensures Selected(files, applied, recorded) == files && Selected(files, applied, !recorded) == []
  {
    if files != [] {
      assert files[0] in files;
      SelectedAll(files[1..], applied, recorded);
    }
  }

  lemma {:induction false} PrefixRunsInOrder(files: seq<File>, applied: set<string>)
    requires Named(files) && PrefixApplied(files, applied)
    ensures Selected(files, applied, true) + Selected(files, applied, false) == files
  {
    if files != [] {
      var rest := files[1..];
      assert forall i :: 0 <= i < |rest| ==> rest[i] == files[i + 1];
      if FileVersion(files[0].name) in applied {
        PrefixRunsInOrder(rest, applied);
        assert [files[0]] + (Selected(rest, applied, true) + Selected(rest, applied, false)) == files;
      } else {
        SelectedAll(files, applied, false);
      }
    }
  }

  /** The bodies run in the order of the list if and only if the recorded migrations come first in it: one that a later
      build puts in front of a recorded one runs out of order. */
  lemma RunsInOrderIff(files: seq<File>, applied: set<string>)
    requires Named(files)
    ensures Selected(files, applied, true) + Selected(files, applied, false) == files <==> PrefixApplied(files, applied)
  {
    var done, missing := Selected(files, applied, true), Selected(files, applied, false);
    SelectedMembers(files, applied, true);
    SelectedMembers(files, applied, false);
    if PrefixApplied(files, applied) {
      PrefixRunsInOrder(files, applied);
    }
    hide Selected;
    if done + missing == files {
      forall i | 0 <= i < |files|
        ensures FileVersion(files[i].name) in applied <==> i < |done|
      {
        assert files[i] == if i < |done| then done[i] else missing[i - |done|];
        assert files[i] in if i < |done| then done else missing;
      }
    }
  }

  // ---------------------------------------------------------------------------
  // The bad run
  // ---------------------------------------------------------------------------

  lemma {:induction false} SelectedAppend(a: seq<File>, b: seq<File>, applied: set<string>, recorded: bool)
    requires Named(a) && Named(b) && Named(a + b)
    ensures Selected(a + b, applied, recorded) == Selected(a, applied, recorded) + Selected(b, applied, recorded)
  {
    if a == [] {
      assert a + b == b;
    } else {
      assert (a + b)[1..] == a[1..] + b && (a + b)[0] == a[0];
      SelectedAppend(a[1..], b, applied, recorded);
      if (FileVersion(a[0].name) in applied) == recorded {
        assert [a[0]] + (Selected(a[1..], applied, recorded) + Selected(b, applied, recorded))
            == ([a[0]] + Selected(a[1..], applied, recorded)) + Selected(b, applied, recorded);
      }
    }
  }

  ghost predicate AllRecorded(files: seq<File>, applied: set<string>) {
    Named(files) && forall f :: f in files ==> FileVersion(f.name) in applied
  }

  lemma NamedAppend(a: seq<File>, b: seq<File>)
    requires Named(a) && Named(b)
    ensures Named(a + b)
  {
  }

  lemma InsertedIsMissing(a: seq<File>, x: File, b: seq<File>, applied: set<string>)
    requires AllRecorded(a, applied) && AllRecorded(b, applied) && IsMigration(x.name) && FileVersion(x.name) !in applied
    ensures Named(a + [x] + b)
    ensures Selected(a + [x] + b, applied, true) == a + b && Selected(a + [x] + b, applied, false) == [x]
  {
    NamedAppend(a, [x]);
    NamedAppend(a + [x], b);
    SelectedAll(a, applied, true);
    SelectedAll([x], applied, false);
    SelectedAll(b, applied, true);
    hide Selected, Named, IsMigration;
    SelectedAppend(a + [x], b, applied, true);
    SelectedAppend(a + [x], b, applied, false);
    SelectedAppend(a, [x], applied, true);
    SelectedAppend(a, [x], applied, false);
    assert a + [] == a && [] + [x] == [x] && [x] + [] == [x];
  }

  /** A migration that a later build inserts in front of a recorded one is out of order, and runs behind all of them: the
      database becomes that of the order a, b, x although the list reads a, x, b. */
  lemma InsertedMigrationRunsLast<S>(a: seq<File>, x: File, b: seq<File>, first: S, st: State<S>, exec: Exec<S>)
    requires Listing(a + [x] + b) && AllRecorded(a, st.applied) && AllRecorded(b, st.applied) && b != []
    requires IsMigration(x.name) && FileVersion(x.name) !in st.applied
    requires Fold(first, a + b, exec) == Some(st.db)
    ensures !PrefixApplied(a + [x] + b, st.applied)
    ensures Run(a + [x] + b, st, exec, {}).1 <==> Fold(first, a + b + [x], exec).Some?
    ensures Run(a + [x] + b, st, exec, {}).1 ==> Run(a + [x] + b, st, exec, {}).0.db == Fold(first, a + b + [x], exec).value
  {
    var files := a + [x] + b;
    assert files[|a|] == x && files[|a| + 1] == b[0] && b[0] in b;
    InsertedIsMissing(a, x, b, st.applied);
    hide Selected, Fold, RunFrom;
    RunsMissing(files, first, st, exec, {});
  }
}
