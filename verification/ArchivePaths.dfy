/** Where archive entries are restored to: prefix stripping, the escape check and the entry loop. */
module ArchivePaths {
  import opened Common
  import opened Paths
  import opened Splitting

  /** The path of an entry relative to the target, without the prefix baked into the archive. */
  function StripPrefix(name: string, prefix: string): string {
    var clean := TrimSlash(Clean(name));
    if clean == prefix then "."
    else if prefix + "/" <= clean then clean[|prefix| + 1..]
    else clean
  }

  const DATA_PREFIX := "backup/data"
  const CONTROL_PLANE_PREFIX := "backup/pmcluster"

  function Destination(target: string, name: string, prefix: string): string {
    JoinPath(target, StripPrefix(name, prefix))
  }

  // ---------------------------------------------------------------------------
  // The entry loop
  // ---------------------------------------------------------------------------

  datatype EntryKind = Directory | Regular | Other

  /** What the filesystem does with an entry: all of it, nothing, or a file of which only a part is written. */
  datatype Outcome = Done | Refused | Cut(part: string)

  datatype Entry = Entry(name: string, kind: EntryKind, content: string, outcome: Outcome)

  datatype RestoreError = Escapes(name: string) | Fails(path: string) | Unreadable

  /** Entries in order until one escapes or the filesystem fails on it, or, in a broken archive, no next one can be read:
      the files then, how many regular entries were written, and the error. */
  function RestoreFrom(entries: seq<Entry>, target: string, prefix: string, broken: bool,
                       files: map<string, string>, count: nat): (map<string, string>, nat, Option<RestoreError>)
    decreases |entries|
  {
    if entries == [] then (files, count, if broken then Some(Unreadable) else None)
    else
      var e := entries[0];
      var path := Destination(target, e.name, prefix);
      if !Accepted(target, path) then (files, count, Some(Escapes(e.name)))
      else if e.kind.Other? then RestoreFrom(entries[1..], target, prefix, broken, files, count)
      else if e.kind.Directory? then
        if e.outcome.Done? then RestoreFrom(entries[1..], target, prefix, broken, files, count)
        else (files, count, Some(Fails(path)))
      else
        match e.outcome
        case Done => RestoreFrom(entries[1..], target, prefix, broken, files[path := e.content], count + 1)
        case Refused => (files, count, Some(Fails(path)))
        case Cut(part) => (files[path := part], count, Some(Fails(path)))
  }

  class Filesystem {
    var files: map<string, string>

    constructor (files: map<string, string>)
      ensures this.files == files
    {
      this.files := files;
    }

    /** A file that is cut short stays as it is, uncounted, under the name of the whole one. */
    method RestoreArchive(entries: seq<Entry>, target: string, prefix: string, broken: bool)
      returns (count: nat, err: Option<RestoreError>)
      modifies this
      ensures (files, count, err) == RestoreFrom(entries, target, prefix, broken, old(files), 0)
    {
      count := 0;
      for i := 0 to |entries|
        invariant RestoreFrom(entries[i..], target, prefix, broken, files, count)
               == RestoreFrom(entries, target, prefix, broken, old(files), 0)
      {
        var e := entries[i];
        assert entries[i..][0] == e && entries[i..][1..] == entries[i + 1..];
        var path := JoinPath(target, StripPrefix(e.name, prefix));
        if path != target && !(target + "/" <= path) {
          return count, Some(Escapes(e.name));
        }
        match e.kind
        case Directory =>
          if !e.outcome.Done? {
            return count, Some(Fails(path));
          }
        case Regular =>
          match e.outcome {
            case Done =>
            case Refused =>
              return count, Some(Fails(path));
            case Cut(part) =>
              files := files[path := part];
              return count, Some(Fails(path));
          }
          files := files[path := e.content];
          count := count + 1;
        case Other =>
      }
      err := if broken then Some(Unreadable) else None;
    }
  }

  // ---------------------------------------------------------------------------
  // Destinations
  // ---------------------------------------------------------------------------

  /** The two baked-in prefixes as components. */
  lemma PrefixComponents()
    ensures DATA_PREFIX == Relative(["backup", "data"]) && CONTROL_PLANE_PREFIX == Relative(["backup", "pmcluster"])
    ensures AllNames(["backup", "data"]) && AllNames(["backup", "pmcluster"])
  {
    TwoComponents("backup", "data");
    TwoComponents("backup", "pmcluster");
    hide Relative;
  }

  lemma TwoComponents(a: string, b: string)
    ensures Relative([a, b]) == a + "/" + b
  {
    assert [a, b][1..] == [b] && [b][1..] == [];
    assert Path([b]) == "/" + b;
    assert Path([a, b]) == "/" + (a + "/" + b);
  }

  /** The components relative to the target, the prefix taken off. */
  function RelativeComponents(name: string, pre: seq<string>): seq<string> {
    var r := NameComponents(name);
    if pre <= r then r[|pre|..] else r
  }

  lemma RelativeNormal(name: string, pre: seq<string>)
    requires AllNames(pre) && pre != []
    ensures Normal(false, RelativeComponents(name, pre)) && AllPlain(RelativeComponents(name, pre))
  {
    ComponentsNormal(name);
    var r := NameComponents(name);
    if pre <= r {
      assert r[0] == pre[0];
      assert Ups(r) == 0;
      var rest := r[|pre|..];
      assert forall i :: 0 <= i < |rest| ==> rest[i] == r[0..][|pre| + i];
      UpsOf([], rest);
      assert [] + rest == rest;
      assert rest[0..] == rest;
    }
  }

  lemma TrimmedIsText(name: string)
    ensures IsText(TrimSlash(Clean(name)), NameComponents(name))
    ensures NameComponents(name) != [] ==> Path(NameComponents(name)) == "/" + TrimSlash(Clean(name))
  {
    ComponentsNormal(name);
    var r := NameComponents(name);
    hide Walk, Normal;
    if r != [] {
      assert Path(r)[0] == '/' && Plain(r[0]) && Path(r)[1] == r[0][0] != '/';
    }
  }

  lemma StripIsRelative(name: string, pre: seq<string>)
    requires AllNames(pre) && pre != []
    ensures IsText(StripPrefix(name, Relative(pre)), RelativeComponents(name, pre))
  {
    ComponentsNormal(name);
    TrimmedIsText(name);
    SlashRelative(pre);
    hide Clean, TrimSlash, NameComponents, Path, Relative, IsName;
    var r := NameComponents(name);
    var clean := TrimSlash(Clean(name));
    if r == [] {
      StripNothing(clean, pre);
    } else {
      StripSome(clean, r, pre);
    }
  }

  lemma SlashRelative(pre: seq<string>)
    requires AllNames(pre) && pre != []
    ensures AllPlain(pre) && Path(pre) == "/" + Relative(pre)
  {
    assert Path(pre)[0] == '/';
  }

  lemma StripNothing(clean: string, pre: seq<string>)
    requires AllNames(pre) && pre != [] && (clean == "" || clean == ".")
    ensures clean != Relative(pre) && !(Relative(pre) + "/" <= clean)
  {
    assert IsName(pre[0]);
    var p := Relative(pre);
    assert p == pre[0] + Path(pre[1..]);
    if pre[1..] == [] {
      assert p == pre[0];
    } else {
      assert |Path(pre[1..])| >= 2;
    }
  }

  lemma StripSome(clean: string, r: seq<string>, pre: seq<string>)
    requires AllPlain(r) && AllPlain(pre) && r != [] && pre != []
    requires Path(r) == "/" + clean && Path(pre) == "/" + Relative(pre)
    ensures var p := Relative(pre);
      && (clean == p || p + "/" <= clean <==> pre <= r)
      && (pre <= r && clean != p ==> clean[|p| + 1..] == Relative(r[|pre|..]))
      && (clean == p ==> r == pre)
  {
    var p := Relative(pre);
    AcceptedIsBelow(pre, r);
    SlashPrefix(p, clean);
    SlashPrefix(p + "/", clean);
    assert Path(pre) + "/" == "/" + (p + "/");
    if clean == p {
      PathIsInjective(r, pre);
    } else if pre <= r {
      StripsRest(clean, p, r, pre);
    }
  }

  lemma StringRest(clean: string, p: string, tail: string)
    requires "/" + clean == "/" + p + tail && clean != p
    ensures tail != "" && |clean| == |p| + |tail| && clean[|p| + 1..] == tail[1..]
  {
    assert "/" + p + tail == "/" + (p + tail);
    SlashPrefix(clean, p + tail);
    assert p + "" == p;
  }

  lemma StripsRest(clean: string, p: string, r: seq<string>, pre: seq<string>)
    requires Path(r) == "/" + clean && Path(pre) == "/" + p && pre <= r && clean != p
    ensures |p| < |clean| && clean[|p| + 1..] == Relative(r[|pre|..])
  {
    hide Path, Relative;
    var rest := r[|pre|..];
    assert r == pre + rest;
    PathAppend(pre, rest);
    StringRest(clean, p, Path(rest));
    RelativeOf(rest);
  }

  /** The components an entry is restored at. */
  function RestoredAt(t: seq<string>, name: string, pre: seq<string>): seq<string> {
    Climbed(t, RelativeComponents(name, pre))
  }

  /** Where an entry goes, and that the check on strings is exact: it admits an entry if and only if the entry's
      path is component-wise at or below the target, whatever `..` its name holds. That is the case exactly when
      the name, after climbing, comes back down the way it went up. */
  lemma AcceptedIff(t: seq<string>, name: string, pre: seq<string>)
    requires AllNames(t) && t != [] && AllNames(pre) && pre != []
    ensures var dest := Destination(Path(t), name, Relative(pre));
      var r := RelativeComponents(name, pre);
      var up := Min(Ups(r), |t|);
      && dest == Rooted(RestoredAt(t, name, pre)) && AllNames(RestoredAt(t, name, pre))
      && (Accepted(Path(t), dest) <==> t <= RestoredAt(t, name, pre))
      && (Accepted(Path(t), dest) <==> t[|t| - up..] <= r[Ups(r)..])
  {
    hide Path, Rooted, RelativeComponents, Destination, Accepted, Ups, IsName, Relative, Climbed;
    RestoredWhere(t, name, pre);
    CheckIsExact(t, RestoredAt(t, name, pre));
    ClimbedIff(t, RelativeComponents(name, pre));
  }

  lemma RestoredWhere(t: seq<string>, name: string, pre: seq<string>)
    requires AllNames(t) && t != [] && AllNames(pre) && pre != []
    ensures Destination(Path(t), name, Relative(pre)) == Rooted(RestoredAt(t, name, pre)) && AllNames(RestoredAt(t, name, pre))
  {
    RelativeNormal(name, pre);
    StripIsRelative(name, pre);
    var r := RelativeComponents(name, pre);
    hide RelativeComponents, Path, Rooted, Walk, StripPrefix, IsText, JoinPath, AllPlain, Relative;
    JoinWalks(t, StripPrefix(name, Relative(pre)), r);
    WalkNormal(t, r);
    assert AllNames(r[Ups(r)..]);
  }

  /** An entry whose name does not climb is restored below the target, the prefix taken off. */
  lemma PlainEntry(t: seq<string>, name: string, pre: seq<string>, p: seq<string>)
    requires AllNames(t) && t != [] && AllNames(pre) && pre != []
    requires NameComponents(name) == pre + p
    ensures Destination(Path(t), name, Relative(pre)) == Path(t + p)
    ensures Accepted(Path(t), Path(t + p))
  {
    AcceptedIff(t, name, pre);
    StartsPlain(name, pre, p);
    assert t[..|t|] == t;
    assert t + p != [];
  }

  lemma StartsPlain(name: string, pre: seq<string>, p: seq<string>)
    requires AllNames(pre) && pre != [] && NameComponents(name) == pre + p
    ensures RelativeComponents(name, pre) == p && Ups(p) == 0 && p[0..] == p
  {
    RelativeNormal(name, pre);
    ComponentsNormal(name);
    var r := pre + p;
    hide NameComponents;
    assert r[|pre|..] == p;
    assert r[0] == pre[0] && IsName(pre[0]);
    assert Ups(r) == 0;
    if p != [] {
      assert p[0] == r[0..][|pre|];
    }
  }

  // ---------------------------------------------------------------------------
  // Whole archives
  // ---------------------------------------------------------------------------

  ghost predicate SameAt(files: map<string, string>, after: map<string, string>, path: string) {
    (path in after <==> path in files) && (path in files ==> after[path] == files[path])
  }

  lemma AcceptedMeansBelow(t: seq<string>, name: string, pre: seq<string>)
    requires AllNames(t) && t != [] && AllNames(pre) && pre != []
    requires Accepted(Path(t), Destination(Path(t), name, Relative(pre)))
    ensures Below(t, Destination(Path(t), name, Relative(pre)))
  {
    AcceptedIff(t, name, pre);
    var at := RestoredAt(t, name, pre);
    assert at != [];
  }

  /** Whatever the archive holds and however restoring it ends, nothing outside the target changes. */
  lemma {:induction false} NothingOutsideChanges(entries: seq<Entry>, t: seq<string>, pre: seq<string>, broken: bool,
                                                 files: map<string, string>, count: nat, path: string)
    requires AllNames(t) && t != [] && AllNames(pre) && pre != [] && !Below(t, path)
    ensures SameAt(files, RestoreFrom(entries, Path(t), Relative(pre), broken, files, count).0, path)
    decreases |entries|
  {
    if entries != [] {
      var e, target, prefix := entries[0], Path(t), Relative(pre);
      var dest := Destination(target, e.name, prefix);
      if Accepted(target, dest) {
        AcceptedMeansBelow(t, e.name, pre);
        hide Below, Destination, Accepted, Path, Relative, AllNames, SameAt;
        OthersSame(files, dest, e.content, path);
        OthersSame(files, dest, if e.outcome.Cut? then e.outcome.part else "", path);
        if e.kind.Regular? && e.outcome.Done? {
          NothingOutsideChanges(entries[1..], t, pre, broken, files[dest := e.content], count + 1, path);
          SameTransitive(files, files[dest := e.content],
                         RestoreFrom(entries[1..], target, prefix, broken, files[dest := e.content], count + 1).0, path);
        } else if e.kind.Other? || e.outcome.Done? {
          NothingOutsideChanges(entries[1..], t, pre, broken, files, count, path);
        }
      }
    }
  }

  lemma OthersSame(files: map<string, string>, dest: string, content: string, path: string)
    requires path != dest
    ensures SameAt(files, files, path) && SameAt(files, files[dest := content], path)
  {
  }

  lemma SameTransitive(a: map<string, string>, b: map<string, string>, c: map<string, string>, path: string)
    requires SameAt(a, b, path) && SameAt(b, c, path)
    ensures SameAt(a, c, path)
  {
  }

  /** An escaping entry ends the restore; what the entries in front of it wrote stays. */
  lemma {:induction false} EscapeKeepsEarlier(entries: seq<Entry>, e: Entry, rest: seq<Entry>, target: string, prefix: string,
                                              broken: bool, files: map<string, string>, count: nat)
    requires RestoreFrom(entries, target, prefix, false, files, count).2.None?
    requires !Accepted(target, Destination(target, e.name, prefix))
    ensures var (after, n, _) := RestoreFrom(entries, target, prefix, false, files, count);
      RestoreFrom(entries + [e] + rest, target, prefix, broken, files, count) == (after, n, Some(Escapes(e.name)))
    decreases |entries|
  {
    hide Destination, Accepted;
    var all := entries + [e] + rest;
    if entries == [] {
      assert all[0] == e;
    } else {
      var head := entries[0];
      assert all[0] == head && all[1..] == entries[1..] + [e] + rest;
      var path := Destination(target, head.name, prefix);
      if head.kind.Regular? {
        EscapeKeepsEarlier(entries[1..], e, rest, target, prefix, broken, files[path := head.content], count + 1);
      } else {
        EscapeKeepsEarlier(entries[1..], e, rest, target, prefix, broken, files, count);
      }
    }
  }

  /** A file that was backed up: its path below the volume root and its content. */
  datatype Saved = Saved(path: seq<string>, content: string)

  /** The regular entries the backup agent writes: the path behind the baked-in prefix. */
  ghost predicate Archives(e: Entry, f: Saved, pre: seq<string>) {
    e.kind == Regular && e.outcome == Done && e.content == f.content && NameComponents(e.name) == pre + f.path
  }

  ghost predicate ArchiveOf(entries: seq<Entry>, tree: seq<Saved>, pre: seq<string>) {
    && |entries| == |tree|
    && (forall i :: 0 <= i < |tree| ==> Archives(entries[i], tree[i], pre))
    && (forall i, j :: 0 <= i < j < |tree| ==> tree[i].path != tree[j].path)
  }

  /** No file of the tree is restored at the path. */
  ghost predicate Untouched(tree: seq<Saved>, t: seq<string>, path: string) {
    forall i :: 0 <= i < |tree| ==> path != Path(t + tree[i].path)
  }

  /** Both spellings of an entry name, with and without a leading slash, have the components behind it. */
  lemma EntrySpellings(cs: seq<string>)
    requires AllNames(cs) && cs != []
    ensures NameComponents(Path(cs)) == cs && NameComponents(Relative(cs)) == cs
  {
    SplitPath(cs);
    SplitRelative(Relative(cs), cs);
    assert IsName(cs[0]) && Path(cs)[0] == '/' && Relative(cs)[0] == cs[0][0];
    hide Split, Walk, Path, Relative;
    WalkNames(true, [], cs);
    WalkNames(false, [], cs);
    WalkSkips(true, [], "", cs);
    assert [] + cs == cs;
  }

  lemma EntryLands(t: seq<string>, e: Entry, f: Saved, pre: seq<string>)
    requires AllNames(t) && t != [] && AllNames(pre) && pre != [] && Archives(e, f, pre)
    ensures Destination(Path(t), e.name, Relative(pre)) == Path(t + f.path) && Accepted(Path(t), Path(t + f.path))
    ensures AllPlain(t + f.path)
  {
    PlainEntry(t, e.name, pre, f.path);
    ComponentsNormal(e.name);
    forall i | 0 <= i < |f.path|
      ensures Plain(f.path[i])
    {
      assert f.path[i] == (pre + f.path)[|pre| + i];
    }
  }

  /** Restoring an archive of a tree puts every file of the tree, with its content, at its path below the target,
      counts them all, and changes nothing else. */
  lemma {:induction false} RestoreRoundTrip(entries: seq<Entry>, tree: seq<Saved>, t: seq<string>, pre: seq<string>,
                                            files: map<string, string>, count: nat)
    requires AllNames(t) && t != [] && AllNames(pre) && pre != [] && ArchiveOf(entries, tree, pre)
    ensures var (after, n, err) := RestoreFrom(entries, Path(t), Relative(pre), false, files, count);
      && err == None && n == count + |tree|
      && (forall i :: 0 <= i < |tree| ==> Path(t + tree[i].path) in after && after[Path(t + tree[i].path)] == tree[i].content)
      && (forall path :: Untouched(tree, t, path) ==> SameAt(files, after, path))
    decreases |tree|
  {
    if tree != [] {
      var e, f := entries[0], tree[0];
      var at := Path(t + f.path);
      assert Archives(e, f, pre);
      EntryLands(t, e, f, pre);
      forall i | 0 < i < |tree|
        ensures Path(t + tree[i].path) != at
      {
        assert Archives(entries[i], tree[i], pre);
        EntryLands(t, entries[i], tree[i], pre);
        OtherPlace(t, f.path, tree[i].path);
      }
      hide Path, Relative, Destination, Accepted, Archives;
      assert ArchiveOf(entries[1..], tree[1..], pre);
      RestoreRoundTrip(entries[1..], tree[1..], t, pre, files[at := e.content], count + 1);
      FirstStays(tree, t, at, files, f.content, RestoreFrom(entries, Path(t), Relative(pre), false, files, count).0);
    }
  }

  lemma OtherPlace(t: seq<string>, p: seq<string>, q: seq<string>)
    requires AllPlain(t + p) && AllPlain(t + q) && p != q
    ensures Path(t + p) != Path(t + q)
  {
    assert p == (t + p)[|t|..] && q == (t + q)[|t|..];
    if Path(t + p) == Path(t + q) {
      PathIsInjective(t + p, t + q);
    }
  }

  lemma FirstStays(tree: seq<Saved>, t: seq<string>, at: string, files: map<string, string>, content: string, after: map<string, string>)
    requires tree != [] && at == Path(t + tree[0].path) && content == tree[0].content
    requires forall i :: 0 < i < |tree| ==> Path(t + tree[i].path) != at
    requires forall i :: 0 <= i < |tree| - 1 ==>
      Path(t + tree[1..][i].path) in after && after[Path(t + tree[1..][i].path)] == tree[1..][i].content
    requires forall path :: Untouched(tree[1..], t, path) ==> SameAt(files[at := content], after, path)
    ensures forall i :: 0 <= i < |tree| ==> Path(t + tree[i].path) in after && after[Path(t + tree[i].path)] == tree[i].content
    ensures forall path :: Untouched(tree, t, path) ==> SameAt(files, after, path)
  {
    hide Path;
    assert forall i :: 0 < i < |tree| ==> tree[i] == tree[1..][i - 1];
    assert Untouched(tree[1..], t, at);
    assert SameAt(files[at := content], after, at);
    forall path | Untouched(tree, t, path)
      ensures SameAt(files, after, path)
    {
      assert Untouched(tree[1..], t, path);
      assert SameAt(files[at := content], after, path);
    }
  }

  /** One entry in front of others, whose name does not climb: a regular one is written and counted; one the filesystem
      refuses or cuts short ends the restore, with the part it wrote; directories and other kinds leave the files alone. */
  lemma EntryCases(e: Entry, rest: seq<Entry>, t: seq<string>, pre: seq<string>, p: seq<string>, broken: bool,
                   files: map<string, string>, count: nat)
    requires AllNames(t) && t != [] && AllNames(pre) && pre != [] && NameComponents(e.name) == pre + p
    ensures var at := Path(t + p);
      var all := RestoreFrom([e] + rest, Path(t), Relative(pre), broken, files, count);
      && (e.kind == Other || (e.kind == Directory && e.outcome == Done) ==>
            all == RestoreFrom(rest, Path(t), Relative(pre), broken, files, count))
      && (e.kind == Regular && e.outcome == Done ==>
            all == RestoreFrom(rest, Path(t), Relative(pre), broken, files[at := e.content], count + 1))
      && (e.kind != Other && e.outcome == Refused ==> all == (files, count, Some(Fails(at))))
      && (e.kind == Directory && e.outcome.Cut? ==> all == (files, count, Some(Fails(at))))
      && (e.kind == Regular && e.outcome.Cut? ==> all == (files[at := e.outcome.part], count, Some(Fails(at))))
    ensures RestoreFrom([], Path(t), Relative(pre), broken, files, count) == (files, count, if broken then Some(Unreadable) else None)
  {
    PlainEntry(t, e.name, pre, p);
    assert ([e] + rest)[1..] == rest;
    hide Path, Relative, Destination, Accepted, NameComponents;
  }
}
