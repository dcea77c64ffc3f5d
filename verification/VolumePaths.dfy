/** Where a container's volumes really live: every one is meant to be forced under `<root>/<app>`. */
module VolumePaths {
  import opened Common
  import opened Manifest
  import opened Compose
  import opened ComposeTheorems
  import opened Paths
  import opened Splitting

  /** What a volume's source contributes to its host directory: a bind only its last element. */
  function Tail(source: string): string {
    if "/" <= source then Base(source) else source
  }

  function HostDirectory(root: string, app: string, source: string): string {
    root + "/" + app + "/" + Tail(source)
  }

  /** The two ways a volume gets its directory agree: a named volume by its declaration, a bind by a new source. What
      the mount names is that source up to its first colon. */
  lemma DirectoryOf(root: string, app: string, v: string)
    requires ':' in v
    ensures IsBind(v) ==> VolumeSource(Relocate(root, app, v)) == VolumeSource(HostDirectory(root, app, VolumeSource(v)))
    ensures !IsBind(v) ==> HostDirectory(root, app, VolumeSource(v)) == root + "/" + app + "/" + VolumeSource(v)
  {
    if IsBind(v) {
      var i := IndexOf(v, ':');
      var dir := HostDirectory(root, app, v[..i]);
      assert Relocate(root, app, v) == dir + (":" + v[i + 1..]);
      CutBefore(dir, ":" + v[i + 1..]);
    }
  }

  /** A root with a colon is cut there; otherwise the whole directory is named. */
  lemma NamedDirectory(root: string, app: string, v: string)
    requires ':' in v && IsBind(v) && ':' !in app
    ensures VolumeSource(Relocate(root, app, v)) ==
      if ':' in root then VolumeSource(root) else HostDirectory(root, app, VolumeSource(v))
  {
    var source := VolumeSource(v);
    DirectoryOf(root, app, v);
    BaseKeeps(source, ':');
    hide Relocate, Base, VolumeSource;
    DirectoryParts(root, "/", app, Base(source));
    CutRoot(root, "/" + app + "/" + Base(source));
  }

  lemma DirectoryParts(root: string, slash: string, app: string, tail: string)
    ensures root + slash + app + slash + tail == root + (slash + app + slash + tail)
    ensures ':' !in slash && ':' !in app && ':' !in tail ==> ':' !in slash + app + slash + tail
  {
  }

  lemma CutRoot(root: string, rest: string)
    requires ':' !in rest
    ensures VolumeSource(root + rest) == if ':' in root then VolumeSource(root) else root + rest
  {
    if ':' in root {
      CutBefore(root, rest);
    }
  }

  lemma {:induction false} CutBefore(a: string, b: string)
    requires ':' in a || (b != "" && b[0] == ':')
    ensures IndexOf(a + b, ':') == IndexOf(a, ':') && VolumeSource(a + b) == VolumeSource(a)
  {
    var s := a + b;
    if a == "" {
      assert s == b;
    } else if a[0] != ':' {
      assert s[0] == a[0] && s[1..] == a[1..] + b;
      CutBefore(a[1..], b);
    }
    assert s[..IndexOf(a, ':')] == a[..IndexOf(a, ':')];
  }

  lemma {:induction false} TrimKeeps(s: string, c: char)
    requires c !in s
    ensures c !in TrimSlashes(s)
  {
    if s != "" && s[|s| - 1] == '/' {
      TrimKeeps(s[..|s| - 1], c);
    }
  }

  lemma BaseKeeps(path: string, c: char)
    requires c !in path && c != '.' && c != '/'
    ensures c !in Base(path)
  {
    TrimKeeps(path, c);
  }

  lemma {:induction false} NoSlashAfterLast(s: string)
    ensures '/' !in s[LastSlash(s) + 1..]
  {
    if s != "" && s[|s| - 1] != '/' {
      var front := s[..|s| - 1];
      NoSlashAfterLast(front);
      assert s[LastSlash(s) + 1..] == front[LastSlash(front) + 1..] + [s[|s| - 1]];
    }
  }

  lemma {:induction false} TrimEnds(s: string)
    ensures TrimSlashes(s) == "" || TrimSlashes(s)[|TrimSlashes(s)| - 1] != '/'
  {
    if s != "" && s[|s| - 1] == '/' {
      TrimEnds(s[..|s| - 1]);
    }
  }

  /** The last element of a rooted path is a slash, or a component. */
  lemma BaseIsComponent(path: string)
    ensures Base(path) == "/" || Plain(Base(path))
  {
    if path != "" {
      TrimEnds(path);
      var trimmed := TrimSlashes(path);
      NoSlashAfterLast(trimmed);
      if trimmed != "" {
        LastSlashBefore(trimmed);
      }
    }
  }

  lemma LastSlashBefore(s: string)
    requires s != "" && s[|s| - 1] != '/'
    ensures LastSlash(s) < |s| - 1
  {
  }

  lemma OneComponent(c: string)
    requires Plain(c)
    ensures Cleaned(c) == if c == ".." then [".."] else if c == "." then [] else [c]
  {
    SplitPlain(c, '/');
    hide Split;
    assert [c][1..] == [] && [] + [c] == [c];
    assert Walk(false, [], [c]) == Walk(false, Step(false, [], c), []);
  }

  lemma RootComponents()
    ensures Cleaned("/") == []
  {
    assert "/" == [] + ['/'] + [];
    SplitConcat([], '/', "");
    SplitPlain("", '/');
    hide Split;
    assert Split("/", '/') == ["", ""] && ["", ""][1..] == [""] && [""][1..] == [];
  }

  lemma TailComponents(source: string)
    ensures var b := Base(source);
      Cleaned(b) == if b == ".." then [".."] else if b == "/" || b == "." then [] else [b]
  {
    BaseIsComponent(source);
    if Base(source) == "/" {
      RootComponents();
    } else {
      OneComponent(Base(source));
    }
  }

  /** Where an app's volumes are meant to be. */
  function Place(root: string, app: string): seq<string> {
    RootedAt(root) + [app]
  }

  /** Where a volume really is. */
  function Reached(root: string, app: string, source: string): seq<string> {
    if "/" <= source && ':' in root then RootedAt(VolumeSource(root))
    else Climbed(Place(root, app), Cleaned(Tail(source)))
  }

  /** A bind does not end in `..`, or, under a root that is cut at a colon, what is left of the root is under the place
      anyway; a named volume comes back down whatever its cleaned name climbs. */
  predicate StaysUnder(root: string, app: string, source: string) {
    if "/" <= source then
      if ':' in root then Place(root, app) <= RootedAt(VolumeSource(root)) else Base(source) != ".."
    else
      var base, r := Place(root, app), Cleaned(source);
      base[|base| - Min(Ups(r), |base|)..] <= r[Ups(r)..]
  }

  lemma BindStaysIff(base: seq<string>, source: string)
    requires base != []
    ensures var r := Cleaned(Base(source));
      base[|base| - Min(Ups(r), |base|)..] <= r[Ups(r)..] <==> Base(source) != ".."
  {
    TailComponents(source);
    hide Cleaned;
    var b, r := Base(source), Cleaned(Base(source));
    if b == ".." {
      assert r[1..] == [] && Ups(r[1..]) == 0 && Ups(r) == 1;
      assert |base[|base| - 1..]| == 1;
    } else {
      assert Ups(r) == 0 && base[|base|..] == [];
    }
  }

  lemma PlaceIs(root: string, app: string)
    requires IsName(app)
    ensures RootedAt(root + "/" + app) == Place(root, app) && AllNames(Place(root, app))
  {
    OneComponent(app);
    JoinClimbs(root, app);
    assert RootedAt(root)[..|RootedAt(root)|] == RootedAt(root);
  }

  /** The cleaned host directory of a volume that is not cut at a colon. */
  lemma DirectoryClimbs(root: string, app: string, source: string)
    requires "/" <= root + "/" && IsName(app)
    ensures var at := Climbed(Place(root, app), Cleaned(Tail(source)));
      AllNames(at) && Clean(HostDirectory(root, app, source)) == Rooted(at)
  {
    assert "/" <= (root + "/" + app) + "/";
    hide Clean, Cleaned, RootedAt, Climbed, Place;
    PlaceIs(root, app);
    JoinClimbs(root + "/" + app, Tail(source));
  }

  lemma StaysUnderIff(root: string, app: string, source: string)
    ensures Place(root, app) <= Reached(root, app, source) <==> StaysUnder(root, app, source)
  {
    var base := Place(root, app);
    hide Cleaned, RootedAt, Climbed, Base;
    if !("/" <= source && ':' in root) {
      ClimbedIff(base, Cleaned(Tail(source)));
      if "/" <= source {
        BindStaysIff(base, source);
      }
    }
  }

  /** Every host directory a document uses, declared or mounted, is at or below a place. */
  ghost predicate AllBelow(doc: Document, base: seq<string>) {
    && (forall s :: s in doc.volumes ==> Below(base, Clean(doc.volumes[s])))
    && (forall n, v :: n in doc.services && v in doc.services[n].volumes && IsBind(v) ==> Below(base, Clean(VolumeSource(v))))
  }

  lemma AppIsName(name: string)
    requires ValidName(name)
    ensures IsName(name) && ':' !in name
  {
    assert IsNameChar(name[0]);
  }

  lemma MountsRelocated(app: App, res: Resolver, root: string, doc: Document, n: string)
    requires DocumentOf(doc, app, res, root) && n in app.services
    ensures n in doc.services && doc.services[n].volumes == Relocated(root, app.name, app.services[n].volumes)
  {
    assert Translated(app, n, res).volumes == app.services[n].volumes;
  }

  /** The host directory behind a mount of a document. */
  ghost function DirectoryIn(doc: Document, mount: string): string
    requires VolumeDeclared(doc, mount)
  {
    if IsBind(mount) then Clean(VolumeSource(mount)) else Clean(doc.volumes[VolumeSource(mount)])
  }

  ghost predicate Mounts(app: App, n: string, v: string) {
    n in app.services && v in app.services[n].volumes && VolumeSource(v) != ""
  }

  lemma DeclaredDevices(app: App, res: Resolver, root: string, doc: Document)
    requires DocumentOf(doc, app, res, root)
    ensures forall x :: x in doc.volumes ==> doc.volumes[x] == root + "/" + app.name + "/" + x
  {
  }

  lemma MountIsMoved(app: App, hostOk: string -> bool, res: Resolver, root: string, doc: Document, n: string, v: string)
    requires Validate(app, hostOk) && DocumentOf(doc, app, res, root) && "/" <= root + "/" && Mounts(app, n, v)
    ensures ':' in v && n in doc.services
    ensures Relocate(root, app.name, v) in doc.services[n].volumes && VolumeDeclared(doc, Relocate(root, app.name, v))
    ensures IsBind(Relocate(root, app.name, v)) <==> IsBind(v)
    ensures !IsBind(v) ==> Relocate(root, app.name, v) == v && doc.volumes[VolumeSource(v)] == HostDirectory(root, app.name, VolumeSource(v))
  {
    var i :| 0 <= i < |app.services[n].volumes| && app.services[n].volumes[i] == v;
    MountsHaveColons(app, hostOk, n);
    MountsRelocated(app, res, root, doc, n);
    DeclaredDevices(app, res, root, doc);
    DirectoryOf(root, app.name, v);
    hide Validate, DocumentOf, Relocate, VolumeSource, IsBind, HostDirectory;
    RelocatedMembers(root, app.name, app.services[n].volumes);
    RelocateKeepsKind(root, app.name, v);
    MountDeclaredIff(app, res, root, doc, n, i);
  }

  /** Every mount of a validated manifest ends up where its source leads. */
  lemma MountReaches(app: App, hostOk: string -> bool, res: Resolver, root: string, doc: Document, n: string, v: string)
    requires Validate(app, hostOk) && DocumentOf(doc, app, res, root) && "/" <= root + "/" && Mounts(app, n, v)
    ensures VolumeDeclared(doc, Relocate(root, app.name, v)) && AllNames(Reached(root, app.name, VolumeSource(v)))
    ensures DirectoryIn(doc, Relocate(root, app.name, v)) == Rooted(Reached(root, app.name, VolumeSource(v)))
  {
    AppIsName(app.name);
    MountIsMoved(app, hostOk, res, root, doc, n, v);
    hide Validate, DocumentOf, Relocate, Clean, Cleaned, Climbed, RootedAt, Rooted, AllNames, IsName;
    if IsBind(v) {
      NamedDirectory(root, app.name, v);
    }
    if IsBind(v) && ':' in root {
      assert IndexOf(root, ':') != 0;
      RootedNames(VolumeSource(root));
    } else {
      DirectoryClimbs(root, app.name, VolumeSource(v));
    }
  }

  lemma MountedFrom(app: App, hostOk: string -> bool, res: Resolver, root: string, doc: Document, n: string, m: string)
    requires Validate(app, hostOk) && DocumentOf(doc, app, res, root) && "/" <= root + "/"
    requires n in doc.services && m in doc.services[n].volumes && IsBind(m)
    ensures exists v :: Mounts(app, n, v) && IsBind(v) && m == Relocate(root, app.name, v)
  {
    assert n in app.services;
    MountsRelocated(app, res, root, doc, n);
    MountsHaveColons(app, hostOk, n);
    hide Validate, DocumentOf, Relocate;
    RelocatedMembers(root, app.name, app.services[n].volumes);
    var v :| v in app.services[n].volumes && m == Relocate(root, app.name, v);
    RelocateKeepsKind(root, app.name, v);
    assert Mounts(app, n, v);
  }

  lemma DeclaredFrom(app: App, res: Resolver, root: string, doc: Document, s: string)
    requires DocumentOf(doc, app, res, root) && s in doc.volumes
    ensures exists n, v :: Mounts(app, n, v) && VolumeSource(v) == s && !IsBind(v)
  {
    assert UsesVolume(app, s);
    var n, i :| n in app.services && 0 <= i < |app.services[n].volumes| &&
      VolumeSource(app.services[n].volumes[i]) == s && s != "" && !IsBind(app.services[n].volumes[i]);
    assert Mounts(app, n, app.services[n].volumes[i]);
  }

  ghost predicate AllStay(app: App, root: string) {
    forall n, v :: Mounts(app, n, v) ==> StaysUnder(root, app.name, VolumeSource(v))
  }

  lemma MountBelowIff(app: App, hostOk: string -> bool, res: Resolver, root: string, doc: Document, n: string, v: string)
    requires Validate(app, hostOk) && DocumentOf(doc, app, res, root) && "/" <= root + "/" && Mounts(app, n, v)
    ensures VolumeDeclared(doc, Relocate(root, app.name, v))
    ensures Below(Place(root, app.name), DirectoryIn(doc, Relocate(root, app.name, v))) <==>
            StaysUnder(root, app.name, VolumeSource(v))
  {
    AppIsName(app.name);
    hide Validate, DocumentOf, Relocate, Clean, Below, Reached, StaysUnder, DirectoryIn;
    MountReaches(app, hostOk, res, root, doc, n, v);
    PlaceIs(root, app.name);
    BelowIff(Place(root, app.name), Reached(root, app.name, VolumeSource(v)));
    StaysUnderIff(root, app.name, VolumeSource(v));
  }

  /** The documentation promises that every container volume lands under `<root>/<app>`. For a validated manifest and an
      absolute root that holds if and only if no bind's source ends in `..`, no named volume climbs out and stays out, and
      a root with a colon is not cut above the place. */
  lemma VolumesStayUnderAppIff(app: App, hostOk: string -> bool, res: Resolver, root: string, doc: Document)
    requires Validate(app, hostOk) && DocumentOf(doc, app, res, root) && "/" <= root + "/"
    ensures AllBelow(doc, Place(root, app.name)) <==> AllStay(app, root)
  {
    hide Validate, DocumentOf, Below, Clean, Relocate, StaysUnder, Place, IsBind, VolumeSource;
    if AllStay(app, root) {
      StayingIsBelow(app, hostOk, res, root, doc);
    }
    if AllBelow(doc, Place(root, app.name)) {
      forall n, v | Mounts(app, n, v)
        ensures StaysUnder(root, app.name, VolumeSource(v))
      {
        MountIsMoved(app, hostOk, res, root, doc, n, v);
        MountBelowIff(app, hostOk, res, root, doc, n, v);
      }
    }
  }

  lemma StayingIsBelow(app: App, hostOk: string -> bool, res: Resolver, root: string, doc: Document)
    requires Validate(app, hostOk) && DocumentOf(doc, app, res, root) && "/" <= root + "/" && AllStay(app, root)
    ensures AllBelow(doc, Place(root, app.name))
  {
    hide Validate, DocumentOf, Below, Clean, Relocate, StaysUnder, Place, IsBind, VolumeSource;
    forall s | s in doc.volumes
      ensures Below(Place(root, app.name), Clean(doc.volumes[s]))
    {
      DeclaredFrom(app, res, root, doc, s);
      var n, v :| Mounts(app, n, v) && VolumeSource(v) == s && !IsBind(v);
      MountIsMoved(app, hostOk, res, root, doc, n, v);
      MountBelowIff(app, hostOk, res, root, doc, n, v);
    }
    forall n, m | n in doc.services && m in doc.services[n].volumes && IsBind(m)
      ensures Below(Place(root, app.name), Clean(VolumeSource(m)))
    {
      MountedFrom(app, hostOk, res, root, doc, n, m);
      var v :| Mounts(app, n, v) && IsBind(v) && m == Relocate(root, app.name, v);
      MountBelowIff(app, hostOk, res, root, doc, n, v);
    }
  }

  // ---------------------------------------------------------------------------
  // Sharing a directory
  // ---------------------------------------------------------------------------

  /** Two mounts of a document are one directory of the host exactly when their sources lead to the same place, however
      the two are written: `data` and `./data` do, and so do a bind of `/a/data` and the named volume `data`. */
  lemma DirectorySharedIff(app: App, hostOk: string -> bool, res: Resolver, root: string, doc: Document,
                           n: string, v: string, m: string, w: string)
    requires Validate(app, hostOk) && DocumentOf(doc, app, res, root) && "/" <= root + "/"
    requires Mounts(app, n, v) && Mounts(app, m, w)
    ensures VolumeDeclared(doc, Relocate(root, app.name, v)) && VolumeDeclared(doc, Relocate(root, app.name, w))
    ensures DirectoryIn(doc, Relocate(root, app.name, v)) == DirectoryIn(doc, Relocate(root, app.name, w)) <==>
            Reached(root, app.name, VolumeSource(v)) == Reached(root, app.name, VolumeSource(w))
  {
    var at, at' := Reached(root, app.name, VolumeSource(v)), Reached(root, app.name, VolumeSource(w));
    hide Validate, DocumentOf, Relocate, DirectoryIn, Reached, Rooted, AllNames;
    MountReaches(app, hostOk, res, root, doc, n, v);
    MountReaches(app, hostOk, res, root, doc, m, w);
    if Rooted(at) == Rooted(at') {
      RootedIsInjective(at, at');
    }
  }

  /** Two volumes that do not climb, under a root without a colon, lead to one place exactly when their cleaned elements
      or names are equal. */
  lemma PlainVolumesShareIff(root: string, app: string, a: string, b: string)
    requires ':' !in root && Ups(Cleaned(Tail(a))) == 0 && Ups(Cleaned(Tail(b))) == 0
    ensures Reached(root, app, a) == Reached(root, app, b) <==> Cleaned(Tail(a)) == Cleaned(Tail(b))
  {
    hide Cleaned, Place, Tail, Climbed;
    ClimbedDown(Place(root, app), Cleaned(Tail(a)));
    ClimbedDown(Place(root, app), Cleaned(Tail(b)));
  }

  lemma ClimbedDown(base: seq<string>, r: seq<string>)
    requires Ups(r) == 0
    ensures Climbed(base, r) == base + r && Climbed(base, r)[|base|..] == r
  {
    assert base[..|base|] == base && r[0..] == r;
  }

  /** Two binds share their directory exactly when they end in the same element, or both end in none. */
  lemma BindsShareIff(root: string, app: string, a: string, b: string)
    requires ':' !in root && "/" <= a && "/" <= b
    ensures Reached(root, app, a) == Reached(root, app, b) <==>
            Base(a) == Base(b) || (Base(a) in {"/", "."} && Base(b) in {"/", "."})
  {
    BindReaches(root, app, a);
    BindReaches(root, app, b);
    hide Reached, Base;
    var base := Place(root, app);
    assert forall x, y :: base + [x] == base + [y] ==> (base + [x])[|base|] == (base + [y])[|base|];
  }

  lemma BindReaches(root: string, app: string, source: string)
    requires ':' !in root && "/" <= source
    ensures var base, b := Place(root, app), Base(source);
      Reached(root, app, source) == if b == ".." then RootedAt(root) else if b == "/" || b == "." then base else base + [b]
  {
    TailComponents(source);
    hide Cleaned, Base, RootedAt;
    var base, b, r := Place(root, app), Base(source), Cleaned(Base(source));
    if b == ".." {
      assert r[1..] == [] && Ups(r[1..]) == 0 && Ups(r) == 1;
      assert base[..|base| - 1] + [] == RootedAt(root);
    } else {
      assert Ups(r) == 0 && base[..|base|] == base && r[0..] == r;
      assert base + [] == base;
    }
  }

  /** Every bind whose path ends in a component contributes that component. */
  lemma BaseOfPath(path: string, name: string)
    requires Plain(name)
    ensures Base(path + "/" + name) == name
    ensures "/" <= path + "/" + name && !("/" <= name) ==> Tail(path + "/" + name) == Tail(name)
  {
    var s := path + "/" + name;
    assert s[|s| - 1] == name[|name| - 1] != '/';
    LastSlashAt(path, name);
  }

  lemma {:induction false} LastSlashAt(path: string, name: string)
    requires '/' !in name
    ensures LastSlash(path + "/" + name) == |path|
  {
    var s := path + "/" + name;
    if name != "" {
      var front := name[..|name| - 1];
      assert s[..|s| - 1] == path + "/" + front;
      assert s[|s| - 1] == name[|name| - 1];
      LastSlashAt(path, front);
    }
  }
}
