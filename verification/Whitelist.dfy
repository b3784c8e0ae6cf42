/**
 Model of src/firejail/fs_whitelist.c, second pass, for one top level
 directory.  The directory is covered by an empty tmpfs, and each whitelisted
 path is mounted back from the original directory, which is still reachable
 through a file descriptor opened earlier (`host`).  Directories leading to a
 path are created on the tmpfs; a mount id other than that of the tmpfs tells
 that a path is "whitelisted already".

 The kernel is reduced to the tmpfs nodes, the mount table and the walk that
 crosses mount points.  Paths are sequences of components below the top level
 directory.
 */
module Whitelist {
  import opened Wrappers

  type Path = seq<string>

  datatype Kind = Dir | File | Symlink

  /** A place: a mount and a path.  Mount 0 is the tmpfs; every other mount is a
      bind mount whose source has the same path as its mount point. */
  datatype Loc = Loc(mnt: nat, path: Path)

  datatype Namespace = Namespace(
    nodes: map<Path, Kind>,   // the tmpfs
    mounts: map<Loc, nat>,    // the mount that covers a place
    roots: map<nat, Path>,    // where each bind mount is mounted
    next: nat)                // next mount id

  const TOP := Loc(0, [])

  const FRESH := Namespace(map[[] := Dir], map[], map[], 1)

  function Parent(p: Path): Path { if p == [] then [] else p[..|p|-1] }

  /** A tree: everything lies in a directory. */
  ghost predicate Tree(t: map<Path, Kind>) {
    && [] in t && t[[]] == Dir
    && forall p {:trigger Parent(p)} | p in t && p != [] :: Parent(p) in t && t[Parent(p)] == Dir
  }

  predicate MountsOk(ns: Namespace) {
    forall l | l in ns.mounts ::
      && l.mnt < ns.mounts[l] < ns.next
      && ns.mounts[l] in ns.roots && ns.roots[ns.mounts[l]] == l.path
      && (l.mnt > 0 ==> l.mnt in ns.roots && ns.roots[l.mnt] == l.path)
  }

  // ---------------------------------------------------------------------
  // The kernel
  // ---------------------------------------------------------------------

  /** The topmost mount at a place. */
  function Follow(ns: Namespace, l: Loc): (r: Loc)
    requires MountsOk(ns)
    ensures r.path == l.path && r !in ns.mounts
    ensures l in ns.mounts ==> r.mnt > l.mnt && r.mnt in ns.roots && ns.roots[r.mnt] == l.path
    ensures l !in ns.mounts ==> r == l
    decreases ns.next - l.mnt
  {
    if l in ns.mounts then Follow(ns, Loc(ns.mounts[l], l.path)) else l
  }

  function KindAt(host: map<Path, Kind>, ns: Namespace, l: Loc): Option<Kind> {
    var t := if l.mnt == 0 then ns.nodes else host;
    if l.path in t then Some(t[l.path]) else None
  }

  function Child(l: Loc, name: string): Loc { Loc(l.mnt, l.path + [name]) }

  /** openat with O_DIRECTORY|O_NOFOLLOW. */
  function OpenDir(host: map<Path, Kind>, ns: Namespace, fd: Loc, name: string): Option<Loc>
    requires MountsOk(ns)
  {
    var c := Child(fd, name);
    if KindAt(host, ns, c).None? then None
    else
      var r := Follow(ns, c);
      if KindAt(host, ns, r) == Some(Dir) then Some(r) else None
  }

  /** Creation on the tmpfs; nothing changes if the name exists (EEXIST). */
  function Create(ns: Namespace, fd: Loc, name: string, k: Kind): (r: Namespace)
    ensures Valid(ns) ==> Valid(r)
  {
    var p := fd.path + [name];
    if p in ns.nodes then ns else ns.(nodes := ns.nodes[p := k])
  }

  function Mount(ns: Namespace, at: Loc): (r: Namespace)
    requires MountsOk(ns) && at !in ns.mounts
    requires at.mnt < ns.next && (at.mnt > 0 ==> at.mnt in ns.roots && ns.roots[at.mnt] == at.path)
    requires ns.next !in ns.roots
    ensures MountsOk(r)
    ensures Valid(ns) && (at.mnt == 0 ==> at.path in ns.nodes) ==> Valid(r)
  {
    ns.(mounts := ns.mounts[at := ns.next], roots := ns.roots[ns.next := at.path], next := ns.next + 1)
  }

  /** What lstat finds at a path of the finished namespace. */
  function Walk(host: map<Path, Kind>, ns: Namespace, at: Loc, rest: Path): Option<Kind>
    requires MountsOk(ns)
    decreases |rest|
  {
    if rest == [] || KindAt(host, ns, at) != Some(Dir) then
      if rest == [] then KindAt(host, ns, at) else None
    else
      var c := Child(at, rest[0]);
      if KindAt(host, ns, c).None? then None else Walk(host, ns, Follow(ns, c), rest[1..])
  }

  function Visible(host: map<Path, Kind>, ns: Namespace, p: Path): Option<Kind>
    requires MountsOk(ns)
  {
    Walk(host, ns, TOP, p)
  }

  // ---------------------------------------------------------------------
  // whitelist_mkpath, whitelist_file, whitelist_symlink
  // ---------------------------------------------------------------------

  /** Creates and opens the directories of `rest` below `at`; None if a component
      is not a directory or lies on another mount. */
  function Mkpath(host: map<Path, Kind>, ns: Namespace, at: Loc, rest: Path): (r: (Namespace, Option<Loc>))
    requires Valid(ns) && at.mnt == 0
    ensures Valid(r.0) && r.0 == ns.(nodes := r.0.nodes)
    ensures r.1.Some? ==> r.1.value == Loc(0, at.path + rest)
    decreases |rest|
  {
    if rest == [] then (ns, Some(at))
    else
      var ns1 := Create(ns, at, rest[0], Dir);
      match OpenDir(host, ns1, at, rest[0])
      case None => (ns1, None)
      case Some(fd) => if fd.mnt != 0 then (ns1, None) else Mkpath(host, ns1, fd, rest[1..])
  }

  lemma MkpathNext(host: map<Path, Kind>, ns: Namespace, at: Loc, dirs: Path, i: nat)
    requires Valid(ns) && at.mnt == 0 && i < |dirs|
    ensures var ns1 := Create(ns, at, dirs[i], Dir);
            var fd := OpenDir(host, ns1, at, dirs[i]);
            Mkpath(host, ns, at, dirs[i..]) ==
              if fd.None? || fd.value.mnt != 0 then (ns1, None) else Mkpath(host, ns1, fd.value, dirs[i + 1..])
  {
    assert dirs[i..][1..] == dirs[i + 1..];
  }

  /** The mount table and the mount ids agree. */
  predicate Valid(ns: Namespace) {
    && MountsOk(ns)
    && ns.next > 0 && (forall k | k in ns.roots :: 0 < k < ns.next)
    && (forall l | l in ns.mounts && l.mnt == 0 :: l.path in ns.nodes)
  }

  function WhitelistFile(host: map<Path, Kind>, ns: Namespace, rel: Path): (r: Namespace)
    requires Valid(ns) && rel != []
    ensures Valid(r)
  {
    if rel !in host || host[rel] == Symlink then ns
    else
      var (ns1, fd2) := Mkpath(host, ns, TOP, rel[..|rel|-1]);
      var file := rel[|rel|-1];
      if fd2.None? then ns1
      else if host[rel] == Dir then
        var ns2 := Create(ns1, fd2.value, file, Dir);
        match OpenDir(host, ns2, fd2.value, file)
        case None => ns2
        case Some(fd3) => Mount(ns2, fd3)
      else if KindAt(host, ns1, Child(fd2.value, file)).Some? then ns1
      else Mount(Create(ns1, fd2.value, file, File), Child(fd2.value, file))
  }

  function WhitelistSymlink(host: map<Path, Kind>, ns: Namespace, rel: Path): (r: Namespace)
    requires Valid(ns) && rel != []
    ensures Valid(r)
  {
    var (ns1, fd) := Mkpath(host, ns, TOP, rel[..|rel|-1]);
    if fd.None? then ns1 else Create(ns1, fd.value, rel[|rel|-1], Symlink)
  }

  // ---------------------------------------------------------------------
  // What the requests grant
  // ---------------------------------------------------------------------

  datatype Request = WantFile(path: Path) | WantLink(path: Path)

  function Serve(host: map<Path, Kind>, ns: Namespace, r: Request): (ns': Namespace)
    requires Valid(ns) && r.path != []
    ensures Valid(ns')
  {
    match r
    case WantFile(p) => WhitelistFile(host, ns, p)
    case WantLink(p) => WhitelistSymlink(host, ns, p)
  }

  predicate Requests(rs: seq<Request>) {
    forall i | 0 <= i < |rs| :: rs[i].path != []
  }

  function ServeAll(host: map<Path, Kind>, rs: seq<Request>): (ns: Namespace)
    requires Requests(rs)
    ensures Valid(ns)
  {
    if rs == [] then FRESH else Serve(host, ServeAll(host, rs[..|rs|-1]), rs[|rs|-1])
  }

  /** Files and directories that exist and are not symbolic links. */
  ghost predicate WantsFile(host: map<Path, Kind>, rs: seq<Request>, p: Path) {
    WantFile(p) in rs && p in host && host[p] != Symlink
  }

  ghost predicate WantsLink(rs: seq<Request>, p: Path) {
    WantLink(p) in rs
  }

  /** The requested subtrees, the requested links, and the directories on the
      way to them. */
  ghost predicate Granted(host: map<Path, Kind>, rs: seq<Request>, p: Path) {
    || p == []
    || (exists q :: WantsFile(host, rs, q) && q <= p)
    || (exists q :: (WantsFile(host, rs, q) || WantsLink(rs, q)) && p <= q)
  }

  ghost function Shown(host: map<Path, Kind>, rs: seq<Request>, p: Path): Option<Kind> {
    if p in host && Granted(host, rs, p) then Some(host[p]) else None
  }

  /** A link that lies in the original.  As that is a tree, no directory on the way to
      it is a link itself. */
  ghost predicate Straight(host: map<Path, Kind>, p: Path) {
    p in host && host[p] == Symlink
  }

  /** A path that leads to a link of the original through directories and links:
      the first link on the way, or the path itself, lies in the tree. */
  ghost predicate Linked(host: map<Path, Kind>, p: Path) {
    exists m :: 0 <= m <= |p| && Straight(host, p[..m])
  }

  ghost predicate LinkedLinks(host: map<Path, Kind>, rs: seq<Request>) {
    forall p | WantsLink(rs, p) :: Linked(host, p)
  }

  /** A file or directory of the original. */
  ghost predicate Firm(host: map<Path, Kind>, p: Path) { p in host && host[p] != Symlink }

  ghost predicate StraightLinks(host: map<Path, Kind>, rs: seq<Request>) {
    forall p | WantsLink(rs, p) :: Straight(host, p)
  }

  // ---------------------------------------------------------------------
  // Walking
  // ---------------------------------------------------------------------

  ghost predicate Covered(ns: Namespace, p: Path) { Loc(0, p) in ns.mounts }

  /** Some directory on the way to p, or p itself, is a mount point. */
  ghost predicate Under(ns: Namespace, p: Path) {
    exists k :: 0 <= k <= |p| && Covered(ns, p[..k])
  }

  lemma {:induction false} TreeUp(t: map<Path, Kind>, p: Path, k: nat)
    requires Tree(t) && p in t && k <= |p|
    ensures p[..k] in t
    ensures k < |p| ==> t[p[..k]] == Dir
    decreases |p|
  {
    if k == |p| {
      assert p[..k] == p;
    } else {
      var up := Parent(p);
      TreeUp(t, up, k);
      assert up[..k] == p[..k];
    }
  }

  lemma NoMountBelow(ns: Namespace, at: Loc, name: string)
    requires Valid(ns) && at.mnt > 0 && at.mnt in ns.roots && ns.roots[at.mnt] <= at.path
    ensures Child(at, name) !in ns.mounts
    ensures ns.roots[at.mnt] <= Child(at, name).path
  {
  }

  lemma TreeStep(t: map<Path, Kind>, a: Path, rest: Path)
    requires Tree(t) && rest != [] && a + rest in t
    ensures a in t && t[a] == Dir && a + [rest[0]] in t
  {
    var p := a + rest;
    assert p[..|a|] == a && p[..|a| + 1] == a + [rest[0]];
    TreeUp(t, p, |a|);
    TreeUp(t, p, |a| + 1);
  }

  /** Below a bind mount the original tree is seen. */
  lemma {:induction false} WalkBelow(host: map<Path, Kind>, ns: Namespace, at: Loc, rest: Path)
    requires Valid(ns) && Tree(host)
    requires at.mnt > 0 && at.mnt in ns.roots && ns.roots[at.mnt] <= at.path
    ensures Walk(host, ns, at, rest) == KindAt(host, ns, Loc(at.mnt, at.path + rest))
    decreases |rest|
  {
    if rest == [] {
      assert at.path + rest == at.path;
    } else {
      if at.path + rest in host { TreeStep(host, at.path, rest); }
      NoMountBelow(ns, at, rest[0]);
      assert Child(at, rest[0]).path + rest[1..] == at.path + rest;
      WalkBelow(host, ns, Child(at, rest[0]), rest[1..]);
    }
  }

  /** What the walk finds: below a mount point the original tree, elsewhere the tmpfs. */
  ghost function Found(host: map<Path, Kind>, ns: Namespace, p: Path): Option<Kind> {
    KindAt(host, ns, Loc(if Under(ns, p) then 1 else 0, p))
  }

  lemma WalkStuck(host: map<Path, Kind>, ns: Namespace, a: Path, rest: Path)
    requires Valid(ns) && Tree(ns.nodes) && !Under(ns, a) && a in ns.nodes && rest != []
    requires a + [rest[0]] !in ns.nodes || ns.nodes[a] != Dir
    ensures Walk(host, ns, Loc(0, a), rest) == None == Found(host, ns, a + rest)
  {
    var p := a + rest;
    assert p[..|a| + 1] == a + [rest[0]] && p[..|a|] == a;
    StuckAbove(ns, p, |a|);
  }

  lemma WalkCross(host: map<Path, Kind>, ns: Namespace, a: Path, rest: Path)
    requires Valid(ns) && Tree(host) && a in ns.nodes && rest != []
    requires a + [rest[0]] in ns.nodes && ns.nodes[a] == Dir && Covered(ns, a + [rest[0]])
    ensures Walk(host, ns, Loc(0, a), rest) == Found(host, ns, a + rest)
  {
    var c := a + [rest[0]];
    assert (a + rest)[..|c|] == c;
    assert Under(ns, a + rest);
    WalkBelow(host, ns, Follow(ns, Loc(0, c)), rest[1..]);
    assert c + rest[1..] == a + rest;
  }

  /** On the tmpfs the walk meets the first mount point, if there is one. */
  lemma {:induction false} WalkTop(host: map<Path, Kind>, ns: Namespace, a: Path, rest: Path)
    requires Valid(ns) && Tree(host) && Tree(ns.nodes)
    requires !Under(ns, a) && a in ns.nodes
    ensures Walk(host, ns, Loc(0, a), rest) == Found(host, ns, a + rest)
    decreases |rest|
  {
    if rest == [] {
      assert a + rest == a;
    } else if a + [rest[0]] !in ns.nodes || ns.nodes[a] != Dir {
      WalkStuck(host, ns, a, rest);
    } else if Covered(ns, a + [rest[0]]) {
      WalkCross(host, ns, a, rest);
    } else {
      StillAbove(ns, a, rest[0]);
      assert a + [rest[0]] + rest[1..] == a + rest;
      WalkTop(host, ns, a + [rest[0]], rest[1..]);
    }
  }

  lemma StillAbove(ns: Namespace, a: Path, name: string)
    requires !Under(ns, a) && !Covered(ns, a + [name])
    ensures !Under(ns, a + [name])
  {
    var c := a + [name];
    forall k | 0 <= k <= |c| ensures !Covered(ns, c[..k]) {
      if k <= |a| { assert c[..k] == a[..k]; } else { assert c[..k] == c; }
    }
  }

  /** A path that cannot be reached on the tmpfs is neither there nor mounted. */
  lemma StuckAbove(ns: Namespace, p: Path, n: nat)
    requires Valid(ns) && Tree(ns.nodes) && n < |p| && !Under(ns, p[..n])
    requires p[..n] in ns.nodes && (p[..n + 1] !in ns.nodes || ns.nodes[p[..n]] != Dir)
    ensures p !in ns.nodes && !Under(ns, p)
  {
    if p in ns.nodes {
      TreeUp(ns.nodes, p, n);
      TreeUp(ns.nodes, p, n + 1);
    }
    forall k | 0 <= k <= |p| ensures !Covered(ns, p[..k]) {
      if k <= n {
        assert p[..n][..k] == p[..k];
      } else if p[..k] in ns.nodes {
        assert p[..k][..n] == p[..n] && p[..k][..n + 1] == p[..n + 1];
        TreeUp(ns.nodes, p[..k], n);
        TreeUp(ns.nodes, p[..k], n + 1);
      }
    }
  }

  // ---------------------------------------------------------------------
  // The invariant
  // ---------------------------------------------------------------------

  ghost predicate Inv(host: map<Path, Kind>, ns: Namespace, rs: seq<Request>) {
    && Valid(ns) && Tree(ns.nodes)
    // what stands on the tmpfs for a file or directory has its kind
    && Agrees(host, ns)
    // and was asked for
    && (forall p | p in ns.nodes :: Granted(host, rs, p))
    // only requested paths are mounted, and no placeholder file is left alone
    && (forall p | Covered(ns, p) :: p != [] && WantsFile(host, rs, p))
    && (forall p | p in ns.nodes && ns.nodes[p] == File :: Covered(ns, p))
    // every request for a file is met, and the directories leading to a link are there
    && (forall p | WantsFile(host, rs, p) :: Under(ns, p))
    && (forall q, p | WantsLink(rs, q) && p <= q && Firm(host, p) :: Under(ns, p) || p in ns.nodes)
  }

  ghost predicate Agrees(host: map<Path, Kind>, ns: Namespace) {
    forall p | p in ns.nodes && Firm(host, p) :: ns.nodes[p] == host[p]
  }

  /** Request i is for a link at or behind d. */
  predicate Passes(rs: seq<Request>, d: Path, i: nat)
    requires i < |rs|
  {
    rs[i].WantLink? && d <= rs[i].path
  }

  /** The first request for a link at or behind d asks for d itself. */
  ghost predicate FirstIs(rs: seq<Request>, d: Path) {
    exists i | 0 <= i < |rs| :: rs[i] == WantLink(d) && forall j | 0 <= j < i :: !Passes(rs, d, j)
  }

  ghost predicate Passed(rs: seq<Request>, d: Path) { exists i | 0 <= i < |rs| :: Passes(rs, d, i) }

  /** What stands on the tmpfs for a link of the original, unless it is covered by a
      mount: whatever the first request at or behind it has made. */
  ghost predicate LinksInv(host: map<Path, Kind>, ns: Namespace, rs: seq<Request>) {
    forall d | Straight(host, d) && !Under(ns, d) ::
      && (d in ns.nodes <==> Passed(rs, d))
      && (d in ns.nodes ==> ns.nodes[d] == if FirstIs(rs, d) then Symlink else Dir)
  }

  /** A path on the way to one that is mounted or present is present, unless a
      mount point lies above it. */
  lemma OnTheWay(ns: Namespace, p: Path, q: Path)
    requires Valid(ns) && Tree(ns.nodes) && p <= q
    requires Under(ns, q) || q in ns.nodes
    ensures Under(ns, p) || p in ns.nodes
  {
    if Under(ns, q) {
      var k :| 0 <= k <= |q| && Covered(ns, q[..k]);
      if k <= |p| {
        assert q[..k] == p[..k];
      } else {
        assert q[..k][..|p|] == p;
        TreeUp(ns.nodes, q[..k], |p|);
      }
    } else {
      assert q[..|p|] == p;
      TreeUp(ns.nodes, q, |p|);
    }
  }

  lemma UnderDown(ns: Namespace, p: Path, q: Path)
    requires p <= q && Under(ns, p)
    ensures Under(ns, q)
  {
    var k :| 0 <= k <= |p| && Covered(ns, p[..k]);
    assert q[..k] == p[..k];
  }

  lemma InvTop(host: map<Path, Kind>, ns: Namespace, rs: seq<Request>)
    requires Inv(host, ns, rs)
    ensures !Under(ns, [])
  {
    assert !Covered(ns, []);
  }

  lemma UnderGranted(host: map<Path, Kind>, ns: Namespace, rs: seq<Request>, p: Path)
    requires Inv(host, ns, rs) && Under(ns, p)
    ensures Granted(host, rs, p)
  {
    var k :| 0 <= k <= |p| && Covered(ns, p[..k]);
    assert WantsFile(host, rs, p[..k]) && p[..k] <= p;
  }

  lemma GrantedFound(host: map<Path, Kind>, ns: Namespace, rs: seq<Request>, p: Path)
    requires Inv(host, ns, rs) && Granted(host, rs, p) && Firm(host, p)
    ensures Under(ns, p) || p in ns.nodes
  {
    if p != [] {
      if q :| WantsFile(host, rs, q) && q <= p {
        UnderDown(ns, q, p);
      } else if q :| WantsFile(host, rs, q) && p <= q {
        OnTheWay(ns, p, q);
      } else {
        var q :| WantsLink(rs, q) && p <= q;
      }
    }
  }

  /** What is seen of the namespace: the original below a mount point, else the
      tmpfs. */
  lemma Seen(host: map<Path, Kind>, ns: Namespace, rs: seq<Request>, p: Path)
    requires Tree(host) && Inv(host, ns, rs)
    ensures Visible(host, ns, p) == Found(host, ns, p)
  {
    InvTop(host, ns, rs);
    WalkTop(host, ns, [], p);
    assert [] + p == p;
  }

  lemma InvShown(host: map<Path, Kind>, ns: Namespace, rs: seq<Request>, p: Path)
    requires Tree(host) && Inv(host, ns, rs) && Firm(host, p)
    ensures Visible(host, ns, p) == Shown(host, rs, p)
  {
    Seen(host, ns, rs, p);
    if Under(ns, p) {
      UnderGranted(host, ns, rs, p);
    } else if Granted(host, rs, p) {
      GrantedFound(host, ns, rs, p);
    }
  }

  // ---------------------------------------------------------------------
  // Every request keeps the invariant
  // ---------------------------------------------------------------------

  /** Only directories on the way to d have been added. */
  ghost predicate Grown(host: map<Path, Kind>, ns: Namespace, ns': Namespace, d: Path) {
    && ns' == ns.(nodes := ns'.nodes) && Tree(ns'.nodes)
    && (forall p | p in ns.nodes :: p in ns'.nodes && ns'.nodes[p] == ns.nodes[p])
    && (forall p | p in ns'.nodes && p !in ns.nodes :: p <= d && p in host && host[p] == Dir == ns'.nodes[p])
  }

  lemma CreateTree(ns: Namespace, a: Path, name: string, k: Kind)
    requires Tree(ns.nodes) && a in ns.nodes && ns.nodes[a] == Dir
    ensures Tree(Create(ns, Loc(0, a), name, k).nodes)
  {
    assert Parent(a + [name]) == a;
  }

  /** One round of the loop in whitelist_mkpath, for a directory of the original. */
  lemma MkpathStep(host: map<Path, Kind>, ns: Namespace, a: Path, name: string)
    requires Valid(ns) && Tree(ns.nodes) && Agrees(host, ns)
    requires a in ns.nodes && ns.nodes[a] == Dir && a + [name] in host && host[a + [name]] == Dir
    ensures var ns1 := Create(ns, Loc(0, a), name, Dir);
            && Valid(ns1) && Agrees(host, ns1) && Grown(host, ns, ns1, a + [name]) && a + [name] in ns1.nodes
            && var fd := OpenDir(host, ns1, Loc(0, a), name);
               && fd.Some?
               && (fd.value.mnt == 0 <==> !Covered(ns, a + [name]))
               && (fd.value.mnt == 0 ==> fd.value == Loc(0, a + [name]))
  {
    CreateTree(ns, a, name, Dir);
  }

  lemma GrownTrans(host: map<Path, Kind>, ns: Namespace, ns1: Namespace, ns2: Namespace, c: Path, d: Path)
    requires Grown(host, ns, ns1, c) && Grown(host, ns1, ns2, d) && c <= d
    ensures Grown(host, ns, ns2, d)
  {
  }

  lemma DirStep(host: map<Path, Kind>, a: Path, rest: Path)
    requires Tree(host) && rest != [] && a + rest in host && host[a + rest] == Dir
    ensures a in host && host[a] == Dir && a + [rest[0]] in host && host[a + [rest[0]]] == Dir
    ensures a + [rest[0]] + rest[1..] == a + rest && a + [rest[0]] <= a + rest
  {
    TreeStep(host, a, rest);
    var c := a + [rest[0]];
    assert c + rest[1..] == a + rest;
    if rest[1..] != [] { TreeStep(host, c, rest[1..]); } else { assert c == a + rest; }
  }

  lemma {:induction false} MkpathGrows(host: map<Path, Kind>, ns: Namespace, a: Path, rest: Path, d: Path)
    requires Valid(ns) && Tree(host) && Tree(ns.nodes) && Agrees(host, ns)
    requires d == a + rest && !Under(ns, a) && a in ns.nodes && d in host && host[d] == Dir
    ensures var r := Mkpath(host, ns, Loc(0, a), rest);
            && Grown(host, ns, r.0, d)
            && (r.1.Some? <==> !Under(ns, d))
            && (r.1.Some? ==> d in r.0.nodes)
    decreases |rest|
  {
    if rest == [] {
      assert d == a;
    } else {
      DirStep(host, a, rest);
      MkpathStep(host, ns, a, rest[0]);
      var c, ns1 := a + [rest[0]], Create(ns, Loc(0, a), rest[0], Dir);
      assert c + rest[1..] == d;
      if Covered(ns, c) {
        assert d[..|c|] == c;
        GrownTrans(host, ns, ns, ns1, a, c);
        assert Grown(host, ns, ns1, d);
      } else {
        assert !Under(ns1, a) && !Covered(ns1, c);
        StillAbove(ns1, a, rest[0]);
        MkpathGrows(host, ns1, c, rest[1..], d);
        GrownTrans(host, ns, ns1, Mkpath(host, ns1, Loc(0, c), rest[1..]).0, c, d);
        assert Under(ns, d) == Under(ns1, d);
      }
    }
  }

  ghost predicate Wanted(host: map<Path, Kind>, r: Request) {
    r.WantFile? ==> r.path in host && host[r.path] != Symlink
  }

  lemma MoreWanted(host: map<Path, Kind>, rs: seq<Request>, r: Request)
    ensures forall p ::
              WantsFile(host, rs + [r], p) <==> WantsFile(host, rs, p) || (r == WantFile(p) && Wanted(host, r))
    ensures forall p :: WantsLink(rs + [r], p) <==> WantsLink(rs, p) || r == WantLink(p)
    ensures forall p :: Granted(host, rs, p) ==> Granted(host, rs + [r], p)
    ensures forall p :: Wanted(host, r) && p <= r.path ==> Granted(host, rs + [r], p)
  {
    forall x ensures x in rs + [r] <==> x in rs || x == r { }
    forall p | Granted(host, rs, p) ensures Granted(host, rs + [r], p) {
      if p != [] {
        if q :| WantsFile(host, rs, q) && q <= p {
          assert WantsFile(host, rs + [r], q);
        } else {
          var q :| (WantsFile(host, rs, q) || WantsLink(rs, q)) && p <= q;
          assert WantsFile(host, rs + [r], q) || WantsLink(rs + [r], q);
        }
      }
    }
    forall p | Wanted(host, r) && p <= r.path ensures Granted(host, rs + [r], p) {
      assert WantsFile(host, rs + [r], r.path) || WantsLink(rs + [r], r.path);
    }
  }

  /** A request for a file is met; one for a link has its directories. */
  ghost predicate Met(host: map<Path, Kind>, ns: Namespace, r: Request) {
    if r.WantFile? then Under(ns, r.path)
    else forall p | p <= r.path && Firm(host, p) :: Under(ns, p) || p in ns.nodes
  }

  /** The namespace has only changed at, and on the way to, the requested path. */
  ghost predicate Extended(host: map<Path, Kind>, ns: Namespace, ns': Namespace, r: Request) {
    && Valid(ns') && Tree(ns'.nodes)
    && (forall p | p in ns.nodes :: p in ns'.nodes && ns'.nodes[p] == ns.nodes[p])
    && (forall p | p in ns'.nodes && p !in ns.nodes :: p <= r.path && (Firm(host, p) ==> ns'.nodes[p] == host[p]))
    && (forall p | p in ns'.nodes && p !in ns.nodes && ns'.nodes[p] == File :: Covered(ns', p))
    && (forall p | Covered(ns, p) :: Covered(ns', p))
    && (forall p | Covered(ns', p) :: Covered(ns, p) || r == WantFile(p))
    && Met(host, ns', r)
  }

  /** A link that the request leads to, or passes, stands on the tmpfs afterwards, as
      it was or as the request has made it; no other link appears. */
  ghost predicate LinkStep(host: map<Path, Kind>, ns: Namespace, ns': Namespace, r: Request) {
    forall d | Straight(host, d) && !Under(ns', d) ::
      && (d in ns'.nodes <==> d in ns.nodes || (r.WantLink? && d <= r.path))
      && (d in ns'.nodes && d !in ns.nodes ==> ns'.nodes[d] == if r.path == d then Symlink else Dir)
  }

  lemma UnderStays(ns: Namespace, ns': Namespace, p: Path)
    requires forall p | Covered(ns, p) :: Covered(ns', p)
    requires Under(ns, p)
    ensures Under(ns', p)
  {
    var k :| 0 <= k <= |p| && Covered(ns, p[..k]);
    assert Covered(ns', p[..k]);
  }

  lemma ExtendedKeeps(host: map<Path, Kind>, ns: Namespace, ns': Namespace, rs: seq<Request>, r: Request)
    requires Inv(host, ns, rs) && r.path != [] && Wanted(host, r) && Extended(host, ns, ns', r)
    ensures Inv(host, ns', rs + [r])
  {
    MoreWanted(host, rs, r);
    forall p | Under(ns, p) ensures Under(ns', p) { UnderStays(ns, ns', p); }
  }

  lemma PassedSnoc(rs: seq<Request>, r: Request, d: Path)
    ensures Passed(rs + [r], d) <==> Passed(rs, d) || (r.WantLink? && d <= r.path)
    ensures FirstIs(rs + [r], d) <==> FirstIs(rs, d) || (!Passed(rs, d) && r == WantLink(d))
  {
    var more, n := rs + [r], |rs|;
    assert more[n] == r && forall i | 0 <= i < n :: more[i] == rs[i] && (Passes(more, d, i) <==> Passes(rs, d, i));
    if r.WantLink? && d <= r.path { assert Passes(more, d, n); }
    if i :| 0 <= i < n && Passes(rs, d, i) { assert Passes(more, d, i); }
    if FirstIs(rs, d) {
      var i :| 0 <= i < n && rs[i] == WantLink(d) && forall j | 0 <= j < i :: !Passes(rs, d, j);
      assert more[i] == WantLink(d) && forall j | 0 <= j < i :: !Passes(more, d, j);
    }
    if !Passed(rs, d) && r == WantLink(d) {
      assert more[n] == WantLink(d) && forall j | 0 <= j < n :: !Passes(more, d, j);
    }
  }

  lemma LinksKept(host: map<Path, Kind>, ns: Namespace, ns': Namespace, rs: seq<Request>, r: Request)
    requires LinksInv(host, ns, rs) && Extended(host, ns, ns', r) && LinkStep(host, ns, ns', r)
    ensures LinksInv(host, ns', rs + [r])
  {
    forall d | Straight(host, d) && !Under(ns', d)
      ensures d in ns'.nodes <==> Passed(rs + [r], d)
      ensures d in ns'.nodes ==> ns'.nodes[d] == if FirstIs(rs + [r], d) then Symlink else Dir
    {
      PassedSnoc(rs, r, d);
      if Under(ns, d) { UnderStays(ns, ns', d); }
      if FirstIs(rs, d) { FirstPasses(rs, d); }
    }
  }

  lemma FirstPasses(rs: seq<Request>, d: Path)
    requires FirstIs(rs, d)
    ensures Passed(rs, d)
  {
    var i :| 0 <= i < |rs| && rs[i] == WantLink(d) && forall j | 0 <= j < i :: !Passes(rs, d, j);
    assert Passes(rs, d, i);
  }

  lemma ParentDir(host: map<Path, Kind>, rel: Path)
    requires Tree(host) && rel in host && rel != []
    ensures Parent(rel) in host && host[Parent(rel)] == Dir && Parent(rel) == rel[..|rel|-1]
  {
  }

  /** The directories leading to a path of the original. */
  lemma LeadingDirs(host: map<Path, Kind>, ns: Namespace, d: Path)
    requires Valid(ns) && Tree(host) && Tree(ns.nodes) && Agrees(host, ns) && !Under(ns, [])
    requires d in host && host[d] == Dir
    ensures var r := Mkpath(host, ns, TOP, d);
            && Grown(host, ns, r.0, d)
            && (r.1.Some? <==> !Under(ns, d))
            && (r.1.Some? ==> r.1.value == Loc(0, d) && d in r.0.nodes)
  {
    assert [] + d == d;
    MkpathGrows(host, ns, [], d, d);
  }

  lemma GrownSame(host: map<Path, Kind>, ns: Namespace, ns': Namespace, d: Path)
    requires Agrees(host, ns) && Grown(host, ns, ns', d)
    ensures Agrees(host, ns')
  {
  }

  lemma GrownExtends(host: map<Path, Kind>, ns: Namespace, ns': Namespace, rel: Path)
    requires Valid(ns') && rel != []
    requires Grown(host, ns, ns', Parent(rel)) && Under(ns, Parent(rel))
    ensures Extended(host, ns, ns', WantFile(rel))
  {
    UnderDown(ns, Parent(rel), rel);
    assert forall p :: Covered(ns, p) <==> Covered(ns', p);
    UnderStays(ns, ns', rel);
  }

  lemma CoveredIsUnder(ns: Namespace, p: Path)
    requires Covered(ns, p)
    ensures Under(ns, p)
  {
    assert p[..|p|] == p;
  }

  /** A mount at the requested path, once its mount point is there. */
  lemma MountExtends(host: map<Path, Kind>, ns: Namespace, ns2: Namespace, at: Loc, rel: Path)
    requires Valid(ns2) && Tree(ns2.nodes) && Agrees(host, ns2) && rel in ns2.nodes
    requires ns2 == ns.(nodes := ns2.nodes)
    requires forall p | p in ns.nodes :: p in ns2.nodes && ns2.nodes[p] == ns.nodes[p]
    requires forall p | p in ns2.nodes && p !in ns.nodes :: p <= rel && (ns2.nodes[p] == File ==> p == rel)
    requires at == Follow(ns2, Loc(0, rel))
    ensures Extended(host, ns, Mount(ns2, at), WantFile(rel))
  {
    MountCovers(ns2, at, rel);
    MountedExtends(host, ns, ns2, Mount(ns2, at), rel);
  }

  lemma MountedExtends(host: map<Path, Kind>, ns: Namespace, ns2: Namespace, ns3: Namespace, rel: Path)
    requires Valid(ns3) && Tree(ns2.nodes) && Agrees(host, ns2) && ns3.nodes == ns2.nodes
    requires forall p | p in ns.nodes :: p in ns2.nodes && ns2.nodes[p] == ns.nodes[p]
    requires forall p | p in ns2.nodes && p !in ns.nodes :: p <= rel && (ns2.nodes[p] == File ==> p == rel)
    requires forall p :: Covered(ns3, p) <==> Covered(ns2, p) || p == rel
    requires forall p :: Covered(ns2, p) <==> Covered(ns, p)
    ensures Extended(host, ns, ns3, WantFile(rel))
  {
    CoveredIsUnder(ns3, rel);
  }

  lemma MountCovers(ns: Namespace, at: Loc, rel: Path)
    requires Valid(ns) && rel in ns.nodes && at == Follow(ns, Loc(0, rel))
    ensures var ns' := Mount(ns, at);
            && Valid(ns') && ns'.nodes == ns.nodes
            && forall p :: Covered(ns', p) <==> Covered(ns, p) || p == rel
  {
    var ns' := Mount(ns, at);
    forall l ensures l in ns'.mounts <==> l in ns.mounts || l == at { }
  }

  lemma DirExtends(host: map<Path, Kind>, ns: Namespace, ns1: Namespace, d: Path, file: string, rel: Path)
    requires rel == d + [file] && rel in host && host[rel] == Dir && Agrees(host, ns1)
    requires Valid(ns1) && Grown(host, ns, ns1, d) && d in ns1.nodes && ns1.nodes[d] == Dir
    ensures var ns2 := Create(ns1, Loc(0, d), file, Dir);
            var fd3 := OpenDir(host, ns2, Loc(0, d), file);
            fd3.Some? && fd3.value !in ns2.mounts && Extended(host, ns, Mount(ns2, fd3.value), WantFile(rel))
  {
    MkpathStep(host, ns1, d, file);
    var ns2 := Create(ns1, Loc(0, d), file, Dir);
    MountExtends(host, ns, ns2, OpenDir(host, ns2, Loc(0, d), file).value, rel);
  }

  lemma FileExtends(host: map<Path, Kind>, ns: Namespace, ns1: Namespace, d: Path, file: string, rel: Path)
    requires rel == d + [file] && rel in host && host[rel] == File && Agrees(host, ns1) && rel !in ns1.nodes
    requires Valid(ns1) && Grown(host, ns, ns1, d) && d in ns1.nodes && ns1.nodes[d] == Dir
    ensures Loc(0, rel) !in ns1.mounts
    ensures Extended(host, ns, Mount(Create(ns1, Loc(0, d), file, File), Loc(0, rel)), WantFile(rel))
  {
    CreateTree(ns1, d, file, File);
    MountExtends(host, ns, Create(ns1, Loc(0, d), file, File), Loc(0, rel), rel);
  }

  lemma NothingNew(host: map<Path, Kind>, ns: Namespace, rs: seq<Request>, r: Request)
    requires Inv(host, ns, rs) && LinksInv(host, ns, rs) && !Wanted(host, r)
    ensures Inv(host, ns, rs + [r]) && LinksInv(host, ns, rs + [r])
  {
    MoreWanted(host, rs, r);
    forall d | Straight(host, d)
      ensures Passed(rs + [r], d) == Passed(rs, d) && FirstIs(rs + [r], d) == FirstIs(rs, d)
    {
      PassedSnoc(rs, r, d);
    }
  }

  /** What the cases below need of the namespace. */
  ghost predicate Sound(host: map<Path, Kind>, ns: Namespace) {
    && Valid(ns) && Tree(host) && Tree(ns.nodes) && Agrees(host, ns) && !Under(ns, [])
    && (forall p | p in ns.nodes && ns.nodes[p] == File :: Covered(ns, p))
  }

  lemma FileServed(host: map<Path, Kind>, ns: Namespace, rel: Path)
    requires Sound(host, ns) && rel != [] && rel in host && host[rel] != Symlink
    ensures Extended(host, ns, WhitelistFile(host, ns, rel), WantFile(rel))
  {
    var d, file := Parent(rel), rel[|rel|-1];
    ParentDir(host, rel);
    assert d + [file] == rel;
    LeadingDirs(host, ns, d);
    var (ns1, fd) := Mkpath(host, ns, TOP, d);
    GrownSame(host, ns, ns1, d);
    if fd.None? {
      GrownExtends(host, ns, ns1, rel);
    } else if host[rel] == Dir {
      DirExtends(host, ns, ns1, d, file, rel);
    } else if rel !in ns1.nodes {
      FileExtends(host, ns, ns1, d, file, rel);
    } else {
      assert rel in ns.nodes && ns.nodes[rel] == File;
      PlaceholderExtends(host, ns, ns1, rel);
    }
  }

  /** A request for a file makes no link and no path through one. */
  lemma FileStep(host: map<Path, Kind>, ns: Namespace, ns': Namespace, rel: Path)
    requires Tree(host) && Firm(host, rel) && Extended(host, ns, ns', WantFile(rel))
    ensures LinkStep(host, ns, ns', WantFile(rel))
  {
    forall d | d <= rel ensures Firm(host, d) { FirmUp(host, rel, d); }
  }

  /** All that leads to a file or directory of the original are directories. */
  lemma FirmUp(host: map<Path, Kind>, p: Path, d: Path)
    requires Tree(host) && Firm(host, p) && d <= p
    ensures Firm(host, d)
  {
    assert p[..|d|] == d;
    TreeUp(host, p, |d|);
    if |d| == |p| { assert d == p; }
  }

  /** On any path, only directories are added, and every path of the original on the
      way is there afterwards, unless a mount point lies above it. */
  ghost predicate Reaches(host: map<Path, Kind>, ns: Namespace, ns': Namespace, a: Path, d: Path) {
    && ns' == ns.(nodes := ns'.nodes) && Valid(ns') && Tree(ns'.nodes)
    && (forall p | p in ns.nodes :: p in ns'.nodes && ns'.nodes[p] == ns.nodes[p])
    && (forall p | p in ns'.nodes && p !in ns.nodes :: p <= d && ns'.nodes[p] == Dir)
    && (forall p | p in host && a <= p <= d :: p in ns'.nodes || Under(ns, p))
  }

  /** The original goes on below a place of the tmpfs only if that is a directory. */
  lemma DirAbove(host: map<Path, Kind>, ns: Namespace, c: Path, p: Path)
    requires Tree(host) && Agrees(host, ns) && c in ns.nodes && p in host && c <= p && c != p
    ensures ns.nodes[c] == Dir
  {
    assert p[..|c|] == c;
    TreeUp(host, p, |c|);
  }

  lemma SplitPrefix(a: Path, p: Path, d: Path, x: string)
    requires a <= p <= d && a + [x] <= d
    ensures p == a || a + [x] <= p
  {
    if |p| > |a| { assert p == d[..|p|] && a + [x] == d[..|a| + 1]; }
  }

  lemma UnderSame(ns: Namespace, ns': Namespace, p: Path)
    requires ns'.mounts == ns.mounts
    ensures Under(ns, p) <==> Under(ns', p)
  {
    assert forall q :: Covered(ns, q) <==> Covered(ns', q);
  }

  /** One component, on any path. */
  lemma ReachStep(host: map<Path, Kind>, ns: Namespace, a: Path, name: string, d: Path)
    requires Tree(host) && Valid(ns) && Tree(ns.nodes) && Agrees(host, ns) && a in ns.nodes && ns.nodes[a] == Dir
    requires a + [name] <= d && (a + [name] in host ==> host[a + [name]] != File)
    ensures var c, ns1 := a + [name], Create(ns, Loc(0, a), name, Dir);
            && Valid(ns1) && Tree(ns1.nodes) && Agrees(host, ns1) && c in ns1.nodes && ns1.mounts == ns.mounts
            && (Covered(ns, c) || ns1.nodes[c] != Dir ==> Reaches(host, ns, ns1, a, d))
  {
    var c, ns1 := a + [name], Create(ns, Loc(0, a), name, Dir);
    CreateTree(ns, a, name, Dir);
    if Covered(ns, c) || ns1.nodes[c] != Dir {
      forall p | p in host && a <= p <= d ensures p in ns1.nodes || Under(ns, p) {
        SplitPrefix(a, p, d, name);
        if p != a && p != c {
          if Covered(ns, c) {
            assert p[..|c|] == c;
          } else {
            DirAbove(host, ns1, c, p);
          }
        }
      }
    }
  }

  lemma ReachTrans(host: map<Path, Kind>, ns: Namespace, ns1: Namespace, ns2: Namespace, a: Path, name: string, d: Path)
    requires ns1 == Create(ns, Loc(0, a), name, Dir) && a in ns.nodes && a + [name] <= d
    requires Reaches(host, ns1, ns2, a + [name], d)
    ensures Reaches(host, ns, ns2, a, d)
  {
    forall p | p in host && a <= p <= d ensures p in ns2.nodes || Under(ns, p) {
      SplitPrefix(a, p, d, name);
      UnderSame(ns, ns1, p);
    }
  }

  /** No component of the path is a file of the original. */
  ghost predicate NoFile(host: map<Path, Kind>, p: Path) {
    forall k | 0 <= k <= |p| :: p[..k] in host ==> host[p[..k]] != File
  }

  lemma {:induction false} MkpathReaches(host: map<Path, Kind>, ns: Namespace, a: Path, rest: Path, d: Path)
    requires Tree(host) && Valid(ns) && Tree(ns.nodes) && Agrees(host, ns) && a in ns.nodes && ns.nodes[a] == Dir
    requires d == a + rest && NoFile(host, d)
    ensures var r := Mkpath(host, ns, Loc(0, a), rest);
            && Reaches(host, ns, r.0, a, d)
            && (r.1.Some? ==> r.1.value == Loc(0, d) && d in r.0.nodes && r.0.nodes[d] == Dir)
    decreases |rest|
  {
    if rest == [] {
      assert d == a;
      forall p | p in host && a <= p <= d ensures p in ns.nodes { assert p == a; }
    } else {
      var c, ns1 := a + [rest[0]], Create(ns, Loc(0, a), rest[0], Dir);
      assert c == d[..|c|] && c + rest[1..] == d;
      ReachStep(host, ns, a, rest[0], d);
      if !Covered(ns, c) && ns1.nodes[c] == Dir {
        MkpathReaches(host, ns1, c, rest[1..], d);
        ReachTrans(host, ns, ns1, Mkpath(host, ns1, Loc(0, c), rest[1..]).0, a, rest[0], d);
      }
    }
  }

  lemma LinkedNoFile(host: map<Path, Kind>, q: Path)
    requires Tree(host) && Linked(host, q)
    ensures NoFile(host, q)
    ensures q in host ==> Straight(host, q)
  {
    var m :| 0 <= m <= |q| && Straight(host, q[..m]);
    forall k | 0 <= k <= |q| && q[..k] in host ensures host[q[..k]] != File && (k == |q| ==> k == m) {
      if k < m {
        assert q[..m][..k] == q[..k];
        TreeUp(host, q[..m], k);
      } else if m < k {
        assert q[..k][..m] == q[..m];
        TreeUp(host, q[..k], m);
      }
    }
    assert q[..|q|] == q;
  }

  lemma NoFileUp(host: map<Path, Kind>, q: Path)
    requires NoFile(host, q) && q != []
    ensures NoFile(host, Parent(q))
  {
    var d := Parent(q);
    forall k | 0 <= k <= |d| && d[..k] in host ensures host[d[..k]] != File { assert d[..k] == q[..k]; }
  }

  /** The directories leading to a link, and the link. */
  lemma LinkServed(host: map<Path, Kind>, ns: Namespace, q: Path)
    requires Sound(host, ns) && q != [] && Linked(host, q)
    ensures Extended(host, ns, WhitelistSymlink(host, ns, q), WantLink(q))
    ensures LinkStep(host, ns, WhitelistSymlink(host, ns, q), WantLink(q))
  {
    var d, file := Parent(q), q[|q|-1];
    LinkedNoFile(host, q);
    NoFileUp(host, q);
    assert [] + d == d && d + [file] == q;
    MkpathReaches(host, ns, [], d, d);
    var (ns1, fd) := Mkpath(host, ns, TOP, d);
    if Straight(host, q) {
      ParentDir(host, q);
      LeadingDirs(host, ns, d);
    }
    LinkMade(host, ns, ns1, fd.Some?, d, file, q);
    LinkExtends(host, ns, WhitelistSymlink(host, ns, q), q);
    LinkSteps(host, ns, WhitelistSymlink(host, ns, q), q);
  }

  /** Directories have been added on the way to a link, and the link if the way is open. */
  ghost predicate Linking(host: map<Path, Kind>, ns: Namespace, ns2: Namespace, q: Path) {
    && ns2 == ns.(nodes := ns2.nodes) && Valid(ns2) && Tree(ns2.nodes)
    && (forall p | p in ns.nodes :: p in ns2.nodes && ns2.nodes[p] == ns.nodes[p])
    && (forall p | p in ns2.nodes && p !in ns.nodes :: p <= q && ns2.nodes[p] == if p == q then Symlink else Dir)
    && (forall p | p in host && p <= q && p != q :: p in ns2.nodes || Under(ns, p))
    && (Straight(host, q) && !Under(ns, q) ==> q in ns2.nodes)
  }

  /** The last step, after the directories. */
  lemma LinkMade(host: map<Path, Kind>, ns: Namespace, ns1: Namespace, ok: bool, d: Path, file: string, q: Path)
    requires q == d + [file] && Reaches(host, ns, ns1, [], d)
    requires ok ==> d in ns1.nodes && ns1.nodes[d] == Dir
    requires Straight(host, q) ==> (ok <==> !Under(ns, d))
    ensures Linking(host, ns, if ok then Create(ns1, Loc(0, d), file, Symlink) else ns1, q)
  {
    if ok { CreateTree(ns1, d, file, Symlink); }
    forall p | p in host && p <= q && p != q ensures p in ns1.nodes || Under(ns, p) {
      assert p == q[..|p|] == d[..|p|];
    }
    forall p | p in ns1.nodes && p <= d ensures p <= q && p != q { }
    if Under(ns, d) { UnderDown(ns, d, q); }
  }

  lemma LinkExtends(host: map<Path, Kind>, ns: Namespace, ns2: Namespace, q: Path)
    requires Linking(host, ns, ns2, q) && NoFile(host, q) && (q in host ==> Straight(host, q))
    ensures Extended(host, ns, ns2, WantLink(q))
  {
    forall p ensures Under(ns, p) <==> Under(ns2, p) { UnderSame(ns, ns2, p); }
    forall p | p in host && p <= q ensures host[p] != File { assert q[..|p|] == p; }
  }

  lemma LinkSteps(host: map<Path, Kind>, ns: Namespace, ns2: Namespace, q: Path)
    requires Linking(host, ns, ns2, q)
    ensures LinkStep(host, ns, ns2, WantLink(q))
  {
    forall p ensures Under(ns, p) <==> Under(ns2, p) { UnderSame(ns, ns2, p); }
  }

  lemma ServeKeeps(host: map<Path, Kind>, ns: Namespace, rs: seq<Request>, r: Request)
    requires Tree(host) && Inv(host, ns, rs) && LinksInv(host, ns, rs)
    requires r.path != [] && (r.WantLink? ==> Linked(host, r.path))
    ensures Inv(host, Serve(host, ns, r), rs + [r]) && LinksInv(host, Serve(host, ns, r), rs + [r])
  {
    if !Wanted(host, r) {
      NothingNew(host, ns, rs, r);
    } else {
      InvTop(host, ns, rs);
      var ns' := Serve(host, ns, r);
      if r.WantFile? {
        FileServed(host, ns, r.path);
        FileStep(host, ns, ns', r.path);
      } else {
        LinkServed(host, ns, r.path);
      }
      ExtendedKeeps(host, ns, ns', rs, r);
      LinksKept(host, ns, ns', rs, r);
    }
  }

  /** A placeholder file that exists already is mounted already. */
  lemma PlaceholderExtends(host: map<Path, Kind>, ns: Namespace, ns1: Namespace, rel: Path)
    requires Covered(ns, rel) && Agrees(host, ns1) && rel != [] && Valid(ns1)
    requires Grown(host, ns, ns1, Parent(rel))
    ensures Extended(host, ns, ns1, WantFile(rel))
  {
    CoveredIsUnder(ns1, rel);
    assert forall p :: Covered(ns, p) <==> Covered(ns1, p);
  }

  lemma {:induction false} ServeAllKeeps(host: map<Path, Kind>, rs: seq<Request>)
    requires Tree(host) && Requests(rs) && LinkedLinks(host, rs)
    ensures Inv(host, ServeAll(host, rs), rs) && LinksInv(host, ServeAll(host, rs), rs)
  {
    if rs == [] {
      FreshInv(host);
    } else {
      var front, last := rs[..|rs|-1], rs[|rs|-1];
      assert front + [last] == rs;
      FrontLinked(host, front, last, rs);
      ServeAllKeeps(host, front);
      ServeKeeps(host, ServeAll(host, front), front, last);
    }
  }

  lemma FrontLinked(host: map<Path, Kind>, front: seq<Request>, last: Request, rs: seq<Request>)
    requires rs == front + [last] && LinkedLinks(host, rs)
    ensures LinkedLinks(host, front) && (last.WantLink? ==> Linked(host, last.path))
  {
    assert last in rs && forall p | WantsLink(front, p) :: WantsLink(rs, p);
    if last.WantLink? { assert WantsLink(rs, last.path); }
  }

  lemma FreshInv(host: map<Path, Kind>)
    requires Tree(host)
    ensures Inv(host, FRESH, []) && LinksInv(host, FRESH, [])
  {
  }

  lemma WantedPasses(rs: seq<Request>, q: Path, d: Path)
    requires WantsLink(rs, q) && d <= q
    ensures Passed(rs, d)
  {
    var i :| 0 <= i < |rs| && rs[i] == WantLink(q);
    assert Passes(rs, d, i);
  }

  lemma FileGrants(host: map<Path, Kind>, ns: Namespace, rs: seq<Request>, p: Path)
    requires Tree(host) && Inv(host, ns, rs)
    ensures (exists y :: WantsFile(host, rs, y) && y <= p) ==> Under(ns, p)
    ensures (exists y :: WantsFile(host, rs, y) && p <= y) ==> Firm(host, p)
  {
    if y :| WantsFile(host, rs, y) && y <= p { UnderDown(ns, y, p); }
    if y :| WantsFile(host, rs, y) && p <= y { FirmUp(host, y, p); }
  }

  /** A path that was asked for leads to a requested link, unless it is mounted or
      leads to a file. */
  lemma GrantedOpen(host: map<Path, Kind>, ns: Namespace, rs: seq<Request>, p: Path)
    requires Tree(host) && Inv(host, ns, rs) && Granted(host, rs, p) && !Under(ns, p) && !Firm(host, p)
    ensures exists q :: WantsLink(rs, q) && p <= q
  {
    FileGrants(host, ns, rs, p);
  }

  /** If all requests at or behind a link are for the link itself, so is the first. */
  lemma OnlyItself(host: map<Path, Kind>, rs: seq<Request>, d: Path)
    requires Passed(rs, d) && forall q | WantsLink(rs, q) && d <= q :: q == d
    ensures FirstIs(rs, d)
  {
    var k :| 0 <= k < |rs| && Passes(rs, d, k);
    var i := FirstPass(rs, d, k);
    assert rs[i] == WantLink(rs[i].path) && WantsLink(rs, rs[i].path);
  }

  lemma FirstPass(rs: seq<Request>, d: Path, k: nat) returns (i: nat)
    requires k < |rs| && Passes(rs, d, k)
    ensures i <= k && Passes(rs, d, i) && forall j | 0 <= j < i :: !Passes(rs, d, j)
  {
    if j :| 0 <= j < k && Passes(rs, d, j) { i := FirstPass(rs, d, j); } else { i := k; }
  }

  // ---------------------------------------------------------------------
  // Links behind links
  // ---------------------------------------------------------------------

  /** The tmpfs holds the directories leading to d and nothing else. */
  ghost predicate OnlyDirs(ns: Namespace, d: Path) {
    && ns.mounts == map[] && Valid(ns) && Tree(ns.nodes)
    && (forall p :: p in ns.nodes <==> p <= d)
    && (forall p | p in ns.nodes :: ns.nodes[p] == Dir)
  }

  lemma OnlyDirsStep(ns: Namespace, d: Path, name: string)
    requires OnlyDirs(ns, d)
    ensures OnlyDirs(Create(ns, Loc(0, d), name, Dir), d + [name])
  {
    CreateTree(ns, d, name, Dir);
    var c, ns1 := d + [name], Create(ns, Loc(0, d), name, Dir);
    forall p ensures p in ns1.nodes <==> p <= c {
      if p <= c && p != c { assert p == c[..|p|] == d[..|p|]; }
    }
  }

  lemma {:induction false} MkpathFresh(host: map<Path, Kind>, ns: Namespace, d: Path, rest: Path)
    requires OnlyDirs(ns, d)
    ensures var r := Mkpath(host, ns, Loc(0, d), rest); r.1.Some? && OnlyDirs(r.0, d + rest)
    decreases |rest|
  {
    if rest == [] {
      assert d + rest == d;
    } else {
      var c := d + [rest[0]];
      assert c + rest[1..] == d + rest;
      OnlyDirsStep(ns, d, rest[0]);
      MkpathFresh(host, Create(ns, Loc(0, d), rest[0], Dir), c, rest[1..]);
    }
  }

  lemma LinkNodes(host: map<Path, Kind>, q: Path)
    requires q != []
    ensures var ns := WhitelistSymlink(host, FRESH, q);
            && ns.mounts == map[] && Tree(ns.nodes) && (forall p :: p in ns.nodes <==> p <= q)
            && (forall p | p in ns.nodes :: ns.nodes[p] == if p == q then Symlink else Dir)
  {
    var d, file := q[..|q|-1], q[|q|-1];
    assert [] + d == d && d + [file] == q;
    MkpathFresh(host, FRESH, [], d);
    CreateLink(Mkpath(host, FRESH, TOP, d).0, d, file, q);
  }

  lemma CreateLink(ns: Namespace, d: Path, file: string, q: Path)
    requires OnlyDirs(ns, d) && q == d + [file]
    ensures var ns' := Create(ns, Loc(0, d), file, Symlink);
            && ns'.mounts == map[] && Tree(ns'.nodes) && (forall p :: p in ns'.nodes <==> p <= q)
            && (forall p | p in ns'.nodes :: ns'.nodes[p] == if p == q then Symlink else Dir)
  {
    CreateTree(ns, d, file, Symlink);
    var ns' := Create(ns, Loc(0, d), file, Symlink);
    forall p ensures p in ns'.nodes <==> p <= q {
      if p <= q && p != q { assert p == q[..|p|] == d[..|p|]; }
    }
  }

  /** What a single link request leaves, whatever lies on the way to the link. */
  lemma LinkAlone(host: map<Path, Kind>, q: Path, p: Path)
    requires Tree(host) && q != []
    ensures Visible(host, WhitelistSymlink(host, FRESH, q), p) ==
            if p == q then Some(Symlink) else if p <= q then Some(Dir) else None
  {
    var ns := WhitelistSymlink(host, FRESH, q);
    LinkNodes(host, q);
    WalkTop(host, ns, [], p);
    assert [] + p == p;
  }

  /** Everything that is seen is part of the original. */
  ghost predicate Faithful(host: map<Path, Kind>, ns: Namespace)
    requires MountsOk(ns)
  {
    forall p :: var v := Visible(host, ns, p); v.Some? ==> p in host && host[p] == v.value
  }

  /** A link of the original that a request passes on its way to another link. */
  ghost predicate Bent(host: map<Path, Kind>, rs: seq<Request>, d: Path) {
    Straight(host, d) && exists q :: WantsLink(rs, q) && d <= q && d != q
  }

  ghost predicate FileAbove(host: map<Path, Kind>, rs: seq<Request>, d: Path) {
    exists y :: WantsFile(host, rs, y) && y <= d
  }

  /** Every link that a request passes lies in a requested directory, or was asked for
      before any request passed it. */
  ghost predicate Unbent(host: map<Path, Kind>, rs: seq<Request>) {
    forall d | Bent(host, rs, d) :: FileAbove(host, rs, d) || FirstIs(rs, d)
  }

  lemma UnderIs(host: map<Path, Kind>, ns: Namespace, rs: seq<Request>, p: Path)
    requires Tree(host) && Inv(host, ns, rs)
    ensures Under(ns, p) <==> FileAbove(host, rs, p)
  {
    FileGrants(host, ns, rs, p);
    if Under(ns, p) {
      var k :| 0 <= k <= |p| && Covered(ns, p[..k]);
      assert WantsFile(host, rs, p[..k]) && p[..k] <= p;
    }
  }

  /** A link that was passed before it was asked for shows up as a directory. */
  lemma BentShows(host: map<Path, Kind>, ns: Namespace, rs: seq<Request>, d: Path)
    requires Tree(host) && Inv(host, ns, rs) && LinksInv(host, ns, rs)
    requires Bent(host, rs, d) && !FileAbove(host, rs, d) && !FirstIs(rs, d)
    ensures Visible(host, ns, d) == Some(Dir) && !Faithful(host, ns)
  {
    var q :| WantsLink(rs, q) && d <= q && d != q;
    UnderIs(host, ns, rs, d);
    WantedPasses(rs, q, d);
    Seen(host, ns, rs, d);
  }

  /** What is seen of a link, when no link is bent without being asked for first. */
  lemma LinkShows(host: map<Path, Kind>, ns: Namespace, rs: seq<Request>, p: Path)
    requires Tree(host) && Inv(host, ns, rs) && LinksInv(host, ns, rs)
    requires Unbent(host, rs)
    requires Straight(host, p) && !Under(ns, p) && p in ns.nodes
    ensures ns.nodes[p] == Symlink
  {
    UnderIs(host, ns, rs, p);
    if !Bent(host, rs, p) { OnlyItself(host, rs, p); }
  }

  /** Nothing appears that the original does not have. */
  lemma NothingBehind(host: map<Path, Kind>, ns: Namespace, rs: seq<Request>, p: Path)
    requires Tree(host) && Inv(host, ns, rs) && LinksInv(host, ns, rs) && LinkedLinks(host, rs)
    requires Unbent(host, rs)
    requires !Under(ns, p) && p in ns.nodes
    ensures p in host
  {
    if p !in host {
      GrantedOpen(host, ns, rs, p);
      var q :| WantsLink(rs, q) && p <= q;
      var d := LinkBefore(host, p, q);
      if Under(ns, d) { UnderDown(ns, d, p); }
      assert p[..|d|] == d;
      TreeUp(ns.nodes, p, |d|);
      LinkShows(host, ns, rs, d);
    }
  }

  /** The link through which a path leaves the original. */
  lemma LinkBefore(host: map<Path, Kind>, p: Path, q: Path) returns (d: Path)
    requires Tree(host) && Linked(host, q) && p <= q && p !in host
    ensures Straight(host, d) && d <= p && d != p
  {
    var m :| 0 <= m <= |q| && Straight(host, q[..m]);
    d := q[..m];
    if |p| <= m {
      assert d[..|p|] == p;
      TreeUp(host, d, |p|);
    } else {
      assert d == p[..m];
    }
  }

  lemma UnbentShows(host: map<Path, Kind>, ns: Namespace, rs: seq<Request>, p: Path)
    requires Tree(host) && Inv(host, ns, rs) && LinksInv(host, ns, rs) && LinkedLinks(host, rs) && Unbent(host, rs)
    ensures var v := Visible(host, ns, p); v.Some? ==> p in host && host[p] == v.value
  {
    Seen(host, ns, rs, p);
    if !Under(ns, p) && p in ns.nodes {
      NothingBehind(host, ns, rs, p);
      if Straight(host, p) { LinkShows(host, ns, rs, p); }
    }
  }

  /** The requests show nothing but parts of the original exactly when every link
      that some request passes lies in a requested directory, or was asked for
      before any request passed it. */
  lemma LinkFaithful(host: map<Path, Kind>, rs: seq<Request>)
    requires Tree(host) && Requests(rs) && LinkedLinks(host, rs)
    ensures Faithful(host, ServeAll(host, rs)) <==> Unbent(host, rs)
  {
    ServeAllKeeps(host, rs);
    FaithfulIs(host, ServeAll(host, rs), rs);
  }

  lemma FaithfulIs(host: map<Path, Kind>, ns: Namespace, rs: seq<Request>)
    requires Tree(host) && Inv(host, ns, rs) && LinksInv(host, ns, rs) && LinkedLinks(host, rs)
    ensures Faithful(host, ns) <==> Unbent(host, rs)
  {
    if Unbent(host, rs) {
      forall p ensures var v := Visible(host, ns, p); v.Some? ==> p in host && host[p] == v.value {
        UnbentShows(host, ns, rs, p);
      }
    } else {
      var d :| Bent(host, rs, d) && !FileAbove(host, rs, d) && !FirstIs(rs, d);
      BentShows(host, ns, rs, d);
    }
  }

  // ---------------------------------------------------------------------
  // What is seen, exactly
  // ---------------------------------------------------------------------

  /** What was asked for and exists stands on the tmpfs, unless it is mounted. */
  lemma GrantedStands(host: map<Path, Kind>, ns: Namespace, rs: seq<Request>, p: Path)
    requires Tree(host) && Inv(host, ns, rs) && LinksInv(host, ns, rs)
    requires p in host && Granted(host, rs, p)
    ensures Under(ns, p) || p in ns.nodes
  {
    if Firm(host, p) {
      GrantedFound(host, ns, rs, p);
    } else if !Under(ns, p) {
      GrantedOpen(host, ns, rs, p);
      var q :| WantsLink(rs, q) && p <= q;
      WantedPasses(rs, q, p);
    }
  }

  lemma UnbentExact(host: map<Path, Kind>, ns: Namespace, rs: seq<Request>, p: Path)
    requires Tree(host) && Inv(host, ns, rs) && LinksInv(host, ns, rs) && LinkedLinks(host, rs) && Unbent(host, rs)
    ensures Visible(host, ns, p) == Shown(host, rs, p)
  {
    Seen(host, ns, rs, p);
    UnbentShows(host, ns, rs, p);
    if Under(ns, p) { UnderGranted(host, ns, rs, p); }
    if p in host && Granted(host, rs, p) { GrantedStands(host, ns, rs, p); }
  }

  /** Exactly what was asked for is seen. */
  ghost predicate Exact(host: map<Path, Kind>, rs: seq<Request>)
    requires Requests(rs)
  {
    forall p :: Visible(host, ServeAll(host, rs), p) == Shown(host, rs, p)
  }

  /** Whatever the order, the nesting and the number of the requests, and whatever
      else was asked for that does not exist, every file and directory is seen
      exactly if it is part of a requested subtree or leads to a request.  The whole
      visible tree is the union of the requested subtrees, the requested links and
      the directories on the way to them exactly when every link that some request
      passes lies in a requested directory, or was asked for before it was passed. */
  lemma WhitelistExact(host: map<Path, Kind>, rs: seq<Request>)
    requires Tree(host) && Requests(rs) && LinkedLinks(host, rs)
    ensures forall p | Firm(host, p) :: Visible(host, ServeAll(host, rs), p) == Shown(host, rs, p)
    ensures Exact(host, rs) <==> Unbent(host, rs)
  {
    ServeAllKeeps(host, rs);
    FirmExact(host, ServeAll(host, rs), rs);
    ExactIs(host, ServeAll(host, rs), rs);
  }

  lemma FirmExact(host: map<Path, Kind>, ns: Namespace, rs: seq<Request>)
    requires Tree(host) && Inv(host, ns, rs)
    ensures forall p | Firm(host, p) :: Visible(host, ns, p) == Shown(host, rs, p)
  {
    forall p | Firm(host, p) ensures Visible(host, ns, p) == Shown(host, rs, p) { InvShown(host, ns, rs, p); }
  }

  lemma ExactIs(host: map<Path, Kind>, ns: Namespace, rs: seq<Request>)
    requires Tree(host) && Inv(host, ns, rs) && LinksInv(host, ns, rs) && LinkedLinks(host, rs)
    ensures (forall p :: Visible(host, ns, p) == Shown(host, rs, p)) <==> Unbent(host, rs)
  {
    if Unbent(host, rs) {
      forall p ensures Visible(host, ns, p) == Shown(host, rs, p) { UnbentExact(host, ns, rs, p); }
    } else {
      var d :| Bent(host, rs, d) && !FileAbove(host, rs, d) && !FirstIs(rs, d);
      BentShows(host, ns, rs, d);
    }
  }

  // ---------------------------------------------------------------------
  // The order of the requests
  // ---------------------------------------------------------------------

  /** No requested link is passed by a request for another one, but in a requested
      directory. */
  ghost predicate Apart(host: map<Path, Kind>, rs: seq<Request>) {
    forall q, q' | WantsLink(rs, q) && WantsLink(rs, q') && q < q' :: FileAbove(host, rs, q)
  }

  /** Nothing has been removed or changed. */
  ghost predicate Kept(t: map<Path, Kind>, t': map<Path, Kind>) {
    forall p | p in t :: p in t' && t'[p] == t[p]
  }

  lemma {:induction false} MkpathAdds(host: map<Path, Kind>, ns: Namespace, at: Loc, rest: Path)
    requires Valid(ns) && at.mnt == 0
    ensures Kept(ns.nodes, Mkpath(host, ns, at, rest).0.nodes)
    ensures rest != [] ==> at.path + [rest[0]] in Mkpath(host, ns, at, rest).0.nodes
    decreases |rest|
  {
    if rest != [] {
      var ns1 := Create(ns, at, rest[0], Dir);
      var fd := OpenDir(host, ns1, at, rest[0]);
      if fd.Some? && fd.value.mnt == 0 { MkpathAdds(host, ns1, fd.value, rest[1..]); }
    }
  }

  /** Nothing that stands on the tmpfs is ever changed. */
  lemma ServeAdds(host: map<Path, Kind>, ns: Namespace, r: Request)
    requires Valid(ns) && r.path != []
    ensures Kept(ns.nodes, Serve(host, ns, r).nodes)
  {
    var up := r.path[..|r.path|-1];
    MkpathAdds(host, ns, TOP, up);
    match r
    case WantFile(rel) => FileAdds(host, ns, rel, Mkpath(host, ns, TOP, up).0);
    case WantLink(rel) =>
  }

  lemma FileAdds(host: map<Path, Kind>, ns: Namespace, rel: Path, ns1: Namespace)
    requires Valid(ns) && rel != [] && ns1 == Mkpath(host, ns, TOP, rel[..|rel|-1]).0 && Kept(ns.nodes, ns1.nodes)
    ensures Kept(ns.nodes, WhitelistFile(host, ns, rel).nodes)
  {
    var fd, file := Mkpath(host, ns, TOP, rel[..|rel|-1]).1, rel[|rel|-1];
    if Firm(host, rel) && fd.Some? {
      FileNodes(host, ns, rel, ns1, fd.value, file);
      CreateAdds(ns, ns1, fd.value, file, host[rel]);
    }
  }

  /** What a request for a file leaves on the tmpfs. */
  lemma FileNodes(host: map<Path, Kind>, ns: Namespace, rel: Path, ns1: Namespace, fd: Loc, file: string)
    requires Valid(ns) && rel != [] && file == rel[|rel|-1] && Firm(host, rel)
    requires Mkpath(host, ns, TOP, rel[..|rel|-1]) == (ns1, Some(fd))
    ensures WhitelistFile(host, ns, rel).nodes in {ns1.nodes, Create(ns1, fd, file, host[rel]).nodes}
  {
  }

  lemma CreateAdds(ns: Namespace, ns1: Namespace, fd: Loc, file: string, k: Kind)
    requires Kept(ns.nodes, ns1.nodes)
    ensures Kept(ns.nodes, Create(ns1, fd, file, k).nodes)
  {
  }

  /** No mount point and nothing but directories in front of p. */
  ghost predicate Open(ns: Namespace, a: Path, p: Path) {
    forall c | a < c < p :: !Covered(ns, c) && (c in ns.nodes ==> ns.nodes[c] == Dir)
  }

  /** The next component of an open way is created or opened, and the way stays open. */
  lemma OpenStep(host: map<Path, Kind>, ns: Namespace, a: Path, name: string, p: Path)
    requires Valid(ns) && Open(ns, a, p) && a + [name] < p
    ensures var c, ns1 := a + [name], Create(ns, Loc(0, a), name, Dir);
            c in ns1.nodes && OpenDir(host, ns1, Loc(0, a), name) == Some(Loc(0, c)) && Open(ns1, c, p)
  {
    var c, ns1 := a + [name], Create(ns, Loc(0, a), name, Dir);
    assert a < c && !Covered(ns, c) && !Covered(ns1, c);
    forall x | c < x < p ensures !Covered(ns1, x) && (x in ns1.nodes ==> ns1.nodes[x] == Dir) {
      assert a < x < p && (Covered(ns, x) <==> Covered(ns1, x));
    }
  }

  lemma {:induction false} MkpathOpen(host: map<Path, Kind>, ns: Namespace, a: Path, rest: Path, d: Path, p: Path)
    requires Valid(ns) && d == a + rest && a in ns.nodes && a <= p <= d && Open(ns, a, p)
    ensures p in Mkpath(host, ns, Loc(0, a), rest).0.nodes
    decreases |rest|
  {
    MkpathAdds(host, ns, Loc(0, a), rest);
    if p != a {
      var c, ns1 := a + [rest[0]], Create(ns, Loc(0, a), rest[0], Dir);
      SplitPrefix(a, p, d, rest[0]);
      assert c + rest[1..] == d;
      if c != p {
        OpenStep(host, ns, a, rest[0], p);
        MkpathOpen(host, ns1, c, rest[1..], d, p);
      }
    }
  }

  /** The same up to the end, where the directory is opened. */
  lemma {:induction false} MkpathOpens(host: map<Path, Kind>, ns: Namespace, a: Path, rest: Path, q: Path)
    requires Valid(ns) && a in ns.nodes && a + rest < q && Open(ns, a, q)
    ensures Mkpath(host, ns, Loc(0, a), rest).1.Some?
    decreases |rest|
  {
    if rest != [] {
      var c, ns1 := a + [rest[0]], Create(ns, Loc(0, a), rest[0], Dir);
      assert c + rest[1..] == a + rest;
      assert c < q;
      OpenStep(host, ns, a, rest[0], q);
      MkpathOpens(host, ns1, c, rest[1..], q);
    }
  }

  lemma LinkNodeStands(host: map<Path, Kind>, ns: Namespace, q: Path)
    requires Valid(ns) && [] in ns.nodes && q != [] && Open(ns, [], q)
    ensures q in WhitelistSymlink(host, ns, q).nodes
  {
    var d := q[..|q|-1];
    assert [] + d == d && d + [q[|q|-1]] == q;
    MkpathOpens(host, ns, [], d, q);
  }

  lemma LinkStands(host: map<Path, Kind>, ns: Namespace, q: Path, p: Path)
    requires Valid(ns) && [] in ns.nodes && q != [] && p <= q && Open(ns, [], p)
    ensures p in WhitelistSymlink(host, ns, q).nodes
  {
    var d, file := q[..|q|-1], q[|q|-1];
    var (ns1, fd) := Mkpath(host, ns, TOP, d);
    if p == q {
      LinkNodeStands(host, ns, q);
    } else {
      assert [] + d == d && p == q[..|p|] == d[..|p|];
      MkpathOpen(host, ns, [], d, d, p);
      if fd.Some? { CreateAdds(ns1, ns1, fd.value, file, Symlink); }
    }
  }

  /** Of the requests `all`, those in rs have been served: what is neither a file nor
      a directory of the original stands exactly if it leads to a request for a link,
      and is a link exactly if that was requested. */
  ghost predicate Settled(host: map<Path, Kind>, ns: Namespace, rs: seq<Request>, all: seq<Request>) {
    forall p | !Firm(host, p) && !FileAbove(host, all, p) ::
      && (p in ns.nodes <==> Passed(rs, p))
      && (p in ns.nodes ==> ns.nodes[p] == if WantsLink(all, p) then Symlink else Dir)
  }

  ghost predicate Among(rs: seq<Request>, all: seq<Request>) { forall r | r in rs :: r in all }

  lemma AboveToo(host: map<Path, Kind>, rs: seq<Request>, y: Path, c: Path, p: Path)
    requires WantsFile(host, rs, y) && y <= c <= p
    ensures FileAbove(host, rs, p)
  {
    assert y <= p;
  }

  lemma NoneAbove(host: map<Path, Kind>, rs: seq<Request>, c: Path, p: Path)
    requires c <= p && !FileAbove(host, rs, p)
    ensures !FileAbove(host, rs, c)
  {
    if y :| WantsFile(host, rs, y) && y <= c { AboveToo(host, rs, y, c, p); }
  }

  /** A place in front of a requested link, outside the requested directories. */
  lemma PlaceOpen(host: map<Path, Kind>, ns: Namespace, rs: seq<Request>, all: seq<Request>, q: Path, c: Path)
    requires Agrees(host, ns) && Settled(host, ns, rs, all) && Apart(host, all)
    requires WantsLink(all, q) && NoFile(host, q) && c < q && !FileAbove(host, all, c)
    ensures c in ns.nodes ==> ns.nodes[c] == Dir
  {
    assert q[..|c|] == c;
  }

  lemma NotCovered(host: map<Path, Kind>, ns: Namespace, rs: seq<Request>, all: seq<Request>, c: Path)
    requires Inv(host, ns, rs) && Among(rs, all) && !FileAbove(host, all, c)
    ensures !Covered(ns, c)
  {
    assert WantsFile(host, rs, c) ==> WantsFile(host, all, c);
  }

  lemma WayOpen(host: map<Path, Kind>, ns: Namespace, rs: seq<Request>, all: seq<Request>, q: Path, p: Path)
    requires Tree(host) && Inv(host, ns, rs) && Settled(host, ns, rs, all) && Among(rs, all) && Apart(host, all)
    requires WantsLink(all, q) && Linked(host, q) && p <= q && !FileAbove(host, all, p)
    ensures Open(ns, [], p)
  {
    LinkedNoFile(host, q);
    forall c | [] < c < p ensures !Covered(ns, c) && (c in ns.nodes ==> ns.nodes[c] == Dir) {
      NoneAbove(host, all, c, p);
      NotCovered(host, ns, rs, all, c);
      PlaceOpen(host, ns, rs, all, q, c);
    }
  }

  /** One request for a link. */
  lemma SettledLink(host: map<Path, Kind>, ns: Namespace, rs: seq<Request>, all: seq<Request>, q: Path)
    requires Tree(host) && Inv(host, ns, rs) && Settled(host, ns, rs, all) && Among(rs, all) && Apart(host, all)
    requires WantsLink(all, q) && q != [] && Linked(host, q)
    ensures Settled(host, Serve(host, ns, WantLink(q)), rs + [WantLink(q)], all)
  {
    var ns' := Serve(host, ns, WantLink(q));
    InvTop(host, ns, rs);
    ServeAdds(host, ns, WantLink(q));
    LinkAdds(host, ns, q);
    forall p | !Firm(host, p) && !FileAbove(host, all, p)
      ensures p in ns'.nodes <==> Passed(rs + [WantLink(q)], p)
      ensures p in ns'.nodes ==> ns'.nodes[p] == if WantsLink(all, p) then Symlink else Dir
    {
      PassedSnoc(rs, WantLink(q), p);
      if p <= q {
        WayOpen(host, ns, rs, all, q, p);
        LinkStands(host, ns, q, p);
      }
    }
  }

  /** What a request for a link adds. */
  lemma LinkAdds(host: map<Path, Kind>, ns: Namespace, q: Path)
    requires Sound(host, ns) && q != [] && Linked(host, q)
    ensures var ns' := WhitelistSymlink(host, ns, q);
            forall p | p in ns'.nodes && p !in ns.nodes :: p <= q && ns'.nodes[p] == if p == q then Symlink else Dir
  {
    var d, file := Parent(q), q[|q|-1];
    LinkedNoFile(host, q);
    NoFileUp(host, q);
    assert [] + d == d && d + [file] == q;
    MkpathReaches(host, ns, [], d, d);
  }

  lemma SettledFile(host: map<Path, Kind>, ns: Namespace, rs: seq<Request>, all: seq<Request>, rel: Path)
    requires Tree(host) && Inv(host, ns, rs) && Settled(host, ns, rs, all) && rel != []
    ensures Settled(host, Serve(host, ns, WantFile(rel)), rs + [WantFile(rel)], all)
  {
    var ns' := Serve(host, ns, WantFile(rel));
    if Firm(host, rel) {
      InvTop(host, ns, rs);
      FileServed(host, ns, rel);
    }
    forall p | !Firm(host, p) && !FileAbove(host, all, p)
      ensures p in ns'.nodes <==> Passed(rs + [WantFile(rel)], p)
      ensures p in ns'.nodes ==> ns'.nodes[p] == if WantsLink(all, p) then Symlink else Dir
    {
      PassedSnoc(rs, WantFile(rel), p);
      if Firm(host, rel) && p <= rel { FirmUp(host, rel, p); }
    }
  }

  lemma {:induction false} AllSettled(host: map<Path, Kind>, rs: seq<Request>, all: seq<Request>)
    requires Tree(host) && Requests(rs) && LinkedLinks(host, all) && Among(rs, all) && Apart(host, all)
    ensures Settled(host, ServeAll(host, rs), rs, all)
  {
    if rs != [] {
      var front, r := rs[..|rs|-1], rs[|rs|-1];
      assert rs == front + [r] && r in rs && forall x | x in front :: x in rs;
      assert forall p | WantsLink(front, p) :: WantsLink(all, p);
      AllSettled(host, front, all);
      ServeAllKeeps(host, front);
      if r.WantLink? {
        assert WantsLink(all, r.path);
        SettledLink(host, ServeAll(host, front), front, all, r.path);
      } else {
        SettledFile(host, ServeAll(host, front), front, all, r.path);
      }
    }
  }

  /** What is seen when no requested link is in the way of another one. */
  ghost function View(host: map<Path, Kind>, rs: seq<Request>, p: Path): Option<Kind> {
    if Firm(host, p) || FileAbove(host, rs, p) then Shown(host, rs, p)
    else if !(exists q :: WantsLink(rs, q) && p <= q) then None
    else if WantsLink(rs, p) then Some(Symlink)
    else Some(Dir)
  }

  lemma PassedWants(rs: seq<Request>, p: Path)
    ensures Passed(rs, p) <==> exists q :: WantsLink(rs, q) && p <= q
  {
    if i :| 0 <= i < |rs| && Passes(rs, p, i) {
      assert rs[i] == WantLink(rs[i].path) && WantsLink(rs, rs[i].path);
    }
    if q :| WantsLink(rs, q) && p <= q { WantedPasses(rs, q, p); }
  }

  lemma ApartView(host: map<Path, Kind>, rs: seq<Request>, p: Path)
    requires Tree(host) && Requests(rs) && LinkedLinks(host, rs) && Apart(host, rs)
    ensures Visible(host, ServeAll(host, rs), p) == View(host, rs, p)
  {
    var ns := ServeAll(host, rs);
    ServeAllKeeps(host, rs);
    if Firm(host, p) {
      InvShown(host, ns, rs, p);
    } else {
      AllSettled(host, rs, rs);
      SettledView(host, ns, rs, p);
    }
  }

  lemma SettledView(host: map<Path, Kind>, ns: Namespace, rs: seq<Request>, p: Path)
    requires Tree(host) && Inv(host, ns, rs) && Settled(host, ns, rs, rs) && !Firm(host, p)
    ensures Visible(host, ns, p) == View(host, rs, p)
  {
    Seen(host, ns, rs, p);
    UnderIs(host, ns, rs, p);
    if Under(ns, p) { UnderGranted(host, ns, rs, p); } else { PassedWants(rs, p); }
  }

  ghost predicate SameRequests(rs: seq<Request>, rs': seq<Request>) { forall r :: r in rs <==> r in rs' }

  ghost predicate SameView(host: map<Path, Kind>, rs: seq<Request>, rs': seq<Request>)
    requires Requests(rs) && Requests(rs')
  {
    forall p :: Visible(host, ServeAll(host, rs), p) == Visible(host, ServeAll(host, rs'), p)
  }

  lemma SameMeaning(host: map<Path, Kind>, rs: seq<Request>, rs': seq<Request>)
    requires SameRequests(rs, rs')
    ensures Requests(rs) ==> Requests(rs')
    ensures LinkedLinks(host, rs) ==> LinkedLinks(host, rs')
    ensures forall q :: WantsFile(host, rs, q) <==> WantsFile(host, rs', q)
    ensures forall q :: WantsLink(rs, q) <==> WantsLink(rs', q)
    ensures forall p :: FileAbove(host, rs, p) <==> FileAbove(host, rs', p)
    ensures Apart(host, rs) ==> Apart(host, rs')
  {
    forall q ensures WantsFile(host, rs, q) <==> WantsFile(host, rs', q) { }
    forall q ensures WantsLink(rs, q) <==> WantsLink(rs', q) { }
    if Requests(rs) {
      forall i | 0 <= i < |rs'| ensures rs'[i].path != [] { assert rs'[i] in rs; }
    }
  }

  lemma ViewSame(host: map<Path, Kind>, rs: seq<Request>, rs': seq<Request>, p: Path)
    requires SameRequests(rs, rs')
    ensures View(host, rs, p) == View(host, rs', p)
  {
    SameMeaning(host, rs, rs');
    assert Granted(host, rs, p) <==> Granted(host, rs', p);
  }

  lemma ApartSame(host: map<Path, Kind>, rs: seq<Request>, rs': seq<Request>)
    requires Tree(host) && Requests(rs) && LinkedLinks(host, rs) && Apart(host, rs) && SameRequests(rs, rs')
    ensures Requests(rs') && SameView(host, rs, rs')
  {
    SameMeaning(host, rs, rs');
    forall p ensures Visible(host, ServeAll(host, rs), p) == Visible(host, ServeAll(host, rs'), p) {
      ApartView(host, rs, p);
      ApartView(host, rs', p);
      ViewSame(host, rs, rs', p);
    }
  }

  lemma {:induction false} FirstStays(host: map<Path, Kind>, q: Path, rest: seq<Request>, p: Path)
    requires q != [] && Requests([WantLink(q)] + rest) && p <= q
    ensures var ns := ServeAll(host, [WantLink(q)] + rest);
            p in ns.nodes && ns.nodes[p] == if p == q then Symlink else Dir
    decreases |rest|
  {
    var rs := [WantLink(q)] + rest;
    if rest == [] {
      assert rs == [WantLink(q)] && rs[..0] == [];
      LinkNodes(host, q);
    } else {
      var front, r := rest[..|rest|-1], rest[|rest|-1];
      assert rs[..|rs|-1] == [WantLink(q)] + front && rs[|rs|-1] == r;
      FirstStays(host, q, front, p);
      ServeAdds(host, ServeAll(host, [WantLink(q)] + front), r);
    }
  }

  /** The same requests with one for a link moved to the front. */
  lemma Foremost(rs: seq<Request>, q: Path) returns (rest: seq<Request>)
    requires WantsLink(rs, q)
    ensures multiset([WantLink(q)] + rest) == multiset(rs) && SameRequests(rs, [WantLink(q)] + rest)
  {
    var i :| 0 <= i < |rs| && rs[i] == WantLink(q);
    rest := rs[..i] + rs[i + 1..];
    assert rs == rs[..i] + [rs[i]] + rs[i + 1..];
    forall r ensures r in rs <==> r in [WantLink(q)] + rest {
      assert r in rs <==> r in multiset(rs);
      assert r in [WantLink(q)] + rest <==> r in multiset([WantLink(q)] + rest);
    }
  }

  /** The link that is served first, or passed first, is seen as it was made. */
  lemma FirstSeen(host: map<Path, Kind>, rs: seq<Request>, q: Path, rest: seq<Request>, p: Path)
    requires Tree(host) && Requests(rs) && LinkedLinks(host, rs) && SameRequests(rs, [WantLink(q)] + rest)
    requires q != [] && p <= q && !FileAbove(host, rs, p)
    ensures Requests([WantLink(q)] + rest)
    ensures Visible(host, ServeAll(host, [WantLink(q)] + rest), p) == Some(if p == q then Symlink else Dir)
  {
    var rs' := [WantLink(q)] + rest;
    SameMeaning(host, rs, rs');
    ServeAllKeeps(host, rs');
    FirstStays(host, q, rest, p);
    Seen(host, ServeAll(host, rs'), rs', p);
    UnderIs(host, ServeAll(host, rs'), rs', p);
  }

  /** Without that, two orders show different trees. */
  lemma TwoOrders(host: map<Path, Kind>, rs: seq<Request>) returns (rs1: seq<Request>, rs2: seq<Request>)
    requires Tree(host) && Requests(rs) && LinkedLinks(host, rs) && !Apart(host, rs)
    ensures multiset(rs1) == multiset(rs) == multiset(rs2) && SameRequests(rs, rs1) && SameRequests(rs, rs2)
    ensures Requests(rs1) && Requests(rs2) && !SameView(host, rs1, rs2)
  {
    var q, q' :| WantsLink(rs, q) && WantsLink(rs, q') && q < q' && !FileAbove(host, rs, q);
    assert q != [] by { var i :| 0 <= i < |rs| && rs[i] == WantLink(q); }
    var rest := Foremost(rs, q);
    var rest' := Foremost(rs, q');
    rs1, rs2 := [WantLink(q)] + rest, [WantLink(q')] + rest';
    FirstSeen(host, rs, q, rest, q);
    FirstSeen(host, rs, q', rest', q);
    assert Visible(host, ServeAll(host, rs1), q) != Visible(host, ServeAll(host, rs2), q);
  }

  /** The requests show the same tree in every order. */
  ghost predicate OrderFree(host: map<Path, Kind>, rs: seq<Request>) {
    forall rs' | multiset(rs') == multiset(rs) :: Requests(rs) && Requests(rs') && SameView(host, rs, rs')
  }

  /** The same in every order and multiplicity. */
  ghost predicate CountFree(host: map<Path, Kind>, rs: seq<Request>) {
    forall rs' | SameRequests(rs, rs') :: Requests(rs) && Requests(rs') && SameView(host, rs, rs')
  }

  lemma PermutedSame(rs: seq<Request>, rs': seq<Request>)
    requires multiset(rs') == multiset(rs)
    ensures SameRequests(rs, rs')
  {
    forall r ensures r in rs <==> r in rs' {
      assert r in rs <==> r in multiset(rs);
      assert r in rs' <==> r in multiset(rs');
    }
  }

  /** Order and repetition of the requests do not matter exactly when no requested
      link is passed by a request for another one outside the requested directories. */
  lemma OrderDoesNotMatter(host: map<Path, Kind>, rs: seq<Request>)
    requires Tree(host) && Requests(rs) && LinkedLinks(host, rs)
    ensures OrderFree(host, rs) <==> Apart(host, rs)
    ensures CountFree(host, rs) <==> Apart(host, rs)
  {
    if Apart(host, rs) {
      forall rs' | SameRequests(rs, rs') ensures Requests(rs') && SameView(host, rs, rs') { ApartSame(host, rs, rs'); }
      forall rs' | multiset(rs') == multiset(rs) ensures SameRequests(rs, rs') { PermutedSame(rs, rs'); }
    } else {
      var rs1, rs2 := TwoOrders(host, rs);
      var p :| Visible(host, ServeAll(host, rs1), p) != Visible(host, ServeAll(host, rs2), p);
      assert !SameView(host, rs, rs1) || !SameView(host, rs, rs2);
    }
  }

  /** If no requested link lies behind another link, the tree is exact and the order
      does not matter. */
  lemma StraightIsPlain(host: map<Path, Kind>, rs: seq<Request>)
    requires Tree(host) && StraightLinks(host, rs)
    ensures LinkedLinks(host, rs) && Unbent(host, rs) && Apart(host, rs)
  {
    forall q | WantsLink(rs, q) ensures Linked(host, q) { assert q[..|q|] == q; }
    forall d, q | Straight(host, d) && WantsLink(rs, q) && d <= q ensures d == q {
      assert q[..|d|] == d;
      TreeUp(host, q, |d|);
    }
  }

  // ---------------------------------------------------------------------
  // Two requests in both orders
  // ---------------------------------------------------------------------

  /** Without mounts, a path that exists already is left as it is. */
  lemma {:induction false} MkpathExisting(host: map<Path, Kind>, ns: Namespace, a: Path, rest: Path)
    requires Valid(ns) && ns.mounts == map[]
    requires Tree(ns.nodes) && a + rest in ns.nodes
    ensures var r := Mkpath(host, ns, Loc(0, a), rest);
            r.0 == ns && (rest != [] && r.1.Some? ==> ns.nodes[a + rest] == Dir)
    decreases |rest|
  {
    if rest != [] {
      TreeStep(ns.nodes, a, rest);
      assert a + [rest[0]] + rest[1..] == a + rest;
      if rest[1..] == [] { assert a + [rest[0]] == a + rest; }
      MkpathExisting(host, ns, a + [rest[0]], rest[1..]);
    }
  }

  /** A link request for a path that exists on the tmpfs changes nothing. */
  lemma LinkExists(host: map<Path, Kind>, ns: Namespace, d: Path)
    requires Valid(ns) && ns.mounts == map[] && Tree(ns.nodes) && d in ns.nodes && d != []
    ensures WhitelistSymlink(host, ns, d) == ns
  {
    var up := d[..|d|-1];
    assert [] + up == up && up + [d[|d|-1]] == d;
    TreeUp(ns.nodes, d, |d| - 1);
    MkpathExisting(host, ns, [], up);
  }

  /** Nor does one for a path below a link. */
  lemma LinkBlocked(host: map<Path, Kind>, ns: Namespace, d: Path, name: string)
    requires Valid(ns) && ns.mounts == map[] && Tree(ns.nodes) && d in ns.nodes && d != [] && ns.nodes[d] == Symlink
    ensures WhitelistSymlink(host, ns, d + [name]) == ns
  {
    var q := d + [name];
    assert q[..|q|-1] == d && [] + d == d;
    MkpathExisting(host, ns, [], d);
  }

  /** With a link below a link the order of the requests decides what is seen. */
  lemma LinkOrderMatters(host: map<Path, Kind>, d: Path, name: string)
    requires Tree(host) && d != []
    ensures Visible(host, ServeAll(host, [WantLink(d + [name]), WantLink(d)]), d) == Some(Dir)
    ensures Visible(host, ServeAll(host, [WantLink(d), WantLink(d + [name])]), d) == Some(Symlink)
  {
    var q := d + [name];
    LinkNodes(host, q);
    LinkNodes(host, d);
    assert q[..|d|] == d;
    TreeUp(WhitelistSymlink(host, FRESH, q).nodes, q, |d|);
    LinkExists(host, WhitelistSymlink(host, FRESH, q), d);
    LinkBlocked(host, WhitelistSymlink(host, FRESH, d), d, name);
    LinkAlone(host, q, d);
    LinkAlone(host, d, d);
    ServePair(host, WantLink(q), WantLink(d));
    ServePair(host, WantLink(d), WantLink(q));
  }

  lemma ServePair(host: map<Path, Kind>, r: Request, r': Request)
    requires r.path != [] && r'.path != []
    ensures ServeAll(host, [r, r']) == Serve(host, Serve(host, FRESH, r), r')
  {
    ServeTwo(host, [], [r, r']);
    assert [] + [r, r'] == [r, r'];
  }

  // ---------------------------------------------------------------------
  // The code
  // ---------------------------------------------------------------------

  /** A profile entry after the first pass: the resolved path, and the name by
      which it was asked for if that is a link.  Both are absolute. */
  datatype Entry = Entry(file: Path, link: Option<Path>)

  function EntryRequests(top: Path, e: Entry): (rs: seq<Request>)
    requires e.link.Some? ==> top < e.link.value
    ensures Requests(rs)
  {
    (if top < e.file then [WantFile(e.file[|top|..])] else []) +
    (if e.link.Some? then [WantLink(e.link.value[|top|..])] else [])
  }

  /** Every link lies strictly below the top level directory. */
  predicate LinksBelow(top: Path, es: seq<Entry>) {
    forall i | 0 <= i < |es| :: es[i].link.Some? ==> top < es[i].link.value
  }

  function AllRequests(top: Path, es: seq<Entry>): (rs: seq<Request>)
    requires LinksBelow(top, es)
    ensures Requests(rs)
  {
    if es == [] then [] else AllRequests(top, es[..|es|-1]) + EntryRequests(top, es[|es|-1])
  }

  lemma ServeSnoc(host: map<Path, Kind>, rs: seq<Request>, r: Request)
    requires Requests(rs) && r.path != []
    ensures ServeAll(host, rs + [r]) == Serve(host, ServeAll(host, rs), r)
  {
    assert (rs + [r])[..|rs|] == rs;
  }

  lemma RequestsSnoc(top: Path, es: seq<Entry>, i: nat)
    requires i < |es| && LinksBelow(top, es)
    ensures AllRequests(top, es[..i + 1]) == AllRequests(top, es[..i]) + EntryRequests(top, es[i])
  {
    assert es[..i + 1][..i] == es[..i];
  }

  lemma ServeTwo(host: map<Path, Kind>, rs: seq<Request>, more: seq<Request>)
    requires Requests(rs) && Requests(more) && |more| <= 2
    ensures more == [] ==> ServeAll(host, rs + more) == ServeAll(host, rs)
    ensures |more| == 1 ==> ServeAll(host, rs + more) == Serve(host, ServeAll(host, rs), more[0])
    ensures |more| == 2 ==> ServeAll(host, rs + more) == Serve(host, Serve(host, ServeAll(host, rs), more[0]), more[1])
  {
    if more == [] {
      assert rs + more == rs;
    } else if |more| == 1 {
      assert rs + more == rs + [more[0]];
      ServeSnoc(host, rs, more[0]);
    } else {
      assert rs + more == rs + [more[0]] + [more[1]];
      ServeSnoc(host, rs, more[0]);
      ServeSnoc(host, rs + [more[0]], more[1]);
    }
  }

  lemma {:induction false} FollowSame(ns: Namespace, at: Loc, l: Loc)
    requires Valid(ns) && at !in ns.mounts && at.mnt < ns.next && (at.mnt == 0 ==> at.path in ns.nodes)
    requires at.mnt > 0 ==> at.mnt in ns.roots && ns.roots[at.mnt] == at.path
    requires l.path != at.path || l.mnt > at.mnt
    ensures Follow(Mount(ns, at), l) == Follow(ns, l)
    decreases ns.next - l.mnt
  {
    if l in ns.mounts { FollowSame(ns, at, Loc(ns.mounts[l], l.path)); }
  }

  lemma MountLeads(ns: Namespace, at: Loc)
    requires Valid(ns) && at !in ns.mounts && at.mnt < ns.next && (at.mnt == 0 ==> at.path in ns.nodes)
    requires at.mnt > 0 ==> at.mnt in ns.roots && ns.roots[at.mnt] == at.path
    ensures Follow(Mount(ns, at), at) == Loc(ns.next, at.path)
    ensures forall l: Loc :: l.path != at.path || l.mnt > at.mnt ==> Follow(Mount(ns, at), l) == Follow(ns, l)
  {
    forall l: Loc | l.path != at.path || l.mnt > at.mnt ensures Follow(Mount(ns, at), l) == Follow(ns, l) {
      FollowSame(ns, at, l);
    }
    FollowSame(ns, at, Loc(ns.next, at.path));
  }

  class TopDir {
    const path: Path                // the top level directory
    const host: map<Path, Kind>     // its contents, reached through the descriptor opened before the tmpfs
    var ns: Namespace

    constructor (path: Path, host: map<Path, Kind>)
      ensures this.path == path && this.host == host && ns == FRESH
    {
      this.path := path;
      this.host := host;
      ns := FRESH;
    }

    /** mkdirat, symlinkat, open with O_CREAT|O_EXCL: the code only ever creates
        on the tmpfs, never below a bind mount. */
    method CreateAt(fd: Loc, name: string, k: Kind) returns (ok: bool)
      requires fd.mnt == 0 && Valid(ns)
      modifies this
      ensures ns == Create(old(ns), fd, name, k) && Valid(ns)
      ensures ok <==> fd.path + [name] !in old(ns).nodes
    {
      ok := fd.path + [name] !in ns.nodes;
      if ok { ns := ns.(nodes := ns.nodes[fd.path + [name] := k]); }
    }

    /** The place leads to a mount that is new, with the original path as its root;
        every other place leads where it led, and no node of the tmpfs changes. */
    method BindMount(at: Loc)
      requires Valid(ns) && at !in ns.mounts && at.mnt < ns.next && (at.mnt == 0 ==> at.path in ns.nodes)
      requires at.mnt > 0 ==> at.mnt in ns.roots && ns.roots[at.mnt] == at.path
      modifies this
      ensures ns == Mount(old(ns), at) && Valid(ns)
      ensures var new_ := Follow(ns, at);
              && new_.path == at.path && new_.mnt !in old(ns).roots
              && new_.mnt in ns.roots && ns.roots[new_.mnt] == at.path
      ensures forall l: Loc :: l.path != at.path || l.mnt > at.mnt ==> Follow(ns, l) == Follow(old(ns), l)
      ensures ns.nodes == old(ns).nodes && forall p :: Covered(ns, p) <==> Covered(old(ns), p) || at == Loc(0, p)
    {
      MountLeads(ns, at);
      ns := Mount(ns, at);
    }

    method WhitelistMkpath(rel: Path) returns (fd: Option<Loc>)
      requires Valid(ns) && rel != []
      modifies this
      ensures (ns, fd) == Mkpath(host, old(ns), TOP, rel[..|rel|-1]) && Valid(ns)
    {
      ghost var dirs := rel[..|rel|-1];
      var parentfd := TOP;
      var i := 0;
      while i < |rel| - 1
        invariant 0 <= i <= |rel| - 1 && parentfd.mnt == 0 && Valid(ns)
        invariant Mkpath(host, old(ns), TOP, dirs) == Mkpath(host, ns, parentfd, dirs[i..])
      {
        MkpathNext(host, ns, parentfd, dirs, i);
        var _ := CreateAt(parentfd, rel[i], Dir);
        fd := OpenDir(host, ns, parentfd, rel[i]);
        if fd.None? { return; }
        if fd.value.mnt != TOP.mnt { return None; }
        parentfd := fd.value;
        i := i + 1;
      }
      fd := Some(parentfd);
    }

    method WhitelistFile(file: Path)
      requires Valid(ns)
      modifies this
      ensures Valid(ns)
      ensures ns == if path < file then Serve(host, old(ns), WantFile(file[|path|..])) else old(ns)
    {
      if !(path < file) { return; }
      var rel := file[|path|..];
      if rel !in host { return; }
      if host[rel] == Symlink { return; }
      var fd2 := WhitelistMkpath(rel);
      if fd2.None? { return; }
      var name := rel[|rel|-1];
      var fd3;
      if host[rel] == Dir {
        var _ := CreateAt(fd2.value, name, Dir);
        fd3 := OpenDir(host, ns, fd2.value, name);
      } else {
        var ok := CreateAt(fd2.value, name, File);
        fd3 := if ok then Some(Child(fd2.value, name)) else None;
      }
      if fd3.None? { return; }
      BindMount(fd3.value);
    }

    method WhitelistSymlink(link: Path)
      requires Valid(ns) && path < link
      modifies this
      ensures Valid(ns) && ns == Serve(host, old(ns), WantLink(link[|path|..]))
    {
      var rel := link[|path|..];
      var fd := WhitelistMkpath(rel);
      if fd.None? { return; }
      var _ := CreateAt(fd.value, rel[|rel|-1], Symlink);
    }

    method ServeEntry(e: Entry, ghost rs: seq<Request>)
      requires Requests(rs) && ns == ServeAll(host, rs) && (e.link.Some? ==> path < e.link.value)
      modifies this
      ensures ns == ServeAll(host, rs + EntryRequests(path, e)) && Valid(ns)
    {
      ServeTwo(host, rs, EntryRequests(path, e));
      WhitelistFile(e.file);
      if e.link.Some? {
        WhitelistSymlink(e.link.value);
      }
    }

    /** The second pass over the profile, as far as it concerns this directory. */
    method SecondPass(es: seq<Entry>)
      requires ns == FRESH && LinksBelow(path, es)
      modifies this
      ensures ns == ServeAll(host, AllRequests(path, es))
      ensures var rs := AllRequests(path, es);
              Tree(host) && LinkedLinks(host, rs) ==>
                && (forall p | Firm(host, p) :: Visible(host, ns, p) == Shown(host, rs, p))
                && ((forall p :: Visible(host, ns, p) == Shown(host, rs, p)) <==> Unbent(host, rs))
    {
      var i := 0;
      while i < |es|
        invariant 0 <= i <= |es| && Valid(ns)
        invariant ns == ServeAll(host, AllRequests(path, es[..i]))
      {
        RequestsSnoc(path, es, i);
        ServeEntry(es[i], AllRequests(path, es[..i]));
        i := i + 1;
      }
      assert es[..i] == es;
      ghost var rs := AllRequests(path, es);
      if Tree(host) && LinkedLinks(host, rs) { WhitelistExact(host, rs); }
    }
  }
}
