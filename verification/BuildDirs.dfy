/**
 Model of build_dirs in src/firejail/fs_etc.c: both path buffers are walked at
 the same time, the source path is cut off behind each component to ask whether
 it is a directory, and the destination path is cut off behind the last
 directory that was made.

 A path leads to the list of its non-empty components.  Source directories are
 given with their modes; the destination tree is the state.
 */
module BuildDirs {
  import opened Strings

  type Path = seq<string>

  /** The components that are complete, and the one that is being read. */
  datatype Scan = Scan(done: Path, cur: string)

  function Feed(st: Scan, c: char): Scan {
    if c != '/' then Scan(st.done, st.cur + [c])
    else if st.cur == "" then st
    else Scan(st.done + [st.cur], "")
  }

  function Fed(s: string, j: nat): Scan
    requires j <= |s|
  {
    if j == 0 then Scan([], "") else Feed(Fed(s, j - 1), s[j-1])
  }

  function Whole(st: Scan): Path { if st.cur == "" then st.done else st.done + [st.cur] }

  /** The components of the first j characters of a path; repeated slashes count
      once. */
  function At(s: string, j: nat): Path
    requires j <= |s|
  {
    Whole(Fed(s, j))
  }

  function Comps(s: string): Path { At(s, |s|) }

  function Parent(p: Path): Path { if p == [] then [] else p[..|p|-1] }

  /** A component of the name ends in front of place j. */
  predicate Boundary(name: string, j: nat)
    requires j <= |name|
  {
    j == |name| || (name[j] == '/' && j > 0 && name[j-1] != '/')
  }

  // ---------------------------------------------------------------------
  // The chain of directories
  // ---------------------------------------------------------------------

  lemma CurIs(s: string, j: nat)
    requires j <= |s|
    ensures Fed(s, j).cur != "" <==> j > 0 && s[j-1] != '/'
  {
    if j > 1 { CurIs(s, j - 1); }
  }

  lemma {:induction false} FedPrefix(s: string, t: string, j: nat)
    requires j <= |s| && j <= |t| && forall k | 0 <= k < j :: s[k] == t[k]
    ensures Fed(s, j) == Fed(t, j)
  {
    if j > 0 { FedPrefix(s, t, j - 1); }
  }

  /** The text of a directory, a slash and a name. */
  ghost predicate Below(s: string, t: string, p: string) {
    && |p| == |s| + 1 + |t| && p[|s|] == '/'
    && (forall k | 0 <= k < |s| :: p[k] == s[k])
    && (forall k | |s| < k < |p| :: p[k] == t[k - |s| - 1])
  }

  lemma FeedBelow(base: Path, st: Scan, c: char)
    ensures Feed(Scan(base + st.done, st.cur), c) == Scan(base + Feed(st, c).done, Feed(st, c).cur)
  {
    assert base + st.done + [st.cur] == base + (st.done + [st.cur]);
  }

  lemma {:induction false} FedBehind(base: Path, t: string, p: string, n: nat, j: nat)
    requires |p| == n + |t| && (forall k | n <= k < |p| :: p[k] == t[k - n])
    requires j <= |t| && Fed(p, n) == Scan(base, "")
    ensures Fed(p, n + j) == Scan(base + Fed(t, j).done, Fed(t, j).cur)
    decreases j
  {
    if j == 0 {
      assert base + [] == base;
    } else {
      FedBehind(base, t, p, n, j - 1);
      FeedBelow(base, Fed(t, j - 1), t[j-1]);
    }
  }

  /** A path below a directory. */
  lemma AtBelow(s: string, t: string, p: string, j: nat)
    requires j <= |t| && Below(s, t, p)
    ensures At(p, |s| + 1 + j) == Comps(s) + At(t, j)
  {
    FedPrefix(p, s, |s|);
    FedBehind(Comps(s), t, p, |s| + 1, j);
    var st := Fed(t, j);
    assert Comps(s) + st.done + [st.cur] == Comps(s) + (st.done + [st.cur]);
  }

  lemma {:induction false} DoneGrows(name: string, j: nat, i: nat)
    requires j <= i <= |name|
    ensures Fed(name, j).done <= Fed(name, i).done
    decreases i
  {
    if j < i { DoneGrows(name, j, i - 1); }
  }

  /** What stands in front of a slash is final. */
  lemma Final(name: string, j: nat, i: nat)
    requires j < i <= |name| && name[j] == '/'
    ensures At(name, j) <= At(name, i)
  {
    DoneGrows(name, j + 1, i);
  }

  /** Every boundary belongs to a prefix of the list of components. */
  lemma BoundaryIsPrefix(name: string, j: nat)
    requires j <= |name| && Boundary(name, j)
    ensures At(name, j) <= Comps(name)
  {
    if j < |name| { Final(name, j, |name|); }
  }

  /** Every component is complete at some boundary. */
  lemma {:induction false} PrefixHasBoundary(name: string, i: nat, n: nat) returns (j: nat)
    requires i <= |name| && 0 < n <= |At(name, i)|
    requires i == |name| || n <= |Fed(name, i).done|
    ensures j <= i && Boundary(name, j) && At(name, j) == At(name, i)[..n]
    decreases i
  {
    CurIs(name, i - 1);
    if n <= |Fed(name, i - 1).done| {
      j := PrefixHasBoundary(name, i - 1, n);
    } else if name[i-1] == '/' {
      j := i - 1;
    } else {
      j := i;
    }
  }

  // ---------------------------------------------------------------------
  // What is to be built
  // ---------------------------------------------------------------------

  /** Place k ends a component, and the source has a directory of that name.  The
      source maps every path that stat finds to be a directory to its mode. */
  predicate Wanted(source: map<Path, nat>, s: Path, name: string, k: int) {
    0 <= k <= |name| && Boundary(name, k) && s + At(name, k) in source
  }

  /** The last place below j that is wanted, or -1. */
  ghost predicate Last(source: map<Path, nat>, s: Path, name: string, j: nat, k: int) {
    && -1 <= k < j
    && (k >= 0 ==> Wanted(source, s, name, k))
    && forall i | k < i < j :: !Wanted(source, s, name, i)
  }

  /** The destination after the places below j. */
  ghost predicate Built(source: map<Path, nat>, s: Path, d: Path, name: string, j: nat,
                        was: map<Path, nat>, now: map<Path, nat>)
  {
    && (forall p | p in was :: p in now)
    && (forall k | 0 <= k < j && Wanted(source, s, name, k) ::
          d + At(name, k) in now && now[d + At(name, k)] == source[s + At(name, k)])
    && (forall p | p in now ::
          (p in was && now[p] == was[p]) || Origin(source, s, d, name, j, p))
  }

  ghost predicate Origin(source: map<Path, nat>, s: Path, d: Path, name: string, j: nat, p: Path) {
    exists k | 0 <= k < j :: Wanted(source, s, name, k) && p == d + At(name, k)
  }

  /** A file system holds the parent of everything in it. */
  ghost predicate Closed(source: map<Path, nat>) {
    forall p {:trigger Parent(p)} | p in source :: Parent(p) in source
  }

  lemma Cancel(d: Path, a: Path, b: Path)
    requires d + a == d + b
    ensures a == b
  {
    assert a == (d + a)[|d|..] == (d + b)[|d|..] == b;
  }

  lemma BuiltSkip(source: map<Path, nat>, s: Path, d: Path, name: string, j: nat,
                  was: map<Path, nat>, now: map<Path, nat>)
    requires Built(source, s, d, name, j, was, now) && !Wanted(source, s, name, j)
    ensures Built(source, s, d, name, j + 1, was, now)
  {
    forall p | p in now && Origin(source, s, d, name, j, p) ensures Origin(source, s, d, name, j + 1, p) {
      OriginStep(source, s, d, name, j, p);
    }
  }

  lemma BuiltStep(source: map<Path, nat>, s: Path, d: Path, name: string, j: nat,
                  was: map<Path, nat>, now: map<Path, nat>, then': map<Path, nat>)
    requires Built(source, s, d, name, j, was, now) && Wanted(source, s, name, j)
    requires then' == now[d + At(name, j) := source[s + At(name, j)]]
    ensures Built(source, s, d, name, j + 1, was, then')
  {
    forall k | 0 <= k < j + 1 && Wanted(source, s, name, k)
      ensures d + At(name, k) in then' && then'[d + At(name, k)] == source[s + At(name, k)]
    {
      PlaceStep(source, s, d, At(name, j), At(name, k), now, then');
    }
    forall p | p in then'
      ensures (p in was && then'[p] == was[p]) || Origin(source, s, d, name, j + 1, p)
    {
      OriginStep(source, s, d, name, j, p);
    }
  }

  lemma PlaceStep(source: map<Path, nat>, s: Path, d: Path, a: Path, b: Path,
                  now: map<Path, nat>, then': map<Path, nat>)
    requires s + a in source && s + b in source && then' == now[d + a := source[s + a]]
    requires a != b ==> d + b in now && now[d + b] == source[s + b]
    ensures d + b in then' && then'[d + b] == source[s + b]
  {
    if d + a == d + b { Cancel(d, a, b); }
  }

  lemma OriginStep(source: map<Path, nat>, s: Path, d: Path, name: string, j: nat, p: Path)
    ensures Origin(source, s, d, name, j + 1, p) <==>
              Origin(source, s, d, name, j, p) || (Wanted(source, s, name, j) && p == d + At(name, j))
  {
  }

  /** The parent of the next directory stands already, so mkdir cannot fail. */
  lemma ParentStands(source: map<Path, nat>, s: Path, d: Path, name: string, j: nat,
                     was: map<Path, nat>, now: map<Path, nat>)
    requires Built(source, s, d, name, j, was, now) && Wanted(source, s, name, j)
    requires Closed(source) && d in was
    ensures d + At(name, j) in now || Parent(d + At(name, j)) in now
  {
    var c := At(name, j);
    if c == [] {
      assert d + c == d;
    } else {
      var front := Parent(c);
      assert Parent(d + c) == d + front && Parent(s + c) == s + front;
      if front == [] {
        assert d + front == d;
      } else {
        var k := PrefixHasBoundary(name, j, |front|);
        assert At(name, k) == front && k != j;
        assert Wanted(source, s, name, k);
      }
    }
  }

  /** The directories that are wanted are exactly the source directories among
      the leading parts of the name.  The empty part, which stands for the
      destination directory itself, counts only for a name without components. */
  lemma Chain(source: map<Path, nat>, s: Path, d: Path, name: string, was: map<Path, nat>, now: map<Path, nat>)
    requires Built(source, s, d, name, |name| + 1, was, now)
    ensures forall c | c <= Comps(name) && (c != [] || Comps(name) == []) && s + c in source ::
              d + c in now && now[d + c] == source[s + c]
    ensures forall p | p in was :: p in now
    ensures forall p | p in now :: (p in was && now[p] == was[p]) || Copied(source, s, d, name, p)
  {
    forall c | c <= Comps(name) && (c != [] || Comps(name) == []) && s + c in source
      ensures d + c in now && now[d + c] == source[s + c]
    {
      var k := |name|;
      if c != [] { k := PrefixHasBoundary(name, |name|, |c|); }
      assert c == At(name, k) && Wanted(source, s, name, k);
    }
    forall p | p in now && Origin(source, s, d, name, |name| + 1, p)
      ensures Copied(source, s, d, name, p)
    {
      var k :| 0 <= k < |name| + 1 && Wanted(source, s, name, k) && p == d + At(name, k);
      BoundaryIsPrefix(name, k);
      CurIs(name, k);
    }
  }

  /** A path of the destination that stands for a directory of the source. */
  ghost predicate Copied(source: map<Path, nat>, s: Path, d: Path, name: string, p: Path) {
    exists c :: c <= Comps(name) && (c != [] || Comps(name) == []) && s + c in source && p == d + c
  }

  /** The last wanted place is the deepest source directory on the way. */
  lemma Deepest(source: map<Path, nat>, s: Path, name: string, k: int, c: Path)
    requires Last(source, s, name, |name| + 1, k)
    requires c != [] && c <= Comps(name) && s + c in source
    ensures k >= 0 && c <= At(name, k) <= Comps(name) && s + At(name, k) in source
  {
    var i := PrefixHasBoundary(name, |name|, |c|);
    assert At(name, i) == c && Wanted(source, s, name, i);
    if i < k { Final(name, i, k); }
    BoundaryIsPrefix(name, k);
  }

  // ---------------------------------------------------------------------
  // build_dirs
  // ---------------------------------------------------------------------

  /** A buffer holds a text that is cut off at place r. */
  ghost predicate CutAt(a: array<char>, t: string, r: nat)
    reads a
  {
    && r <= |t| < a.Length && a[r] == NUL && a[|t|] == NUL
    && forall k | 0 <= k < |t| && k != r :: a[k] == t[k]
  }

  lemma CutText(a: array<char>, t: string, r: nat)
    requires CString(t) && CutAt(a, t, r)
    ensures StrAt(a[..], 0) == t[..r]
  {
    assert a[..][0..r] == t[..r];
    StrAtIs(a[..], 0, t[..r]);
  }

  /** The path that a buffer names when it is cut off behind place j of the name. */
  lemma CutPath(a: array<char>, base: string, name: string, t: string, j: nat)
    requires Below(base, name, t) && CString(t) && j <= |name| && CutAt(a, t, |base| + 1 + j)
    ensures Comps(StrAt(a[..], 0)) == Comps(base) + At(name, j)
  {
    var n := |base| + 1 + j;
    CutText(a, t, n);
    FedPrefix(t[..n], t, n);
    AtBelow(base, name, t, j);
  }

  /** The destination file system. */
  class Disk {
    var made: map<Path, nat>

    constructor (made: map<Path, nat>)
      ensures this.made == made
    {
      this.made := made;
    }

    /** An existing directory is no error. */
    method Mkdir(p: Path, mode: nat) returns (ok: bool)
      modifies this
      ensures ok <==> p in old(made) || Parent(p) in old(made)
      ensures made == if ok && p !in old(made) then old(made)[p := mode] else old(made)
    {
      ok := p in made || Parent(p) in made;
      if ok && p !in made { made := made[p := mode]; }
    }

    method Chmod(p: Path, mode: nat)
      requires p in made
      modifies this
      ensures made == old(made)[p := mode]
    {
      made := made[p := mode];
    }
  }

  /** What the destination buffer names in the end. */
  lemma Named(a: array<char>, t: string, to: string, name: string, n: nat, k: int)
    requires Below(to, name, t) && CString(t) && -1 <= k <= |name| && n == |to| + 1 + k && CutAt(a, t, n)
    ensures StrAt(a[..], 0) == t[..n]
    ensures Comps(StrAt(a[..], 0)) == Comps(to) + if k < 0 then [] else At(name, k)
  {
    CutText(a, t, n);
    FedPrefix(t[..n], t, n);
    if k < 0 { FedPrefix(t, to, n); } else { AtBelow(to, name, t, k); }
  }

  /** What the characters of the source buffer say about the name. */
  lemma Seen(src: array<char>, from: string, name: string, f: string, j: nat)
    requires Below(from, name, f) && CString(f) && CutAt(src, f, |f|) && j <= |name|
    ensures var p := |from| + 1 + j;
      && (src[p] == NUL <==> j == |name|)
      && (Boundary(name, j) <==> src[p] == NUL || (src[p] == '/' && src[p-1] != '/'))
  {
    var p := |from| + 1 + j;
    if j < |name| { assert f[p] == name[j] && f[p] in f; }
    if j > 0 { assert src[p-1] == f[p-1] == name[j-1]; } else { assert src[p-1] == '/'; }
  }

  /** The new end of the destination path, and the directory. */
  method MakeDir(dst: array<char>, disk: Disk, mode: nat, q: nat, r: nat,
                 ghost to: string, ghost name: string, ghost t: string, ghost j: nat)
    returns (ok: bool)
    requires Below(to, name, t) && CString(t) && j <= |name| && q == |to| + 1 + j
    requires CutAt(dst, t, r) && r < q && t[r] == '/'
    modifies dst, disk
    ensures CutAt(dst, t, q)
    ensures ok <==> Comps(to) + At(name, j) in old(disk.made) || Parent(Comps(to) + At(name, j)) in old(disk.made)
    ensures ok ==> disk.made == old(disk.made)[Comps(to) + At(name, j) := mode]
  {
    dst[q] := NUL;
    dst[r] := '/';
    CutPath(dst, to, name, t, j);
    var target := Comps(StrAt(dst[..], 0));
    ok := disk.Mkdir(target, 0x1C0);
    if ok { disk.Chmod(target, mode); }
  }

  /** The end of a component: ask for the source, and make the directory. */
  method Visit(src: array<char>, dst: array<char>, source: map<Path, nat>, disk: Disk, p: nat, q: nat, r: nat,
               last: bool, ghost from: string, ghost to: string, ghost name: string, ghost f: string, ghost t: string,
               ghost j: nat)
    returns (r': nat, ok: bool)
    requires src != dst && Below(from, name, f) && CString(f) && Below(to, name, t) && CString(t)
    requires j <= |name| && Boundary(name, j) && p == |from| + 1 + j && q == |to| + 1 + j
    requires CutAt(src, f, |f|) && last == (j == |name|)
    requires CutAt(dst, t, r) && r < q && t[r] == '/'
    modifies src, dst, disk
    ensures r' == if Wanted(source, Comps(from), name, j) then q else r
    ensures CutAt(dst, t, r')
    ensures ok ==> src[..] == old(src[..]) && CutAt(src, f, |f|)
    ensures !Wanted(source, Comps(from), name, j) ==> ok && disk.made == old(disk.made)
    ensures Wanted(source, Comps(from), name, j) ==>
              (ok <==> Comps(to) + At(name, j) in old(disk.made) || Parent(Comps(to) + At(name, j)) in old(disk.made))
    ensures ok && Wanted(source, Comps(from), name, j) ==>
              disk.made == old(disk.made)[Comps(to) + At(name, j) := source[Comps(from) + At(name, j)]]
  {
    ghost var c := src[p];
    src[p] := NUL;
    CutPath(src, from, name, f, j);
    var path := Comps(StrAt(src[..], 0));
    r', ok := r, true;
    if path in source {
      r' := q;
      ok := MakeDir(dst, disk, source[path], q, r, to, name, t, j);
      if !ok { return; }
    }
    if !last { src[p] := '/'; }
    assert src[p] == c;
  }

  /** One turn of the loop. */
  method Turn(src: array<char>, dst: array<char>, source: map<Path, nat>, disk: Disk, p: nat, q: nat, r: nat,
              ghost from: string, ghost to: string, ghost name: string, ghost f: string, ghost t: string,
              ghost j: nat, ghost k: int, ghost was: map<Path, nat>)
    returns (r': nat, last: bool, ok: bool, ghost k': int)
    requires src != dst && Below(from, name, f) && CString(f) && Below(to, name, t) && CString(t)
    requires j <= |name| && p == |from| + 1 + j && q == |to| + 1 + j
    requires CutAt(src, f, |f|) && CutAt(dst, t, r) && r < q && t[r] == '/' && r == |to| + 1 + k
    requires Built(source, Comps(from), Comps(to), name, j, was, disk.made)
    requires Last(source, Comps(from), name, j, k)
    modifies src, dst, disk
    ensures Closed(source) && Comps(to) in was ==> ok
    ensures last <==> j == |name|
    ensures ok ==> src[..] == old(src[..]) && CutAt(src, f, |f|)
    ensures CutAt(dst, t, r') && r' < q + 1 && r' == |to| + 1 + k' && (last || t[r'] == '/')
    ensures ok ==> Built(source, Comps(from), Comps(to), name, j + 1, was, disk.made)
    ensures ok ==> Last(source, Comps(from), name, j + 1, k')
  {
    ghost var s, d, now := Comps(from), Comps(to), disk.made;
    ghost var wanted := Wanted(source, s, name, j);
    Seen(src, from, name, f, j);
    last, r', ok, k' := src[p] == NUL, r, true, k;
    if src[p] == NUL || (src[p] == '/' && src[p-1] != '/') {
      if wanted && Closed(source) && d in was { ParentStands(source, s, d, name, j, was, now); }
      r', ok := Visit(src, dst, source, disk, p, q, r, last, from, to, name, f, t, j);
      if wanted { k' := j; }
    }
    if ok {
      if wanted {
        BuiltStep(source, s, d, name, j, was, now, disk.made);
      } else {
        BuiltSkip(source, s, d, name, j, was, now);
      }
    }
  }

  /** Both buffers hold the name behind their prefix.  The source buffer is left as
      it was; the destination buffer is cut off behind the deepest directory made,
      or behind its prefix. */
  method BuildDirs(src: array<char>, dst: array<char>, srcPrefixLen: nat, dstPrefixLen: nat,
                   source: map<Path, nat>, disk: Disk,
                   ghost from: string, ghost to: string, ghost name: string, ghost f: string, ghost t: string)
    returns (ok: bool, ghost k: int)
    requires src != dst && srcPrefixLen == |from| && dstPrefixLen == |to|
    requires Below(from, name, f) && CString(f) && Below(to, name, t) && CString(t)
    requires CutAt(src, f, |f|) && CutAt(dst, t, |t|)
    modifies src, dst, disk
    ensures Closed(source) && Comps(to) in old(disk.made) ==> ok
    ensures ok ==> src[..] == old(src[..])
    ensures ok ==> Built(source, Comps(from), Comps(to), name, |name| + 1, old(disk.made), disk.made)
    ensures ok ==> Last(source, Comps(from), name, |name| + 1, k)
    ensures ok ==> StrAt(dst[..], 0) == t[..|to| + 1 + k]
    ensures ok ==> Comps(StrAt(dst[..], 0)) == Comps(to) + if k < 0 then [] else At(name, k)
  {
    ghost var was, text := disk.made, src[..];
    var p, q, r := srcPrefixLen + 1, dstPrefixLen + 1, dstPrefixLen;
    var last := false;
    dst[r] := NUL;
    ok, k := true, -1;
    ghost var j := 0;
    while !last
      invariant j <= |name| + 1 && (last <==> j == |name| + 1)
      invariant -1 <= k && p == |from| + 1 + j && q == |to| + 1 + j && r == |to| + 1 + k && r < q
      invariant ok && src[..] == text && CutAt(src, f, |f|) && CutAt(dst, t, r) && (last || t[r] == '/')
      invariant Built(source, Comps(from), Comps(to), name, j, was, disk.made)
      invariant Last(source, Comps(from), name, j, k)
      decreases |name| + 1 - j
    {
      r, last, ok, k := Turn(src, dst, source, disk, p, q, r, from, to, name, f, t, j, k, was);
      if !ok { return; }
      p, q, j := p + 1, q + 1, j + 1;
    }
    Named(dst, t, to, name, r, k);
  }
}
