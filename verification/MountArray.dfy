/**
 Model of build_mount_array in src/firejail/mountinfo.c: the mounts below a
 path are collected in an array that doubles when it is full and ends with NULL.
 The lines of /proc/self/mountinfo are given as parsed records.
 */
module MountArray {
  import opened MountInfo
  import opened Strings
  import opened Wrappers

  /** The mounts below the path, in file order. */
  function Below(path: string, ms: seq<MountData>): seq<string> {
    if ms == [] then []
    else Below(path, ms[..|ms|-1]) + if Inside(path, ms[|ms|-1].dir) then [ms[|ms|-1].dir] else []
  }

  /** The first record with the mount id, or the number of records. */
  function FirstWith(ms: seq<MountData>, id: int): (k: nat)
    ensures k <= |ms| && (k < |ms| ==> ms[k].mountid == id)
    ensures forall i | 0 <= i < k :: ms[i].mountid != id
  {
    if ms == [] || ms[0].mountid == id then 0 else 1 + FirstWith(ms[1..], id)
  }

  // ---------------------------------------------------------------------
  // What "below" means
  // ---------------------------------------------------------------------

  /** The mounts that lie strictly below the path, in file order. */
  function StrictlyBelow(path: string, ms: seq<MountData>): seq<string> {
    if ms == [] then []
    else
      var dir := ms[|ms|-1].dir;
      StrictlyBelow(path, ms[..|ms|-1]) + if Components(path) < Components(dir) then [dir] else []
  }

  predicate CleanDirs(ms: seq<MountData>) { forall i | 0 <= i < |ms| :: Clean(ms[i].dir) }

  /** For the root nothing is found, although everything else lies below it. */
  lemma {:induction false} RootFindsNothing(ms: seq<MountData>)
    requires CleanDirs(ms)
    ensures Below("/", ms) == []
    ensures StrictlyBelow("/", ms) == [] <==> forall i | 0 <= i < |ms| :: ms[i].dir == "/"
  {
    if ms != [] {
      RootFindsNothing(ms[..|ms|-1]);
      if ms[|ms|-1].dir != "/" { CleanSplit(ms[|ms|-1].dir); }
    }
  }

  lemma {:induction false} OthersFound(path: string, ms: seq<MountData>)
    requires Clean(path) && path != "/" && CleanDirs(ms)
    ensures Below(path, ms) == StrictlyBelow(path, ms)
  {
    if ms != [] {
      OthersFound(path, ms[..|ms|-1]);
      InsideExact(path, ms[|ms|-1].dir);
    }
  }

  /** The mounts found are those strictly below the path exactly when the path is
      not the root, or nothing else is mounted. */
  lemma BelowExact(path: string, ms: seq<MountData>)
    requires Clean(path) && CleanDirs(ms)
    ensures Below(path, ms) == StrictlyBelow(path, ms) <==> path != "/" || forall i | 0 <= i < |ms| :: ms[i].dir == "/"
  {
    if path == "/" { RootFindsNothing(ms); } else { OthersFound(path, ms); }
  }

  // ---------------------------------------------------------------------
  // The code
  // ---------------------------------------------------------------------

  /** The first n slots hold the list. */
  ghost predicate Filled(rv: array<Option<string>>, list: seq<string>)
    reads rv
  {
    |list| <= rv.Length && forall i | 0 <= i < |list| :: rv[i] == Some(list[i])
  }

  /** realloc: a larger array with the same contents in front. */
  method Grow(rv: array<Option<string>>, size: nat, ghost list: seq<string>) returns (rv': array<Option<string>>)
    requires size >= rv.Length && Filled(rv, list)
    ensures fresh(rv') && rv'.Length == size && Filled(rv', list)
  {
    rv' := new Option<string>[size](_ => None);
    var i := 0;
    while i < rv.Length
      invariant 0 <= i <= rv.Length
      invariant forall k | 0 <= k < i :: rv'[k] == rv[k]
    {
      rv'[i] := rv[i];
      i := i + 1;
    }
  }

  /** The first loop: the record with the mount id. */
  method Find(ms: seq<MountData>, mountid: int) returns (i: nat)
    ensures i == FirstWith(ms, mountid)
  {
    i := 0;
    while i < |ms| && ms[i].mountid != mountid
      invariant 0 <= i <= |ms|
      invariant FirstWith(ms, mountid) == i + FirstWith(ms[i..], mountid)
    {
      assert ms[i..][1..] == ms[i + 1..];
      i := i + 1;
    }
  }

  lemma BelowStep(path: string, ms: seq<MountData>, i: nat)
    requires i < |ms|
    ensures Below(path, ms[..i + 1]) == Below(path, ms[..i]) + if Inside(path, ms[i].dir) then [ms[i].dir] else []
  {
    assert ms[..i + 1][..i] == ms[..i];
  }

  /** Adds an element, with room for it made if needed. */
  method Append(rv0: array<Option<string>>, cnt: nat, x: string, ghost list: seq<string>)
    returns (rv: array<Option<string>>)
    requires cnt == |list| > 0 && Filled(rv0, list) && cnt <= rv0.Length
    modifies rv0
    ensures rv == rv0 || fresh(rv)
    ensures Filled(rv, list + [x])
  {
    rv := rv0;
    if cnt == rv.Length { rv := Grow(rv, rv.Length * 2, list); }
    rv[cnt] := Some(x);
  }

  /** The second loop and the end of the array. */
  method Collect(path: string, ms: seq<MountData>) returns (rv: array<Option<string>>)
    ensures fresh(rv)
    ensures Ended(rv, [path] + Below(path, ms))
  {
    rv := new Option<string>[32](_ => None);
    var cnt := 0;
    rv[cnt] := Some(path);
    ghost var list := [path];
    var i := 0;
    while i < |ms|
      invariant 0 <= i <= |ms| && list == [path] + Below(path, ms[..i])
      invariant fresh(rv) && cnt + 1 == |list| <= rv.Length && Filled(rv, list)
    {
      BelowStep(path, ms, i);
      if Inside(path, ms[i].dir) {
        cnt := cnt + 1;
        rv := Append(rv, cnt, ms[i].dir, list);
        list := list + [ms[i].dir];
      }
      i := i + 1;
    }
    assert ms[..i] == ms;
    cnt := cnt + 1;
    if cnt == rv.Length { rv := Grow(rv, rv.Length + 1, list); }
    rv[cnt] := None;
  }

  /** The array holds the list and NULL behind it. */
  ghost predicate Ended(rv: array<Option<string>>, list: seq<string>)
    reads rv
  {
    Filled(rv, list) && |list| < rv.Length && rv[|list|] == None
  }

  lemma FirstFound(ms: seq<MountData>, id: int)
    ensures FirstWith(ms, id) < |ms| <==> exists i | 0 <= i < |ms| :: ms[i].mountid == id
  {
  }

  method Build(mountid: int, path: string, ms: seq<MountData>) returns (r: Option<array<Option<string>>>)
    ensures r.Some? <==> exists i | 0 <= i < |ms| :: ms[i].mountid == mountid
    ensures r.Some? ==> Ended(r.value, [path] + Below(path, ms[FirstWith(ms, mountid) + 1..]))
    ensures r.Some? && Clean(path) && path != "/" && CleanDirs(ms) ==>
              Ended(r.value, [path] + StrictlyBelow(path, ms[FirstWith(ms, mountid) + 1..]))
  {
    FirstFound(ms, mountid);
    var i := Find(ms, mountid);
    if i == |ms| { return None; }
    var rv := Collect(path, ms[i + 1..]);
    if Clean(path) && path != "/" && CleanDirs(ms) { OthersFound(path, ms[i + 1..]); }
    r := Some(rv);
  }
}
