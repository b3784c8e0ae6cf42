/** Splitting and joining of text at a separator, and C strings inside a buffer. */
module Strings {
  const NUL: char := '\0'

  predicate CString(s: string) { NUL !in s }

  /** The pieces between the separators; always at least one. */
  function Split(s: string, d: char): (parts: seq<string>)
    ensures |parts| > 0
  {
    if s == "" then [""]
    else if s[0] == d then [""] + Split(s[1..], d)
    else
      var rest := Split(s[1..], d);
      [[s[0]] + rest[0]] + rest[1..]
  }

  function Join(parts: seq<string>, d: char): string {
    if parts == [] then ""
    else if |parts| == 1 then parts[0]
    else parts[0] + [d] + Join(parts[1..], d)
  }

  predicate Free(parts: seq<string>, d: char) {
    forall i | 0 <= i < |parts| :: d !in parts[i]
  }

  lemma {:induction false} SplitFree(s: string, d: char)
    ensures Free(Split(s, d), d)
  {
    if s != "" { SplitFree(s[1..], d); }
  }

  lemma {:induction false} SplitNone(s: string, d: char)
    requires d !in s
    ensures Split(s, d) == [s]
  {
    if s != "" {
      SplitNone(s[1..], d);
      assert [s[0]] + s[1..] == s;
    }
  }

  lemma FirstGrows(c: char, rest: seq<string>, more: seq<string>)
    requires |rest| > 0
    ensures [""] + (rest + more) == [""] + rest + more
    ensures [[c] + (rest + more)[0]] + (rest + more)[1..] == [[c] + rest[0]] + rest[1..] + more
  {
    assert (rest + more)[1..] == rest[1..] + more;
  }

  lemma {:induction false} SplitAppend(s: string, t: string, d: char)
    ensures Split(s + [d] + t, d) == Split(s, d) + Split(t, d)
  {
    var st := s + [d] + t;
    if s == "" {
      assert st[0] == d && st[1..] == t;
    } else {
      assert st[0] == s[0] && st[1..] == s[1..] + [d] + t;
      SplitAppend(s[1..], t, d);
      FirstGrows(s[0], Split(s[1..], d), Split(t, d));
    }
  }

  lemma {:induction false} SplitJoin(parts: seq<string>, d: char)
    requires parts != [] && Free(parts, d)
    ensures Split(Join(parts, d), d) == parts
  {
    SplitNone(parts[0], d);
    if |parts| > 1 {
      SplitJoin(parts[1..], d);
      SplitAppend(parts[0], Join(parts[1..], d), d);
    }
  }

  lemma {:induction false} JoinSplit(s: string, d: char)
    ensures Join(Split(s, d), d) == s
  {
    if s != "" {
      JoinSplit(s[1..], d);
      var rest := Split(s[1..], d);
      if s[0] == d {
        assert ([""] + rest)[1..] == rest;
        assert "" + [d] + s[1..] == s;
      } else {
        if |rest| > 1 {
          assert Split(s, d)[1..] == rest[1..];
          assert [s[0]] + rest[0] + [d] + Join(rest[1..], d) == [s[0]] + (rest[0] + [d] + Join(rest[1..], d));
        }
        assert [s[0]] + s[1..] == s;
      }
    }
  }

  lemma {:induction false} JoinSnoc(parts: seq<string>, x: string, d: char)
    ensures Join(parts + [x], d) == if parts == [] then x else Join(parts, d) + [d] + x
  {
    if |parts| > 1 {
      JoinSnoc(parts[1..], x, d);
      assert (parts + [x])[1..] == parts[1..] + [x];
    }
  }

  /** The text `dir` goes on behind `path` with a slash: strncmp and a look at the
      next character. */
  predicate Inside(path: string, dir: string) {
    |path| < |dir| && path == dir[..|path|] && dir[|path|] == '/'
  }

  lemma {:induction false} JoinAppend(a: seq<string>, b: seq<string>, d: char)
    requires a != [] && b != []
    ensures Join(a + b, d) == Join(a, d) + [d] + Join(b, d)
  {
    assert (a + b)[1..] == a[1..] + b;
    if |a| > 1 {
      JoinAppend(a[1..], b, d);
    } else {
      assert a[1..] + b == b;
    }
  }

  /** On the pieces between slashes, one list is a proper prefix of the other. */
  lemma InsideIsBelow(path: string, dir: string)
    ensures Inside(path, dir) <==> Split(path, '/') < Split(dir, '/')
  {
    if Inside(path, dir) {
      var rest := dir[|path| + 1..];
      assert dir == path + ['/'] + rest;
      SplitAppend(path, rest, '/');
    }
    if Split(path, '/') < Split(dir, '/') { BelowIsInside(path, dir); }
  }

  lemma BelowIsInside(path: string, dir: string)
    requires Split(path, '/') < Split(dir, '/')
    ensures Inside(path, dir)
  {
    var ps, ds := Split(path, '/'), Split(dir, '/');
    var more := ds[|ps|..];
    assert ds == ps + more;
    JoinSplit(path, '/');
    JoinSplit(dir, '/');
    JoinAppend(ps, more, '/');
    assert dir == path + ['/'] + Join(more, '/');
  }

  /** An absolute path without empty components. */
  predicate Clean(path: string) {
    path == "/" || (path != "" && path[0] == '/' && "" !in Split(path, '/')[1..])
  }

  /** The components of a clean path; the root has none. */
  function Components(path: string): seq<string> {
    if path == "/" then [] else Split(path, '/')[1..]
  }

  lemma CleanSplit(path: string)
    requires Clean(path) && path != "/"
    ensures Split(path, '/') == [""] + Components(path) && Components(path) != [] && |path| > 1 && path[1] != '/'
  {
    var rest := Split(path[1..], '/');
    assert Split(path, '/') == [""] + rest;
    assert rest[0] in rest && rest[0] != "";
  }

  /** The check tells whether a path lies strictly below another one, but not for
      the root. */
  lemma InsideExact(path: string, dir: string)
    requires Clean(path) && Clean(dir)
    ensures (Inside(path, dir) <==> Components(path) < Components(dir)) <==> path != "/" || dir == "/"
  {
    if path != "/" { CleanSplit(path); }
    if dir != "/" { CleanSplit(dir); }
    if path != "/" && dir != "/" {
      InsideIsBelow(path, dir);
      ConsPrefix("", Components(path), Components(dir));
    }
  }

  lemma ConsPrefix(x: string, a: seq<string>, b: seq<string>)
    ensures [x] + a < [x] + b <==> a < b
  {
    if [x] + a < [x] + b {
      assert forall i | 0 <= i < |a| :: a[i] == ([x] + a)[i + 1] == ([x] + b)[i + 1] == b[i];
    }
  }

  /** The C string that starts at an offset of a buffer. */
  function StrAt(b: seq<char>, at: nat): string
    decreases |b| - at
  {
    if at >= |b| || b[at] == NUL then "" else [b[at]] + StrAt(b, at + 1)
  }

  lemma {:induction false} StrAtIs(b: seq<char>, at: nat, s: string)
    requires CString(s) && at + |s| < |b|
    requires b[at..at + |s|] == s && b[at + |s|] == NUL
    ensures StrAt(b, at) == s
    decreases |s|
  {
    if s != "" {
      assert b[at] == b[at..at + |s|][0] == s[0];
      assert b[at + 1..at + |s|] == b[at..at + |s|][1..];
      StrAtIs(b, at + 1, s[1..]);
    }
  }
}
