/**
 Model of the profile reader of src/firejail/profile.c: profile_read reads a
 file line by line, follows include lines by calling itself, and hands every
 other line to profile_check_line, which resolves conditionals such as
 "?HAS_NET: ..." by calling itself on the rest of the line.

 Lines are given without comments and superfluous blanks.  The file system, the
 search for a profile by name, macro expansion, the values of the conditionals
 and the long list of profile commands are inputs.  A command that is carried
 out at once may change the conditionals and the effect of later commands.
 */
module ProfileReader {
  import opened Wrappers

  const MAX_INCLUDE_LEVEL := 16
  const MAX_PROFILE_IGNORE := 32

  datatype File = Readable(lines: seq<string>) | Missing | Denied | Directory

  /** What profile_check_line makes of a command: put on the list, carried out at
      once, or refused. */
  datatype Command = Listed | Executed | Refused

  datatype World = World(
    file: string -> File,
    invalid: string -> bool,              // invalid_filename
    skipped: string -> bool,              // disable-devel.inc, disable-shell.inc
    find: string -> Option<string>,       // profile_find_firejail
    expand: string -> string,             // expand_macros
    cond: (string, seq<string>) -> bool,          // the value of a conditional and
    command: (string, seq<string>) -> Command)    // the effect of a command, after some have been carried out

  /** The profile list, the ignore list and the commands carried out at once. */
  datatype Lists = Lists(entries: seq<string>, ignores: seq<string>, executed: seq<string>)

  // ---------------------------------------------------------------------
  // Single lines
  // ---------------------------------------------------------------------

  predicate Starts(s: string, prefix: string) { prefix <= s }

  predicate Ignored(ignores: seq<string>, line: string) {
    exists i | 0 <= i < |ignores| ::
      ignores[i] <= line && (|line| == |ignores[i]| || line[|ignores[i]|] == ' ')
  }

  const CONDITIONALS := ["HAS_APPIMAGE", "HAS_NET", "HAS_NODBUS", "HAS_NOSOUND", "HAS_PRIVATE", "HAS_X11",
                         "BROWSER_DISABLE_U2F", "BROWSER_ALLOW_DRM", "ALLOW_TRAY"]

  /** The first conditional of the table, from k on, that the text starts with. */
  function Match(s: string, k: nat): (m: Option<string>)
    ensures m.Some? ==> m.value <= s
    decreases |CONDITIONALS| - k
  {
    if k >= |CONDITIONALS| then None
    else if CONDITIONALS[k] <= s then Some(CONDITIONALS[k])
    else Match(s, k + 1)
  }

  datatype Guard = NoGuard | BadGuard | IfSo(name: string, rest: string)

  function SkipBlank(s: string): (t: string)
    ensures |t| <= |s|
  {
    if s != "" && s[0] == ' ' then s[1..] else s
  }

  /** The colon behind the name, with a blank allowed on either side, and the line. */
  function ReadColon(name: string, s: string): (g: Guard)
    ensures g.IfSo? ==> |g.rest| < |s|
  {
    var t := SkipBlank(s);
    if t == "" || t[0] != ':' || |t| == 1 then BadGuard else IfSo(name, SkipBlank(t[1..]))
  }

  /** A conditional in front of a line: "?NAME: ". */
  function ReadGuard(line: string): (g: Guard)
    ensures g.IfSo? ==> |g.rest| < |line|
  {
    if line == "" || line[0] != '?' then NoGuard
    else
      var s := line[1..];
      var m := Match(s, 0);
      if m.None? then BadGuard else ReadColon(m.value, s[|m.value|..])
  }

  predicate Forbidden(line: string) { Starts(line, "quiet") || Starts(line, "include") }

  /** The effect of profile_check_line and of the profile_add after it; None stands
      for exit. */
  function Checked(w: World, ls: Lists, line: string): Option<Lists>
    decreases |line|
  {
    match ReadGuard(line)
    case BadGuard => None
    case IfSo(name, rest) =>
      if !w.cond(name, ls.executed) then Some(ls)
      else if Forbidden(rest) then None
      else Checked(w, ls, rest)
    case NoGuard =>
      if Ignored(ls.ignores, line) then Some(ls)
      else if Starts(line, "ignore ") then
        if line == "ignore " || |ls.ignores| >= MAX_PROFILE_IGNORE then None
        else Some(ls.(ignores := ls.ignores + [line[7..]]))
      else match w.command(line, ls.executed)
        case Listed => Some(ls.(entries := ls.entries + [line]))
        case Executed => Some(ls.(executed := ls.executed + [line]))
        case Refused => None
  }

  /** The guards c1 .. cn in front of a line. */
  function Guarded(names: seq<string>, line: string): string {
    if names == [] then line else "?" + names[0] + ": " + Guarded(names[1..], line)
  }

  predicate Known(names: seq<string>) {
    forall i | 0 <= i < |names| :: names[i] in CONDITIONALS
  }

  /** No conditional is the beginning of another one. */
  lemma {:induction false} MatchExact(name: string, rest: string, k: nat, i: nat)
    requires k <= i < |CONDITIONALS| && CONDITIONALS[i] == name
    ensures Match(name + ":" + rest, k) == Some(name)
    decreases i - k
  {
    var s := name + ":" + rest;
    assert s[..|name|] == name;
    if k < i {
      Distinct(k, i);
      MatchExact(name, rest, k + 1, i);
    }
  }

  /** Two different conditionals differ at some place that both have. */
  lemma Distinct(k: nat, i: nat)
    requires k < i < |CONDITIONALS|
    ensures exists j :: 0 <= j < |CONDITIONALS[k]| && j < |CONDITIONALS[i]| && CONDITIONALS[k][j] != CONDITIONALS[i][j]
  {
    var a, b := CONDITIONALS[k], CONDITIONALS[i];
    assert a[0] != b[0] || a[4] != b[4] || a[5] != b[5] || a[6] != b[6] || a[8] != b[8];
  }

  lemma ColonRead(name: string, rest: string)
    ensures ReadColon(name, ":" + (" " + rest)) == IfSo(name, rest)
  {
    assert (":" + (" " + rest))[1..] == " " + rest;
    assert (" " + rest)[1..] == rest;
  }

  lemma KnownMatch(name: string, rest: string)
    requires name in CONDITIONALS
    ensures Match(name + ":" + rest, 0) == Some(name)
  {
    var i :| 0 <= i < |CONDITIONALS| && CONDITIONALS[i] == name;
    MatchExact(name, rest, 0, i);
  }

  lemma GuardIs(s: string, name: string, t: string)
    requires Match(s, 0) == Some(name) && s == name + t
    ensures ReadGuard(['?'] + s) == ReadColon(name, t)
  {
    NameCut(name, t);
  }

  lemma GuardRead(name: string, rest: string)
    requires name in CONDITIONALS
    ensures ReadGuard("?" + name + ": " + rest) == IfSo(name, rest)
  {
    var t := ":" + (" " + rest);
    assert "?" + name + ": " + rest == ['?'] + (name + t);
    assert name + t == name + ":" + (" " + rest);
    KnownMatch(name, " " + rest);
    GuardIs(name + t, name, t);
    ColonRead(name, rest);
  }

  lemma NameCut(name: string, t: string)
    ensures (['?'] + (name + t))[1..] == name + t && (name + t)[|name|..] == t
  {
  }

  predicate AllHold(w: World, ls: Lists, names: seq<string>) {
    forall i | 0 <= i < |names| :: w.cond(names[i], ls.executed)
  }

  /** Nested conditionals act as a conjunction: if all of them hold the line counts
      as if it stood alone (but must not be quiet or include); if one does not, the
      line has no effect at all. */
  lemma {:induction false} GuardsAreConjunction(w: World, ls: Lists, names: seq<string>, line: string)
    requires Known(names) && names != []
    ensures Checked(w, ls, Guarded(names, line)) ==
            if !AllHold(w, ls, names) then Some(ls) else if Forbidden(line) then None else Checked(w, ls, line)
    decreases |names|
  {
    assert names[0] in CONDITIONALS;
    OneGuard(w, ls, names[0], Guarded(names[1..], line));
    FirstHolds(w, ls, names);
    if |names| > 1 {
      GuardNotForbidden(names[1..], line);
      GuardsAreConjunction(w, ls, names[1..], line);
    }
  }

  lemma OneGuard(w: World, ls: Lists, name: string, rest: string)
    requires name in CONDITIONALS
    ensures Checked(w, ls, "?" + name + ": " + rest) ==
            if !w.cond(name, ls.executed) then Some(ls) else if Forbidden(rest) then None else Checked(w, ls, rest)
  {
    GuardRead(name, rest);
  }

  lemma FirstHolds(w: World, ls: Lists, names: seq<string>)
    requires names != []
    ensures AllHold(w, ls, names) <==> w.cond(names[0], ls.executed) && AllHold(w, ls, names[1..])
  {
    forall i | 0 < i < |names| ensures names[i] == names[1..][i - 1] { }
  }

  lemma GuardNotForbidden(names: seq<string>, line: string)
    requires names != []
    ensures !Forbidden(Guarded(names, line))
  {
    assert Guarded(names, line)[0] == '?';
  }

  // ---------------------------------------------------------------------
  // Files
  // ---------------------------------------------------------------------

  function Base(fname: string): string {
    if '/' in fname then Base(fname[1..]) else fname
  }

  /** The name ends in ".local" and has no other ".local" before. */
  predicate Optional(fname: string) {
    var b := Base(fname);
    && |b| >= 6 && b[|b|-6..] == ".local"
    && forall k | 0 <= k < |b| - 6 :: !LocalAt(b, k)
  }

  predicate LocalAt(b: string, k: nat) { k + 6 <= |b| && b[k..k + 6] == ".local" }

  predicate IsInclude(ls: Lists, line: string) {
    Starts(line, "include ") && !Ignored(ls.ignores, line)
  }

  /** The file that an include line stands for. */
  function Target(w: World, line: string): string
    requires Starts(line, "include ")
  {
    var name := w.expand(line[8..]);
    if '/' in name then name
    else match w.find(name)
      case Some(path) => path
      case None => name
  }

  /** The effect of a line that is not an include. */
  function Leaf(w: World, ls: Lists, line: string): Option<Lists> {
    if Starts(line, "whitelist-ro ") then
      Some(ls.(entries := ls.entries + ["whitelist " + line[13..], "read-only " + line[13..]]))
    else if line == "quiet" then Some(ls)
    else Checked(w, ls, line)
  }

  datatype Verdict = Stop | Nothing | Read(lines: seq<string>)

  /** The checks before a file is read. */
  function Judge(w: World, fname: string): Verdict {
    if w.invalid(fname) || fname == "" || w.file(fname) == Directory then Stop
    else if w.file(fname) == Missing then if Optional(fname) then Nothing else Stop
    else if w.file(fname) == Denied then Stop
    else if w.skipped(fname) then Nothing
    else Read(w.file(fname).lines)
  }

  /** What profile_read leaves at an include level; None stands for exit. */
  function ReadFile(w: World, level: nat, ls: Lists, fname: string): Option<Lists>
    decreases MAX_INCLUDE_LEVEL + 1 - level, 1, 0
  {
    if level > MAX_INCLUDE_LEVEL then None
    else match Judge(w, fname)
      case Stop => None
      case Nothing => Some(ls)
      case Read(lines) => ReadLines(w, level, ls, lines)
  }

  function ReadLines(w: World, level: nat, ls: Lists, lines: seq<string>): Option<Lists>
    requires level <= MAX_INCLUDE_LEVEL
    decreases MAX_INCLUDE_LEVEL + 1 - level, 0, |lines|
  {
    if lines == [] then Some(ls)
    else
      var r := if IsInclude(ls, lines[0]) then ReadFile(w, level + 1, ls, Target(w, lines[0]))
               else Leaf(w, ls, lines[0]);
      if r.None? then None else ReadLines(w, level, r.value, lines[1..])
  }

  // ---------------------------------------------------------------------
  // Reading is reading the flattened text
  // ---------------------------------------------------------------------

  /** The lines other than includes, in the order in which they are met. */
  function FlatFile(w: World, level: nat, ls: Lists, fname: string): seq<string>
    decreases MAX_INCLUDE_LEVEL + 1 - level, 1, 0
  {
    if level > MAX_INCLUDE_LEVEL || !Judge(w, fname).Read? then []
    else FlatLines(w, level, ls, Judge(w, fname).lines)
  }

  function FlatLines(w: World, level: nat, ls: Lists, lines: seq<string>): seq<string>
    requires level <= MAX_INCLUDE_LEVEL
    decreases MAX_INCLUDE_LEVEL + 1 - level, 0, |lines|
  {
    if lines == [] then []
    else if IsInclude(ls, lines[0]) then
      var r := ReadFile(w, level + 1, ls, Target(w, lines[0]));
      FlatFile(w, level + 1, ls, Target(w, lines[0])) + if r.None? then [] else FlatLines(w, level, r.value, lines[1..])
    else
      var r := Leaf(w, ls, lines[0]);
      [lines[0]] + if r.None? then [] else FlatLines(w, level, r.value, lines[1..])
  }

  /** The effect of lines without any includes, one after the other. */
  function Leaves(w: World, ls: Lists, lines: seq<string>): Option<Lists>
    decreases |lines|
  {
    if lines == [] then Some(ls)
    else
      var r := Leaf(w, ls, lines[0]);
      if r.None? then None else Leaves(w, r.value, lines[1..])
  }

  lemma {:induction false} LeavesAppend(w: World, ls: Lists, s: seq<string>, t: seq<string>)
    ensures Leaves(w, ls, s + t) ==
            var r := Leaves(w, ls, s); if r.None? then None else Leaves(w, r.value, t)
    decreases |s|
  {
    if s == [] {
      assert s + t == t;
    } else {
      assert (s + t)[1..] == s[1..] + t;
      var r := Leaf(w, ls, s[0]);
      if r.Some? { LeavesAppend(w, r.value, s[1..], t); }
    }
  }

  /** Whenever reading a file with its includes succeeds, the lists are what the
      flattened text gives: entries appear in depth-first file order, and what an
      included file ignores stays ignored after it. */
  lemma {:induction false} FileIsFlat(w: World, level: nat, ls: Lists, fname: string)
    requires ReadFile(w, level, ls, fname).Some?
    ensures Leaves(w, ls, FlatFile(w, level, ls, fname)) == ReadFile(w, level, ls, fname)
    decreases MAX_INCLUDE_LEVEL + 1 - level, 1, 0
  {
    if Judge(w, fname).Read? { LinesAreFlat(w, level, ls, Judge(w, fname).lines); }
  }

  lemma {:induction false} LinesAreFlat(w: World, level: nat, ls: Lists, lines: seq<string>)
    requires level <= MAX_INCLUDE_LEVEL && ReadLines(w, level, ls, lines).Some?
    ensures Leaves(w, ls, FlatLines(w, level, ls, lines)) == ReadLines(w, level, ls, lines)
    decreases MAX_INCLUDE_LEVEL + 1 - level, 0, |lines|
  {
    if lines != [] {
      if IsInclude(ls, lines[0]) {
        var target := Target(w, lines[0]);
        var r := ReadFile(w, level + 1, ls, target).value;
        FileIsFlat(w, level + 1, ls, target);
        LinesAreFlat(w, level, r, lines[1..]);
        LeavesAppend(w, ls, FlatFile(w, level + 1, ls, target), FlatLines(w, level, r, lines[1..]));
      } else {
        var r := Leaf(w, ls, lines[0]).value;
        LinesAreFlat(w, level, r, lines[1..]);
        assert ([lines[0]] + FlatLines(w, level, r, lines[1..]))[1..] == FlatLines(w, level, r, lines[1..]);
      }
    }
  }

  /** Entries are only ever appended. */
  lemma {:induction false} CheckedAppends(w: World, ls: Lists, line: string)
    requires Checked(w, ls, line).Some?
    ensures ls.entries <= Checked(w, ls, line).value.entries && ls.ignores <= Checked(w, ls, line).value.ignores
    decreases |line|
  {
    var g := ReadGuard(line);
    if g.IfSo? && w.cond(g.name, ls.executed) { CheckedAppends(w, ls, g.rest); }
  }

  lemma {:induction false} LeavesAppendOnly(w: World, ls: Lists, lines: seq<string>)
    requires Leaves(w, ls, lines).Some?
    ensures ls.entries <= Leaves(w, ls, lines).value.entries && ls.ignores <= Leaves(w, ls, lines).value.ignores
    decreases |lines|
  {
    if lines != [] {
      var r := Leaf(w, ls, lines[0]);
      if !Starts(lines[0], "whitelist-ro ") && lines[0] != "quiet" { CheckedAppends(w, ls, lines[0]); }
      LeavesAppendOnly(w, r.value, lines[1..]);
    }
  }

  /** What is left of a line behind all its conditionals. */
  function Bare(line: string): string
    decreases |line|
  {
    var g := ReadGuard(line);
    if g.IfSo? then Bare(g.rest) else line
  }

  /** The line makes firejail ignore x from then on, if its conditionals hold. */
  predicate Silences(line: string, x: string) {
    var b := Bare(line);
    Starts(b, "ignore ") && Ignored([b[7..]], x)
  }

  lemma IgnoredSnoc(ignores: seq<string>, y: string, x: string)
    ensures Ignored(ignores + [y], x) <==> Ignored(ignores, x) || Ignored([y], x)
  {
    var more := ignores + [y];
    assert more[|ignores|] == y && [y][0] == y;
    if i :| 0 <= i < |ignores| && ignores[i] <= x && (|x| == |ignores[i]| || x[|ignores[i]|] == ' ') {
      assert more[i] == ignores[i];
    }
  }

  lemma {:induction false} CheckedKeeps(w: World, ls: Lists, line: string, x: string)
    requires Checked(w, ls, line).Some? && !Ignored(ls.ignores, x) && !Silences(line, x)
    ensures !Ignored(Checked(w, ls, line).value.ignores, x)
    decreases |line|
  {
    var g := ReadGuard(line);
    if g.IfSo? {
      if w.cond(g.name, ls.executed) { CheckedKeeps(w, ls, g.rest, x); }
    } else if Starts(line, "ignore ") {
      IgnoredSnoc(ls.ignores, line[7..], x);
    }
  }

  lemma LeafKeeps(w: World, ls: Lists, line: string, x: string)
    requires Leaf(w, ls, line).Some? && !Ignored(ls.ignores, x) && !Silences(line, x)
    ensures !Ignored(Leaf(w, ls, line).value.ignores, x)
  {
    if !Starts(line, "whitelist-ro ") && line != "quiet" { CheckedKeeps(w, ls, line, x); }
  }

  function Next(files: seq<string>, i: nat): nat { if i + 1 < |files| then i + 1 else 0 }

  /** File i has, at line at[i], an include of the next file. */
  ghost predicate Link(w: World, files: seq<string>, at: seq<nat>, i: nat)
    requires i < |files| == |at|
  {
    && Judge(w, files[i]).Read? && at[i] < |Judge(w, files[i]).lines|
    && Starts(CycleLine(w, files[i], at[i]), "include ")
    && Target(w, CycleLine(w, files[i], at[i])) == files[Next(files, i)]
  }

  ghost predicate Cycle(w: World, files: seq<string>, at: seq<nat>) {
    |files| == |at| && forall i | 0 <= i < |files| :: Link(w, files, at, i)
  }

  function CycleLine(w: World, fname: string, p: nat): string
    requires Judge(w, fname).Read? && p < |Judge(w, fname).lines|
  {
    Judge(w, fname).lines[p]
  }

  /** None of the includes of the cycle is ignored. */
  ghost predicate Heard(w: World, files: seq<string>, at: seq<nat>, ls: Lists)
    requires Cycle(w, files, at)
  {
    forall i | 0 <= i < |files| :: HeardAt(w, files, at, ls, i)
  }

  ghost predicate HeardAt(w: World, files: seq<string>, at: seq<nat>, ls: Lists, i: nat)
    requires i < |files| == |at| && Link(w, files, at, i)
  {
    !Ignored(ls.ignores, CycleLine(w, files[i], at[i]))
  }

  ghost predicate SilencesAt(w: World, files: seq<string>, at: seq<nat>, line: string, i: nat)
    requires i < |files| == |at| && Link(w, files, at, i)
  {
    Silences(line, CycleLine(w, files[i], at[i]))
  }

  /** The line makes firejail ignore no include of the cycle, and what it includes is
      in `reach` or on the cycle. */
  ghost predicate Fine(w: World, files: seq<string>, at: seq<nat>, reach: iset<string>, line: string)
    requires Cycle(w, files, at)
  {
    && (Starts(line, "include ") ==> Target(w, line) in reach || Target(w, line) in files)
    && (forall i | 0 <= i < |files| :: !SilencesAt(w, files, at, line, i))
  }

  ghost predicate FineAt(w: World, files: seq<string>, at: seq<nat>, reach: iset<string>, fname: string, m: nat)
    requires Cycle(w, files, at)
  {
    Judge(w, fname).Read? && m < |Judge(w, fname).lines| ==> Fine(w, files, at, reach, Judge(w, fname).lines[m])
  }

  /** That holds of every line in front of the includes of the cycle, and of the files
      that can be read from there. */
  ghost predicate Harmless(w: World, files: seq<string>, at: seq<nat>, reach: iset<string>)
    requires Cycle(w, files, at)
  {
    && (forall f: string, m: nat | f in reach :: FineAt(w, files, at, reach, f, m))
    && (forall i, m: nat | 0 <= i < |files| && m < at[i] :: FineAt(w, files, at, reach, files[i], m))
  }

  function Left(level: nat): nat { if level > MAX_INCLUDE_LEVEL then 0 else MAX_INCLUDE_LEVEL + 1 - level }

  /** Reading a file with everything it includes, if that ends, leaves the includes of
      the cycle heard. */
  lemma {:induction false} FileKeeps(w: World, level: nat, ls: Lists, files: seq<string>, at: seq<nat>,
                                     reach: iset<string>, fname: string)
    requires Cycle(w, files, at) && Harmless(w, files, at, reach) && Heard(w, files, at, ls)
    requires (fname in reach || fname in files) && ReadFile(w, level, ls, fname).Some?
    ensures Heard(w, files, at, ReadFile(w, level, ls, fname).value)
    decreases Left(level), 3, 0
  {
    if fname in files {
      var k :| 0 <= k < |files| && files[k] == fname;
      CycleExits(w, level, ls, files, at, reach, k);
    } else if Judge(w, fname).Read? {
      var lines := Judge(w, fname).lines;
      forall m | 0 <= m < |lines| ensures Fine(w, files, at, reach, lines[m]) {
        assert FineAt(w, files, at, reach, fname, m);
      }
      LinesKeep(w, level, ls, files, at, reach, lines);
    }
  }

  lemma {:induction false} LinesKeep(w: World, level: nat, ls: Lists, files: seq<string>, at: seq<nat>,
                                     reach: iset<string>, lines: seq<string>)
    requires Cycle(w, files, at) && Harmless(w, files, at, reach) && Heard(w, files, at, ls)
    requires level <= MAX_INCLUDE_LEVEL && ReadLines(w, level, ls, lines).Some?
    requires forall m | 0 <= m < |lines| :: Fine(w, files, at, reach, lines[m])
    ensures Heard(w, files, at, ReadLines(w, level, ls, lines).value)
    decreases Left(level), 1, |lines|
  {
    if lines != [] {
      LineKeeps(w, level, ls, files, at, reach, lines[0]);
      LinesKeep(w, level, LineEffect(w, level, ls, lines[0]).value, files, at, reach, lines[1..]);
    }
  }

  lemma {:induction false} LineKeeps(w: World, level: nat, ls: Lists, files: seq<string>, at: seq<nat>,
                                     reach: iset<string>, line: string)
    requires Cycle(w, files, at) && Harmless(w, files, at, reach) && Heard(w, files, at, ls)
    requires level <= MAX_INCLUDE_LEVEL && LineEffect(w, level, ls, line).Some? && Fine(w, files, at, reach, line)
    ensures Heard(w, files, at, LineEffect(w, level, ls, line).value)
    decreases Left(level), 0, 0
  {
    if IsInclude(ls, line) {
      FileKeeps(w, level + 1, ls, files, at, reach, Target(w, line));
    } else {
      LeafHeard(w, ls, files, at, line);
    }
  }

  lemma LeafHeard(w: World, ls: Lists, files: seq<string>, at: seq<nat>, line: string)
    requires Cycle(w, files, at) && Heard(w, files, at, ls) && Leaf(w, ls, line).Some?
    requires forall i | 0 <= i < |files| :: !SilencesAt(w, files, at, line, i)
    ensures Heard(w, files, at, Leaf(w, ls, line).value)
  {
    var ls' := Leaf(w, ls, line).value;
    forall i | 0 <= i < |files| ensures HeardAt(w, files, at, ls', i) {
      assert Link(w, files, at, i) && HeardAt(w, files, at, ls, i) && !SilencesAt(w, files, at, line, i);
      LeafKeeps(w, ls, line, CycleLine(w, files[i], at[i]));
    }
  }

  /** Reading the lines from m on comes to the include of file k, or exits before. */
  lemma {:induction false} IncludeIsMet(w: World, level: nat, ls: Lists, files: seq<string>, at: seq<nat>,
                                        reach: iset<string>, k: nat, lines: seq<string>, m: nat)
    requires Cycle(w, files, at) && Harmless(w, files, at, reach) && Heard(w, files, at, ls)
    requires k < |files| && m <= at[k]
    requires level <= MAX_INCLUDE_LEVEL && Judge(w, files[k]) == Read(lines) && m <= |lines|
    ensures ReadLines(w, level, ls, lines[m..]).None?
    decreases Left(level), 1, at[k] - m
  {
    CycleAt(w, ls, files, at, k, lines);
    LinesStep(w, level, ls, lines, m);
    if m == at[k] {
      CycleExits(w, level + 1, ls, files, at, reach, Next(files, k));
    } else if LineEffect(w, level, ls, lines[m]).Some? {
      assert FineAt(w, files, at, reach, files[k], m);
      LineKeeps(w, level, ls, files, at, reach, lines[m]);
      IncludeIsMet(w, level, LineEffect(w, level, ls, lines[m]).value, files, at, reach, k, lines, m + 1);
    }
  }

  lemma CycleAt(w: World, ls: Lists, files: seq<string>, at: seq<nat>, k: nat, lines: seq<string>)
    requires Cycle(w, files, at) && Heard(w, files, at, ls) && k < |files| && Judge(w, files[k]) == Read(lines)
    ensures at[k] < |lines| && IsInclude(ls, lines[at[k]]) && Target(w, lines[at[k]]) == files[Next(files, k)]
  {
    assert Link(w, files, at, k) && HeardAt(w, files, at, ls, k);
  }

  /** A cycle of includes always ends in an exit, wherever the includes stand and
      whatever else the files hold and include, as long as no line that is read in
      front of them makes firejail ignore an include of the cycle. */
  lemma {:induction false} CycleExits(w: World, level: nat, ls: Lists, files: seq<string>, at: seq<nat>,
                                      reach: iset<string>, k: nat)
    requires Cycle(w, files, at) && Harmless(w, files, at, reach) && Heard(w, files, at, ls) && k < |files|
    ensures ReadFile(w, level, ls, files[k]).None?
    decreases Left(level), 2, 0
  {
    if level <= MAX_INCLUDE_LEVEL {
      assert Link(w, files, at, k);
      var lines := Judge(w, files[k]).lines;
      assert lines[0..] == lines;
      IncludeIsMet(w, level, ls, files, at, reach, k, lines, 0);
    }
  }

  // ---------------------------------------------------------------------
  // A file that includes itself
  // ---------------------------------------------------------------------

  predicate IsIgnore(line: string) { Starts(line, "ignore ") }

  /** The ignore lines among the lines from m on. */
  function Ignores(lines: seq<string>, m: nat): nat
    requires m <= |lines|
    decreases |lines| - m
  {
    if m == |lines| then 0 else (if IsIgnore(lines[m]) then 1 else 0) + Ignores(lines, m + 1)
  }

  /** No conditional, no empty ignore line, and no command that is refused. */
  ghost predicate Simple(w: World, line: string) {
    ReadGuard(line) == NoGuard && line != "ignore " && forall ex :: w.command(line, ex) != Refused
  }

  /** The patterns leave all ignore lines alone. */
  ghost predicate Spares(ignores: seq<string>, lines: seq<string>) {
    forall j | 0 <= j < |lines| && IsIgnore(lines[j]) :: !Ignored(ignores, lines[j])
  }

  /** The file includes itself at line p.  It has no other include, no conditional, no
      line that ignores an ignore line and none that is an error by itself. */
  ghost predicate SelfInclude(w: World, fname: string, lines: seq<string>, p: nat) {
    && Judge(w, fname) == Read(lines) && p < |lines|
    && Starts(lines[p], "include ") && Target(w, lines[p]) == fname
    && (forall i | 0 <= i < |lines| && i != p :: Simple(w, lines[i]) && !Starts(lines[i], "include "))
    && (forall i | 0 <= i < |lines| && IsIgnore(lines[i]) :: Spares([lines[i][7..]], lines))
  }

  lemma SimpleEffect(w: World, ls: Lists, line: string)
    requires Simple(w, line) && (IsIgnore(line) ==> !Ignored(ls.ignores, line))
    ensures var r := Leaf(w, ls, line);
            if !IsIgnore(line) then r.Some? && r.value.ignores == ls.ignores
            else if |ls.ignores| >= MAX_PROFILE_IGNORE then r.None?
            else r.Some? && r.value.ignores == ls.ignores + [line[7..]]
  {
  }

  /** A line that is ignored has no effect, also an include. */
  lemma IgnoredEffect(w: World, level: nat, ls: Lists, x: string)
    requires Starts(x, "include ") && Ignored(ls.ignores, x)
    ensures LineEffect(w, level, ls, x) == Some(ls)
  {
    assert x[0] == 'i' && x[1] == 'n' && !Starts(x, "whitelist-ro ") && x != "quiet";
  }

  lemma SparesSnoc(ignores: seq<string>, y: string, lines: seq<string>)
    requires Spares(ignores, lines) && Spares([y], lines)
    ensures Spares(ignores + [y], lines)
  {
    forall j | 0 <= j < |lines| && IsIgnore(lines[j]) ensures !Ignored(ignores + [y], lines[j]) {
      IgnoredSnoc(ignores, y, lines[j]);
    }
  }

  lemma BareSimple(line: string)
    requires ReadGuard(line) == NoGuard
    ensures Bare(line) == line
  {
  }

  /** The include is ignored already, or some line from m on will make it so. */
  ghost predicate Doomed(ls: Lists, lines: seq<string>, p: nat, m: nat)
    requires p < |lines|
  {
    m <= p ==> Ignored(ls.ignores, lines[p]) || exists i | m <= i < p :: Silences(lines[i], lines[p])
  }

  lemma DoomedStep(w: World, ls: Lists, ls': Lists, lines: seq<string>, p: nat, m: nat)
    requires m < p < |lines| && Doomed(ls, lines, p, m) && ReadGuard(lines[m]) == NoGuard
    requires ls'.ignores == if IsIgnore(lines[m]) then ls.ignores + [lines[m][7..]] else ls.ignores
    ensures Doomed(ls', lines, p, m + 1)
  {
    BareSimple(lines[m]);
    if IsIgnore(lines[m]) { IgnoredSnoc(ls.ignores, lines[m][7..], lines[p]); }
  }

  /** The rest of the file is read once. */
  lemma {:induction false} ReadOnce(w: World, level: nat, ls: Lists, fname: string, lines: seq<string>, p: nat, m: nat)
    requires level <= MAX_INCLUDE_LEVEL && m <= |lines| && SelfInclude(w, fname, lines, p)
    requires Spares(ls.ignores, lines) && Doomed(ls, lines, p, m)
    ensures ReadLines(w, level, ls, lines[m..]).None? <==>
            Ignores(lines, m) > 0 && |ls.ignores| + Ignores(lines, m) > MAX_PROFILE_IGNORE
    decreases |lines| - m
  {
    if m < |lines| {
      LinesStep(w, level, ls, lines, m);
      if m == p {
        IgnoredEffect(w, level, ls, lines[p]);
        ReadOnce(w, level, ls, fname, lines, p, m + 1);
      } else {
        SimpleEffect(w, ls, lines[m]);
        var r := Leaf(w, ls, lines[m]);
        if r.Some? {
          if IsIgnore(lines[m]) { SparesSnoc(ls.ignores, lines[m][7..], lines); }
          if m < p { DoomedStep(w, ls, r.value, lines, p, m); }
          ReadOnce(w, level, r.value, fname, lines, p, m + 1);
        }
      }
    }
  }

  /** Not ignored at the start, and by no line in front of it. */
  ghost predicate IncludeHeard(ls: Lists, lines: seq<string>, p: nat)
    requires p < |lines|
  {
    !Ignored(ls.ignores, lines[p]) && forall i | 0 <= i < p :: !Silences(lines[i], lines[p])
  }

  lemma SelfExits(w: World, level: nat, ls: Lists, fname: string, lines: seq<string>, p: nat)
    requires SelfInclude(w, fname, lines, p) && IncludeHeard(ls, lines, p)
    ensures ReadFile(w, level, ls, fname).None?
  {
    var files, at, reach := [fname], [p], iset{};
    assert Link(w, files, at, 0);
    forall m: nat | m < p ensures FineAt(w, files, at, reach, fname, m) {
      assert !SilencesAt(w, files, at, lines[m], 0);
    }
    assert HeardAt(w, files, at, ls, 0);
    CycleExits(w, level, ls, files, at, reach, 0);
  }

  /** Such a file ends in an exit exactly if it is included too deep, if its include is
      heard, or if it holds more ignore lines than there is room for. */
  lemma SelfIncludeExact(w: World, level: nat, ls: Lists, fname: string, lines: seq<string>, p: nat)
    requires SelfInclude(w, fname, lines, p) && Spares(ls.ignores, lines)
    ensures ReadFile(w, level, ls, fname).None? <==>
            || level > MAX_INCLUDE_LEVEL
            || IncludeHeard(ls, lines, p)
            || (Ignores(lines, 0) > 0 && |ls.ignores| + Ignores(lines, 0) > MAX_PROFILE_IGNORE)
  {
    if level <= MAX_INCLUDE_LEVEL {
      if IncludeHeard(ls, lines, p) {
        SelfExits(w, level, ls, fname, lines, p);
      } else {
        assert lines[0..] == lines;
        ReadOnce(w, level, ls, fname, lines, p, 0);
      }
    }
  }

  /** A file that ignores its own include in front of it is read to its end. */
  lemma SilencedCycle(w: World, level: nat, fname: string, x: string)
    requires level <= MAX_INCLUDE_LEVEL && Starts(x, "include ") && Target(w, x) == fname
    requires Judge(w, fname) == Read(["ignore " + x, x])
    ensures ReadFile(w, level, Lists([], [], []), fname) == Some(Lists([], [x], []))
  {
    var ls, ls', line := Lists([], [], []), Lists([], [x], []), "ignore " + x;
    assert line[0] == 'i' && line[7..] == x && line[..7] == "ignore " && |line| > 7 && line[1] == 'g';
    assert Starts(line, "ignore ") && !Ignored([], line) && [] + [x] == [x];
    assert Checked(w, ls, line) == Some(ls');
    assert !IsInclude(ls, line) && Leaf(w, ls, line) == Checked(w, ls, line) == Some(ls');
    assert ls'.ignores[0] == x && Ignored(ls'.ignores, x);
    assert x[0] == 'i' && Leaf(w, ls', x) == Checked(w, ls', x) == Some(ls');
    assert [line, x][1..] == [x] && [x][1..] == [];
    assert ReadLines(w, level, ls', [x]) == Some(ls') by {
      assert !IsInclude(ls', x) && ReadLines(w, level, ls', []) == Some(ls');
    }
  }

  // ---------------------------------------------------------------------
  // The code
  // ---------------------------------------------------------------------

  class Reader {
    const w: World
    var includeLevel: nat
    var lists: Lists
    ghost var active: nat     // calls of profile_read that have not returned
    ghost var peak: nat       // the most there have been that got past the level check

    constructor (w: World, lists: Lists)
      ensures this.w == w && this.lists == lists && includeLevel == 0 && active == 0 && peak == 0
    {
      this.w := w;
      this.lists := lists;
      includeLevel, active, peak := 0, 0, 0;
    }

    ghost predicate Valid()
      reads this
    {
      active == includeLevel && peak <= MAX_INCLUDE_LEVEL + 1
    }

    /** Returns false where the code exits.  Otherwise the include level is restored,
        and never more than 17 calls were reading. */
    method ProfileRead(fname: string) returns (ok: bool)
      requires Valid()
      modifies this
      ensures peak <= MAX_INCLUDE_LEVEL + 1
      ensures ok <==> ReadFile(w, old(includeLevel), old(lists), fname).Some?
      ensures ok ==> Some(lists) == ReadFile(w, old(includeLevel), old(lists), fname)
      ensures ok ==> Valid() && includeLevel == old(includeLevel)
      decreases if includeLevel > MAX_INCLUDE_LEVEL then 0 else MAX_INCLUDE_LEVEL + 1 - includeLevel, 2
    {
      if includeLevel > MAX_INCLUDE_LEVEL { return false; }
      match Judge(w, fname) {
        case Stop => ok := false;
        case Nothing => ok := true;
        case Read(lines) =>
          active := active + 1;
          peak := if active > peak then active else peak;
          ok := ReadAll(lines);
          if ok { active := active - 1; }
      }
    }

    /** The loop over the lines of a file. */
    method ReadAll(lines: seq<string>) returns (ok: bool)
      requires includeLevel <= MAX_INCLUDE_LEVEL && active == includeLevel + 1 && peak <= MAX_INCLUDE_LEVEL + 1
      modifies this
      ensures peak <= MAX_INCLUDE_LEVEL + 1
      ensures ok <==> ReadLines(w, old(includeLevel), old(lists), lines).Some?
      ensures ok ==> Some(lists) == ReadLines(w, old(includeLevel), old(lists), lines)
      ensures ok ==> active == includeLevel + 1 && includeLevel == old(includeLevel)
      decreases MAX_INCLUDE_LEVEL + 1 - includeLevel, 1
    {
      var i := 0;
      while i < |lines|
        invariant 0 <= i <= |lines| && includeLevel == old(includeLevel)
        invariant active == includeLevel + 1 && peak <= MAX_INCLUDE_LEVEL + 1
        invariant ReadLines(w, includeLevel, old(lists), lines) == ReadLines(w, includeLevel, lists, lines[i..])
      {
        LinesStep(w, includeLevel, lists, lines, i);
        ok := ReadLine(lines[i]);
        if !ok { return; }
        i := i + 1;
      }
      ok := true;
    }

    /** One line: an include, or anything else. */
    method ReadLine(line: string) returns (ok: bool)
      requires includeLevel <= MAX_INCLUDE_LEVEL && active == includeLevel + 1 && peak <= MAX_INCLUDE_LEVEL + 1
      modifies this
      ensures peak <= MAX_INCLUDE_LEVEL + 1
      ensures ok <==> LineEffect(w, old(includeLevel), old(lists), line).Some?
      ensures ok ==> Some(lists) == LineEffect(w, old(includeLevel), old(lists), line)
      ensures ok ==> active == includeLevel + 1 && includeLevel == old(includeLevel)
      decreases MAX_INCLUDE_LEVEL + 1 - includeLevel, 0
    {
      if IsInclude(lists, line) {
        includeLevel := includeLevel + 1;
        ok := ProfileRead(Target(w, line));
        if !ok { return; }
        includeLevel := includeLevel - 1;
      } else {
        var r := Leaf(w, lists, line);
        ok := r.Some?;
        if ok { lists := r.value; }
      }
    }
  }

  function LineEffect(w: World, level: nat, ls: Lists, line: string): Option<Lists> {
    if IsInclude(ls, line) then ReadFile(w, level + 1, ls, Target(w, line)) else Leaf(w, ls, line)
  }

  lemma LinesStep(w: World, level: nat, ls: Lists, lines: seq<string>, i: nat)
    requires level <= MAX_INCLUDE_LEVEL && i < |lines|
    ensures ReadLines(w, level, ls, lines[i..]) ==
            var r := LineEffect(w, level, ls, lines[i]);
            if r.None? then None else ReadLines(w, level, r.value, lines[i + 1..])
  {
    assert lines[i..][0] == lines[i] && lines[i..][1..] == lines[i + 1..];
  }
}
