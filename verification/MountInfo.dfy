/**
 Model of src/firejail/mountinfo.c: a line of /proc/self/mountinfo is taken
 apart in its own buffer by strtok, and the octal escapes of two of its fields
 are undone in place, behind a read pointer that runs ahead of the write
 pointer.  `Parsed` says on plain text what comes out; `Printed` is the line the
 kernel writes for a mount.
 */
module MountInfo {
  import opened Decimal
  import opened Strings
  import opened Wrappers

  // ---------------------------------------------------------------------
  // Escapes
  // ---------------------------------------------------------------------

  predicate Octal(c: char) { '0' <= c <= '7' }

  predicate Escape(s: string) {
    |s| >= 4 && s[0] == '\\' && Octal(s[1]) && Octal(s[2]) && Octal(s[3])
  }

  function OctalValue(c: char): int
    requires Octal(c)
  {
    c as int - '0' as int
  }

  /** The value of an escape, cut off to one byte. */
  function Unescaped(s: string): char
    requires Escape(s)
  {
    ((OctalValue(s[1]) * 64 + OctalValue(s[2]) * 8 + OctalValue(s[3])) % 256) as char
  }

  /** None stands for the failed assertion that a backslash starts an escape. */
  function Unmangled(s: string): Option<string> {
    if s == "" then Some("")
    else if s[0] != '\\' then
      var r := Unmangled(s[1..]);
      if r.Some? then Some([s[0]] + r.value) else None
    else if !Escape(s) then None
    else
      var r := Unmangled(s[4..]);
      if r.Some? then Some([Unescaped(s)] + r.value) else None
  }

  function Escaped(c: char): string {
    if c == ' ' then "\\040" else if c == '\t' then "\\011" else if c == '\n' then "\\012"
    else if c == '\\' then "\\134" else [c]
  }

  /** What the kernel prints for a path. */
  function Mangled(s: string): string {
    if s == "" then "" else Escaped(s[0]) + Mangled(s[1..])
  }

  lemma EscapeStep(e: string, m: string)
    requires |e| == 4 && Escape(e)
    ensures Unmangled(e + m) == if Unmangled(m).Some? then Some([Unescaped(e)] + Unmangled(m).value) else None
  {
    assert (e + m)[4..] == m;
    assert (e + m)[0] == e[0] && (e + m)[1] == e[1] && (e + m)[2] == e[2] && (e + m)[3] == e[3];
  }

  lemma PlainStep(c: char, m: string)
    requires c != '\\'
    ensures Unmangled([c] + m) == if Unmangled(m).Some? then Some([c] + Unmangled(m).value) else None
  {
    assert ([c] + m)[1..] == m;
  }

  lemma EscapedBack(c: char)
    requires |Escaped(c)| == 4
    ensures Escape(Escaped(c)) && Unescaped(Escaped(c)) == c
  {
    assert Unescaped("\\040") == ' ' && Unescaped("\\011") == '\t';
    assert Unescaped("\\012") == '\n' && Unescaped("\\134") == '\\';
  }

  lemma {:induction false} UnmangleMangled(s: string)
    ensures Unmangled(Mangled(s)) == Some(s)
  {
    if s != "" {
      UnmangleMangled(s[1..]);
      assert [s[0]] + s[1..] == s;
      if |Escaped(s[0])| == 4 {
        EscapedBack(s[0]);
        EscapeStep(Escaped(s[0]), Mangled(s[1..]));
      } else {
        PlainStep(s[0], Mangled(s[1..]));
      }
    }
  }

  lemma {:induction false} MangledClean(s: string)
    ensures ' ' !in Mangled(s) && '\n' !in Mangled(s) && (CString(s) ==> CString(Mangled(s)))
    ensures s != "" ==> Mangled(s) != ""
  {
    if s != "" { MangledClean(s[1..]); }
  }

  // ---------------------------------------------------------------------
  // Tokens
  // ---------------------------------------------------------------------

  /** The first place from i on that does not hold d. */
  function Skip(s: string, i: nat, d: char): (k: nat)
    requires i <= |s|
    ensures i <= k <= |s|
    decreases |s| - i
  {
    if i < |s| && s[i] == d then Skip(s, i + 1, d) else i
  }

  /** The first place from i on that holds d, or the end. */
  function Find(s: string, i: nat, d: char): (k: nat)
    requires i <= |s|
    ensures i <= k <= |s|
    decreases |s| - i
  {
    if i == |s| || s[i] == d then i else Find(s, i + 1, d)
  }

  /** A token of a text, and where the search for the next one goes on. */
  datatype Tok = Tok(start: nat, end: nat, next: nat)

  predicate Fits(s: string, pos: nat, t: Tok) {
    pos <= t.start <= t.end <= t.next <= |s| && t.start < |s| && (t.end < t.next || t.next == |s|)
  }

  function Word(s: string, t: Tok): string
    requires t.start <= t.end <= |s|
  {
    s[t.start..t.end]
  }

  /** strtok, with the search starting at a place of the text. */
  function Token(s: string, pos: nat, d: char): (t: Option<Tok>)
    requires pos <= |s|
    ensures t.Some? ==> Fits(s, pos, t.value)
  {
    var i := Skip(s, pos, d);
    if i == |s| then None
    else
      var k := Find(s, i, d);
      Some(Tok(i, k, if k < |s| then k + 1 else k))
  }

  predicate AllAre(s: string, i: nat, k: nat, d: char)
    requires i <= k <= |s|
  {
    forall j | i <= j < k :: s[j] == d
  }

  predicate NoneIs(s: string, i: nat, k: nat, d: char)
    requires i <= k <= |s|
  {
    forall j | i <= j < k :: s[j] != d
  }

  lemma {:induction false} SkipIs(s: string, i: nat, k: nat, d: char)
    requires i <= k <= |s|
    ensures Skip(s, i, d) == k <==> AllAre(s, i, k, d) && (k < |s| ==> s[k] != d)
    decreases |s| - i
  {
    if i < k { SkipIs(s, i + 1, k, d); }
  }

  lemma {:induction false} FindIs(s: string, i: nat, k: nat, d: char)
    requires i <= k <= |s|
    ensures Find(s, i, d) == k <==> NoneIs(s, i, k, d) && (k < |s| ==> s[k] == d)
    decreases |s| - i
  {
    if i < k { FindIs(s, i + 1, k, d); }
  }

  lemma TokenIs(s: string, pos: nat, i: nat, k: nat, d: char)
    requires pos <= i < k <= |s| && AllAre(s, pos, i, d) && NoneIs(s, i, k, d) && (k < |s| ==> s[k] == d)
    ensures Token(s, pos, d) == Some(Tok(i, k, if k < |s| then k + 1 else k))
  {
    SkipIs(s, pos, i, d);
    FindIs(s, i, k, d);
  }

  /** The text w stands at place n. */
  ghost predicate At(s: string, n: nat, w: string) {
    n + |w| <= |s| && forall j | 0 <= j < |w| :: s[n + j] == w[j]
  }

  lemma AtWord(s: string, n: nat, w: string)
    requires At(s, n, w)
    ensures s[n..n + |w|] == w
  {
  }

  /** A word, a delimiter and more. */
  lemma AtCons(s: string, n: nat, w: string, d: char, r: string)
    requires At(s, n, w + [d] + r)
    ensures At(s, n, w) && n + |w| < |s| && s[n + |w|] == d && At(s, n + |w| + 1, r)
  {
    var t := w + [d] + r;
    forall j | 0 <= j < |w| ensures s[n + j] == w[j] { assert s[n + j] == t[j]; }
    assert s[n + |w|] == t[|w|];
    forall j | 0 <= j < |r| ensures s[n + |w| + 1 + j] == r[j] { assert s[n + (|w| + 1 + j)] == t[|w| + 1 + j]; }
  }

  /** A word with a delimiter behind it is the next token. */
  lemma TokenNext(s: string, n: nat, w: string, d: char)
    requires At(s, n, w) && n + |w| < |s| && s[n + |w|] == d && w != "" && d !in w
    ensures Token(s, n, d) == Some(Tok(n, n + |w|, n + |w| + 1)) && s[n..n + |w|] == w
  {
    forall j | n <= j < n + |w| ensures s[j] != d { assert s[n + (j - n)] == w[j - n] && w[j - n] in w; }
    TokenIs(s, n, n, n + |w|, d);
    AtWord(s, n, w);
  }

  /** Tokens of a text that stands inside another one, in front of a delimiter. */
  lemma TokenShift(s: string, o: string, off: nat, pos: nat, d: char)
    requires pos <= |o| && At(s, off, o) && off + |o| < |s| && s[off + |o|] == d
    ensures match Token(o, pos, d)
            case Some(t) => Token(s, off + pos, d) == Some(Tok(off + t.start, off + t.end, off + t.end + 1))
            case None => Token(s, off + pos, d) == Token(s, off + |o| + 1, d)
  {
    var i := Skip(o, pos, d);
    SkipIs(o, pos, i, d);
    forall j | off + pos <= j < off + i ensures s[j] == d { assert s[off + (j - off)] == o[j - off]; }
    if i < |o| {
      var k := Find(o, i, d);
      FindIs(o, i, k, d);
      forall j | off + i <= j < off + k ensures s[j] != d { assert s[off + (j - off)] == o[j - off]; }
      TokenIs(s, off + pos, off + i, off + k, d);
    } else {
      SkipOn(s, off + pos, off + |o| + 1, d);
    }
  }

  lemma {:induction false} SkipOn(s: string, i: nat, k: nat, d: char)
    requires i <= k <= |s| && AllAre(s, i, k, d)
    ensures Skip(s, i, d) == Skip(s, k, d)
    decreases k - i
  {
    if i < k { SkipOn(s, i + 1, k, d); }
  }

  // ---------------------------------------------------------------------
  // parse_line
  // ---------------------------------------------------------------------

  datatype MountData = MountData(mountid: int, fsname: string, dir: string, fstype: string)

  datatype Error = BadLine | AssertionFailed

  function Atoi(s: string): int {
    if s != "" && s[0] == '-' then 0 - Number(s[1..])
    else if s != "" && s[0] == '+' then Number(s[1..])
    else Number(s)
  }

  function Number(s: string): nat {
    var n := ScanNat(s, None);
    if n.Some? then n.value else 0
  }

  /** The C string that a text becomes. */
  function Cut(s: string): string { s[..Find(s, 0, NUL)] }

  /** The seven tokens that parse_line takes, in order. */
  datatype Fields = Fields(id: string, fsname: string, dir: string, fstype: string)

  /** The n-th token, at spaces. */
  function Nth(s: string, n: nat): (t: Option<Tok>)
    requires n >= 1
    ensures t.Some? ==> Fits(s, 0, t.value)
  {
    if n == 1 then Token(s, 0, ' ')
    else
      var p := Nth(s, n - 1);
      if p.None? then None else Token(s, p.value.next, ' ')
  }

  lemma NthBefore(s: string, n: nat)
    requires n >= 1 && Nth(s, n + 1).Some?
    ensures Nth(s, n).Some? && Fits(s, Nth(s, n).value.next, Nth(s, n + 1).value)
  {
  }

  /** The filesystem type: the word behind the next hyphen. */
  function TypeAt(s: string, pos: nat): Option<Tok>
    requires pos <= |s|
  {
    var t6 := Token(s, pos, '-');
    if t6.None? then None else Token(s, t6.value.next, ' ')
  }

  function Split7(s: string): Option<Fields> {
    var t5 := Nth(s, 5);
    if t5.None? then None
    else
      NthBefore(s, 4);
      NthBefore(s, 3);
      NthBefore(s, 2);
      NthBefore(s, 1);
      var t7 := TypeAt(s, t5.value.next);
      if t7.None? then None
      else Some(Fields(Word(s, Nth(s, 1).value), Word(s, Nth(s, 4).value), Word(s, t5.value), Word(s, t7.value)))
  }

  function Interpreted(f: Option<Fields>): Result<MountData, Error> {
    if f.None? || Atoi(f.value.id) < 0 then Failure(BadLine)
    else
      var root, dir := Unmangled(f.value.fsname), Unmangled(f.value.dir);
      if root.None? || dir.None? then Failure(AssertionFailed)
      else Success(MountData(Atoi(f.value.id), Cut(root.value), Cut(dir.value), f.value.fstype))
  }

  function Parsed(s: string): Result<MountData, Error> { Interpreted(Split7(s)) }

  // ---------------------------------------------------------------------
  // Reading back what the kernel prints
  // ---------------------------------------------------------------------

  /** One mount: `options` are the mount options and the optional fields, `rest`
      is what follows the filesystem type. */
  datatype Mount = Mount(id: nat, parent: nat, dev: string, root: string, dir: string,
                         options: string, fstype: string, rest: string)

  predicate Proper(m: Mount) {
    && m.dev != "" && ' ' !in m.dev
    && m.root != "" && CString(m.root) && m.dir != "" && CString(m.dir)
    && m.options != "" && m.options[0] != '-'
    && m.fstype != "" && ' ' !in m.fstype
  }

  function Behind(m: Mount): string { m.options + " - " + m.fstype + " " + m.rest }

  function Printed(m: Mount): string {
    Digits(m.id) + " " +
    (Digits(m.parent) + " " + (m.dev + " " + (Mangled(m.root) + " " + (Mangled(m.dir) + " " + Behind(m)))))
  }

  lemma DigitsNoSpace(n: nat)
    ensures Digits(n) != "" && ' ' !in Digits(n)
  {
    DigitsAreDigits(n);
  }

  predicate IsWord(w: string) { w != "" && ' ' !in w }

  /** The token from place p on is w, and q is behind it. */
  ghost predicate Step(s: string, p: nat, w: string, q: nat) {
    p <= |s| && var t := Token(s, p, ' '); t.Some? && Word(s, t.value) == w && t.value.next == q
  }

  lemma StepAt(s: string, p: nat, w: string, r: string) returns (q: nat)
    requires At(s, p, w + " " + r) && IsWord(w)
    ensures Step(s, p, w, q) && At(s, q, r)
  {
    AtCons(s, p, w, ' ', r);
    TokenNext(s, p, w, ' ');
    q := p + |w| + 1;
  }

  ghost predicate NthIs(s: string, n: nat, w: string, q: nat)
    requires n >= 1
  {
    var t := Nth(s, n);
    t.Some? && Word(s, t.value) == w && t.value.next == q
  }

  lemma NthStep(s: string, n: nat, v: string, p: nat, w: string, q: nat)
    requires n >= 1 && NthIs(s, n, v, p) && Step(s, p, w, q)
    ensures NthIs(s, n + 1, w, q)
  {
  }

  /** The first, fourth and fifth token of a line, and where the text behind starts. */
  ghost predicate Five(s: string, a: string, e: string, f: string, n: nat) {
    (exists p :: NthIs(s, 1, a, p)) && (exists p :: NthIs(s, 4, e, p)) && NthIs(s, 5, f, n)
  }

  lemma FiveSteps(s: string, a: string, b: string, c: string, e: string, f: string,
                  p1: nat, p2: nat, p3: nat, p4: nat, p5: nat)
    requires Step(s, 0, a, p1) && Step(s, p1, b, p2) && Step(s, p2, c, p3) && Step(s, p3, e, p4) && Step(s, p4, f, p5)
    ensures Five(s, a, e, f, p5)
  {
    assert NthIs(s, 1, a, p1);
    NthStep(s, 1, a, p1, b, p2);
    NthStep(s, 2, b, p2, c, p3);
    NthStep(s, 3, c, p3, e, p4);
    NthStep(s, 4, e, p4, f, p5);
  }

  lemma FiveTokens(s: string, a: string, b: string, c: string, e: string, f: string, r: string) returns (n: nat)
    requires At(s, 0, a + " " + (b + " " + (c + " " + (e + " " + (f + " " + r)))))
    requires IsWord(a) && IsWord(b) && IsWord(c) && IsWord(e) && IsWord(f)
    ensures Five(s, a, e, f, n) && At(s, n, r)
  {
    var r4 := f + " " + r;
    var r3 := e + " " + r4;
    var r2 := c + " " + r3;
    var p1 := StepAt(s, 0, a, b + " " + r2);
    var p2 := StepAt(s, p1, b, r2);
    var p3 := StepAt(s, p2, c, r3);
    var p4 := StepAt(s, p3, e, r4);
    n := StepAt(s, p4, f, r);
    FiveSteps(s, a, b, c, e, f, p1, p2, p3, p4, n);
  }

  /** The tokens of a printed line, up to the mount point. */
  lemma FivePrinted(m: Mount, s: string) returns (n: nat)
    requires Proper(m) && s == Printed(m)
    ensures Five(s, Digits(m.id), Mangled(m.root), Mangled(m.dir), n) && At(s, n, Behind(m))
  {
    DigitsNoSpace(m.id);
    DigitsNoSpace(m.parent);
    MangledClean(m.root);
    MangledClean(m.dir);
    n := FiveTokens(s, Digits(m.id), Digits(m.parent), m.dev, Mangled(m.root), Mangled(m.dir), Behind(m));
  }

  lemma CutNone(s: string)
    requires CString(s)
    ensures Cut(s) == s
  {
    FindIs(s, 0, |s|, NUL);
    assert s[..|s|] == s;
  }

  lemma AtoiDigits(n: nat)
    ensures Atoi(Digits(n)) == n
  {
    DigitsAreDigits(n);
    assert IsDigit(Digits(n)[0]);
    assert Digits(n) + "" == Digits(n);
    ScanDigits(n, "");
  }

  lemma InterpretedIs(m: Mount, fstype: string)
    requires Proper(m)
    ensures Interpreted(Some(Fields(Digits(m.id), Mangled(m.root), Mangled(m.dir), fstype)))
            == Success(MountData(m.id, m.root, m.dir, fstype))
  {
    AtoiDigits(m.id);
    UnmangleMangled(m.root);
    UnmangleMangled(m.dir);
    CutNone(m.root);
    CutNone(m.dir);
  }

  lemma Split7Is(s: string, a: string, e: string, f: string, n: nat)
    requires Five(s, a, e, f, n) && TypeAt(s, n).Some?
    ensures Split7(s) == Some(Fields(a, e, f, Word(s, TypeAt(s, n).value)))
  {
  }

  /** The line up to the mount point does not depend on what follows it. */
  lemma ParsedIs(m: Mount, s: string, n: nat)
    requires Proper(m) && Five(s, Digits(m.id), Mangled(m.root), Mangled(m.dir), n) && TypeAt(s, n).Some?
    ensures Parsed(s) == Success(MountData(m.id, m.root, m.dir, Word(s, TypeAt(s, n).value)))
  {
    Split7Is(s, Digits(m.id), Mangled(m.root), Mangled(m.dir), n);
    InterpretedIs(m, Word(s, TypeAt(s, n).value));
  }

  /** The option fields, the separator and the type. */
  lemma BehindParts(s: string, n: nat, o: string, f: string, r: string)
    requires At(s, n, o + " - " + f + " " + r)
    ensures At(s, n, o) && n + |o| + 3 + |f| < |s|
    ensures s[n + |o|] == ' ' && s[n + |o| + 1] == '-' && s[n + |o| + 2] == ' '
    ensures At(s, n + |o| + 3, f) && s[n + |o| + 3 + |f|] == ' '
  {
    var b := o + " - " + f + " " + r;
    forall j | 0 <= j < |o| ensures s[n + j] == o[j] { assert s[n + j] == b[j]; }
    assert s[n + |o|] == b[|o|] && s[n + (|o| + 1)] == b[|o| + 1] && s[n + (|o| + 2)] == b[|o| + 2];
    forall j | 0 <= j < |f| ensures s[n + |o| + 3 + j] == f[j] { assert s[n + (|o| + 3 + j)] == b[|o| + 3 + j]; }
    assert s[n + (|o| + 3 + |f|)] == b[|o| + 3 + |f|];
  }

  /** The type behind option fields without a hyphen. */
  lemma TypePlain(s: string, n: nat, o: string, f: string, r: string)
    requires At(s, n, o + " - " + f + " " + r) && '-' !in o && f != "" && ' ' !in f
    ensures var t := TypeAt(s, n); t.Some? && Word(s, t.value) == f
  {
    BehindParts(s, n, o, f, r);
    var q := n + |o| + 1;
    forall j | n <= j < q ensures s[j] != '-' { if j < n + |o| { assert s[n + (j - n)] == o[j - n] && o[j - n] in o; } }
    TokenIs(s, n, n, q, '-');
    TokenNext(s, q + 2, f, ' ');
    SkipOn(s, q + 1, q + 2, ' ');
  }

  /** What is taken for the filesystem type: with a hyphen in the option fields,
      the first word behind the first one, or else the separator itself. */
  function TypeRead(o: string, fstype: string): string {
    if '-' !in o then fstype
    else
      HyphenFound(o);
      var w := Token(o, Find(o, 0, '-') + 1, ' ');
      if w.Some? then Word(o, w.value) else "-"
  }

  lemma HyphenFound(s: string)
    requires '-' in s
    ensures Find(s, 0, '-') < |s|
  {
    FindIs(s, 0, |s|, '-');
  }

  /** The first hyphen of the option fields ends their first token. */
  lemma FirstHyphen(s: string, n: nat, o: string, k: nat)
    requires At(s, n, o) && '-' in o && o[0] != '-' && k == Find(o, 0, '-')
    ensures k < |o| && Token(s, n, '-') == Some(Tok(n, n + k, n + k + 1))
  {
    HyphenFound(o);
    FindIs(o, 0, k, '-');
    forall j | n <= j < n + k ensures s[j] != '-' { assert s[n + (j - n)] == o[j - n]; }
    assert s[n + k] == o[k];
    TokenIs(s, n, n, n + k, '-');
  }

  /** The word behind the first hyphen, read in the line. */
  lemma WordBehind(s: string, n: nat, o: string, k: nat)
    requires At(s, n, o) && n + |o| + 2 < |s| && k < |o|
    requires s[n + |o|] == ' ' && s[n + |o| + 1] == '-' && s[n + |o| + 2] == ' '
    ensures var t, w := Token(s, n + k + 1, ' '), Token(o, k + 1, ' ');
            t.Some? && Word(s, t.value) == if w.Some? then Word(o, w.value) else "-"
  {
    TokenShift(s, o, n, k + 1, ' ');
    var w := Token(o, k + 1, ' ');
    if w.Some? {
      SameWord(s, n, o, w.value);
    } else {
      TokenNext(s, n + |o| + 1, "-", ' ');
    }
  }

  lemma TypeAtIs(s: string, n: nat, t: Tok)
    requires n <= |s| && Token(s, n, '-') == Some(t)
    ensures TypeAt(s, n) == Token(s, t.next, ' ')
  {
  }

  lemma TypeReadIs(o: string, f: string, k: nat)
    requires '-' in o && k == Find(o, 0, '-') < |o|
    ensures TypeRead(o, f) == var w := Token(o, k + 1, ' '); if w.Some? then Word(o, w.value) else "-"
  {
  }

  lemma TypeHyphen(s: string, n: nat, o: string, f: string)
    requires At(s, n, o) && n + |o| + 2 < |s| && '-' in o && o[0] != '-'
    requires s[n + |o|] == ' ' && s[n + |o| + 1] == '-' && s[n + |o| + 2] == ' '
    ensures var t := TypeAt(s, n); t.Some? && Word(s, t.value) == TypeRead(o, f)
  {
    var k := Find(o, 0, '-');
    FirstHyphen(s, n, o, k);
    TypeAtIs(s, n, Tok(n, n + k, n + k + 1));
    TypeReadIs(o, f, k);
    WordBehind(s, n, o, k);
  }

  lemma SameWord(s: string, n: nat, o: string, t: Tok)
    requires At(s, n, o) && t.start <= t.end <= |o|
    ensures s[n + t.start..n + t.end] == o[t.start..t.end]
  {
    var w := o[t.start..t.end];
    forall j | 0 <= j < |w| ensures s[n + t.start + j] == w[j] { assert s[n + (t.start + j)] == o[t.start + j]; }
    AtWord(s, n + t.start, w);
  }

  lemma TypeOf(s: string, n: nat, o: string, f: string, r: string)
    requires At(s, n, o + " - " + f + " " + r) && o != "" && o[0] != '-' && f != "" && ' ' !in f
    ensures var t := TypeAt(s, n); t.Some? && Word(s, t.value) == TypeRead(o, f)
  {
    if '-' in o {
      BehindParts(s, n, o, f, r);
      TypeHyphen(s, n, o, f);
    } else {
      TypePlain(s, n, o, f, r);
    }
  }

  lemma ParseBehind(m: Mount, s: string, n: nat)
    requires Proper(m) && Five(s, Digits(m.id), Mangled(m.root), Mangled(m.dir), n) && At(s, n, Behind(m))
    ensures Parsed(s) == Success(MountData(m.id, m.root, m.dir, TypeRead(m.options, m.fstype)))
  {
    TypeOf(s, n, m.options, m.fstype, m.rest);
    ParsedIs(m, s, n);
  }

  /** Every mount is read back, but for the type, and the type is right exactly
      when no option field holds a hyphen or the word behind the first one happens
      to be the type. */
  lemma ParseExact(m: Mount)
    requires Proper(m)
    ensures Parsed(Printed(m)) == Success(MountData(m.id, m.root, m.dir, TypeRead(m.options, m.fstype)))
    ensures Parsed(Printed(m)) == Success(MountData(m.id, m.root, m.dir, m.fstype))
            <==> '-' !in m.options || TypeRead(m.options, m.fstype) == m.fstype
  {
    var n := FivePrinted(m, Printed(m));
    ParseBehind(m, Printed(m), n);
  }

  /** The mount id, the root, the mount point and the filesystem type of every
      mount are read back, if no option field holds a hyphen. */
  lemma ParsePrinted(m: Mount)
    requires Proper(m) && '-' !in m.options
    ensures Parsed(Printed(m)) == Success(MountData(m.id, m.root, m.dir, m.fstype))
  {
    ParseExact(m);
  }

  // ---------------------------------------------------------------------
  // The code
  // ---------------------------------------------------------------------

  /** From pos on the buffer holds the rest of the line. */
  ghost predicate Rest(line: array<char>, s: string, pos: int)
    reads line
  {
    && CString(s) && 0 <= pos <= |s| < line.Length && line[|s|] == NUL
    && forall k | pos <= k < |s| :: line[k] == s[k]
  }

  /** A C string in the buffer. */
  ghost predicate Holds(line: array<char>, at: int, t: string)
    reads line
  {
    && CString(t) && 0 <= at && at + |t| < line.Length && line[at + |t|] == NUL
    && forall k | 0 <= k < |t| :: line[at + k] == t[k]
  }

  method SkipDelimiter(line: array<char>, pos: nat, d: char, ghost s: string) returns (start: nat)
    requires Rest(line, s, pos) && d != NUL
    ensures start == Skip(s, pos, d)
  {
    start := pos;
    while line[start] == d
      invariant pos <= start <= |s| && AllAre(s, pos, start, d)
      decreases |s| - start
    {
      start := start + 1;
    }
    SkipIs(s, pos, start, d);
  }

  method FindDelimiter(line: array<char>, start: nat, d: char, ghost s: string) returns (end: nat)
    requires Rest(line, s, start) && d != NUL
    ensures end == Find(s, start, d)
  {
    end := start;
    while line[end] != NUL && line[end] != d
      invariant start <= end <= |s| && NoneIs(s, start, end, d)
      decreases |s| - end
    {
      end := end + 1;
    }
    FindIs(s, start, end, d);
  }

  /** strtok with the saved position passed along.  Only the delimiter behind the
      token is overwritten. */
  method Strtok(line: array<char>, pos: nat, d: char, ghost s: string) returns (tok: Option<nat>, next: nat)
    requires Rest(line, s, pos) && d != NUL
    modifies line
    ensures Rest(line, s, next) && pos <= next
    ensures match Token(s, pos, d)
            case None => tok.None? && next == |s|
            case Some(t) => tok == Some(t.start) && next == t.next && Holds(line, t.start, Word(s, t))
    ensures forall k | 0 <= k < line.Length && (k < pos || k >= |s|) :: line[k] == old(line[k])
  {
    var start := SkipDelimiter(line, pos, d, s);
    var end := FindDelimiter(line, start, d, s);
    if line[start] == NUL { return None, start; }
    tok, next := Some(start), end;
    if line[end] != NUL {
      line[end] := NUL;
      next := end + 1;
    }
    HoldsSlice(line, s, start, end);
  }

  lemma HoldsSlice(line: array<char>, s: string, start: nat, end: nat)
    requires CString(s) && start <= end <= |s| < line.Length && line[end] == NUL
    requires forall k | start <= k < end :: line[k] == s[k]
    ensures Holds(line, start, s[start..end])
  {
    forall k | 0 <= k < end - start ensures line[start + k] == s[start..end][k] {
      assert line[start + k] == s[start + k];
    }
  }

  /** The part of the buffer that holds t is being rewritten: `out` is written, the
      rest of t from r on is not yet read. */
  ghost predicate Undoing(line: array<char>, at: nat, t: string, r: int, w: int, out: string)
    reads line
  {
    && at <= w <= r <= at + |t| < line.Length && line[at + |t|] == NUL
    && |out| == w - at && (forall k | 0 <= k < |out| :: line[at + k] == out[k])
    && (forall k | r <= k < at + |t| :: line[k] == t[k - at])
  }

  function Prepended(out: string, r: Option<string>): Option<string> {
    if r.Some? then Some(out + r.value) else None
  }

  predicate EscapeAt(t: string, i: nat) {
    i + 4 <= |t| && t[i] == '\\' && Octal(t[i + 1]) && Octal(t[i + 2]) && Octal(t[i + 3])
  }

  function UnescapedAt(t: string, i: nat): char
    requires EscapeAt(t, i)
  {
    ((OctalValue(t[i + 1]) * 64 + OctalValue(t[i + 2]) * 8 + OctalValue(t[i + 3])) % 256) as char
  }

  /** What the text from place i on becomes. */
  function From(t: string, i: nat): Option<string>
    requires i <= |t|
    decreases |t| - i
  {
    if i == |t| then Some("")
    else if t[i] != '\\' then Prepended([t[i]], From(t, i + 1))
    else if !EscapeAt(t, i) then None
    else Prepended([UnescapedAt(t, i)], From(t, i + 4))
  }

  lemma {:induction false} FromIs(t: string, i: nat)
    requires i <= |t|
    ensures From(t, i) == Unmangled(t[i..])
    decreases |t| - i
  {
    if i < |t| {
      var u := t[i..];
      if t[i] != '\\' {
        assert u[1..] == t[i + 1..];
        FromIs(t, i + 1);
      } else if EscapeAt(t, i) {
        assert u[4..] == t[i + 4..] && Escape(u) && Unescaped(u) == UnescapedAt(t, i);
        FromIs(t, i + 4);
      }
    }
  }

  /** The text is what has been written, and what the rest becomes. */
  ghost predicate Left(t: string, i: int, out: string, goal: Option<string>) {
    0 <= i <= |t| && Prepended(out, From(t, i)) == goal
  }

  lemma PrependOne(out: string, c: char, r: Option<string>)
    ensures Prepended(out, Prepended([c], r)) == Prepended(out + [c], r)
  {
    if r.Some? { assert out + ([c] + r.value) == out + [c] + r.value; }
  }

  /** read_oct, at a backslash. */
  method ReadOct(line: array<char>, r: nat, ghost at: nat, ghost t: string) returns (c: Option<char>)
    requires at <= r < at + |t| < line.Length && line[at + |t|] == NUL && line[r] == '\\'
    requires forall k | r <= k < at + |t| :: line[k] == t[k - at]
    ensures c == if EscapeAt(t, r - at) then Some(UnescapedAt(t, r - at)) else None
  {
    if !Octal(line[r + 1]) { return None; }
    if !Octal(line[r + 2]) { return None; }
    if !Octal(line[r + 3]) { return None; }
    c := Some(((OctalValue(line[r + 1]) * 64 + OctalValue(line[r + 2]) * 8 + OctalValue(line[r + 3])) % 256) as char);
  }

  /** Nothing has changed outside the bytes of t and its terminator. */
  ghost predicate Outside(line: array<char>, was: seq<char>, at: nat, t: string)
    reads line
  {
    |was| == line.Length && forall k | 0 <= k < |was| && (k < at || k > at + |t|) :: line[k] == was[k]
  }

  method PutChar(line: array<char>, at: nat, w: int, c: char,
                 ghost t: string, ghost r: int, ghost r': int, ghost out: string, ghost was: seq<char>)
    requires Undoing(line, at, t, r, w, out) && w < r' && r <= r' <= at + |t| && Outside(line, was, at, t)
    modifies line
    ensures Undoing(line, at, t, r', w + 1, out + [c]) && Outside(line, was, at, t)
  {
    line[w] := c;
  }

  lemma EscapeNext(out: string, t: string, i: nat, goal: Option<string>)
    requires i < |t| && t[i] == '\\' && Left(t, i, out, goal)
    ensures if EscapeAt(t, i) then Left(t, i + 4, out + [UnescapedAt(t, i)], goal) else goal.None?
  {
    if EscapeAt(t, i) { PrependOne(out, UnescapedAt(t, i), From(t, i + 4)); }
  }

  lemma PlainNext(out: string, t: string, i: nat, goal: Option<string>)
    requires i < |t| && t[i] != '\\' && Left(t, i, out, goal)
    ensures Left(t, i + 1, out + [t[i]], goal)
  {
    PrependOne(out, t[i], From(t, i + 1));
  }

  /** The inner loop: a run of escapes. */
  method UndoRun(line: array<char>, at: nat, r0: nat, w0: nat, ghost t: string, ghost out0: string,
                 ghost was: seq<char>, ghost goal: Option<string>)
    returns (ok: bool, r: nat, w: nat, ghost out: string)
    requires Undoing(line, at, t, r0, w0, out0) && Outside(line, was, at, t) && Left(t, r0 - at, out0, goal)
    modifies line
    ensures Outside(line, was, at, t)
    ensures !ok ==> goal.None?
    ensures ok ==> r >= r0 && Undoing(line, at, t, r, w, out) && line[r] != '\\' && Left(t, r - at, out, goal)
  {
    r, w, out := r0, w0, out0;
    while line[r] == '\\'
      invariant r >= r0 && Undoing(line, at, t, r, w, out) && Outside(line, was, at, t) && Left(t, r - at, out, goal)
      decreases at + |t| - r
    {
      EscapeNext(out, t, r - at, goal);
      var c := ReadOct(line, r, at, t);
      if c.None? { return false, r, w, out; }
      PutChar(line, at, w, c.value, t, r, r + 4, out, was);
      out := out + [c.value];
      w := w + 1;
      r := r + 4;
    }
    ok := true;
  }

  /** strchr for a backslash, and the copying of the text in front of it onto itself. */
  method FindBackslash(line: array<char>, at: nat, ghost t: string) returns (r: nat)
    requires Holds(line, at, t)
    ensures at <= r <= at + |t| && Undoing(line, at, t, r, r, t[..r - at])
    ensures Left(t, r - at, t[..r - at], From(t, 0))
  {
    r := at;
    LeftStart(t);
    while line[r] != NUL && line[r] != '\\'
      invariant at <= r <= at + |t| && Left(t, r - at, t[..r - at], From(t, 0))
      decreases at + |t| - r
    {
      assert line[at + (r - at)] == t[r - at];
      PlainNext(t[..r - at], t, r - at, From(t, 0));
      assert t[..r + 1 - at] == t[..r - at] + [t[r - at]];
      r := r + 1;
    }
    StartUndoing(line, at, t, r);
  }

  lemma LeftStart(t: string)
    ensures Left(t, 0, t[..0], From(t, 0))
  {
    var r := From(t, 0);
    if r.Some? { assert "" + r.value == r.value; }
  }

  method UnmanglePath(line: array<char>, at: nat, ghost t: string) returns (ok: bool)
    requires Holds(line, at, t)
    modifies line
    ensures ok <==> Unmangled(t).Some?
    ensures ok ==> Undone(line, at, Unmangled(t).value) && |Unmangled(t).value| <= |t|
    ensures forall k | 0 <= k < line.Length && (k < at || k > at + |t|) :: line[k] == old(line[k])
  {
    ghost var was, goal := line[..], Unmangled(t);
    assert From(t, 0) == goal by {
      FromIs(t, 0);
      assert t[0..] == t;
    }
    var r := FindBackslash(line, at, t);
    ok := UndoAll(line, at, r, t, was, goal);
  }

  /** The outer loop. */
  method UndoAll(line: array<char>, at: nat, r0: nat, ghost t: string, ghost was: seq<char>, ghost goal: Option<string>)
    returns (ok: bool)
    requires CString(t) && at <= r0 <= at + |t| && Undoing(line, at, t, r0, r0, t[..r0 - at])
    requires Outside(line, was, at, t) && Left(t, r0 - at, t[..r0 - at], goal)
    modifies line
    ensures Outside(line, was, at, t)
    ensures ok <==> goal.Some?
    ensures ok ==> Undone(line, at, goal.value) && |goal.value| <= |t|
  {
    var r, w := r0, r0;
    ghost var out := t[..r - at];
    while true
      invariant Undoing(line, at, t, r, w, out) && Outside(line, was, at, t) && Left(t, r - at, out, goal)
      decreases at + |t| - r
    {
      ok, r, w, out := UndoRun(line, at, r, w, t, out, was, goal);
      if !ok { return; }
      if line[r] == NUL {
        AtEnd(line, at, t, r, w, out, goal);
        line[w] := NUL;
        return;
      }
      r, w, out := CopyPlain(line, at, r, w, t, out, was, goal);
    }
  }

  lemma AtEnd(line: array<char>, at: nat, t: string, r: nat, w: nat, out: string, goal: Option<string>)
    requires Undoing(line, at, t, r, w, out) && CString(t) && line[r] == NUL && Left(t, r - at, out, goal)
    ensures goal == Some(out)
  {
    assert out + "" == out;
  }

  /** A character that starts no escape. */
  method CopyPlain(line: array<char>, at: nat, r0: nat, w0: nat, ghost t: string, ghost out0: string,
                   ghost was: seq<char>, ghost goal: Option<string>)
    returns (r: nat, w: nat, ghost out: string)
    requires Undoing(line, at, t, r0, w0, out0) && Outside(line, was, at, t) && Left(t, r0 - at, out0, goal)
    requires line[r0] != '\\' && line[r0] != NUL
    modifies line
    ensures r == r0 + 1 && Undoing(line, at, t, r, w, out) && Outside(line, was, at, t) && Left(t, r - at, out, goal)
  {
    var c := line[r0];
    PlainNext(out0, t, r0 - at, goal);
    PutChar(line, at, w0, c, t, r0, r0 + 1, out0, was);
    r, w, out := r0 + 1, w0 + 1, out0 + [c];
  }

  ghost predicate Undone(line: array<char>, at: int, u: string)
    reads line
  {
    0 <= at && at + |u| < line.Length && line[at + |u|] == NUL && forall k | 0 <= k < |u| :: line[at + k] == u[k]
  }

  lemma StartUndoing(line: array<char>, at: nat, t: string, r: int)
    requires Holds(line, at, t) && at <= r <= at + |t|
    ensures Undoing(line, at, t, r, r, t[..r - at])
  {
    forall k | r <= k < at + |t| ensures line[k] == t[k - at] { assert line[at + (k - at)] == t[k - at]; }
  }

  lemma {:induction false} HoldsString(line: array<char>, at: nat, t: string)
    requires Holds(line, at, t)
    ensures StrAt(line[..], at) == t
  {
    assert line[..][at..at + |t|] == t by {
      forall k | 0 <= k < |t| ensures line[..][at + k] == t[k] { assert line[at + k] == t[k]; }
    }
    StrAtIs(line[..], at, t);
  }

  /** What has been written over a field reads as the part in front of the first
      terminator. */
  lemma UndoneString(line: array<char>, at: nat, u: string)
    requires Undone(line, at, u)
    ensures StrAt(line[..], at) == Cut(u)
  {
    var c := Cut(u);
    CutIsCString(u);
    forall k | 0 <= k < |c| ensures line[at + k] == c[k] { assert line[at + k] == u[k]; }
    assert line[at + |c|] == NUL by { if |c| < |u| { assert line[at + |c|] == u[|c|]; } }
    HoldsString(line, at, c);
  }

  lemma CutIsCString(u: string)
    ensures CString(Cut(u)) && |Cut(u)| <= |u| && (|Cut(u)| < |u| ==> u[|Cut(u)|] == NUL)
  {
    FindIs(u, 0, Find(u, 0, NUL), NUL);
  }

  /** The first token, as a number. */
  method TakeId(line: array<char>, ghost s: string) returns (id: Option<int>, pos: nat)
    requires Rest(line, s, 0)
    modifies line
    ensures Rest(line, s, pos)
    ensures match Nth(s, 1)
            case None => id.None? && pos == |s|
            case Some(t) => id == Some(Atoi(Word(s, t))) && pos == t.next
  {
    var ptr;
    ptr, pos := Strtok(line, 0, ' ', s);
    if ptr.None? { return None, pos; }
    HoldsString(line, ptr.value, Word(s, Nth(s, 1).value));
    id := Some(Atoi(StrAt(line[..], ptr.value)));
  }

  /** The fourth token stands in the buffer. */
  ghost predicate Fourth(line: array<char>, fsname: nat, s: string)
    reads line
  {
    Nth(s, 4).Some? && fsname == Nth(s, 4).value.start && Holds(line, fsname, Word(s, Nth(s, 4).value))
  }

  /** The token behind the first cnt ones. */
  method NextToken(line: array<char>, pos0: nat, cnt: nat, fsname: nat, ghost s: string)
    returns (ptr: Option<nat>, pos: nat)
    requires 1 <= cnt <= 4 && Rest(line, s, pos0) && Nth(s, cnt).Some? && Nth(s, cnt).value.next == pos0
    requires cnt == 4 ==> Fourth(line, fsname, s)
    modifies line
    ensures Rest(line, s, pos) && (cnt == 4 ==> Fourth(line, fsname, s))
    ensures match Nth(s, cnt + 1)
            case None => ptr.None? && pos == |s| && Nth(s, 5).None?
            case Some(t) => ptr == Some(t.start) && pos == t.next && Holds(line, t.start, Word(s, t))
  {
    ptr, pos := Strtok(line, pos0, ' ', s);
    if ptr.None? { NoFifth(s, cnt + 1); } else { NthBefore(s, cnt); }
  }

  /** The first five tokens: the mount id, and where the root and the mount point
      stand. */
  method TakeFive(line: array<char>, ghost s: string) returns (five: Option<(int, nat, nat)>, pos: nat)
    requires Rest(line, s, 0)
    modifies line
    ensures Rest(line, s, pos)
    ensures Nth(s, 5).None? ==> five.None? && pos == |s|
    ensures Nth(s, 5).Some? ==>
              && Nth(s, 1).Some? && Nth(s, 4).Some? && pos == Nth(s, 5).value.next
              && five == Some((Atoi(Word(s, Nth(s, 1).value)), Nth(s, 4).value.start, Nth(s, 5).value.start))
              && Holds(line, Nth(s, 4).value.start, Word(s, Nth(s, 4).value))
              && Holds(line, Nth(s, 5).value.start, Word(s, Nth(s, 5).value))
  {
    var id, ptr;
    id, pos := TakeId(line, s);
    if id.None? {
      NoFifth(s, 1);
      return None, pos;
    }
    var fsname := 0;
    var cnt := 1;
    while true
      invariant 1 <= cnt <= 4 && Rest(line, s, pos)
      invariant Nth(s, cnt).Some? && Nth(s, cnt).value.next == pos
      invariant cnt == 4 ==> Fourth(line, fsname, s)
      decreases 5 - cnt
    {
      ptr, pos := NextToken(line, pos, cnt, fsname, s);
      if ptr.None? { return None, pos; }
      cnt := cnt + 1;
      if cnt == 4 {
        fsname := ptr.value;
      } else if cnt == 5 {
        break;
      }
    }
    five := Some((id.value, fsname, ptr.value));
  }

  lemma {:induction false} NoFifth(s: string, n: nat)
    requires 1 <= n <= 5 && Nth(s, n).None?
    ensures Nth(s, 5).None?
    decreases 5 - n
  {
    if n < 5 { NoFifth(s, n + 1); }
  }

  /** Where the fields stand after the line has been cut up. */
  datatype Cuts = Cuts(id: int, fsname: nat, dir: nat, fstype: nat)

  ghost predicate CutsHold(line: array<char>, c: Cuts, f: Fields)
    reads line
  {
    && c.id == Atoi(f.id)
    && Holds(line, c.fsname, f.fsname) && Holds(line, c.dir, f.dir) && Holds(line, c.fstype, f.fstype)
    && c.fsname + |f.fsname| < c.dir && c.dir + |f.dir| < c.fstype
  }

  method TakeFields(line: array<char>, ghost s: string) returns (cuts: Option<Cuts>)
    requires Rest(line, s, 0)
    modifies line
    ensures cuts.Some? <==> Split7(s).Some?
    ensures cuts.Some? ==> CutsHold(line, cuts.value, Split7(s).value)
  {
    var five, pos := TakeFive(line, s);
    if Nth(s, 5).Some? { NthBefore(s, 4); }
    var ptr := TakeType(line, pos, s);
    if ptr.None? { return None; }
    cuts := Some(Cuts(five.value.0, five.value.1, five.value.2, ptr.value));
  }

  /** The last two calls of strtok. */
  method TakeType(line: array<char>, pos: nat, ghost s: string) returns (ptr: Option<nat>)
    requires Rest(line, s, pos)
    modifies line
    ensures match TypeAt(s, pos)
            case None => ptr.None?
            case Some(t) => pos < t.start && ptr == Some(t.start) && Holds(line, t.start, Word(s, t))
    ensures forall k | 0 <= k < pos :: line[k] == old(line[k])
  {
    var next;
    ptr, next := Strtok(line, pos, '-', s);
    if ptr.None? { return None; }
    ptr, next := Strtok(line, next, ' ', s);
  }

  method ParseLine(line: array<char>, ghost s: string) returns (r: Result<MountData, Error>)
    requires Rest(line, s, 0)
    modifies line
    ensures r == Parsed(s)
  {
    var cuts := TakeFields(line, s);
    if cuts.None? { return Failure(BadLine); }
    r := Interpret(line, cuts.value, Split7(s).value);
  }

  method UnmangleBoth(line: array<char>, c: Cuts, ghost f: Fields) returns (ok: bool)
    requires CutsHold(line, c, f)
    modifies line
    ensures ok <==> Unmangled(f.fsname).Some? && Unmangled(f.dir).Some?
    ensures ok ==> Undone(line, c.fsname, Unmangled(f.fsname).value) && Undone(line, c.dir, Unmangled(f.dir).value)
    ensures Holds(line, c.fstype, f.fstype)
  {
    ok := UnmanglePath(line, c.fsname, f.fsname);
    assert Holds(line, c.dir, f.dir) && Holds(line, c.fstype, f.fstype);
    if ok { ok := UnmanglePath(line, c.dir, f.dir); }
  }

  method Interpret(line: array<char>, c: Cuts, ghost f: Fields) returns (r: Result<MountData, Error>)
    requires CutsHold(line, c, f)
    modifies line
    ensures r == Interpreted(Some(f))
  {
    if c.id < 0 { return Failure(BadLine); }
    var ok := UnmangleBoth(line, c, f);
    if !ok { return Failure(AssertionFailed); }
    UndoneString(line, c.fsname, Unmangled(f.fsname).value);
    UndoneString(line, c.dir, Unmangled(f.dir).value);
    HoldsString(line, c.fstype, f.fstype);
    r := Success(MountData(c.id, StrAt(line[..], c.fsname), StrAt(line[..], c.dir), StrAt(line[..], c.fstype)));
  }
}
