/**
 Model of src/firejail/cmdline.c: an argument vector is turned into one
 command line for a shell.  One pass computes the length, a second pass writes
 the text into a buffer of exactly that size (plus the terminator), stepping
 back over a double quote it has already written whenever an argument holds a
 run of single quotes.

 The command line is read back by `Read`, a reader for the quoting rules of
 sections 2.2.2 (single quotes) and 2.2.3 (double quotes) of the POSIX.1 Shell
 Command Language.
 */
module Cmdline {
  import opened Strings
  import opened Wrappers

  const SQ: char := '\''
  const DQ: char := '\"'

  // linux/limits.h
  const ARG_MAX := 131072
  const APPRUN := "/run/firejail/appimage/AppRun"

  predicate CStrings(args: seq<string>) {
    forall i | 0 <= i < |args| :: CString(args[i])
  }

  // ---------------------------------------------------------------------
  // The text written
  // ---------------------------------------------------------------------

  /** The flag in_quotes after the first j characters of an argument. */
  predicate InQuotes(arg: string, j: nat, extra: bool)
    requires j <= |arg|
  {
    extra && j > 0 && arg[j-1] != SQ
  }

  predicate AfterQuote(arg: string, j: nat)
    requires j <= |arg|
  {
    j > 0 && arg[j-1] == SQ
  }

  /** The text that stands for the first j characters of an argument. */
  function Written(arg: string, j: nat, extra: bool): (w: string)
    requires j <= |arg|
    ensures AfterQuote(arg, j) ==> |w| > 0 && w[|w|-1] == DQ
  {
    if j == 0 then ""
    else
      var w := Written(arg, j-1, extra);
      if arg[j-1] == SQ then
        if AfterQuote(arg, j-1) then
          w[..|w|-1] + [SQ, DQ]
        else
          w + (if InQuotes(arg, j-1, extra) then [SQ] else []) + [DQ, SQ, DQ]
      else
        w + (if extra && !InQuotes(arg, j-1, extra) then [SQ] else []) + [arg[j-1]]
  }

  function Closing(arg: string, extra: bool): string {
    (if InQuotes(arg, |arg|, extra) then [SQ] else []) +
    (if |arg| == 0 then [SQ, SQ] else [])
  }

  function QuotedArg(arg: string, extra: bool): string {
    Written(arg, |arg|, extra) + Closing(arg, extra) + " "
  }

  function Quoted(args: seq<string>, extra: bool): string {
    if args == [] then ""
    else Quoted(args[..|args|-1], extra) + QuotedArg(args[|args|-1], extra)
  }

  // ---------------------------------------------------------------------
  // The shell reader
  // ---------------------------------------------------------------------

  datatype Mode = Bare | Single | Double

  /** `open` says that a word has been started, so that '' is a word too. */
  datatype Reader =
    | Reader(mode: Mode, open: bool, word: string, words: seq<string>)
    | Refused

  /** Characters that section 2.2 of the POSIX.1 Shell Command Language does not list
      among those to be quoted, always or under certain circumstances.  The reader
      refuses the others outside quotes, although a shell takes some of them
      literally in some places, such as the equals sign in a later word. */
  predicate Plain(c: char) { !Operator(c) && !Pattern(c) && c != '\t' && c != '\n' && c != ' ' && c != SQ && c != DQ }

  predicate Operator(c: char) {
    || c == '|' || c == '&' || c == ';' || c == '<' || c == '>' || c == '(' || c == ')'
    || c == '$' || c == '`' || c == '\\'
  }

  predicate Pattern(c: char) {
    c == '*' || c == '?' || c == '[' || c == '#' || c == '~' || c == '=' || c == '%'
  }

  function Step(r: Reader, c: char): Reader {
    match r
    case Refused => Refused
    case Reader(Single, _, word, words) =>
      if c == SQ then Reader(Bare, true, word, words) else Reader(Single, true, word + [c], words)
    case Reader(Double, _, word, words) =>
      if c == DQ then Reader(Bare, true, word, words)
      else if c == '$' || c == '`' || c == '\\' then Refused
      else Reader(Double, true, word + [c], words)
    case Reader(Bare, open, word, words) =>
      if c == SQ then Reader(Single, true, word, words)
      else if c == DQ then Reader(Double, true, word, words)
      else if c == ' ' then
        if open then Reader(Bare, false, "", words + [word]) else r
      else if Plain(c) then Reader(Bare, true, word + [c], words)
      else Refused
  }

  function Run(r: Reader, s: string): Reader
    decreases |s|
  {
    if s == "" then r else Step(Run(r, s[..|s|-1]), s[|s|-1])
  }

  const START := Reader(Bare, false, "", [])

  /** The words of a command line; None when it is not a list of literal words. */
  function Read(s: string): Option<seq<string>> {
    var r := Run(START, s);
    if r.Refused? || r.mode != Bare then None
    else Some(if r.open then r.words + [r.word] else r.words)
  }

  lemma {:induction false} RunAppend(r: Reader, s: string, t: string)
    ensures Run(r, s + t) == Run(Run(r, s), t)
    decreases |t|
  {
    if t == "" {
      assert s + t == s;
    } else {
      assert (s + t)[..|s + t|-1] == s + t[..|t|-1];
      RunAppend(r, s, t[..|t|-1]);
    }
  }

  lemma PushOne(r: Reader, s: string, a: char)
    ensures Run(r, s + [a]) == Step(Run(r, s), a)
  {
    assert (s + [a])[..|s|] == s;
  }

  lemma Push(r: Reader, s: string, a: char, b: char, c: char)
    ensures Run(r, s + [a]) == Step(Run(r, s), a)
    ensures Run(r, s + [a, b]) == Step(Step(Run(r, s), a), b)
    ensures Run(r, s + [a, b, c]) == Step(Step(Step(Run(r, s), a), b), c)
  {
    PushOne(r, s, a);
    assert s + [a] + [b] == s + [a, b];
    PushOne(r, s + [a], b);
    assert s + [a, b] + [c] == s + [a, b, c];
    PushOne(r, s + [a, b], c);
  }

  // ---------------------------------------------------------------------
  // Reading back what was written
  // ---------------------------------------------------------------------

  /** Characters that survive without extra quotes. */
  predicate Bareable(arg: string) {
    forall k | 0 <= k < |arg| :: arg[k] == SQ || Plain(arg[k])
  }

  predicate Readable(args: seq<string>, extra: bool) {
    extra || forall i | 0 <= i < |args| :: Bareable(args[i])
  }

  /** The reader's state after the first j characters of the next word. */
  function Inside(arg: string, j: nat, extra: bool, words: seq<string>): Reader
    requires j <= |arg|
  {
    Reader(if InQuotes(arg, j, extra) then Single else Bare, j > 0, arg[..j], words)
  }

  /** The text in front of the double quote that the writer may step back over. */
  function BeforeDQ(arg: string, j: nat, extra: bool): string
    requires j <= |arg| && AfterQuote(arg, j)
  {
    Written(arg, j, extra)[..|Written(arg, j, extra)|-1]
  }

  lemma WrittenShape(arg: string, j: nat, extra: bool)
    requires 0 < j <= |arg|
    ensures arg[j-1] == SQ && AfterQuote(arg, j-1) ==>
              && BeforeDQ(arg, j, extra) == BeforeDQ(arg, j-1, extra) + [SQ]
              && Written(arg, j, extra) == BeforeDQ(arg, j-1, extra) + [SQ, DQ]
    ensures arg[j-1] == SQ && !AfterQuote(arg, j-1) ==>
              var w := Written(arg, j-1, extra) + (if InQuotes(arg, j-1, extra) then [SQ] else []);
              && BeforeDQ(arg, j, extra) == w + [DQ, SQ]
              && Written(arg, j, extra) == w + [DQ, SQ, DQ]
    ensures arg[..j] == arg[..j-1] + [arg[j-1]]
  {
  }

  lemma {:induction false} ReadPrefix(arg: string, j: nat, extra: bool, words: seq<string>)
    requires j <= |arg|
    requires extra || Bareable(arg[..j])
    ensures Run(Reader(Bare, false, "", words), Written(arg, j, extra)) == Inside(arg, j, extra, words)
    ensures AfterQuote(arg, j) ==>
              Run(Reader(Bare, false, "", words), BeforeDQ(arg, j, extra)) == Reader(Double, true, arg[..j], words)
  {
    if j > 0 {
      assert forall k | 0 <= k < j-1 :: arg[..j-1][k] == arg[..j][k];
      assert arg[j-1] == arg[..j][j-1];
      ReadPrefix(arg, j-1, extra, words);
      WrittenShape(arg, j, extra);
      if arg[j-1] == SQ {
        ReadQuote(arg, j, extra, words);
      } else {
        ReadOther(arg, j, extra, words);
      }
    }
  }

  /** A single quote inside double quotes, and the end of these. */
  lemma QuoteAgain(r0: Reader, s: string, x: string, words: seq<string>)
    requires Run(r0, s) == Reader(Double, true, x, words)
    ensures Run(r0, s + [SQ]) == Reader(Double, true, x + [SQ], words)
    ensures Run(r0, s + [SQ, DQ]) == Reader(Bare, true, x + [SQ], words)
  {
    Push(r0, s, SQ, DQ, SQ);
  }

  lemma QuoteFirst(r0: Reader, w: string, open: bool, x: string, words: seq<string>)
    requires Run(r0, w) == Reader(Bare, open, x, words)
    ensures Run(r0, w + [DQ, SQ]) == Reader(Double, true, x + [SQ], words)
    ensures Run(r0, w + [DQ, SQ, DQ]) == Reader(Bare, true, x + [SQ], words)
  {
    Push(r0, w, DQ, SQ, DQ);
  }

  lemma ReadQuote(arg: string, j: nat, extra: bool, words: seq<string>)
    requires 0 < j <= |arg| && arg[j-1] == SQ
    requires Run(Reader(Bare, false, "", words), Written(arg, j-1, extra)) == Inside(arg, j-1, extra, words)
    requires AfterQuote(arg, j-1) ==>
               Run(Reader(Bare, false, "", words), BeforeDQ(arg, j-1, extra)) == Reader(Double, true, arg[..j-1], words)
    ensures Run(Reader(Bare, false, "", words), Written(arg, j, extra)) == Inside(arg, j, extra, words)
    ensures Run(Reader(Bare, false, "", words), BeforeDQ(arg, j, extra)) == Reader(Double, true, arg[..j], words)
  {
    var r0 := Reader(Bare, false, "", words);
    WrittenShape(arg, j, extra);
    if AfterQuote(arg, j-1) {
      QuoteAgain(r0, BeforeDQ(arg, j-1, extra), arg[..j-1], words);
    } else {
      var w := Written(arg, j-1, extra);
      if InQuotes(arg, j-1, extra) {
        PushOne(r0, w, SQ);
        QuoteFirst(r0, w + [SQ], true, arg[..j-1], words);
      } else {
        assert w + [] == w;
        QuoteFirst(r0, w, j > 1, arg[..j-1], words);
      }
    }
  }

  lemma ReadOther(arg: string, j: nat, extra: bool, words: seq<string>)
    requires 0 < j <= |arg| && arg[j-1] != SQ && (extra || Plain(arg[j-1]))
    requires Run(Reader(Bare, false, "", words), Written(arg, j-1, extra)) == Inside(arg, j-1, extra, words)
    ensures Run(Reader(Bare, false, "", words), Written(arg, j, extra)) == Inside(arg, j, extra, words)
  {
    var r0 := Reader(Bare, false, "", words);
    var w, c := Written(arg, j-1, extra), arg[j-1];
    WrittenShape(arg, j, extra);
    if extra && !InQuotes(arg, j-1, extra) {
      PushOne(r0, w, SQ);
      PushOne(r0, w + [SQ], c);
    } else {
      assert w + [] == w;
      PushOne(r0, w, c);
    }
  }

  lemma RunArg(r0: Reader, arg: string, extra: bool)
    ensures var r := Run(r0, Written(arg, |arg|, extra));
            Run(r0, QuotedArg(arg, extra)) ==
              if arg == "" then Step(Step(Step(r, SQ), SQ), ' ')
              else if InQuotes(arg, |arg|, extra) then Step(Step(r, SQ), ' ')
              else Step(r, ' ')
  {
    var w := Written(arg, |arg|, extra);
    if arg == "" {
      assert QuotedArg(arg, extra) == w + [SQ, SQ, ' '];
      Push(r0, w, SQ, SQ, ' ');
    } else if InQuotes(arg, |arg|, extra) {
      assert QuotedArg(arg, extra) == w + [SQ, ' '];
      Push(r0, w, SQ, ' ', SQ);
    } else {
      assert QuotedArg(arg, extra) == w + [' '];
      Push(r0, w, ' ', SQ, SQ);
    }
  }

  lemma ReadArg(arg: string, extra: bool, words: seq<string>)
    requires extra || Bareable(arg)
    ensures Run(Reader(Bare, false, "", words), QuotedArg(arg, extra)) == Reader(Bare, false, "", words + [arg])
  {
    assert arg[..|arg|] == arg;
    ReadPrefix(arg, |arg|, extra, words);
    RunArg(Reader(Bare, false, "", words), arg, extra);
  }

  lemma ReadSnoc(text: string, front: seq<string>, last: string, extra: bool)
    requires Run(START, text) == Reader(Bare, false, "", front)
    requires extra || Bareable(last)
    ensures Run(START, text + QuotedArg(last, extra)) == Reader(Bare, false, "", front + [last])
  {
    RunAppend(START, text, QuotedArg(last, extra));
    ReadArg(last, extra, front);
  }

  lemma {:induction false} ReadArgs(args: seq<string>, extra: bool)
    requires Readable(args, extra)
    ensures Run(START, Quoted(args, extra)) == Reader(Bare, false, "", args)
  {
    if args != [] {
      var front, last := args[..|args|-1], args[|args|-1];
      assert front + [last] == args;
      ReadArgs(front, extra);
      ReadSnoc(Quoted(front, extra), front, last, extra);
    }
  }

  // ---------------------------------------------------------------------
  // Without extra quotes
  // ---------------------------------------------------------------------

  /** The next word that is read behind these words is not the argument. */
  predicate Bad(r: Reader, words: seq<string>, arg: string) {
    || r.Refused?
    || (|r.words| > |words| && r.words[|words|] != arg)
    || (r.words == words && !(r.word <= arg))
  }

  lemma BadStep(r: Reader, c: char, words: seq<string>, arg: string)
    requires Bad(r, words, arg)
    ensures Bad(Step(r, c), words, arg)
  {
  }

  lemma {:induction false} BadRun(r: Reader, s: string, words: seq<string>, arg: string)
    requires Bad(r, words, arg)
    ensures Bad(Run(r, s), words, arg)
    decreases |s|
  {
    if s != "" {
      BadRun(r, s[..|s|-1], words, arg);
      BadStep(Run(r, s[..|s|-1]), s[|s|-1], words, arg);
    }
  }

  lemma BadRead(s: string, args: seq<string>, i: nat)
    requires i < |args| && Bad(Run(START, s), args[..i], args[i])
    ensures Read(s) != Some(args)
  {
    var r := Run(START, s);
    if r.Reader? && r.open { assert (r.words + [r.word])[|r.words|] == r.word; }
  }

  /** How often a character occurs. */
  function Count(s: string, c: char): nat {
    if s == "" then 0 else Count(s[..|s|-1], c) + if s[|s|-1] == c then 1 else 0
  }

  lemma {:induction false} CountAppend(s: string, t: string, c: char)
    ensures Count(s + t, c) == Count(s, c) + Count(t, c)
    decreases |t|
  {
    if t == "" {
      assert s + t == s;
    } else {
      assert (s + t)[..|s + t|-1] == s + t[..|t|-1];
      CountAppend(s, t[..|t|-1], c);
    }
  }

  lemma CountPrefix(s: string, t: string, c: char)
    requires s <= t
    ensures Count(s, c) <= Count(t, c)
  {
    assert t == s + t[|s|..];
    CountAppend(s, t[|s|..], c);
  }

  lemma CountOne(s: string, c: char, d: char)
    ensures Count(s + [c], d) == Count(s, d) + if c == d then 1 else 0
  {
    assert (s + [c])[..|s|] == s;
  }

  lemma CountTwo(s: string, c: char)
    requires c != DQ
    ensures Count(s + [SQ, DQ], c) == Count(s, c) + if c == SQ then 1 else 0
  {
    assert s + [SQ, DQ] == (s + [SQ]) + [DQ];
    CountOne(s + [SQ], DQ, c);
    CountOne(s, SQ, c);
  }

  lemma CountThree(s: string, c: char)
    requires c != DQ
    ensures Count(s + [DQ, SQ, DQ], c) == Count(s, c) + if c == SQ then 1 else 0
  {
    assert s + [DQ, SQ, DQ] == (s + [DQ]) + [SQ, DQ];
    CountTwo(s + [DQ], c);
    CountOne(s, DQ, c);
  }

  /** Only double quotes are added to an argument. */
  lemma {:induction false} WrittenCount(arg: string, j: nat, c: char)
    requires j <= |arg| && c != DQ
    ensures Count(Written(arg, j, false), c) == Count(arg[..j], c)
  {
    if j > 0 {
      WrittenCount(arg, j-1, c);
      WrittenShape(arg, j, false);
      CountOne(arg[..j-1], arg[j-1], c);
      var w := Written(arg, j-1, false);
      if arg[j-1] != SQ {
        assert Written(arg, j, false) == w + [arg[j-1]];
        CountOne(w, arg[j-1], c);
      } else if AfterQuote(arg, j-1) {
        var b := BeforeDQ(arg, j-1, false);
        assert w == b + [DQ];
        CountOne(b, DQ, c);
        CountTwo(b, c);
      } else {
        assert w + [] == w;
        CountThree(w, c);
      }
    }
  }

  /** With n single quotes in the text: a double quote is only read inside single
      quotes, and then some single quotes are missing in the word. */
  predicate Kept(r: Reader, n: nat) {
    r.Reader? && Count(r.word, SQ) <= n && ((r.mode != Single && DQ !in r.word) || Count(r.word, SQ) < n)
  }

  lemma KeptStep(r: Reader, n: nat, c: char)
    requires Kept(r, n) && Step(r, c).Reader? && Step(r, c).words == r.words
    ensures Kept(Step(r, c), n + if c == SQ then 1 else 0)
  {
    CountOne(r.word, c, SQ);
  }

  lemma {:induction false} QuoteCount(u: string, words: seq<string>)
    ensures var r := Run(Reader(Bare, false, "", words), u);
            r.Reader? ==> words <= r.words && (r.words == words ==> Kept(r, Count(u, SQ)))
    decreases |u|
  {
    if u != "" {
      var front, c := u[..|u|-1], u[|u|-1];
      QuoteCount(front, words);
      var r := Run(Reader(Bare, false, "", words), front);
      if r.Reader? && Step(r, c).Reader? && Step(r, c).words == words { KeptStep(r, Count(front, SQ), c); }
    }
  }

  predicate IsQuote(c: char) { c == SQ || c == DQ }

  predicate AllQuotes(s: string) { forall i | 0 <= i < |s| :: IsQuote(s[i]) }

  predicate QuotesIn(arg: string, j: nat, k: nat)
    requires j <= k <= |arg|
  {
    forall i | j <= i < k :: IsQuote(arg[i])
  }

  /** Quotes alone end no word. */
  lemma {:induction false} QuotesRun(r: Reader, u: string)
    requires r.Reader? && AllQuotes(u)
    ensures var t := Run(r, u);
            t.Reader? && t.words == r.words && r.word <= t.word && (t.open <==> r.open || u != "")
    decreases |u|
  {
    if u != "" { QuotesRun(r, u[..|u|-1]); }
  }

  /** What is written stays, but for a double quote at the end. */
  lemma {:induction false} WrittenExtends(arg: string, j: nat, k: nat)
    requires j <= k <= |arg| && !AfterQuote(arg, j)
    ensures Written(arg, j, false) <= Written(arg, k, false)
    ensures AfterQuote(arg, k) ==> |Written(arg, j, false)| < |Written(arg, k, false)|
    decreases k
  {
    if j < k { WrittenExtends(arg, j, k-1); }
  }

  /** One more quote adds quotes only, behind what stays. */
  lemma QuoteWritten(arg: string, n: nat, k: nat)
    requires 0 < k <= |arg| && IsQuote(arg[k-1])
    requires n <= |Written(arg, k-1, false)| - if AfterQuote(arg, k-1) then 1 else 0
    requires AllQuotes(Written(arg, k-1, false)[n..])
    ensures n <= |Written(arg, k, false)| && AllQuotes(Written(arg, k, false)[n..])
  {
    var w, u := Written(arg, k-1, false), Written(arg, k, false);
    forall i | n <= i < |u| ensures IsQuote(u[i]) {
      if i < |w| - (if AfterQuote(arg, k-1) then 1 else 0) { assert u[i] == w[i] == w[n..][i - n]; }
    }
  }

  /** A part of an argument that consists of quotes is written with quotes only. */
  lemma {:induction false} QuotesWritten(arg: string, j: nat, k: nat)
    requires j <= k <= |arg| && !AfterQuote(arg, j) && QuotesIn(arg, j, k)
    ensures Written(arg, j, false) <= Written(arg, k, false)
    ensures AllQuotes(Written(arg, k, false)[|Written(arg, j, false)|..])
    decreases k
  {
    WrittenExtends(arg, j, k);
    if j < k {
      QuotesWritten(arg, j, k-1);
      WrittenExtends(arg, j, k-1);
      QuoteWritten(arg, |Written(arg, j, false)|, k);
    }
  }

  /** The end of the quotes that stand at place k. */
  lemma QuotesEnd(arg: string, k: nat) returns (e: nat)
    requires k <= |arg|
    ensures k <= e <= |arg| && QuotesIn(arg, k, e) && (e < |arg| ==> !IsQuote(arg[e]))
    ensures k < |arg| && IsQuote(arg[k]) ==> k < e
    decreases |arg| - k
  {
    if k == |arg| || !IsQuote(arg[k]) {
      e := k;
    } else {
      e := QuotesEnd(arg, k + 1);
    }
  }

  lemma QuoteOpens(arg: string, k: nat, words: seq<string>)
    requires k < |arg| && Bareable(arg[..k]) && arg[k] == DQ
    ensures Run(Reader(Bare, false, "", words), Written(arg, k + 1, false)) == Reader(Double, true, arg[..k], words)
  {
    var w := Written(arg, k, false);
    assert w + [] == w;
    ReadPrefix(arg, k, false, words);
    PushOne(Reader(Bare, false, "", words), w, DQ);
  }

  lemma QuotesRead(arg: string, k: nat, e: nat, words: seq<string>)
    requires k < e <= |arg| && Bareable(arg[..k]) && arg[k] == DQ && QuotesIn(arg, k, e)
    ensures var r := Run(Reader(Bare, false, "", words), Written(arg, e, false));
            r.Reader? && r.open && r.words == words && arg[..k] <= r.word
  {
    var r0 := Reader(Bare, false, "", words);
    var w, u := Written(arg, k + 1, false), Written(arg, e, false);
    QuoteOpens(arg, k, words);
    QuotesWritten(arg, k + 1, e);
    RunPiece(r0, w, u);
    QuotesRun(Run(r0, w), u[|w|..]);
  }

  /** A double quote of an argument opens a quotation, so that the word falls behind
      the argument; it does not catch up inside the quotes that follow. */
  lemma FallsBehind(arg: string, k: nat, e: nat, words: seq<string>)
    requires k < e <= |arg| && Bareable(arg[..k]) && arg[k] == DQ && QuotesIn(arg, k, e)
    ensures var r := Run(Reader(Bare, false, "", words), Written(arg, e, false));
            r.Reader? && r.open && r.words == words && arg[..k] <= r.word && !(arg[..e] <= r.word)
  {
    var u := Written(arg, e, false);
    QuotesRead(arg, k, e, words);
    var r := Run(Reader(Bare, false, "", words), u);
    QuoteCount(u, words);
    WrittenCount(arg, e, SQ);
    NotAhead(r, arg, e, k, u);
  }

  lemma NotAhead(r: Reader, arg: string, e: nat, k: nat, u: string)
    requires k < e <= |arg| && arg[k] == DQ && r.Reader? && Count(u, SQ) == Count(arg[..e], SQ)
    requires Kept(r, Count(u, SQ))
    ensures !(arg[..e] <= r.word)
  {
    if arg[..e] <= r.word {
      assert r.word[k] == arg[..e][k] == DQ;
      CountPrefix(arg[..e], r.word, SQ);
    }
  }

  /** What comes behind the quotes shows that the word is not the argument. */
  lemma BehindQuotes(r: Reader, arg: string, k: nat, e: nat, c: char, words: seq<string>)
    requires r.Reader? && r.open && r.words == words && k < e <= |arg| && QuotesIn(arg, k, e)
    requires arg[..k] <= r.word && !(arg[..e] <= r.word) && !IsQuote(c)
    ensures Bad(Step(r, c), words, arg)
  {
    if r.word <= arg {
      var n := |r.word|;
      assert r.word == arg[..n];
      assert k <= n < e && IsQuote(arg[n]);
      assert (r.word + [c])[n] == c && !(r.word + [c] <= arg);
    } else {
      BadStep(r, c, words, arg);
    }
  }

  lemma ArgPieces(arg: string, e: nat)
    requires arg != "" && e <= |arg| && !AfterQuote(arg, e)
    ensures Written(arg, e, false) <= QuotedArg(arg, false)
    ensures QuotedArg(arg, false) == Written(arg, |arg|, false) + " "
  {
    WrittenExtends(arg, e, |arg|);
  }

  lemma RunPiece(r: Reader, s: string, t: string)
    requires s <= t
    ensures Run(r, t) == Run(Run(r, s), t[|s|..])
  {
    assert t == s + t[|s|..];
    RunAppend(r, s, t[|s|..]);
  }

  lemma BadFrom(r0: Reader, s: string, t: string, words: seq<string>, arg: string)
    requires s <= t && Bad(Run(r0, s), words, arg)
    ensures Bad(Run(r0, t), words, arg)
  {
    RunPiece(r0, s, t);
    BadRun(Run(r0, s), t[|s|..], words, arg);
  }

  lemma NextPiece(arg: string, e: nat)
    requires 0 < e <= |arg| && (e < |arg| ==> arg[e] != SQ)
    ensures Written(arg, e, false) + [if e < |arg| then arg[e] else ' '] <= QuotedArg(arg, false)
  {
    var w := Written(arg, e, false);
    if e < |arg| {
      assert w + [] == w && Written(arg, e + 1, false) == w + [arg[e]];
      ArgPieces(arg, e + 1);
    } else {
      ArgPieces(arg, 0);
    }
  }

  /** An argument with a double quote. */
  lemma BadQuote(arg: string, k: nat, words: seq<string>)
    requires k < |arg| && Bareable(arg[..k]) && arg[k] == DQ
    ensures Bad(Run(Reader(Bare, false, "", words), QuotedArg(arg, false)), words, arg)
  {
    var r0 := Reader(Bare, false, "", words);
    var e := QuotesEnd(arg, k);
    var w, c := Written(arg, e, false), if e < |arg| then arg[e] else ' ';
    FallsBehind(arg, k, e, words);
    BehindQuotes(Run(r0, w), arg, k, e, c, words);
    PushOne(r0, w, c);
    NextPiece(arg, e);
    BadFrom(r0, w + [c], QuotedArg(arg, false), words, arg);
  }

  /** An argument with a space behind its first character, or with a character that
      the reader refuses. */
  lemma BadOther(arg: string, k: nat, words: seq<string>)
    requires k < |arg| && Bareable(arg[..k]) && !IsQuote(arg[k]) && !Plain(arg[k]) && (arg[k] == ' ' ==> k > 0)
    ensures Bad(Run(Reader(Bare, false, "", words), QuotedArg(arg, false)), words, arg)
  {
    var r0 := Reader(Bare, false, "", words);
    var w, c := Written(arg, k, false), arg[k];
    ReadPrefix(arg, k, false, words);
    PushOne(r0, w, c);
    assert Written(arg, k + 1, false) == w + [c];
    ArgPieces(arg, k + 1);
    BadFrom(r0, w + [c], QuotedArg(arg, false), words, arg);
  }

  /** The spaces inside the words, and one behind each of them. */
  function SpacesAll(words: seq<string>): nat {
    if words == [] then 0 else SpacesAll(words[..|words|-1]) + Count(words[|words|-1], ' ') + 1
  }

  lemma SpacesSnoc(words: seq<string>, w: string)
    ensures SpacesAll(words + [w]) == SpacesAll(words) + Count(w, ' ') + 1
  {
    assert (words + [w])[..|words|] == words;
  }

  function SpacesOf(r: Reader): nat
    requires r.Reader?
  {
    SpacesAll(r.words) + Count(r.word, ' ')
  }

  lemma SpaceStep(r: Reader, c: char)
    requires r.Reader? && Step(r, c).Reader?
    ensures SpacesOf(Step(r, c)) <= SpacesOf(r) + if c == ' ' then 1 else 0
  {
    CountOne(r.word, c, ' ');
    SpacesSnoc(r.words, r.word);
  }

  /** Every space is read into a word, ends a word, or is dropped. */
  lemma {:induction false} SpaceCount(r: Reader, u: string)
    requires r.Reader?
    ensures var t := Run(r, u); t.Reader? ==> SpacesOf(t) <= SpacesOf(r) + Count(u, ' ')
    decreases |u|
  {
    if u != "" {
      var front, c := u[..|u|-1], u[|u|-1];
      SpaceCount(r, front);
      var t := Run(r, front);
      if t.Reader? && Step(t, c).Reader? { SpaceStep(t, c); }
    }
  }

  lemma {:induction false} QuotedSpaces(args: seq<string>)
    ensures Count(Quoted(args, false), ' ') == SpacesAll(args)
  {
    if args != [] {
      var front, last := args[..|args|-1], args[|args|-1];
      QuotedSpaces(front);
      CountAppend(Quoted(front, false), QuotedArg(last, false), ' ');
      ArgSpaces(last);
    }
  }

  lemma ArgSpaces(arg: string)
    ensures Count(QuotedArg(arg, false), ' ') == Count(arg, ' ') + 1
  {
    var w := Written(arg, |arg|, false);
    WrittenCount(arg, |arg|, ' ');
    assert arg[..|arg|] == arg;
    if arg == "" {
      assert QuotedArg(arg, false) == w + [SQ] + [SQ] + [' '];
      CountOne(w, SQ, ' ');
      CountOne(w + [SQ], SQ, ' ');
      CountOne(w + [SQ] + [SQ], ' ', ' ');
    } else {
      ArgPieces(arg, 0);
      CountOne(w, ' ', ' ');
    }
  }

  /** An argument that starts with a space: that space is dropped, and then there are
      too few. */
  lemma BadSpace(args: seq<string>, i: nat)
    requires i < |args| && Readable(args[..i], false) && args[i] != "" && args[i][0] == ' '
    ensures Read(Quoted(args, false)) != Some(args)
  {
    var before := Quoted(args[..i], false);
    SpaceFirst(args, i);
    ReadArgs(args[..i], false);
    PushOne(START, before, ' ');
    SpaceDropped(Quoted(args, false), before, args[..i], args);
  }

  lemma SpaceDropped(text: string, before: string, words: seq<string>, args: seq<string>)
    requires text == Quoted(args, false) && before == Quoted(words, false) && before + [' '] <= text
    requires Run(START, before + [' ']) == Reader(Bare, false, "", words)
    ensures Read(text) != Some(args)
  {
    var first := before + [' '];
    RunPiece(START, first, text);
    SpaceCount(Run(START, first), text[|first|..]);
    assert text == first + text[|first|..];
    CountAppend(first, text[|first|..], ' ');
    CountOne(before, ' ', ' ');
    QuotedSpaces(args);
    QuotedSpaces(words);
    EndsClosed(args);
  }

  lemma SpaceFirst(args: seq<string>, i: nat)
    requires i < |args| && args[i] != "" && args[i][0] == ' '
    ensures Quoted(args[..i], false) + [' '] <= Quoted(args, false)
  {
    var arg := args[i];
    assert Written(arg, 1, false) == " " by { assert Written(arg, 0, false) == "" && "" + [] + [' '] == " "; }
    ArgPieces(arg, 1);
    PieceOfAll(args, i);
  }

  lemma {:induction false} PieceOfAll(args: seq<string>, i: nat)
    requires i < |args|
    ensures Quoted(args[..i], false) + QuotedArg(args[i], false) <= Quoted(args, false)
    decreases |args|
  {
    if i == |args| - 1 {
      assert args[..i] == args[..|args|-1];
    } else {
      var front := args[..|args|-1];
      assert front[..i] == args[..i];
      PieceOfAll(front, i);
    }
  }

  /** The text ends with a space, so that no word is left open. */
  lemma EndsClosed(args: seq<string>)
    ensures var r := Run(START, Quoted(args, false));
            r.Reader? && r.mode == Bare ==> !r.open
  {
    if args != [] {
      var last := args[|args|-1];
      var front := Quoted(args[..|args|-1], false) + Written(last, |last|, false) + Closing(last, false);
      assert Quoted(args, false) == front + [' '];
      PushOne(START, front, ' ');
    }
  }

  /** The first argument, and in it the first character, that is not bareable. */
  lemma FirstUnbare(arg: string) returns (k: nat)
    requires !Bareable(arg)
    ensures k < |arg| && Bareable(arg[..k]) && arg[k] != SQ && !Plain(arg[k])
  {
    k := 0;
    while arg[k] == SQ || Plain(arg[k])
      invariant k < |arg| && forall i | 0 <= i < k :: arg[i] == SQ || Plain(arg[i])
      decreases |arg| - k
    {
      k := k + 1;
      assert k < |arg|;
    }
  }

  lemma FirstUnread(args: seq<string>) returns (i: nat)
    requires !Readable(args, false)
    ensures i < |args| && Readable(args[..i], false) && !Bareable(args[i])
  {
    i := 0;
    while Bareable(args[i])
      invariant i < |args| && forall j | 0 <= j < i :: Bareable(args[j])
      decreases |args| - i
    {
      i := i + 1;
      assert i < |args|;
    }
  }

  /** Without extra quotes an argument that is not bareable is never read back. */
  lemma UnreadableArgs(args: seq<string>)
    requires !Readable(args, false)
    ensures Read(Quoted(args, false)) != Some(args)
  {
    var i := FirstUnread(args);
    var arg := args[i];
    var k := FirstUnbare(arg);
    if k == 0 && arg[k] == ' ' {
      BadSpace(args, i);
    } else {
      if arg[k] == DQ { BadQuote(arg, k, args[..i]); } else { BadOther(arg, k, args[..i]); }
      var before := Quoted(args[..i], false);
      ReadArgs(args[..i], false);
      RunAppend(START, before, QuotedArg(arg, false));
      PieceOfAll(args, i);
      BadFrom(START, before + QuotedArg(arg, false), Quoted(args, false), args[..i], arg);
      BadRead(Quoted(args, false), args, i);
    }
  }

  /** The command line reads back as the argument vector: with extra quotes, which
      every caller asks for, always; without them exactly when each character of
      each argument is a single quote or plain. */
  lemma RoundTrip(args: seq<string>)
    ensures Read(Quoted(args, true)) == Some(args)
    ensures Read(Quoted(args, false)) == Some(args) <==> forall i | 0 <= i < |args| :: Bareable(args[i])
  {
    ReadArgs(args, true);
    if Readable(args, false) { ReadArgs(args, false); } else { UnreadableArgs(args); }
  }

  lemma {:induction false} QuotedCons(args: seq<string>, extra: bool)
    requires args != []
    ensures Quoted(args, extra) == QuotedArg(args[0], extra) + Quoted(args[1..], extra)
  {
    if |args| > 1 {
      var front := args[..|args|-1];
      QuotedCons(front, extra);
      assert front[1..] == args[1..][..|args|-2];
    }
  }

  lemma {:induction false} WrittenIsCString(arg: string, j: nat, extra: bool)
    requires j <= |arg| && CString(arg)
    ensures CString(Written(arg, j, extra))
  {
    if j > 0 { WrittenIsCString(arg, j-1, extra); }
  }

  lemma {:induction false} QuotedIsCString(args: seq<string>, extra: bool)
    requires CStrings(args)
    ensures CString(Quoted(args, extra))
  {
    if args != [] {
      QuotedIsCString(args[..|args|-1], extra);
      WrittenIsCString(args[|args|-1], |args[|args|-1]|, extra);
    }
  }

  // ---------------------------------------------------------------------
  // The two passes
  // ---------------------------------------------------------------------

  /** The inner loop: the length that one argument takes. */
  method ArgLength(arg: string, extra: bool) returns (len: int)
    ensures len == |QuotedArg(arg, extra)|
  {
    len := 0;
    var inQuotes := false;
    var j := 0;
    while j < |arg|
      invariant 0 <= j <= |arg|
      invariant inQuotes == InQuotes(arg, j, extra)
      invariant len == |Written(arg, j, extra)|
    {
      if arg[j] == SQ {
        if inQuotes { len := len + 1; }
        if j > 0 && arg[j-1] == SQ { len := len + 1; } else { len := len + 3; }
        inQuotes := false;
      } else {
        if !inQuotes && extra { len := len + 1; }
        len := len + 1;
        if extra { inQuotes := true; }
      }
      j := j + 1;
    }
    if inQuotes { len := len + 1; }
    if |arg| == 0 { len := len + 2; }
    len := len + 1;
  }

  method CmdlineLength(argv: seq<string>, index: nat, extra: bool) returns (len: int)
    requires index <= |argv|
    ensures len == |Quoted(argv[index..], extra)|
  {
    len := 0;
    ghost var args := argv[index..];
    var i := 0;
    while i < |argv| - index
      invariant 0 <= i <= |argv| - index
      invariant len == |Quoted(args[..i], extra)|
    {
      assert args[..i+1][..i] == args[..i];
      var n := ArgLength(argv[i + index], extra);
      len := len + n;
      i := i + 1;
    }
    assert args[..i] == args;
  }

  /** Written grows to the final text without ever needing more room. */
  lemma {:induction false} WrittenFits(arg: string, j: nat, extra: bool)
    requires j <= |arg|
    ensures |Written(arg, j, extra)| + (if InQuotes(arg, j, extra) then 1 else 0)
            <= |Written(arg, |arg|, extra)| + (if InQuotes(arg, |arg|, extra) then 1 else 0)
    decreases |arg| - j
  {
    if j < |arg| { WrittenFits(arg, j + 1, extra); }
  }

  lemma {:induction false} QuotedFits(args: seq<string>, i: nat, extra: bool)
    requires i < |args|
    ensures |Quoted(args[..i], extra)| + |QuotedArg(args[i], extra)| <= |Quoted(args, extra)|
    decreases |args|
  {
    if i == |args| - 1 {
      assert args[..i] == args[..|args|-1];
    } else {
      var front := args[..|args|-1];
      assert front[..i] == args[..i];
      QuotedFits(front, i, extra);
    }
  }

  /** While an argument is being written there is room left for the closing
      quote, the space and the terminator. */
  lemma Room(args: seq<string>, i: nat, j: nat, extra: bool)
    requires i < |args| && j <= |args[i]|
    ensures |Quoted(args[..i], extra)| + |Written(args[i], j, extra)| + (if InQuotes(args[i], j, extra) then 1 else 0)
            < |Quoted(args, extra)|
    ensures args[i] == "" ==> |Quoted(args[..i], extra)| + 2 < |Quoted(args, extra)|
  {
    WrittenFits(args[i], j, extra);
    QuotedFits(args, i, extra);
  }

  /** The buffer holds the text up to `pos`; what lies behind the terminator of
      the finished command line (`tail`) is never touched. */
  ghost predicate Filled(buf: array<char>, text: string, pos: int, total: nat, tail: seq<char>)
    reads buf
  {
    && 0 <= pos == |text| <= total < buf.Length
    && buf[..pos] == text
    && buf[total + 1..] == tail
  }

  method Put(buf: array<char>, ptr1: int, c: char, ghost text: string, ghost total: nat, ghost tail: seq<char>)
    returns (next: int)
    requires Filled(buf, text, ptr1, total, tail) && ptr1 < total
    modifies buf
    ensures Filled(buf, text + [c], next, total, tail)
  {
    buf[ptr1] := c;
    next := ptr1 + 1;
  }

  /** sprintf of a constant string: its characters and the terminator. */
  method Sprintf(buf: array<char>, ptr1: int, s: string, ghost text: string, ghost total: nat, ghost tail: seq<char>)
    returns (next: int)
    requires Filled(buf, text, ptr1, total, tail) && ptr1 + |s| <= total
    modifies buf
    ensures Filled(buf, text + s, next, total, tail) && buf[next] == NUL
  {
    next := ptr1;
    var k := 0;
    assert text + s[..0] == text;
    while k < |s|
      invariant 0 <= k <= |s| && next == ptr1 + k
      invariant Filled(buf, text + s[..k], next, total, tail)
    {
      assert text + s[..k+1] == text + s[..k] + [s[k]];
      next := Put(buf, next, s[k], text + s[..k], total, tail);
      k := k + 1;
    }
    assert s[..k] == s;
    buf[next] := NUL;
  }

  lemma Assoc(a: string, b: string, c: string)
    ensures a + (b + c) == a + b + c
  {
  }

  lemma NextText(done: string, arg: string, j: nat, extra: bool)
    requires j < |arg|
    ensures var text, next := done + Written(arg, j, extra), done + Written(arg, j + 1, extra);
            if arg[j] == SQ && AfterQuote(arg, j) then next == text[..|text|-1] + [SQ, DQ]
            else if arg[j] == SQ && InQuotes(arg, j, extra) then next == text + [SQ] + [DQ, SQ, DQ]
            else if arg[j] == SQ then next == text + [DQ, SQ, DQ]
            else if extra && !InQuotes(arg, j, extra) then next == text + [SQ] + [arg[j]]
            else next == text + [arg[j]]
  {
    var w := Written(arg, j, extra);
    if arg[j] == SQ && AfterQuote(arg, j) {
      assert (done + w)[..|done + w|-1] == done + w[..|w|-1];
      Assoc(done, w[..|w|-1], [SQ, DQ]);
    } else if arg[j] == SQ && InQuotes(arg, j, extra) {
      Assoc(done, w, [SQ]);
      Assoc(done, w + [SQ], [DQ, SQ, DQ]);
    } else if arg[j] == SQ {
      assert w + [] == w;
      Assoc(done, w, [DQ, SQ, DQ]);
    } else if extra && !InQuotes(arg, j, extra) {
      Assoc(done, w, [SQ]);
      Assoc(done, w + [SQ], [arg[j]]);
    } else {
      assert w + [] == w;
      Assoc(done, w, [arg[j]]);
    }
  }

  /** The body of the inner loop for a single quote: the open quotes are closed,
      and the double quote behind an earlier single quote is overwritten. */
  method QuoteSingle(buf: array<char>, ptr1: int, arg: string, j: nat, inQuotes: bool, extra: bool,
                     ghost done: string, ghost total: nat, ghost tail: seq<char>)
    returns (next: int)
    requires j < |arg| && arg[j] == SQ && inQuotes == InQuotes(arg, j, extra)
    requires Filled(buf, done + Written(arg, j, extra), ptr1, total, tail)
    requires |done| + |Written(arg, j + 1, extra)| < total
    modifies buf
    ensures Filled(buf, done + Written(arg, j + 1, extra), next, total, tail)
  {
    ghost var text := done + Written(arg, j, extra);
    NextText(done, arg, j, extra);
    next := ptr1;
    if inQuotes {
      next := Put(buf, next, SQ, text, total, tail);
      text := text + [SQ];
    }
    if j > 0 && arg[j-1] == SQ {
      next := next - 1;
      next := Sprintf(buf, next, [SQ, DQ], text[..next], total, tail);
    } else {
      next := Sprintf(buf, next, [DQ, SQ, DQ], text, total, tail);
    }
  }

  /** The body of the inner loop for any other character. */
  method QuoteOther(buf: array<char>, ptr1: int, arg: string, j: nat, inQuotes: bool, extra: bool,
                    ghost done: string, ghost total: nat, ghost tail: seq<char>)
    returns (next: int)
    requires j < |arg| && arg[j] != SQ && inQuotes == InQuotes(arg, j, extra)
    requires Filled(buf, done + Written(arg, j, extra), ptr1, total, tail)
    requires |done| + |Written(arg, j + 1, extra)| < total
    modifies buf
    ensures Filled(buf, done + Written(arg, j + 1, extra), next, total, tail)
  {
    ghost var text := done + Written(arg, j, extra);
    NextText(done, arg, j, extra);
    next := ptr1;
    if !inQuotes && extra {
      next := Put(buf, next, SQ, text, total, tail);
      text := text + [SQ];
    }
    next := Put(buf, next, arg[j], text, total, tail);
  }

  lemma ArgText(args: seq<string>, i: nat, extra: bool)
    requires i < |args|
    ensures Quoted(args[..i+1], extra) ==
            Quoted(args[..i], extra) + Written(args[i], |args[i]|, extra) + Closing(args[i], extra) + " "
    ensures |Quoted(args[..i+1], extra)| <= |Quoted(args, extra)|
  {
    assert args[..i+1][..i] == args[..i];
    QuotedFits(args, i, extra);
  }

  /** Behind the last character: the closing quote, the quotes of an empty
      argument, and the space. */
  method CloseArg(buf: array<char>, ptr1: int, arg: string, inQuotes: bool, extra: bool,
                  ghost done: string, ghost total: nat, ghost tail: seq<char>)
    returns (next: int)
    requires inQuotes == InQuotes(arg, |arg|, extra)
    requires Filled(buf, done, ptr1, total, tail) && |done + Closing(arg, extra)| < total
    modifies buf
    ensures Filled(buf, done + Closing(arg, extra) + " ", next, total, tail) && buf[next] == NUL
  {
    ghost var text := done;
    next := ptr1;
    if inQuotes {
      next := Put(buf, next, SQ, text, total, tail);
      text := text + [SQ];
    }
    if |arg| == 0 {
      next := Sprintf(buf, next, [SQ, SQ], text, total, tail);
      text := text + [SQ, SQ];
    }
    assert text == done + Closing(arg, extra);
    next := Sprintf(buf, next, " ", text, total, tail);
  }

  /** The inner loop: the characters of an argument. */
  method QuoteChars(buf: array<char>, ptr1: int, args: seq<string>, i: nat, extra: bool,
                    ghost done: string, ghost total: nat, ghost tail: seq<char>)
    returns (next: int, inQuotes: bool)
    requires i < |args| && total == |Quoted(args, extra)| && done == Quoted(args[..i], extra)
    requires Filled(buf, done, ptr1, total, tail)
    modifies buf
    ensures Filled(buf, done + Written(args[i], |args[i]|, extra), next, total, tail)
    ensures inQuotes == InQuotes(args[i], |args[i]|, extra)
  {
    var arg := args[i];
    next, inQuotes := ptr1, false;
    var j := 0;
    assert done + Written(arg, 0, extra) == done;
    while j < |arg|
      invariant 0 <= j <= |arg|
      invariant inQuotes == InQuotes(arg, j, extra)
      invariant Filled(buf, done + Written(arg, j, extra), next, total, tail)
    {
      Room(args, i, j + 1, extra);
      if arg[j] == SQ {
        next := QuoteSingle(buf, next, arg, j, inQuotes, extra, done, total, tail);
        inQuotes := false;
      } else {
        next := QuoteOther(buf, next, arg, j, inQuotes, extra, done, total, tail);
        if extra { inQuotes := true; }
      }
      j := j + 1;
    }
  }

  /** The body of the outer loop: one argument and the space behind it. */
  method QuoteArg(buf: array<char>, ptr1: int, args: seq<string>, i: nat, extra: bool,
                  ghost total: nat, ghost tail: seq<char>)
    returns (next: int)
    requires i < |args| && total == |Quoted(args, extra)|
    requires Filled(buf, Quoted(args[..i], extra), ptr1, total, tail)
    modifies buf
    ensures Filled(buf, Quoted(args[..i+1], extra), next, total, tail) && buf[next] == NUL
  {
    ghost var done := Quoted(args[..i], extra);
    var inQuotes;
    ArgText(args, i, extra);
    next, inQuotes := QuoteChars(buf, ptr1, args, i, extra, done, total, tail);
    next := CloseArg(buf, next, args[i], inQuotes, extra, done + Written(args[i], |args[i]|, extra), total, tail);
  }

  lemma Whole(b: seq<char>, total: nat)
    requires total < |b|
    ensures b == b[..total] + [b[total]] + b[total + 1..]
  {
  }

  /** With at least one argument the buffer receives the command line and its
      terminator and nothing else changes; with none, nothing is written. */
  method QuoteCmdline(buf: array<char>, argv: seq<string>, index: nat, extra: bool)
    requires index <= |argv|
    requires |Quoted(argv[index..], extra)| < buf.Length
    modifies buf
    ensures var text := Quoted(argv[index..], extra);
            if index < |argv| then buf[..] == text + [NUL] + old(buf[|text| + 1..]) else buf[..] == old(buf[..])
  {
    var args := argv[index..];
    ghost var total := |Quoted(args, extra)|;
    ghost var tail := buf[total + 1..];
    var ptr1 := 0;
    var i := 0;
    while i < |argv| - index
      invariant 0 <= i <= |argv| - index
      invariant Filled(buf, Quoted(args[..i], extra), ptr1, total, tail)
      invariant if i > 0 then buf[ptr1] == NUL else buf[..] == old(buf[..])
    {
      ptr1 := QuoteArg(buf, ptr1, args, i, extra, total, tail);
      i := i + 1;
    }
    assert args[..i] == args;
    if index < |argv| { Whole(buf[..], total); }
  }

  // ---------------------------------------------------------------------
  // build_cmdline and build_appimage_cmdline
  // ---------------------------------------------------------------------

  datatype Error = E2BIG

  /** The C string at an offset of a buffer. */
  method StringAt(buf: array<char>, at: nat, ghost text: string) returns (s: string)
    requires CString(text) && at <= |text| && text + [NUL] <= buf[..]
    ensures s == text[at..]
  {
    var k := at;
    while buf[k] != NUL
      invariant at <= k <= |text|
      decreases |text| - k
    {
      k := k + 1;
    }
    s := buf[at..k];
  }

  /** The callers pass a valid program index, so there is at least one argument. */
  method BuildCmdline(argv: seq<string>, index: nat, extra: bool) returns (r: Result<string, Error>)
    requires index < |argv| && CStrings(argv)
    ensures r.Success? <==> |Quoted(argv[index..], extra)| <= ARG_MAX
    ensures r.Success? ==> r.value == Quoted(argv[index..], extra)
    ensures r.Success? && extra ==> Read(r.value) == Some(argv[index..])
  {
    var len := CmdlineLength(argv, index, extra);
    if len > ARG_MAX { return Failure(E2BIG); }
    var buf := new char[len + 1];
    QuoteCmdline(buf, argv, index, extra);
    QuotedIsCString(argv[index..], extra);
    RoundTrip(argv[index..]);
    var s := StringAt(buf, 0, Quoted(argv[index..], extra));
    r := Success(s);
  }

  /** The length limit is checked on len4, which falls two short of the text
      and its terminator when no extra quotes were asked for. */
  method BuildAppimageCmdline(argv: seq<string>, index: nat, extra: bool) returns (r: Result<string, Error>)
    requires index < |argv| && CStrings(argv)
    ensures r.Success? ==> r.value == [SQ] + APPRUN + [SQ, ' '] + Quoted(argv[index + 1..], extra)
    ensures r.Success? && extra ==> Read(r.value) == Some([APPRUN] + argv[index + 1..])
    ensures r.Success? <==> |APPRUN| + |Quoted(argv[index + 1..], extra)| + (if extra then 4 else 2) <= ARG_MAX
  {
    ghost var args := argv[index..];
    assert args[1..] == argv[index + 1..];
    QuotedCons(args, extra);
    QuotedIsCString(args, extra);
    var len1 := CmdlineLength(argv, index, extra);
    var len2 := CmdlineLength([argv[index]], 0, extra);
    var len3 := CmdlineLength([APPRUN], 0, extra);
    assert [argv[index]][0..] == [argv[index]] && [APPRUN][0..] == [APPRUN];
    QuotedOne(argv[index], extra);
    QuotedOne(APPRUN, extra);
    ApprunQuoted(extra);
    var len4 := (len1 - len2 + len3) + 1;
    if len4 > ARG_MAX { return Failure(E2BIG); }
    var tmp := new char[len1 + len3 + 1];
    QuoteCmdline(tmp, argv, index, extra);
    var rest := StringAt(tmp, len2, Quoted(args, extra));
    assert rest == Quoted(args[1..], extra);
    var s := [SQ] + APPRUN + [SQ, ' '] + rest;
    if extra {
      ghost var line := [APPRUN] + argv[index + 1..];
      QuotedCons(line, true);
      assert line[1..] == argv[index + 1..];
      RoundTrip(line);
    }
    r := Success(s);
  }

  lemma QuotedOne(arg: string, extra: bool)
    ensures Quoted([arg], extra) == QuotedArg(arg, extra)
  {
    QuotedCons([arg], extra);
    assert Quoted([arg][1..], extra) == "";
  }

  lemma {:induction false} NoSQWritten(arg: string, j: nat, extra: bool)
    requires j <= |arg| && SQ !in arg
    ensures Written(arg, j, extra) == (if extra && j > 0 then [SQ] else []) + arg[..j]
  {
    if j > 0 {
      NoSQWritten(arg, j-1, extra);
      assert arg[..j] == arg[..j-1] + [arg[j-1]];
    }
  }

  lemma ApprunQuoted(extra: bool)
    ensures QuotedArg(APPRUN, extra) == if extra then [SQ] + APPRUN + [SQ, ' '] else APPRUN + " "
  {
    NoSQWritten(APPRUN, |APPRUN|, extra);
    assert APPRUN[..|APPRUN|] == APPRUN;
  }
}
