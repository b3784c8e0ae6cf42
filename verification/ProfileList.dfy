/**
 Model of the comma lists of src/firejail/profile.c.  A list is rewritten in
 place: redundant commas are dropped, each comma becomes a terminator, a table
 of pointers into the text is filtered by the operators, and what is left is
 copied back to the front of the same text.

 The reference is `Fold`, which goes through the items from left to right:
   item or +item   appended unless empty or present
   -item           removed
   =item           the list is emptied, then item is appended unless empty
 */
module ProfileList {
  import opened Strings
  import opened Wrappers

  const COMMA: char := ','

  // profile.c
  const MAX_LIST := 16384

  // ---------------------------------------------------------------------
  // The reference
  // ---------------------------------------------------------------------

  predicate IsOp(c: char) { c == '-' || c == '+' || c == '=' }

  predicate HasOp(item: string) { item != "" && IsOp(item[0]) }

  function Insert(list: seq<string>, x: string): seq<string> {
    if x == "" || x in list then list else list + [x]
  }

  /** Removes the first occurrence. */
  function Remove(list: seq<string>, x: string): seq<string> {
    if list == [] then []
    else if list[0] == x then list[1..]
    else [list[0]] + Remove(list[1..], x)
  }

  function Apply(list: seq<string>, item: string): seq<string> {
    if item == "" then list
    else if item[0] == '-' then Remove(list, item[1..])
    else if item[0] == '+' then Insert(list, item[1..])
    else if item[0] == '=' then Insert([], item[1..])
    else Insert(list, item)
  }

  function Fold(list: seq<string>, items: seq<string>): seq<string>
    decreases |items|
  {
    if items == [] then list
    else Apply(Fold(list, items[..|items|-1]), items[|items|-1])
  }

  /** What profile_list_compress leaves of a text. */
  function Compressed(s: string): string {
    Join(Fold([], Split(s, COMMA)), COMMA)
  }

  lemma {:induction false} FoldAppend(list: seq<string>, s: seq<string>, t: seq<string>)
    ensures Fold(list, s + t) == Fold(Fold(list, s), t)
    decreases |t|
  {
    if t == [] {
      assert s + t == s;
    } else {
      assert (s + t)[..|s + t|-1] == s + t[..|t|-1];
      FoldAppend(list, s, t[..|t|-1]);
    }
  }

  lemma FoldOne(list: seq<string>, item: string)
    ensures Fold(list, [item]) == Apply(list, item)
  {
    assert [item][..0] == [];
  }

  lemma FoldCons(list: seq<string>, items: seq<string>)
    requires items != []
    ensures Fold(list, items) == Fold(Apply(list, items[0]), items[1..])
  {
    FoldOne(list, items[0]);
    assert [items[0]] + items[1..] == items;
    FoldAppend(list, [items[0]], items[1..]);
  }

  // ---------------------------------------------------------------------
  // What holds of every list
  // ---------------------------------------------------------------------

  predicate Distinct(list: seq<string>) {
    forall i, j | 0 <= i < j < |list| :: list[i] != list[j]
  }

  /** Items are non-empty, without a comma or a terminator, and distinct. */
  predicate Proper(list: seq<string>) {
    && Distinct(list)
    && forall i | 0 <= i < |list| :: list[i] != "" && COMMA !in list[i] && CString(list[i])
  }

  predicate Pieces(items: seq<string>) {
    forall i | 0 <= i < |items| :: COMMA !in items[i] && CString(items[i])
  }

  lemma {:induction false} RemoveProper(list: seq<string>, x: string)
    requires Proper(list)
    ensures Proper(Remove(list, x))
    ensures forall y :: y in Remove(list, x) <==> y in list && y != x
    ensures |Remove(list, x)| <= |list|
  {
    if list != [] && list[0] != x {
      RemoveProper(list[1..], x);
      assert list[0] !in list[1..];
      assert list[0] !in Remove(list[1..], x);
      forall y ensures y in list[1..] <==> y in list && y != list[0] {
        if y in list && y != list[0] {
          var i :| 0 <= i < |list| && list[i] == y;
          assert list[1..][i-1] == y;
        }
      }
    } else if list != [] {
      forall y ensures y in list[1..] <==> y in list && y != x {
        if y in list && y != x {
          var i :| 0 <= i < |list| && list[i] == y;
          assert list[1..][i-1] == y;
        }
      }
    }
  }

  lemma ApplyProper(list: seq<string>, item: string)
    requires Proper(list) && COMMA !in item && CString(item)
    ensures Proper(Apply(list, item))
  {
    if item != "" { RemoveProper(list, item[1..]); }
  }

  lemma {:induction false} FoldProper(list: seq<string>, items: seq<string>)
    requires Proper(list) && Pieces(items)
    ensures Proper(Fold(list, items))
    decreases |items|
  {
    if items != [] {
      FoldProper(list, items[..|items|-1]);
      ApplyProper(Fold(list, items[..|items|-1]), items[|items|-1]);
    }
  }

  lemma {:induction false} SplitCString(s: string)
    requires CString(s)
    ensures Pieces(Split(s, COMMA))
  {
    if s != "" { SplitCString(s[1..]); }
  }

  // ---------------------------------------------------------------------
  // Compressing a compressed list again, and augmenting
  // ---------------------------------------------------------------------

  predicate Clean(list: seq<string>) {
    forall i | 0 <= i < |list| :: !HasOp(list[i])
  }

  lemma {:induction false} RefoldClean(list: seq<string>)
    requires Proper(list) && Clean(list)
    ensures Fold([], list) == list
  {
    if list != [] {
      var front, last := list[..|list|-1], list[|list|-1];
      RefoldClean(front);
      assert last !in front;
      assert front + [last] == list;
    }
  }

  /** Folding adds at most one item a step, so a list can only be reproduced if
      every one of its items adds itself. */
  lemma {:induction false} RefoldShort(list: seq<string>)
    ensures |Fold([], list)| <= |list|
    ensures |Fold([], list)| == |list| ==>
              && (forall i | 0 <= i < |list| :: list[i] != "")
              && (forall i | 0 <= i < |list| :: Fold([], list)[i] == if HasOp(list[i]) then list[i][1..] else list[i])
  {
    if list != [] {
      var front, last := list[..|list|-1], list[|list|-1];
      RefoldShort(front);
      ApplyShort(Fold([], front), last);
      assert list == front + [last];
    }
  }

  lemma ApplyShort(list: seq<string>, item: string)
    ensures |Apply(list, item)| <= |list| + 1
    ensures |Apply(list, item)| == |list| + 1 ==>
              item != "" && Apply(list, item) == list + [if HasOp(item) then item[1..] else item]
  {
    if item != "" { RemoveShort(list, item[1..]); }
  }

  lemma {:induction false} RemoveShort(list: seq<string>, x: string)
    ensures |Remove(list, x)| <= |list|
  {
    if list != [] { RemoveShort(list[1..], x); }
  }

  /** A list that is folded again is reproduced exactly when none of its items
      starts with an operator. */
  lemma RefoldExact(list: seq<string>)
    requires Proper(list)
    ensures Fold([], list) == list <==> Clean(list)
  {
    if Clean(list) {
      RefoldClean(list);
    } else {
      RefoldShort(list);
    }
  }

  lemma FoldSplitJoin(list: seq<string>)
    requires Proper(list)
    ensures Fold([], Split(Join(list, COMMA), COMMA)) == Fold([], list)
  {
    if list == [] {
      FoldOne([], "");
    } else {
      SplitJoin(list, COMMA);
    }
  }

  /** The text that profile_list_augment compresses. */
  function Augmented(list: string, items: string): string {
    Compressed(list + [COMMA] + items)
  }

  lemma AugmentFold(s: string, items: string)
    requires CString(s)
    ensures var stored := Fold([], Split(s, COMMA));
            Augmented(Compressed(s), items) == Join(Fold(Fold([], stored), Split(items, COMMA)), COMMA)
    ensures Compressed(s + [COMMA] + items) == Join(Fold(Fold([], Split(s, COMMA)), Split(items, COMMA)), COMMA)
  {
    var stored := Fold([], Split(s, COMMA));
    SplitCString(s);
    FoldProper([], Split(s, COMMA));
    SplitAppend(Compressed(s), items, COMMA);
    SplitAppend(s, items, COMMA);
    FoldAppend([], Split(Compressed(s), COMMA), Split(items, COMMA));
    FoldAppend([], Split(s, COMMA), Split(items, COMMA));
    FoldSplitJoin(stored);
  }

  lemma JoinInjective(a: seq<string>, b: seq<string>)
    requires Proper(a) && Proper(b) && Join(a, COMMA) == Join(b, COMMA)
    ensures a == b
  {
    if a != [] { SplitJoin(a, COMMA); }
    if b != [] { SplitJoin(b, COMMA); }
    if a == [] || b == [] {
      assert Split("", COMMA) == [""];
    }
  }

  /** Augmenting a stored list gives the same as compressing all the text at
      once, whatever is added, exactly when no stored item starts with an
      operator. */
  lemma AugmentExact(s: string)
    requires CString(s)
    ensures (forall items: string | CString(items) ::
               Augmented(Compressed(s), items) == Compressed(s + [COMMA] + items))
            <==> Clean(Fold([], Split(s, COMMA)))
  {
    var stored := Fold([], Split(s, COMMA));
    SplitCString(s);
    FoldProper([], Split(s, COMMA));
    RefoldExact(stored);
    if Clean(stored) {
      forall items: string | CString(items)
        ensures Augmented(Compressed(s), items) == Compressed(s + [COMMA] + items)
      {
        AugmentFold(s, items);
      }
    } else {
      AugmentFold(s, "");
      FoldOne(Fold([], stored), "");
      FoldOne(stored, "");
      FoldProper([], stored);
      if Augmented(Compressed(s), "") == Compressed(s + [COMMA] + "") {
        JoinInjective(Fold([], stored), stored);
      }
    }
  }

  /** "++a" stores "+a", which the next call reads as an addition of "a". */
  lemma AugmentCounterexample()
    ensures Compressed("++a") == "+a"
    ensures Augmented(Compressed("++a"), "") == "a"
    ensures Compressed("++a" + [COMMA] + "") == "+a"
  {
    SplitNone("++a", COMMA);
    SplitNone("+a", COMMA);
    SplitNone("", COMMA);
    SplitAppend("++a", "", COMMA);
    SplitAppend("+a", "", COMMA);
    FoldOne([], "++a");
    FoldOne([], "+a");
    assert ["++a", ""][..1] == ["++a"];
    assert ["+a", ""][..1] == ["+a"];
  }

  // No item has a second operator behind its first one.
  predicate SingleOps(items: seq<string>) {
    forall i | 0 <= i < |items| :: HasOp(items[i]) ==> items[i][0] == '-' || !HasOp(items[i][1..])
  }

  lemma {:induction false} FoldKeepsClean(list: seq<string>, items: seq<string>)
    requires Proper(list) && Clean(list) && Pieces(items) && SingleOps(items)
    ensures Clean(Fold(list, items))
    decreases |items|
  {
    if items != [] {
      var front, last := Fold(list, items[..|items|-1]), items[|items|-1];
      FoldKeepsClean(list, items[..|items|-1]);
      FoldProper(list, items[..|items|-1]);
      if last != "" {
        RemoveProper(front, last[1..]);
        forall i | 0 <= i < |Remove(front, last[1..])| ensures !HasOp(Remove(front, last[1..])[i]) {
          assert Remove(front, last[1..])[i] in front;
        }
      }
    }
  }

  /** A run of profile_list_augment calls, starting from no list. */
  function AugmentAll(args: seq<string>): string {
    if args == [] then "" else Augmented(AugmentAll(args[..|args|-1]), args[|args|-1])
  }

  /** Any number of augment calls equals one compress of all arguments joined
      by commas. */
  lemma {:induction false} AugmentAllExact(args: seq<string>)
    requires forall i | 0 <= i < |args| :: CString(args[i]) && SingleOps(Split(args[i], COMMA))
    ensures AugmentAll(args) == Compressed(Join(args, COMMA))
    ensures CString(Join(args, COMMA)) && Clean(Fold([], Split(Join(args, COMMA), COMMA)))
  {
    if args == [] {
      FoldOne([], "");
    } else {
      var front, last := args[..|args|-1], args[|args|-1];
      AugmentAllExact(front);
      assert front + [last] == args;
      JoinSnoc(front, last, COMMA);
      SplitCString(last);
      if front == [] {
        assert AugmentAll(front) == "" == Compressed("") by { FoldOne([], ""); }
        assert "" + [COMMA] + last == [COMMA] + last;
        AugmentFold("", last);
        FoldOne([], "");
        FoldKeepsClean([], Split(last, COMMA));
      } else {
        var all := Join(front, COMMA);
        AugmentExact(all);
        SplitAppend(all, last, COMMA);
        SplitCString(all);
        FoldProper([], Split(all, COMMA));
        FoldAppend([], Split(all, COMMA), Split(last, COMMA));
        FoldKeepsClean(Fold([], Split(all, COMMA)), Split(last, COMMA));
      }
    }
  }

  // ---------------------------------------------------------------------
  // Removing redundant commas
  // ---------------------------------------------------------------------

  function SkipCommas(s: string): string {
    if s != "" && s[0] == COMMA then SkipCommas(s[1..]) else s
  }

  /** What the main loop of profile_list_normalize makes of the rest of the text. */
  function Normalized(s: string): string
    decreases |s|
  {
    if s == "" then ""
    else if s[0] != COMMA then [s[0]] + Normalized(s[1..])
    else
      SkipShorter(s);
      var rest := SkipCommas(s);
      if rest == "" then "" else [COMMA] + Normalized(rest)
  }

  lemma {:induction false} SkipShorter(s: string)
    ensures |SkipCommas(s)| <= |s|
    ensures s != "" && s[0] == COMMA ==> |SkipCommas(s)| < |s|
    ensures SkipCommas(s) != "" ==> SkipCommas(s)[0] != COMMA
    ensures SkipCommas(s) == s[|s| - |SkipCommas(s)|..]
  {
    if s != "" && s[0] == COMMA { SkipShorter(s[1..]); }
  }

  /** What profile_list_normalize leaves of a text. */
  function NormalForm(s: string): string {
    Normalized(SkipCommas(s))
  }

  function NonEmpty(items: seq<string>): seq<string> {
    if items == [] then []
    else if items[0] == "" then NonEmpty(items[1..])
    else [items[0]] + NonEmpty(items[1..])
  }

  lemma {:induction false} SkipItems(s: string)
    ensures NonEmpty(Split(SkipCommas(s), COMMA)) == NonEmpty(Split(s, COMMA))
  {
    if s != "" && s[0] == COMMA {
      SkipItems(s[1..]);
      assert Split(s, COMMA)[1..] == Split(s[1..], COMMA);
    }
  }

  lemma JoinHead(x: string, rest: seq<string>)
    ensures Join([x] + rest, COMMA) == x + if rest == [] then "" else [COMMA] + Join(rest, COMMA)
  {
    assert ([x] + rest)[1..] == rest;
  }

  lemma {:induction false} NormalizedItems(s: string)
    ensures var items := NonEmpty(Split(s, COMMA));
            Normalized(s) ==
              if s != "" && s[0] == COMMA && items != [] then [COMMA] + Join(items, COMMA) else Join(items, COMMA)
    decreases |s|
  {
    if s == "" {
    } else if s[0] == COMMA {
      SkipShorter(s);
      SkipItems(s);
      NormalizedItems(SkipCommas(s));
      if SkipCommas(s) != "" { NonEmptyHead(SkipCommas(s)); }
    } else {
      NormalizedItems(s[1..]);
      NormalizedOther(s);
    }
  }

  lemma HeadItem(s: string)
    ensures Split(s, COMMA)[0] == "" <==> s == "" || s[0] == COMMA
    ensures s == "" ==> NonEmpty(Split(s, COMMA)) == []
  {
  }

  /** The text of the items, with a comma in front when the first one is empty. */
  function Tail(h: string, items: seq<string>): string {
    if h == "" && items != [] then [COMMA] + Join(items, COMMA) else Join(items, COMMA)
  }

  /** One more character in front of the first item. */
  lemma LongerHead(c: char, h: string, tail: seq<string>)
    ensures [c] + Tail(h, NonEmpty([h] + tail)) == Join(NonEmpty([[c] + h] + tail), COMMA)
  {
    var more := NonEmpty(tail);
    var t := if more == [] then "" else [COMMA] + Join(more, COMMA);
    FirstItem([c] + h, tail);
    if h != "" {
      FirstItem(h, tail);
      assert [c] + h + t == [c] + (h + t);
    } else {
      assert ([h] + tail)[1..] == tail;
      assert [c] + h == [c];
    }
  }

  lemma NormalizedOther(s: string)
    requires s != "" && s[0] != COMMA
    requires var items := NonEmpty(Split(s[1..], COMMA));
             Normalized(s[1..]) ==
               if s[1..] != "" && s[1] == COMMA && items != [] then [COMMA] + Join(items, COMMA) else Join(items, COMMA)
    ensures Normalized(s) == Join(NonEmpty(Split(s, COMMA)), COMMA)
  {
    var rest := Split(s[1..], COMMA);
    assert rest == [rest[0]] + rest[1..];
    HeadItem(s[1..]);
    LongerHead(s[0], rest[0], rest[1..]);
  }

  lemma FirstItem(x: string, rest: seq<string>)
    requires x != ""
    ensures NonEmpty([x] + rest) == [x] + NonEmpty(rest)
    ensures Join(NonEmpty([x] + rest), COMMA) ==
              x + if NonEmpty(rest) == [] then "" else [COMMA] + Join(NonEmpty(rest), COMMA)
  {
    assert ([x] + rest)[1..] == rest;
    JoinHead(x, NonEmpty(rest));
  }

  lemma NonEmptyHead(s: string)
    requires s != "" && s[0] != COMMA
    ensures NonEmpty(Split(s, COMMA)) != []
  {
  }

  lemma {:induction false} FoldNonEmpty(list: seq<string>, items: seq<string>)
    ensures Fold(list, NonEmpty(items)) == Fold(list, items)
    decreases |items|
  {
    if items != [] {
      FoldCons(list, items);
      FoldNonEmpty(Apply(list, items[0]), items[1..]);
      if items[0] != "" {
        FoldCons(list, [items[0]] + NonEmpty(items[1..]));
        assert ([items[0]] + NonEmpty(items[1..]))[1..] == NonEmpty(items[1..]);
      }
    }
  }

  lemma {:induction false} NonEmptyFree(items: seq<string>)
    requires Free(items, COMMA)
    ensures Free(NonEmpty(items), COMMA)
  {
    if items != [] { NonEmptyFree(items[1..]); }
  }

  /** Dropping redundant commas keeps the meaning of the list. */
  lemma NormalizeKeepsFold(s: string)
    ensures Fold([], Split(NormalForm(s), COMMA)) == Fold([], Split(s, COMMA))
    ensures NormalForm(s) == Join(NonEmpty(Split(s, COMMA)), COMMA)
  {
    SkipShorter(s);
    SkipItems(s);
    NormalizedItems(SkipCommas(s));
    FoldNonEmpty([], Split(s, COMMA));
    SplitFree(s, COMMA);
    NonEmptyFree(Split(s, COMMA));
    if NonEmpty(Split(s, COMMA)) == [] {
      FoldOne([], "");
    } else {
      SplitJoin(NonEmpty(Split(s, COMMA)), COMMA);
    }
  }

  /** The text s and its terminator stand at the front of the buffer. */
  ghost predicate Holds(list: array<char>, s: string)
    reads list
  {
    CString(s) && |s| < list.Length && list[..|s|] == s && list[|s|] == NUL
  }

  lemma SkipStep(s: string, i: nat)
    requires i < |s| && s[i] == COMMA
    ensures SkipCommas(s[i..]) == SkipCommas(s[i + 1..])
  {
    assert s[i..][1..] == s[i + 1..];
  }

  /** From i on the buffer still holds the rest of s. */
  ghost predicate Unread(list: array<char>, s: string, i: int)
    reads list
  {
    && CString(s) && 0 <= i <= |s| < list.Length
    && (forall k | i <= k < |s| :: list[k] == s[k])
    && list[|s|] == NUL
  }

  method SkipRun(list: array<char>, from: nat, ghost s: string) returns (i: nat)
    requires Unread(list, s, from)
    ensures from <= i <= |s| && s[i..] == SkipCommas(s[from..])
  {
    i := from;
    while list[i] == COMMA
      invariant from <= i <= |s|
      invariant SkipCommas(s[from..]) == SkipCommas(s[i..])
      decreases |s| - i
    {
      SkipStep(s, i);
      i := i + 1;
    }
  }

  lemma NormalizedStep(s: string, i: nat)
    requires i < |s|
    ensures s[i] != COMMA ==> Normalized(s[i..]) == [s[i]] + Normalized(s[i + 1..])
    ensures s[i] == COMMA ==>
              Normalized(s[i..]) ==
                var rest := SkipCommas(s[i + 1..]); if rest == "" then "" else [COMMA] + Normalized(rest)
  {
    assert s[i..][1..] == s[i + 1..];
    if s[i] == COMMA { SkipStep(s, i); }
  }

  lemma Advance(out: string, s: string, i: nat, k: nat)
    requires i < |s| && k <= |s| && s[k..] == if s[i] == COMMA then SkipCommas(s[i + 1..]) else s[i + 1..]
    ensures s[i] == COMMA && k == |s| ==> out + Normalized(s[i..]) == out
    ensures s[i] == COMMA ==> k == |s| || out + Normalized(s[i..]) == out + [s[i]] + Normalized(s[k..])
    ensures s[i] != COMMA ==> out + Normalized(s[i..]) == out + [s[i]] + Normalized(s[k..])
  {
    NormalizedStep(s, i);
  }

  /** The text `out` stands in front of the part that is still to be read. */
  ghost predicate Rewriting(list: array<char>, s: string, i: int, j: int, out: string, tail: seq<char>)
    reads list
  {
    && Unread(list, s, i) && 0 <= j == |out| <= i && CString(out)
    && list[..j] == out && list[|s| + 1..] == tail
  }

  method Emit(list: array<char>, j: int, c: char,
              ghost s: string, ghost i: int, ghost out: string, ghost tail: seq<char>)
    requires Rewriting(list, s, i, j, out, tail) && j < i && c != NUL
    modifies list
    ensures Rewriting(list, s, i, j + 1, out + [c], tail)
  {
    list[j] := c;
  }

  method Terminate(list: array<char>, j: int, ghost s: string, ghost out: string, ghost tail: seq<char>)
    requires Rewriting(list, s, |s|, j, out, tail)
    modifies list
    ensures Holds(list, out) && list[|s| + 1..] == tail
  {
    list[j] := NUL;
  }

  method Normalize(list: array<char>, ghost s: string)
    requires Holds(list, s)
    modifies list
    ensures Holds(list, NormalForm(s)) && |NormalForm(s)| <= |s|
    ensures list[|s| + 1..] == old(list[|s| + 1..])
  {
    ghost var tail, out := list[|s| + 1..], "";
    assert s[0..] == s;
    var i := SkipRun(list, 0, s);
    var j := 0;
    while list[i] != NUL
      invariant Rewriting(list, s, i, j, out, tail)
      invariant out + Normalized(s[i..]) == NormalForm(s)
      decreases |s| - i
    {
      var c := list[i];
      ghost var from := i;
      i := i + 1;
      if c == COMMA {
        i := SkipRun(list, i, s);
        Advance(out, s, from, i);
        if list[i] == NUL { break; }
      } else {
        Advance(out, s, from, i);
      }
      Emit(list, j, c, s, i, out, tail);
      out := out + [c];
      j := j + 1;
    }
    assert i == |s| && out == NormalForm(s);
    Terminate(list, j, s, out, tail);
  }

  // ---------------------------------------------------------------------
  // The table of items
  // ---------------------------------------------------------------------

  /** Where the items of a text that stands at `off` start. */
  function Starts(t: string, off: nat): (starts: seq<nat>)
    ensures |starts| == |Split(t, COMMA)|
  {
    if t == "" then [off]
    else if t[0] == COMMA then [off] + Starts(t[1..], off + 1)
    else [off] + Starts(t[1..], off + 1)[1..]
  }

  lemma {:induction false} StartsSnoc(t: string, c: char, off: nat)
    ensures Starts(t + [c], off) == Starts(t, off) + if c == COMMA then [off + |t| + 1] else []
  {
    if t == "" {
      assert t + [c] == [c];
    } else {
      assert (t + [c])[1..] == t[1..] + [c];
      StartsSnoc(t[1..], c, off + 1);
    }
  }

  lemma StartsStep(t: string, i: nat)
    requires i < |t|
    ensures Starts(t[..i+1], 0) == Starts(t[..i], 0) + if t[i] == COMMA then [i + 1] else []
  {
    assert t[..i+1] == t[..i] + [t[i]];
    StartsSnoc(t[..i], t[i], 0);
  }

  /** The commas of t, which stands at `off`, have become terminators. */
  ghost predicate Zapped(b: seq<char>, t: string, off: nat) {
    && CString(t) && off + |t| < |b| && b[off + |t|] == NUL
    && forall k | 0 <= k < |t| :: b[off + k] == if t[k] == COMMA then NUL else t[k]
  }

  lemma ZappedTail(b: seq<char>, t: string, off: nat)
    requires Zapped(b, t, off) && t != ""
    ensures Zapped(b, t[1..], off + 1)
    ensures b[off] == if t[0] == COMMA then NUL else t[0]
  {
    assert b[off + 0] == if t[0] == COMMA then NUL else t[0];
    forall k | 0 <= k < |t[1..]| ensures b[off + 1 + k] == if t[1..][k] == COMMA then NUL else t[1..][k] {
      assert b[off + (k + 1)] == if t[k + 1] == COMMA then NUL else t[k + 1];
    }
  }

  /** Item k of t, which stands at `off`, can be read at its start, and the next
      item follows its terminator. */
  predicate Laid(b: seq<char>, t: string, off: nat, k: nat)
    requires k < |Split(t, COMMA)|
  {
    var items, starts := Split(t, COMMA), Starts(t, off);
    && off <= starts[k] && starts[k] + |items[k]| < |b|
    && StrAt(b, starts[k]) == items[k]
    && CString(items[k])
    && starts[k] + |items[k]| + 1 == if k + 1 < |items| then starts[k + 1] else off + |t| + 1
  }

  /** One more comma, or one more character of the first item, in front. */
  lemma LaidComma(b: seq<char>, t: string, off: nat, k: nat)
    requires Zapped(b, t, off) && t != "" && t[0] == COMMA && k < |Split(t, COMMA)|
    requires if k == 0 then Starts(t[1..], off + 1)[0] == off + 1 else Laid(b, t[1..], off + 1, k - 1)
    ensures Laid(b, t, off, k)
  {
    ZappedTail(b, t, off);
  }

  lemma LaidOther(b: seq<char>, t: string, off: nat, k: nat)
    requires Zapped(b, t, off) && t != "" && t[0] != COMMA && k < |Split(t, COMMA)|
    requires Laid(b, t[1..], off + 1, k) && Starts(t[1..], off + 1)[0] == off + 1
    ensures Laid(b, t, off, k)
  {
    ZappedTail(b, t, off);
    var rest, starts := Split(t[1..], COMMA), Starts(t[1..], off + 1);
    assert Split(t, COMMA) == [[t[0]] + rest[0]] + rest[1..] && Starts(t, off) == [off] + starts[1..];
    if k == 0 {
      assert StrAt(b, off) == [b[off]] + StrAt(b, off + 1);
    } else {
      assert Split(t, COMMA)[k] == rest[k] && Starts(t, off)[k] == starts[k];
    }
  }

  lemma {:induction false} ZappedLaid(b: seq<char>, t: string, off: nat, k: nat)
    requires Zapped(b, t, off) && k < |Split(t, COMMA)|
    ensures Laid(b, t, off, k) && Starts(t, off)[0] == off
  {
    if t != "" {
      ZappedTail(b, t, off);
      if t[0] == COMMA {
        ZappedLaid(b, t[1..], off + 1, if k == 0 then 0 else k - 1);
        LaidComma(b, t, off, k);
      } else {
        ZappedLaid(b, t[1..], off + 1, k);
        LaidOther(b, t, off, k);
      }
    }
  }

  method CountItems(list: array<char>, ghost t: string) returns (count: nat)
    requires Holds(list, t)
    ensures count == |Split(t, COMMA)|
  {
    count := 1;
    var i := 0;
    while list[i] != NUL
      invariant 0 <= i <= |t| && Unread(list, t, 0)
      invariant count == |Starts(t[..i], 0)|
      decreases |t| - i
    {
      StartsStep(t, i);
      if list[i] == COMMA { count := count + 1; }
      i := i + 1;
    }
    assert i == |t| && t[..i] == t;
  }

  ghost predicate Collected(list: array<char>, t: string, i: int)
    reads list
  {
    && Unread(list, t, i)
    && forall k | 0 <= k < i :: list[k] == if t[k] == COMMA then NUL else t[k]
  }

  lemma {:induction false} StartsCount(t: string, i: nat)
    requires i <= |t|
    ensures |Starts(t[..i], 0)| <= |Starts(t, 0)|
    decreases |t| - i
  {
    if i == |t| {
      assert t[..i] == t;
    } else {
      StartsStep(t, i);
      StartsCount(t, i + 1);
    }
  }

  /** A comma ends an item and starts the next one. */
  method CutItem(list: array<char>, slots: array<int>, i: nat, count: nat, ghost t: string)
    requires Collected(list, t, i) && i < |t| && t[i] == COMMA && count < slots.Length
    modifies list, slots
    ensures Collected(list, t, i + 1) && list[|t| + 1..] == old(list[|t| + 1..])
    ensures slots[..count + 1] == old(slots[..count]) + [i + 1]
  {
    list[i] := NUL;
    slots[count] := i + 1;
  }

  method CollectItems(list: array<char>, slots: array<int>, ghost t: string)
    requires Holds(list, t) && slots.Length == |Split(t, COMMA)|
    modifies list, slots
    ensures Zapped(list[..], t, 0) && slots[..] == Starts(t, 0)
    ensures list[|t| + 1..] == old(list[|t| + 1..])
  {
    ghost var tail := list[|t| + 1..];
    slots[0] := 0;
    var count := 1;
    var i := 0;
    while list[i] != NUL
      invariant Collected(list, t, i)
      invariant count == |Starts(t[..i], 0)| <= slots.Length
      invariant slots[..count] == Starts(t[..i], 0)
      invariant list[|t| + 1..] == tail
      decreases |t| - i
    {
      StartsStep(t, i);
      StartsCount(t, i + 1);
      if list[i] == COMMA {
        CutItem(list, slots, i, count, t);
        count := count + 1;
      }
      i := i + 1;
    }
    assert t[..i] == t;
    CollectedZapped(list, t);
    assert slots[..] == slots[..count];
  }

  lemma CollectedZapped(list: array<char>, t: string)
    requires Collected(list, t, |t|)
    ensures Zapped(list[..], t, 0)
  {
  }

  // ---------------------------------------------------------------------
  // Filtering the table
  // ---------------------------------------------------------------------

  const NULL := -1

  /** A pointer of the table as the item it stands for. */
  function Slot(b: seq<char>, p: int): Option<string> {
    if p < 0 then None else Some(StrAt(b, p))
  }

  /** The items still in the table, in order. */
  function Live(b: seq<char>, ps: seq<int>): seq<string> {
    if ps == [] then []
    else
      var front, last := Live(b, ps[..|ps|-1]), Slot(b, ps[|ps|-1]);
      if last.Some? then front + [last.value] else front
  }

  lemma LiveSnoc(b: seq<char>, ps: seq<int>, p: int)
    ensures Live(b, ps + [p]) == if p < 0 then Live(b, ps) else Live(b, ps) + [StrAt(b, p)]
  {
    assert (ps + [p])[..|ps|] == ps;
  }

  lemma {:induction false} LiveAppend(b: seq<char>, ps: seq<int>, qs: seq<int>)
    ensures Live(b, ps + qs) == Live(b, ps) + Live(b, qs)
    decreases |qs|
  {
    if qs == [] {
      assert ps + qs == ps;
    } else {
      assert (ps + qs)[..|ps + qs|-1] == ps + qs[..|qs|-1];
      LiveAppend(b, ps, qs[..|qs|-1]);
    }
  }

  lemma {:induction false} LiveHas(b: seq<char>, ps: seq<int>, x: string)
    ensures x in Live(b, ps) <==> exists k :: 0 <= k < |ps| && Slot(b, ps[k]) == Some(x)
  {
    if ps != [] {
      var front, n := ps[..|ps|-1], |ps| - 1;
      LiveHas(b, front, x);
      if exists k :: 0 <= k < |ps| && Slot(b, ps[k]) == Some(x) {
        var k :| 0 <= k < |ps| && Slot(b, ps[k]) == Some(x);
        if k < n { assert Slot(b, front[k]) == Some(x); }
      }
      if x in Live(b, front) {
        var k :| 0 <= k < |front| && Slot(b, front[k]) == Some(x);
        assert Slot(b, ps[k]) == Some(x);
      }
    }
  }

  lemma {:induction false} RemoveMiddle(s: seq<string>, x: string, t: seq<string>)
    requires x !in s
    ensures Remove(s + [x] + t, x) == s + t
  {
    if s == [] {
      assert s + [x] + t == [x] + t;
    } else {
      var all := s + [x] + t;
      assert all[0] == s[0] && all[1..] == s[1..] + [x] + t;
      assert s + t == [s[0]] + (s[1..] + t);
      RemoveMiddle(s[1..], x, t);
    }
  }

  lemma {:induction false} RemoveAbsent(s: seq<string>, x: string)
    requires x !in s
    ensures Remove(s, x) == s
  {
    if s != [] { RemoveAbsent(s[1..], x); }
  }

  /** Clearing the first slot that holds x removes x from the list. */
  lemma LiveRemove(b: seq<char>, ps: seq<int>, k: nat, x: string)
    requires k < |ps| && Slot(b, ps[k]) == Some(x)
    requires forall m | 0 <= m < k :: Slot(b, ps[m]) != Some(x)
    ensures Live(b, ps[k := NULL]) == Remove(Live(b, ps), x)
  {
    var front, rest := ps[..k], ps[k + 1..];
    assert ps == front + [ps[k]] + rest;
    assert ps[k := NULL] == front + [NULL] + rest;
    LiveAppend(b, front + [ps[k]], rest);
    LiveAppend(b, front + [NULL], rest);
    LiveSnoc(b, front, ps[k]);
    LiveSnoc(b, front, NULL);
    LiveHas(b, front, x);
    RemoveMiddle(Live(b, front), x, Live(b, rest));
  }

  lemma {:induction false} LiveNone(b: seq<char>, ps: seq<int>)
    requires forall k | 0 <= k < |ps| :: ps[k] < 0
    ensures Live(b, ps) == []
  {
    if ps != [] { LiveNone(b, ps[..|ps|-1]); }
  }

  /** The first slot below i that holds the item, or i. */
  method FindSlot(list: array<char>, slots: array<int>, i: nat, item: nat, ghost b: seq<char>, ghost ps: seq<int>)
    returns (k: nat)
    requires i <= slots.Length && b == list[..] && ps == slots[..i]
    ensures k <= i
    ensures k < i ==> Slot(b, ps[k]) == Some(StrAt(b, item))
    ensures forall m | 0 <= m < k :: Slot(b, ps[m]) != Some(StrAt(b, item))
  {
    k := 0;
    while k < i
      invariant 0 <= k <= i
      invariant forall m | 0 <= m < k :: Slot(b, ps[m]) != Some(StrAt(b, item))
    {
      if slots[k] >= 0 && StrAt(list[..], slots[k]) == StrAt(list[..], item) { return; }
      k := k + 1;
    }
  }

  /** Slot k is empty or points at item k, past its operator if it has one, and
      what it points at is not empty. */
  predicate Pointer(p: int, item: string, start: nat) {
    p == NULL || (p == start && item != "") || (p == start + 1 && |item| > 1)
  }

  /** The items stand in the buffer, and the slots point at them. */
  ghost predicate Table(b: seq<char>, ps: seq<int>, t: string, i: nat) {
    var items, starts := Split(t, COMMA), Starts(t, 0);
    && |ps| == |items| && i <= |ps|
    && (forall k | 0 <= k < |items| :: Laid(b, t, 0, k))
    && (forall k | 0 <= k < i :: Pointer(ps[k], items[k], starts[k]))
    && (forall k | i <= k < |ps| :: ps[k] == starts[k])
  }

  /** The first i items have been folded into the first i slots. */
  ghost predicate Filtered(b: seq<char>, ps: seq<int>, t: string, i: nat) {
    Table(b, ps, t, i) && Live(b, ps[..i]) == Fold([], Split(t, COMMA)[..i])
  }

  lemma TableStep(b: seq<char>, ps: seq<int>, ps': seq<int>, t: string, i: nat, p: int)
    requires Table(b, ps, t, i) && i < |ps|
    requires |ps'| == i && forall k | 0 <= k < i :: ps'[k] == NULL || ps'[k] == ps[k]
    requires Pointer(p, Split(t, COMMA)[i], Starts(t, 0)[i])
    ensures Table(b, ps' + [p] + ps[i + 1..], t, i + 1)
  {
  }

  lemma FoldStep(items: seq<string>, i: nat)
    requires i < |items|
    ensures Fold([], items[..i+1]) == Apply(Fold([], items[..i]), items[i])
  {
    assert items[..i+1][..i] == items[..i];
  }

  lemma StrAtTail(b: seq<char>, at: nat, s: string)
    requires StrAt(b, at) == s && s != ""
    ensures StrAt(b, at + 1) == s[1..] && at < |b| && b[at] == s[0]
  {
  }

  /** The table after one item: `p` is the new slot i and `ps'` the slots before it. */
  lemma FilteredStep(b: seq<char>, ps: seq<int>, ps': seq<int>, t: string, i: nat, p: int)
    requires Filtered(b, ps, t, i) && i < |ps|
    requires |ps'| == i && forall k | 0 <= k < i :: ps'[k] == NULL || ps'[k] == ps[k]
    requires Pointer(p, Split(t, COMMA)[i], Starts(t, 0)[i])
    requires (if p < 0 then Live(b, ps') else Live(b, ps') + [StrAt(b, p)])
             == Apply(Live(b, ps[..i]), Split(t, COMMA)[i])
    ensures Filtered(b, ps' + [p] + ps[i + 1..], t, i + 1)
  {
    assert (ps' + [p] + ps[i + 1..])[..i + 1] == ps' + [p];
    TableStep(b, ps, ps', t, i, p);
    FoldStep(Split(t, COMMA), i);
    LiveSnoc(b, ps', p);
  }

  /** The slots below i, without the one that was found. */
  function Without(ps: seq<int>, k: nat): seq<int> {
    if k < |ps| then ps[k := NULL] else ps
  }

  lemma WithoutRemoves(b: seq<char>, ps: seq<int>, k: nat, x: string)
    requires k <= |ps| && forall m | 0 <= m < k :: Slot(b, ps[m]) != Some(x)
    requires k < |ps| ==> Slot(b, ps[k]) == Some(x)
    ensures Live(b, Without(ps, k)) == Remove(Live(b, ps), x)
  {
    if k < |ps| {
      LiveRemove(b, ps, k, x);
    } else {
      LiveHas(b, ps, x);
      RemoveAbsent(Live(b, ps), x);
    }
  }

  lemma ApplyRemove(list: seq<string>, item: string)
    requires item != "" && item[0] == '-'
    ensures Apply(list, item) == Remove(list, item[1..])
  {
  }

  lemma RemoveStep(b: seq<char>, ps: seq<int>, t: string, i: nat, k: nat)
    requires Filtered(b, ps, t, i) && i < |ps| && Split(t, COMMA)[i] != "" && Split(t, COMMA)[i][0] == '-'
    requires Live(b, Without(ps[..i], k)) == Remove(Live(b, ps[..i]), Split(t, COMMA)[i][1..])
    ensures Filtered(b, Without(ps[..i], k) + [NULL] + ps[i + 1..], t, i + 1)
  {
    ApplyRemove(Live(b, ps[..i]), Split(t, COMMA)[i]);
    FilteredStep(b, ps, Without(ps[..i], k), t, i, NULL);
  }

  method FilterRemove(list: array<char>, slots: array<int>, i: nat, ghost t: string)
    requires i < slots.Length && Filtered(list[..], slots[..], t, i)
    requires Split(t, COMMA)[i] != "" && Split(t, COMMA)[i][0] == '-'
    modifies slots
    ensures Filtered(list[..], slots[..], t, i + 1)
  {
    ghost var b, ps, x := list[..], slots[..], Split(t, COMMA)[i];
    assert Laid(b, t, 0, i);
    StrAtTail(b, slots[i], x);
    var item := slots[i] + 1;
    slots[i] := NULL;
    var k := FindSlot(list, slots, i, item, b, ps[..i]);
    WithoutRemoves(b, ps[..i], k, x[1..]);
    RemoveStep(b, ps, t, i, k);
    if k < i { slots[k] := NULL; }
    assert slots[..] == Without(ps[..i], k) + [NULL] + ps[i + 1..];
  }

  lemma AddStep(b: seq<char>, ps: seq<int>, t: string, i: nat, item: nat, p: int)
    requires Filtered(b, ps, t, i) && i < |ps|
    requires var x := Split(t, COMMA)[i]; item == ps[i] + if x != "" && x[0] == '+' then 1 else 0
    requires var x := Split(t, COMMA)[i]; x != "" ==> x[0] != '-' && x[0] != '='
    requires p == if StrAt(b, item) == "" || StrAt(b, item) in Live(b, ps[..i]) then NULL else item
    ensures Filtered(b, ps[i := p], t, i + 1)
  {
    assert ps[i := p] == ps[..i] + [p] + ps[i + 1..];
    var x := Split(t, COMMA)[i];
    assert Laid(b, t, 0, i);
    if x != "" { StrAtTail(b, ps[i], x); }
    FilteredStep(b, ps, ps[..i], t, i, p);
  }

  method FilterAdd(list: array<char>, slots: array<int>, i: nat, item: nat, ghost t: string)
    requires i < slots.Length && Filtered(list[..], slots[..], t, i)
    requires var x := Split(t, COMMA)[i]; item == slots[i] + if x != "" && x[0] == '+' then 1 else 0
    requires var x := Split(t, COMMA)[i]; x != "" ==> x[0] != '-' && x[0] != '='
    modifies slots
    ensures Filtered(list[..], slots[..], t, i + 1)
  {
    ghost var b, ps := list[..], slots[..];
    assert Laid(b, t, 0, i);
    slots[i] := item;
    if list[item] == NUL {
      slots[i] := NULL;
    } else {
      var k := FindSlot(list, slots, i, item, b, ps[..i]);
      LiveHas(b, ps[..i], StrAt(b, item));
      if k < i { slots[i] := NULL; }
    }
    AddStep(b, ps, t, i, item, slots[i]);
    assert slots[..] == ps[i := slots[i]];
  }

  method ClearBelow(slots: array<int>, i: nat)
    requires i <= slots.Length
    modifies slots
    ensures forall m | 0 <= m < i :: slots[m] == NULL
    ensures forall m | i <= m < slots.Length :: slots[m] == old(slots[m])
  {
    var k := 0;
    while k < i
      invariant 0 <= k <= i
      invariant forall m | 0 <= m < k :: slots[m] == NULL
      invariant forall m | i <= m < slots.Length :: slots[m] == old(slots[m])
    {
      slots[k] := NULL;
      k := k + 1;
    }
  }

  lemma ResetStep(b: seq<char>, ps: seq<int>, ps': seq<int>, t: string, i: nat, p: int)
    requires Filtered(b, ps, t, i) && i < |ps| && |ps'| == i && forall k | 0 <= k < i :: ps'[k] == NULL
    requires Split(t, COMMA)[i] != "" && Split(t, COMMA)[i][0] == '='
    requires p == if StrAt(b, ps[i] + 1) == "" then NULL else ps[i] + 1
    ensures Filtered(b, ps' + [p] + ps[i + 1..], t, i + 1)
  {
    assert Laid(b, t, 0, i);
    StrAtTail(b, ps[i], Split(t, COMMA)[i]);
    LiveNone(b, ps');
    FilteredStep(b, ps, ps', t, i, p);
  }

  method FilterReset(list: array<char>, slots: array<int>, i: nat, ghost t: string)
    requires i < slots.Length && Filtered(list[..], slots[..], t, i)
    requires Split(t, COMMA)[i] != "" && Split(t, COMMA)[i][0] == '='
    modifies slots
    ensures Filtered(list[..], slots[..], t, i + 1)
  {
    ghost var b, ps := list[..], slots[..];
    assert Laid(b, t, 0, i);
    var item := slots[i] + 1;
    slots[i] := item;
    if list[item] == NUL { slots[i] := NULL; }
    ghost var p := slots[i];
    ClearBelow(slots, i);
    ResetStep(b, ps, slots[..i], t, i, p);
    assert slots[..] == slots[..i] + [p] + ps[i + 1..];
  }

  /** The operator of an item is the character its slot points at. */
  lemma Operator(b: seq<char>, t: string, i: nat, at: int)
    requires i < |Split(t, COMMA)| && Laid(b, t, 0, i) && at == Starts(t, 0)[i]
    ensures 0 <= at < |b|
    ensures b[at] == if Split(t, COMMA)[i] == "" then NUL else Split(t, COMMA)[i][0]
  {
    assert StrAt(b, at) == Split(t, COMMA)[i];
  }

  lemma FilteredStart(b: seq<char>, ps: seq<int>, t: string)
    requires Zapped(b, t, 0) && ps == Starts(t, 0)
    ensures Filtered(b, ps, t, 0)
  {
    forall k | 0 <= k < |Split(t, COMMA)| ensures Laid(b, t, 0, k) { ZappedLaid(b, t, 0, k); }
  }

  method FilterOne(list: array<char>, slots: array<int>, i: nat, ghost t: string)
    requires i < slots.Length && Filtered(list[..], slots[..], t, i)
    modifies slots
    ensures Filtered(list[..], slots[..], t, i + 1)
  {
    Operator(list[..], t, i, slots[..][i]);
    match list[slots[i]] {
      case '-' => FilterRemove(list, slots, i, t);
      case '+' => FilterAdd(list, slots, i, slots[i] + 1, t);
      case '=' => FilterReset(list, slots, i, t);
      case _ => FilterAdd(list, slots, i, slots[i], t);
    }
  }

  method Filter(list: array<char>, slots: array<int>, ghost t: string)
    requires Zapped(list[..], t, 0) && slots[..] == Starts(t, 0)
    modifies slots
    ensures Filtered(list[..], slots[..], t, slots.Length)
  {
    FilteredStart(list[..], slots[..], t);
    var i := 0;
    while i < slots.Length
      invariant 0 <= i <= slots.Length
      invariant Filtered(list[..], slots[..], t, i)
    {
      FilterOne(list, slots, i, t);
      i := i + 1;
    }
  }

  // ---------------------------------------------------------------------
  // Copying back
  // ---------------------------------------------------------------------

  /** `out` has been written in front of the part, from `edge` on, that still
      holds what the table points at. */
  ghost predicate Copying(list: array<char>, b: seq<char>, pos: int, out: string, edge: int)
    reads list
  {
    && |b| == list.Length && 0 <= pos == |out| <= edge <= |b| && CString(out)
    && list[..pos] == out && list[edge..] == b[edge..]
  }

  method CopyChar(list: array<char>, pos: int, c: char, ghost b: seq<char>, ghost out: string, ghost edge: int)
    requires Copying(list, b, pos, out, edge) && pos < edge && c != NUL
    modifies list
    ensures Copying(list, b, pos + 1, out + [c], edge)
  {
    list[pos] := c;
  }

  /** The innermost loop: the item is read at or behind the place it goes to. */
  method CopyItem(list: array<char>, start: int, item: nat, ghost b: seq<char>, ghost out: string)
    returns (pos: int)
    requires Copying(list, b, start, out, item) && item + |StrAt(b, item)| < |b|
    modifies list
    ensures Copying(list, b, pos, out + StrAt(b, item), item + |StrAt(b, item)|)
  {
    ghost var x := StrAt(b, item);
    pos := start;
    var p := item;
    ghost var m := 0;
    assert out + x[..0] == out && x[0..] == x;
    while list[p] != NUL
      invariant 0 <= m <= |x| && p == item + m && pos == start + m
      invariant StrAt(b, p) == x[m..]
      invariant Copying(list, b, pos, out + x[..m], p)
      decreases |x| - m
    {
      assert list[p] == list[p..][0] == b[p];
      StrAtTail(b, p, x[m..]);
      assert x[m..][1..] == x[m + 1..] && out + x[..m + 1] == out + x[..m] + [x[m]];
      Shrink(list, b, pos, out + x[..m], p);
      CopyChar(list, pos, list[p], b, out + x[..m], p + 1);
      p := p + 1;
      pos := pos + 1;
      m := m + 1;
    }
    assert list[p] == list[p..][0] == b[p];
    assert x[..m] == x;
  }

  lemma Shrink(list: array<char>, b: seq<char>, pos: int, out: string, edge: int)
    requires Copying(list, b, pos, out, edge) && edge < |b|
    ensures Copying(list, b, pos, out, edge + 1)
  {
    assert list[edge + 1..] == list[edge..][1..];
    assert b[edge + 1..] == b[edge..][1..];
  }

  lemma {:induction false} ShrinkTo(list: array<char>, b: seq<char>, pos: int, out: string, edge: int, edge': int)
    requires Copying(list, b, pos, out, edge) && edge <= edge' <= |b|
    ensures Copying(list, b, pos, out, edge')
    decreases edge' - edge
  {
    if edge < edge' {
      Shrink(list, b, pos, out, edge);
      ShrinkTo(list, b, pos, out, edge + 1, edge');
    }
  }

  /** Where item i starts, or the end of the text. */
  function Edge(t: string, i: nat): nat
    requires i <= |Split(t, COMMA)|
  {
    if i < |Split(t, COMMA)| then Starts(t, 0)[i] else |t| + 1
  }

  /** What has been copied after the first i slots. */
  ghost predicate Copied(list: array<char>, b: seq<char>, ps: seq<int>, t: string, pos: int, i: nat)
    reads list
  {
    && i <= |ps| == |Split(t, COMMA)|
    && Copying(list, b, pos, Join(Live(b, ps[..i]), COMMA), Edge(t, i))
    && (pos == 0 <==> Live(b, ps[..i]) == [])
    && (pos == 0 || pos < Edge(t, i))
  }

  lemma PointerAt(b: seq<char>, ps: seq<int>, t: string, i: nat)
    requires i < |ps| && Table(b, ps, t, |ps|) && ps[i] != NULL
    ensures Edge(t, i) <= ps[i] && StrAt(b, ps[i]) != "" && CString(StrAt(b, ps[i]))
    ensures ps[i] + |StrAt(b, ps[i])| + 1 == Edge(t, i + 1)
  {
    assert Laid(b, t, 0, i);
    if Split(t, COMMA)[i] != "" { StrAtTail(b, Starts(t, 0)[i], Split(t, COMMA)[i]); }
  }

  lemma EdgeStep(b: seq<char>, ps: seq<int>, t: string, i: nat)
    requires i < |ps| && Table(b, ps, t, |ps|) && |t| < |b|
    ensures Edge(t, i) < Edge(t, i + 1) <= |b|
  {
    assert Laid(b, t, 0, i);
  }

  /** A comma if something is there already, then the item. */
  method CopyJoined(list: array<char>, p: nat, start: int, ghost b: seq<char>, ghost live: seq<string>)
    returns (pos: int)
    requires Copying(list, b, start, Join(live, COMMA), p) && p + |StrAt(b, p)| < |b|
    requires (start == 0 <==> live == []) && (start == 0 || start < p)
    modifies list
    ensures Copying(list, b, pos, Join(live + [StrAt(b, p)], COMMA), p + |StrAt(b, p)|)
  {
    pos := start;
    ghost var out := Join(live, COMMA);
    if pos > 0 {
      CopyChar(list, pos, COMMA, b, out, p);
      pos := pos + 1;
      out := out + [COMMA];
    }
    pos := CopyItem(list, pos, p, b, out);
    JoinSnoc(live, StrAt(b, p), COMMA);
    assert out + StrAt(b, p) == Join(live + [StrAt(b, p)], COMMA);
  }

  /** The same from the end of the item before to the end of this one. */
  method CopyLive(list: array<char>, p: nat, start: int, ghost b: seq<char>, ghost live: seq<string>, ghost edge: nat)
    returns (pos: int)
    requires Copying(list, b, start, Join(live, COMMA), edge) && edge <= p
    requires p + |StrAt(b, p)| < |b| && StrAt(b, p) != ""
    requires (start == 0 <==> live == []) && (start == 0 || start < edge)
    modifies list
    ensures Copying(list, b, pos, Join(live + [StrAt(b, p)], COMMA), p + |StrAt(b, p)| + 1)
    ensures 0 < pos < p + |StrAt(b, p)| + 1
  {
    ShrinkTo(list, b, start, Join(live, COMMA), edge, p);
    pos := CopyJoined(list, p, start, b, live);
    JoinLonger(live, StrAt(b, p));
    Shrink(list, b, pos, Join(live + [StrAt(b, p)], COMMA), p + |StrAt(b, p)|);
  }

  /** One round of the copy loop. */
  method CopySlot(list: array<char>, p: int, start: int,
                  ghost b: seq<char>, ghost ps: seq<int>, ghost t: string, ghost i: nat)
    returns (pos: int)
    requires i < |ps| && p == ps[i] && |t| < |b|
    requires Table(b, ps, t, |ps|) && Copied(list, b, ps, t, start, i)
    modifies list
    ensures Copied(list, b, ps, t, pos, i + 1)
  {
    pos := start;
    ghost var live := Live(b, ps[..i]);
    assert ps[..i + 1] == ps[..i] + [p];
    LiveSnoc(b, ps[..i], p);
    EdgeStep(b, ps, t, i);
    if p == NULL {
      ShrinkTo(list, b, pos, Join(live, COMMA), Edge(t, i), Edge(t, i + 1));
    } else {
      PointerAt(b, ps, t, i);
      pos := CopyLive(list, p, pos, b, live, Edge(t, i));
    }
  }

  lemma JoinLonger(live: seq<string>, x: string)
    requires x != ""
    ensures Join(live + [x], COMMA) != ""
  {
    JoinSnoc(live, x, COMMA);
  }

  method CopyBack(list: array<char>, slots: array<int>, ghost t: string)
    requires Filtered(list[..], slots[..], t, slots.Length) && |t| < list.Length
    modifies list
    ensures Holds(list, Join(Fold([], Split(t, COMMA)), COMMA))
    ensures |Join(Fold([], Split(t, COMMA)), COMMA)| <= |t|
    ensures list[|t| + 1..] == old(list[|t| + 1..])
  {
    ghost var b, ps := list[..], slots[..];
    var pos := 0;
    var i := 0;
    FirstEdge(t);
    while i < slots.Length
      invariant 0 <= i <= slots.Length && ps == slots[..]
      invariant Copied(list, b, ps, t, pos, i)
    {
      pos := CopySlot(list, slots[i], pos, b, ps, t, i);
      i := i + 1;
    }
    assert ps[..i] == ps && Split(t, COMMA)[..i] == Split(t, COMMA);
    list[pos] := NUL;
  }

  lemma FirstEdge(t: string)
    ensures Edge(t, 0) == 0
  {
  }

  // ---------------------------------------------------------------------
  // profile_list_compress and profile_list_augment
  // ---------------------------------------------------------------------

  /** The whole rewriting happens inside the original text. */
  method Compress(list: array<char>, ghost s: string)
    requires Holds(list, s)
    modifies list
    ensures Holds(list, Compressed(s)) && |Compressed(s)| <= |s|
    ensures list[|s| + 1..] == old(list[|s| + 1..])
  {
    ghost var t := NormalForm(s);
    Normalize(list, s);
    ghost var mid := list[..];
    var count := CountItems(list, t);
    var slots := new int[count];
    CollectItems(list, slots, t);
    Filter(list, slots, t);
    CopyBack(list, slots, t);
    NormalizeKeepsFold(s);
    assert list[|s| + 1..] == list[|t| + 1..][|s| - |t|..];
    assert mid[|s| + 1..] == mid[|t| + 1..][|s| - |t|..];
  }

  datatype Error = TooLong

  /** The strlen of the buffer. */
  method Length(list: array<char>, ghost s: string) returns (n: nat)
    requires Holds(list, s)
    ensures n == |s|
  {
    n := 0;
    while list[n] != NUL
      invariant 0 <= n <= |s| && Unread(list, s, 0)
      decreases |s| - n
    {
      n := n + 1;
    }
  }

  method Augment(list: Option<string>, items: Option<string>) returns (r: Result<string, Error>)
    requires list.Some? ==> CString(list.value)
    requires items.Some? ==> CString(items.value)
    ensures var x := if list.Some? then list.value else "";
            var y := if items.Some? then items.value else "";
            r == if |Augmented(x, y)| > MAX_LIST then Failure(TooLong) else Success(Augmented(x, y))
  {
    var x := if list.Some? then list.value else "";
    var y := if items.Some? then items.value else "";
    var text := x + [COMMA] + y;
    var tmp := new char[|text| + 1](k requires 0 <= k <= |text| => if k < |text| then text[k] else NUL);
    assert tmp[..|text|] == text;
    Compress(tmp, text);
    var n := Length(tmp, Augmented(x, y));
    r := if n > MAX_LIST then Failure(TooLong) else Success(tmp[..n]);
  }
}
