/**
 Model of the D-Bus rule checks of src/firejail/dbus.c.  The loops go through
 the text once, with a flag that tells whether a segment has been started; the
 grammar they accept is stated on the segments themselves.
 */
module Dbus {
  import opened Strings
  import opened Wrappers

  const DBUS_MAX_NAME_LENGTH := 255

  predicate Alpha(c: char) { 'a' <= c <= 'z' || 'A' <= c <= 'Z' }

  predicate Digit(c: char) { '0' <= c <= '9' }

  predicate Starts(c: char, hyphens: bool) { Alpha(c) || c == '_' || (hyphens && c == '-') }

  predicate Continues(c: char, hyphens: bool) { Starts(c, hyphens) || Digit(c) }

  // ---------------------------------------------------------------------
  // The grammar
  // ---------------------------------------------------------------------

  predicate AllContinue(s: string, hyphens: bool) {
    forall i | 0 <= i < |s| :: Continues(s[i], hyphens)
  }

  predicate Segment(s: string, hyphens: bool) {
    s != "" && Starts(s[0], hyphens) && AllContinue(s, hyphens)
  }

  /** Segments, the last of which may be a star; without a star there are at least
      `least` of them. */
  predicate Segments(parts: seq<string>, hyphens: bool, least: int)
    requires parts != []
  {
    var n := |parts| - 1;
    && (forall i | 0 <= i < n :: Segment(parts[i], hyphens))
    && (parts[n] == "*" || (Segment(parts[n], hyphens) && |parts| >= least))
  }

  predicate Name(s: string, hyphens: bool) {
    1 <= |s| <= DBUS_MAX_NAME_LENGTH && Segments(Split(s, '.'), hyphens, 2)
  }

  predicate ObjectPath(s: string) {
    s == "/" || (|s| > 1 && s[0] == '/' && Segments(Split(s[1..], '/'), false, 1))
  }

  /** name=interface or name=[interface]@path */
  datatype Rule = Rule(name: string, interface: string, path: Option<string>)

  predicate WellFormed(r: Rule) {
    && Name(r.name, true)
    && (Name(r.interface, false) || (r.interface == "" && r.path.Some?))
    && (r.path.Some? ==> ObjectPath(r.path.value))
  }

  function Text(r: Rule): string {
    r.name + "=" + r.interface + if r.path.Some? then "@" + r.path.value else ""
  }

  // ---------------------------------------------------------------------
  // The recogniser
  // ---------------------------------------------------------------------

  /** What the loop makes of the rest of the text. */
  predicate Scan(s: string, d: char, hyphens: bool, least: int, inSegment: bool, segments: int) {
    if s == "" then inSegment && segments >= least
    else if inSegment then
      if s[0] == d then Scan(s[1..], d, hyphens, least, false, segments + 1)
      else Continues(s[0], hyphens) && Scan(s[1..], d, hyphens, least, true, segments)
    else if s[0] == '*' then |s| == 1
    else Starts(s[0], hyphens) && Scan(s[1..], d, hyphens, least, true, segments)
  }

  predicate Separator(d: char) { d == '.' || d == '/' }

  /** Inside a segment, the first part only has to go on. */
  predicate SegmentsAfter(parts: seq<string>, hyphens: bool, least: int)
    requires parts != []
  {
    && AllContinue(parts[0], hyphens)
    && (if |parts| == 1 then 1 >= least else Segments(parts[1..], hyphens, least - 1))
  }

  lemma SegmentsCons(x: string, rest: seq<string>, hyphens: bool, least: int)
    requires rest != []
    ensures Segments([x] + rest, hyphens, least) <==> Segment(x, hyphens) && Segments(rest, hyphens, least - 1)
  {
    var parts := [x] + rest;
    assert parts[0] == x && parts[|parts|-1] == rest[|rest|-1];
    if Segment(x, hyphens) && Segments(rest, hyphens, least - 1) {
      forall i | 0 <= i < |parts| - 1 ensures Segment(parts[i], hyphens) {
        if i > 0 { assert parts[i] == rest[i - 1]; }
      }
    }
    if Segments(parts, hyphens, least) {
      forall i | 0 <= i < |rest| - 1 ensures Segment(rest[i], hyphens) { assert rest[i] == parts[i + 1]; }
    }
  }

  /** The loop accepts exactly the grammar. */
  lemma {:induction false} ScanExact(s: string, d: char, hyphens: bool, least: int, segments: int)
    requires Separator(d)
    ensures Scan(s, d, hyphens, least, false, segments) <==> Segments(Split(s, d), hyphens, least - segments + 1)
    ensures Scan(s, d, hyphens, least, true, segments) <==> SegmentsAfter(Split(s, d), hyphens, least - segments + 1)
  {
    if s != "" {
      if s[0] == d {
        ScanExact(s[1..], d, hyphens, least, segments + 1);
        CutStep(Split(s[1..], d), hyphens, least - segments + 1);
      } else {
        ScanExact(s[1..], d, hyphens, least, segments);
        ScanHead(s, d, hyphens, least, segments);
      }
    }
  }

  lemma ScanHead(s: string, d: char, hyphens: bool, least: int, segments: int)
    requires Separator(d) && s != "" && s[0] != d
    requires Scan(s[1..], d, hyphens, least, true, segments) <==>
             SegmentsAfter(Split(s[1..], d), hyphens, least - segments + 1)
    ensures Scan(s, d, hyphens, least, false, segments) <==> Segments(Split(s, d), hyphens, least - segments + 1)
    ensures Scan(s, d, hyphens, least, true, segments) <==> SegmentsAfter(Split(s, d), hyphens, least - segments + 1)
  {
    HeadStep(s[0], Split(s[1..], d), hyphens, least - segments + 1);
    StarStep(s, d, hyphens, least - segments + 1);
  }

  lemma CutStep(rest: seq<string>, hyphens: bool, least: int)
    requires rest != []
    ensures !Segments([""] + rest, hyphens, least)
    ensures SegmentsAfter([""] + rest, hyphens, least) <==> Segments(rest, hyphens, least - 1)
  {
    SegmentsCons("", rest, hyphens, least);
    assert ([""] + rest)[1..] == rest;
  }

  lemma HeadStep(c: char, rest: seq<string>, hyphens: bool, least: int)
    requires rest != []
    ensures var parts := [[c] + rest[0]] + rest[1..];
            && (SegmentsAfter(parts, hyphens, least) <==> Continues(c, hyphens) && SegmentsAfter(rest, hyphens, least))
            && (c != '*' ==>
                  (Segments(parts, hyphens, least) <==> Starts(c, hyphens) && SegmentsAfter(rest, hyphens, least)))
  {
    var x := [c] + rest[0];
    var parts := [x] + rest[1..];
    assert AllContinue(x, hyphens) <==> Continues(c, hyphens) && AllContinue(rest[0], hyphens) by {
      assert x[0] == c;
      assert forall i | 0 <= i < |rest[0]| :: x[i + 1] == rest[0][i];
      forall i | 0 < i < |x| ensures x[i] == rest[0][i - 1] { }
    }
    assert parts[1..] == rest[1..] && x[0] == c;
    if |rest| > 1 { SegmentsCons(x, rest[1..], hyphens, least); }
  }

  lemma StarStep(s: string, d: char, hyphens: bool, least: int)
    requires s != "" && s[0] != d
    ensures s[0] == '*' ==> (Segments(Split(s, d), hyphens, least) <==> |s| == 1)
  {
    if s[0] == '*' {
      var parts, rest := Split(s, d), Split(s[1..], d);
      assert !Segment(parts[0], hyphens);
      if |parts| == 1 {
        JoinSplit(s, d);
        assert parts[0] == s;
      }
    }
  }

  method CheckSegments(s: string, from: nat, d: char, hyphens: bool, least: int) returns (ok: bool)
    requires from <= |s| && Separator(d)
    ensures ok <==> Segments(Split(s[from..], d), hyphens, least)
  {
    ScanExact(s[from..], d, hyphens, least, 1);
    var p := from;
    var segments := 1;
    var inSegment := false;
    while p < |s|
      invariant from <= p <= |s|
      invariant Scan(s[from..], d, hyphens, least, false, 1) == Scan(s[p..], d, hyphens, least, inSegment, segments)
    {
      assert s[p..][1..] == s[p + 1..];
      if inSegment {
        if s[p] == d {
          segments := segments + 1;
          inSegment := false;
        } else if !Alpha(s[p]) && !Digit(s[p]) && s[p] != '_' && (!hyphens || s[p] != '-') {
          return false;
        }
      } else {
        if s[p] == '*' {
          return p + 1 == |s|;
        } else if !Alpha(s[p]) && s[p] != '_' && (!hyphens || s[p] != '-') {
          return false;
        }
        inSegment := true;
      }
      p := p + 1;
    }
    return inSegment && segments >= least;
  }

  method CheckName(name: string, hyphens: bool) returns (ok: bool)
    ensures ok <==> Name(name, hyphens)
  {
    if |name| == 0 || |name| > DBUS_MAX_NAME_LENGTH { return false; }
    ok := CheckSegments(name, 0, '.', hyphens, 2);
    assert name[0..] == name;
  }

  method CheckObjectPath(path: string) returns (ok: bool)
    ensures ok <==> ObjectPath(path)
  {
    if |path| == 0 || path[0] != '/' { return false; }
    if |path| == 1 { return true; }
    ok := CheckSegments(path, 1, '/', false, 1);
  }

  // ---------------------------------------------------------------------
  // Rules
  // ---------------------------------------------------------------------

  /** strchr: the first c, or the end. */
  method Find(s: string, from: nat, c: char) returns (k: nat)
    requires from <= |s|
    ensures from <= k <= |s| && c !in s[from..k] && (k < |s| ==> s[k] == c)
  {
    k := from;
    while k < |s| && s[k] != c
      invariant from <= k <= |s| && c !in s[from..k]
    {
      k := k + 1;
    }
  }

  /** Neither separator of a rule can occur in a name. */
  lemma NameFree(s: string, hyphens: bool, c: char)
    requires Name(s, hyphens) && (c == '=' || c == '@')
    ensures c !in s
  {
    PartsFree(s, '.', hyphens, 2, c);
  }

  lemma {:induction false} PartsFree(s: string, d: char, hyphens: bool, least: int, c: char)
    requires Segments(Split(s, d), hyphens, least) && Separator(d) && (c == '=' || c == '@')
    ensures c !in s
  {
    var parts := Split(s, d);
    forall i | 0 <= i < |parts| ensures c !in parts[i] {
      if i < |parts| - 1 { assert Segment(parts[i], hyphens); }
    }
    JoinSplit(s, d);
    JoinFree(parts, d, c);
  }

  lemma {:induction false} JoinFree(parts: seq<string>, d: char, c: char)
    requires c != d && forall i | 0 <= i < |parts| :: c !in parts[i]
    ensures c !in Join(parts, d)
  {
    if |parts| > 1 { JoinFree(parts[1..], d, c); }
  }

  /** The two separators cut a text in at most one way. */
  lemma CutUnique(a: string, b: string, a': string, b': string, c: char)
    requires a + [c] + b == a' + [c] + b' && c !in a && c !in a'
    ensures a == a' && b == b'
  {
    var s := a + [c] + b;
    assert s[|a|] == c && s[|a'|] == c;
    assert s[..|a|] == a && s[..|a'|] == a';
    assert s[|a| + 1..] == b && s[|a'| + 1..] == b';
  }

  function Tail(r: Rule): string { r.interface + if r.path.Some? then "@" + r.path.value else "" }

  lemma TailHasNoAt(r: Rule)
    requires WellFormed(r)
    ensures '=' !in r.name && '@' !in r.interface
    ensures '@' in Tail(r) <==> r.path.Some?
  {
    NameFree(r.name, true, '=');
    if r.interface != "" { NameFree(r.interface, false, '@'); }
    if r.path.Some? { assert Tail(r)[|r.interface|] == '@'; }
  }

  /** A well-formed rule can be read in one way only. */
  lemma Unambiguous(r: Rule, r': Rule)
    requires WellFormed(r) && WellFormed(r') && Text(r) == Text(r')
    ensures r == r'
  {
    TailHasNoAt(r);
    TailHasNoAt(r');
    assert Text(r) == r.name + ['='] + Tail(r) && Text(r') == r'.name + ['='] + Tail(r');
    CutUnique(r.name, Tail(r), r'.name, Tail(r'), '=');
    if r.path.Some? {
      assert Tail(r) == r.interface + ['@'] + r.path.value && Tail(r') == r'.interface + ['@'] + r'.path.value;
      CutUnique(r.interface, r.path.value, r'.interface, r'.path.value, '@');
    } else {
      assert Tail(r) == r.interface && Tail(r') == r'.interface;
    }
  }

  ghost predicate IsRule(s: string) { exists r :: WellFormed(r) && Text(r) == s }

  /** Any rule that a text stands for cuts it at the first separators. */
  lemma RuleCuts(s: string, r: Rule, e: nat, a: nat)
    requires WellFormed(r) && Text(r) == s
    requires e < |s| && s[e] == '=' && '=' !in s[..e]
    requires e < a <= |s| && '@' !in s[e + 1..a] && (a < |s| ==> s[a] == '@')
    ensures r == Rule(s[..e], s[e + 1..a], if a < |s| then Some(s[a + 1..]) else None)
  {
    TailHasNoAt(r);
    assert s == r.name + ['='] + Tail(r);
    Slices(s, e, a);
    CutUnique(r.name, Tail(r), s[..e], s[e + 1..], '=');
    TailCuts(r, s[e + 1..a], if a < |s| then Some(s[a + 1..]) else None);
  }

  lemma Slices(s: string, e: nat, a: nat)
    requires e < a <= |s| && s[e] == '=' && (a < |s| ==> s[a] == '@')
    ensures s == s[..e] + ['='] + s[e + 1..]
    ensures s[e + 1..] == s[e + 1..a] + if a < |s| then ['@'] + s[a + 1..] else []
  {
  }

  lemma TailCuts(r: Rule, i: string, p: Option<string>)
    requires '@' !in r.interface && '@' !in i && ('@' in Tail(r) <==> r.path.Some?)
    requires Tail(r) == i + if p.Some? then ['@'] + p.value else []
    ensures r.interface == i && r.path == p
  {
    if p.Some? {
      assert Tail(r)[|i|] == '@';
      assert Tail(r) == r.interface + ['@'] + r.path.value && Tail(r) == i + ['@'] + p.value;
      CutUnique(r.interface, r.path.value, i, p.value, '@');
    } else {
      assert Tail(r) == r.interface && Tail(r) == i;
    }
  }

  lemma NoRule(rule: string)
    requires '=' !in rule
    ensures !IsRule(rule)
  {
    forall r ensures Text(r) != rule { assert Text(r)[|r.name|] == '=' && '=' in Text(r); }
  }

  /** The rule that the first separators give is the only one the text can be. */
  lemma OnlyRule(rule: string, e: nat, a: nat, r0: Rule)
    requires e < |rule| && rule[e] == '=' && '=' !in rule[..e]
    requires e < a <= |rule| && '@' !in rule[e + 1..a] && (a < |rule| ==> rule[a] == '@')
    requires r0 == Rule(rule[..e], rule[e + 1..a], if a < |rule| then Some(rule[a + 1..]) else None)
    ensures IsRule(rule) <==> WellFormed(r0)
  {
    Slices(rule, e, a);
    assert Text(r0) == rule;
    forall r | WellFormed(r) && Text(r) == rule ensures r == r0 { RuleCuts(rule, r, e, a); }
  }

  method CheckCallRule(rule: string) returns (ok: bool)
    ensures ok <==> IsRule(rule)
  {
    var e := Find(rule, 0, '=');
    assert rule[0..e] == rule[..e];
    if e == |rule| {
      NoRule(rule);
      return false;
    }
    var a := Find(rule, e + 1, '@');
    ghost var r0 := Rule(rule[..e], rule[e + 1..a], if a < |rule| then Some(rule[a + 1..]) else None);
    OnlyRule(rule, e, a, r0);
    if e > DBUS_MAX_NAME_LENGTH { return false; }
    var nameOk := CheckName(rule[..e], true);
    if !nameOk { return false; }
    if a == |rule| {
      assert rule[e + 1..] == rule[e + 1..a];
      ok := CheckName(rule[e + 1..], false);
      return;
    }
    if a - (e + 1) > DBUS_MAX_NAME_LENGTH { return false; }
    if a - (e + 1) > 0 {
      var interfaceOk := CheckName(rule[e + 1..a], false);
      if !interfaceOk { return false; }
    }
    ok := CheckObjectPath(rule[a + 1..]);
  }
}
