/**
 Model of src/firejail/env.c: settings and removals of environment variables are
 kept in one list in the order they came, looked up by going through the whole
 list, and applied to the environment of a process by replaying it, all of it
 or filtered by a whitelist.
 */
module Env {
  import opened Wrappers

  /** A list entry: a value for SETENV, none for RMENV. */
  datatype Entry = Entry(name: string, value: Option<string>)

  type Environ = map<string, string>

  /** The names that setenv and unsetenv accept. */
  predicate Nameable(name: string) { name != "" && '=' !in name }

  predicate Proper(e: Environ) { forall n | n in e :: Nameable(n) }

  function Get(e: Environ, name: string): Option<string> {
    if name in e then Some(e[name]) else None
  }

  // ---------------------------------------------------------------------
  // The list as a map
  // ---------------------------------------------------------------------

  predicate Mentions(log: seq<Entry>, name: string) {
    exists i | 0 <= i < |log| :: log[i].name == name
  }

  /** The value of the last entry for a name. */
  function Lookup(log: seq<Entry>, name: string): Option<string> {
    if log == [] then None
    else if log[|log|-1].name == name then log[|log|-1].value
    else Lookup(log[..|log|-1], name)
  }

  predicate Removes(log: seq<Entry>, name: string) {
    exists i | 0 <= i < |log| :: log[i] == Entry(name, None)
  }

  lemma MentionsStep(log: seq<Entry>, i: nat, name: string)
    requires i < |log|
    ensures Mentions(log[..i + 1], name) <==> Mentions(log[..i], name) || log[i].name == name
    ensures Removes(log[..i + 1], name) <==> Removes(log[..i], name) || log[i] == Entry(name, None)
    ensures Lookup(log[..i + 1], name) == if log[i].name == name then log[i].value else Lookup(log[..i], name)
  {
    var s, t := log[..i], log[..i + 1];
    assert t[..i] == s && t[i] == log[i];
    assert forall k | 0 <= k < i :: t[k] == s[k];
  }

  datatype Error = InvalidSetting | SetenvFailed | TooLong

  class EnvList {
    var envlist: seq<Entry>

    constructor ()
      ensures envlist == []
    {
      envlist := [];
    }

    /** "name=value" for SETENV, a bare name for RMENV. */
    method EnvStore(str: string, set_: bool) returns (r: Result<(), Error>)
      modifies this
      ensures r.Success? <==> str != "" && (set_ ==> '=' in str)
      ensures r.Failure? ==> envlist == old(envlist)
      ensures r.Success? && !set_ ==> envlist == old(envlist) + [Entry(str, None)]
      ensures r.Success? && set_ ==>
                exists n, v :: str == n + "=" + v && '=' !in n && envlist == old(envlist) + [Entry(n, Some(v))]
    {
      if str == "" { return Failure(InvalidSetting); }
      var p := 0;
      while p < |str| && str[p] != '='
        invariant 0 <= p <= |str| && '=' !in str[..p] && envlist == old(envlist)
      {
        p := p + 1;
      }
      if set_ && p == |str| { return Failure(InvalidSetting); }
      if set_ {
        assert str == str[..p] + "=" + str[p + 1..];
        envlist := envlist + [Entry(str[..p], Some(str[p + 1..]))];
      } else {
        envlist := envlist + [Entry(str, None)];
      }
      return Success(());
    }

    method EnvStoreNameVal(name: string, value: Option<string>) returns (r: Result<(), Error>)
      modifies this
      ensures r.Success? <==> name != ""
      ensures envlist == if r.Success? then old(envlist) + [Entry(name, value)] else old(envlist)
    {
      if name == "" { return Failure(InvalidSetting); }
      envlist := envlist + [Entry(name, value)];
      return Success(());
    }

    method EnvGet(name: string) returns (r: Option<string>)
      ensures r == Lookup(envlist, name)
    {
      r := None;
      var i := 0;
      while i < |envlist|
        invariant 0 <= i <= |envlist| && r == Lookup(envlist[..i], name)
      {
        MentionsStep(envlist, i, name);
        if envlist[i].name == name { r := envlist[i].value; }
        i := i + 1;
      }
      assert envlist[..i] == envlist;
    }

    /** Replays the whole list.  It fails exactly when a setting has a name that
        setenv refuses, which the stores let through. */
    method EnvApplyAll(e0: Environ) returns (r: Result<Environ, Error>)
      requires Proper(e0)
      ensures r.Success? <==> forall i | 0 <= i < |envlist| && envlist[i].value.Some? :: Nameable(envlist[i].name)
      ensures r.Success? ==> Proper(r.value)
      ensures r.Success? ==>
                forall n :: Get(r.value, n) == if Mentions(envlist, n) then Lookup(envlist, n) else Get(e0, n)
    {
      var e := e0;
      var i := 0;
      while i < |envlist|
        invariant 0 <= i <= |envlist| && Proper(e)
        invariant forall k | 0 <= k < i && envlist[k].value.Some? :: Nameable(envlist[k].name)
        invariant Replayed(envlist[..i], e0, e)
      {
        var x := envlist[i];
        if x.value.Some? {
          if !Nameable(x.name) { return Failure(SetenvFailed); }
          ReplayStep(envlist, i, e0, e, e[x.name := x.value.value]);
          e := e[x.name := x.value.value];
        } else {
          ReplayStep(envlist, i, e0, e, e - {x.name});
          e := e - {x.name};
        }
        i := i + 1;
      }
      assert envlist[..i] == envlist;
      return Success(e);
    }

    /** Replays the settings of listed names, and all removals. */
    method EnvApplyList(list: seq<string>, maxLen: nat, e0: Environ) returns (r: Result<Environ, Error>)
      requires Proper(e0) && forall i | 0 <= i < |list| :: Nameable(list[i])
      ensures r.Success? <==> forall i | 0 <= i < |envlist| :: !Overlong(envlist[i], list, maxLen)
      ensures r.Success? ==> Proper(r.value) && Filtered(envlist, list, e0, r.value)
    {
      var e := e0;
      var i := 0;
      while i < |envlist|
        invariant 0 <= i <= |envlist| && Proper(e)
        invariant forall k | 0 <= k < i :: !Overlong(envlist[k], list, maxLen)
        invariant Filtered(envlist[..i], list, e0, e)
      {
        var x := envlist[i];
        var e' := e;
        if x.value.Some? {
          if x.name in list {
            if |x.name| + |x.value.value| >= maxLen { return Failure(TooLong); }
            e' := e[x.name := x.value.value];
          }
        } else {
          e' := e - {x.name};
        }
        FilterStep(envlist, list, i, e0, e, e');
        e := e';
        i := i + 1;
      }
      assert envlist[..i] == envlist;
      return Success(e);
    }

    /** The environment of firejail itself: whitelisted names with the values that
        EnvGet reports, the fixed PATH, and nothing else. */
    method EnvApplyWhitelist(maxLen: nat) returns (r: Result<Environ, Error>)
      ensures r.Success? <==> forall i | 0 <= i < |envlist| :: !Overlong(envlist[i], WHITELIST, maxLen)
      ensures r.Success? ==> Proper(r.value)
      ensures r.Success? ==> forall n :: Get(r.value, n) == OwnValue(envlist, n)
    {
      WhitelistNames();
      r := EnvApplyList(WHITELIST, maxLen, map[]);
      if r.Success? {
        FilteredFromNothing(envlist, WHITELIST, r.value);
        r := Success(r.value["PATH" := FIXED_PATH]);
      }
    }

    /** The environment of a helper program.  The second replay takes away what a
        removal names, even where the first one had set it afterwards, and even the
        fixed PATH. */
    method EnvApplyWhitelistSbox(maxLen: nat) returns (r: Result<Environ, Error>)
      ensures r.Success? <==> forall i | 0 <= i < |envlist| ::
                !Overlong(envlist[i], WHITELIST, maxLen) && !Overlong(envlist[i], WHITELIST_SBOX, maxLen)
      ensures r.Success? ==> forall n :: Get(r.value, n) == HelperValue(envlist, n)
      ensures r.Success? ==> (Get(r.value, "PATH") == Some(FIXED_PATH) <==> !Removes(envlist, "PATH"))
      ensures r.Success? ==> forall n | n in WHITELIST ::
                Get(r.value, n) == Lookup(envlist, n) <==> !(Removes(envlist, n) && Lookup(envlist, n).Some?)
    {
      WhitelistNames();
      r := EnvApplyWhitelist(maxLen);
      if r.Failure? { return; }
      ghost var e1 := r.value;
      r := EnvApplyList(WHITELIST_SBOX, maxLen, r.value);
      if r.Success? {
        forall n ensures Get(r.value, n) ==
            if n in WHITELIST_SBOX then Lookup(envlist, n) else if Removes(envlist, n) then None else Get(e1, n) {
          if n in WHITELIST_SBOX && !Mentions(envlist, n) { LookupNone(envlist, n); }
        }
      }
    }
  }

  const WHITELIST := ["LANG", "LANGUAGE", "LC_MESSAGES", "DISPLAY"]

  const WHITELIST_SBOX := ["FIREJAIL_DEBUG", "FIREJAIL_FILE_COPY_LIMIT", "FIREJAIL_PLUGIN", "FIREJAIL_QUIET",
                           "FIREJAIL_SECCOMP_ERROR_ACTION", "FIREJAIL_TEST_ARGUMENTS", "FIREJAIL_TRACEFILE"]

  const FIXED_PATH := "/usr/local/bin:/usr/bin:/bin:/usr/local/sbin:/usr/sbin:/sbin"

  function OwnValue(log: seq<Entry>, n: string): Option<string> {
    if n == "PATH" then Some(FIXED_PATH) else if n in WHITELIST then Lookup(log, n) else None
  }

  function HelperValue(log: seq<Entry>, n: string): Option<string> {
    if n in WHITELIST_SBOX then Lookup(log, n) else if Removes(log, n) then None else OwnValue(log, n)
  }

  lemma WhitelistNames()
    ensures forall i | 0 <= i < |WHITELIST| :: Nameable(WHITELIST[i])
    ensures forall i | 0 <= i < |WHITELIST_SBOX| :: Nameable(WHITELIST_SBOX[i])
    ensures "PATH" !in WHITELIST && "PATH" !in WHITELIST_SBOX && Nameable("PATH")
    ensures forall n | n in WHITELIST :: n !in WHITELIST_SBOX
  {
    SboxNames();
    assert forall n | n in WHITELIST :: n[0] != 'F';
  }

  lemma SboxNames()
    ensures forall m | m in WHITELIST_SBOX :: m != "" && m[0] == 'F'
    ensures forall i | 0 <= i < |WHITELIST_SBOX| :: Nameable(WHITELIST_SBOX[i])
  {
  }

  predicate Overlong(x: Entry, list: seq<string>, maxLen: nat) {
    x.value.Some? && x.name in list && |x.name| + |x.value.value| >= maxLen
  }

  ghost predicate Replayed(log: seq<Entry>, e0: Environ, e: Environ) {
    forall n :: Get(e, n) == if Mentions(log, n) then Lookup(log, n) else Get(e0, n)
  }

  lemma ReplayStep(log: seq<Entry>, i: nat, e0: Environ, e: Environ, e': Environ)
    requires i < |log| && Replayed(log[..i], e0, e)
    requires e' == if log[i].value.Some? then e[log[i].name := log[i].value.value] else e - {log[i].name}
    ensures Replayed(log[..i + 1], e0, e')
  {
    forall n ensures Get(e', n) == if Mentions(log[..i + 1], n) then Lookup(log[..i + 1], n) else Get(e0, n) {
      MentionsStep(log, i, n);
    }
  }

  /** Listed names have their last value if they are mentioned; others keep theirs
      unless they are removed. */
  ghost predicate Filtered(log: seq<Entry>, list: seq<string>, e0: Environ, e: Environ) {
    forall n :: Get(e, n) ==
      if n in list then if Mentions(log, n) then Lookup(log, n) else Get(e0, n)
      else if Removes(log, n) then None else Get(e0, n)
  }

  lemma FilterStep(log: seq<Entry>, list: seq<string>, i: nat, e0: Environ, e: Environ, e': Environ)
    requires i < |log| && Filtered(log[..i], list, e0, e)
    requires var x := log[i];
             e' == if x.value.None? then e - {x.name} else if x.name in list then e[x.name := x.value.value] else e
    ensures Filtered(log[..i + 1], list, e0, e')
  {
    var t := log[..i + 1];
    forall n ensures Get(e', n) ==
        if n in list then if Mentions(t, n) then Lookup(t, n) else Get(e0, n)
        else if Removes(t, n) then None else Get(e0, n) {
      MentionsStep(log, i, n);
    }
  }

  lemma {:induction false} LookupNone(log: seq<Entry>, name: string)
    requires !Mentions(log, name)
    ensures Lookup(log, name) == None
  {
    if log != [] {
      assert forall i | 0 <= i < |log| - 1 :: log[..|log|-1][i] == log[i];
      LookupNone(log[..|log|-1], name);
    }
  }

  lemma FilteredFromNothing(log: seq<Entry>, list: seq<string>, e: Environ)
    requires Filtered(log, list, map[], e)
    ensures forall n :: Get(e, n) == if n in list then Lookup(log, n) else None
  {
    forall n ensures Get(e, n) == if n in list then Lookup(log, n) else None {
      if !Mentions(log, n) { LookupNone(log, n); }
    }
  }
}
