/**
 Model of src/firejail/fs_whitelist.c, first pass: for each whitelist command
 of the profile the top level directory is cut off its path and looked up in,
 or added to, an array of at most 64 directories, and the command is either
 dropped or given the parameters that the second pass needs.

 Macro expansion, realpath, is_link, lstat and open are inputs; paths appended
 by globbing are part of the list of commands.
 */
module TopDirs {
  import opened Strings
  import opened Wrappers

  const TOP_MAX := 64
  const RUN_FIREJAIL_DIR := "/run/firejail"

  datatype Stat = Missing | Directory | Link | OtherFile

  datatype Config = Config(
    homedir: string,
    runuser: string,                // /run/user/$UID
    privateHome: bool,              // arg_private
    reject: seq<string>,            // whitelist-disable-topdir
    lstat: string -> Stat,
    opens: string -> bool)

  /** A profile entry: another command, a macro that could not be resolved, or a
      path with what realpath and is_link say about it. */
  datatype Command =
    | Unrelated
    | Macro(no: bool)
    | Name(no: bool, name: string, target: Option<string>, link: bool)

  datatype Param = Param(top: nat, file: string, link: Option<string>)

  datatype Error = InvalidPath | TooMany | CannotOpen

  // ---------------------------------------------------------------------
  // extract_topdir
  // ---------------------------------------------------------------------

  method FindSlash(s: string, from: nat) returns (k: Option<nat>)
    requires from <= |s|
    ensures k == Slash(s, from)
  {
    var i := from;
    while i < |s|
      invariant from <= i <= |s|
      invariant Slash(s, from) == Slash(s, i)
    {
      if s[i] == '/' { return Some(i); }
      i := i + 1;
    }
    return None;
  }

  function Slash(s: string, from: nat): (k: Option<nat>)
    requires from <= |s|
    ensures k.Some? ==> from <= k.value < |s| && s[k.value] == '/' && '/' !in s[from..k.value]
    ensures k.None? ==> '/' !in s[from..]
    decreases |s| - from
  {
    if from == |s| then None else if s[from] == '/' then Some(from) else Slash(s, from + 1)
  }

  /** The length of the top level directory of a path. */
  function TopLength(cfg: Config, path: string): (n: Option<nat>)
    ensures n.Some? ==> n.value < |path| && path[n.value] == '/'
  {
    if Inside(cfg.homedir, path) then Some(|cfg.homedir|)
    else if Inside(cfg.runuser, path) then Some(|cfg.runuser|)
    else if Inside("/sys/module", path) then Some(11)
    else if "/usr/" <= path then Slash(path, 5)
    else if path == "" then None
    else Slash(path, 1)
  }

  function Topdir(cfg: Config, path: string): Option<string> {
    var n := TopLength(cfg, path);
    if n.Some? then Some(path[..n.value]) else None
  }

  /** A directory that counts as top level wherever it lies. */
  predicate Special(cfg: Config, dir: string) {
    dir == cfg.homedir || dir == cfg.runuser || dir == "/sys/module"
  }

  /** A path lies strictly inside its top level directory, which is one of the three
      special ones, a directory of /usr, or a directory of the root; there is none
      only for a path that has no directory of the latter two kinds. */
  lemma TopdirMeans(cfg: Config, path: string)
    requires path != "" && path[0] == '/'
    ensures match Topdir(cfg, path)
            case Some(dir) =>
              && Inside(dir, path)
              && (Special(cfg, dir) || ("/usr/" <= dir && '/' !in dir[5..]) || (!("/usr/" <= path) && '/' !in dir[1..]))
            case None => !("/usr/" <= path && '/' in path[5..]) && ('/' in path[1..] ==> "/usr/" <= path)
    ensures forall dir | Special(cfg, dir) && Inside(dir, path) ::
              Topdir(cfg, path).Some? && Special(cfg, Topdir(cfg, path).value)
  {
  }

  method ExtractTopdir(cfg: Config, path: string) returns (dir: Option<string>)
    requires path != "" && path[0] == '/'
    ensures dir == Topdir(cfg, path)
    ensures dir.Some? ==> Inside(dir.value, path)
    ensures dir.Some? ==> Special(cfg, dir.value) || ("/usr/" <= dir.value && '/' !in dir.value[5..])
                          || (!("/usr/" <= path) && '/' !in dir.value[1..])
    ensures dir.None? ==> forall d | Special(cfg, d) :: !Inside(d, path)
    ensures dir.None? ==> '/' !in path[1..] || ("/usr/" <= path && '/' !in path[5..])
  {
    TopdirMeans(cfg, path);
    if Inside(cfg.homedir, path) { return Some(path[..|cfg.homedir|]); }
    if Inside(cfg.runuser, path) { return Some(path[..|cfg.runuser|]); }
    if Inside("/sys/module", path) { return Some(path[..11]); }
    var p;
    if "/usr/" <= path { p := FindSlash(path, 5); } else { p := FindSlash(path, 1); }
    dir := if p.Some? then Some(path[..p.value]) else None;
  }

  // ---------------------------------------------------------------------
  // What becomes of one command
  // ---------------------------------------------------------------------

  datatype TopVerdict = Refuse | Skip | Accept

  function JudgeTop(cfg: Config, dir: string): TopVerdict {
    if dir == "/" || dir == "/proc" || dir == "/sys" then Refuse
    else if cfg.privateHome && dir == cfg.homedir then Skip
    else if cfg.lstat(dir) == Missing || cfg.lstat(dir) == Link then Skip
    else if cfg.lstat(dir) == OtherFile then Refuse
    else if dir in cfg.reject then Skip
    else Accept
  }

  predicate HasDots(s: string) {
    exists i | 0 <= i < |s| - 1 :: s[i] == '.' && s[i + 1] == '.'
  }

  predicate BadName(name: string) {
    name == "" || name[0] != '/' || HasDots(name)
  }

  function RealName(c: Command): Option<string>
    requires c.Name?
  {
    if c.name == "/dev/fd" then Some("/proc/self/fd")
    else if c.name == "/dev/stdin" then Some("/proc/self/fd/0")
    else if c.name == "/dev/stdout" then Some("/proc/self/fd/1")
    else if c.name == "/dev/stderr" then Some("/proc/self/fd/2")
    else c.target
  }

  /** The path is usable: it resolves, and neither it nor what it stands for
      belongs to firejail itself. */
  predicate Usable(c: Command)
    requires c.Name?
  {
    && !(RUN_FIREJAIL_DIR <= c.name)
    && RealName(c).Some?
    && !(RUN_FIREJAIL_DIR <= RealName(c).value)
  }

  /** The command asks for a top level directory that is accepted. */
  predicate Admitted(cfg: Config, c: Command) {
    && c.Name? && !c.no && !BadName(c.name)
    && Topdir(cfg, c.name).Some? && JudgeTop(cfg, Topdir(cfg, c.name).value) == Accept
  }

  /** The paths that nowhitelist commands have set aside. */
  function SetAside(cs: seq<Command>): seq<string> {
    if cs == [] then []
    else
      var c := cs[|cs|-1];
      SetAside(cs[..|cs|-1]) + if c.Name? && c.no && Usable(c) then [RealName(c).value] else []
  }

  /** Command i is carried out: its directory is accepted, the path is usable, and
      no earlier nowhitelist command names it. */
  predicate Selected(cfg: Config, cs: seq<Command>, i: nat)
    requires i < |cs|
  {
    && Admitted(cfg, cs[i]) && Usable(cs[i])
    && RealName(cs[i]).value !in SetAside(cs[..i])
  }

  // ---------------------------------------------------------------------
  // The directories
  // ---------------------------------------------------------------------

  /** The directory that a command asks for; an unresolved macro asks for the home
      directory. */
  function Asked(cfg: Config, c: Command): Option<string> {
    match c
    case Unrelated => None
    case Macro(no) => if no then None else Some(cfg.homedir)
    case Name(no, name, _, _) => if no || BadName(name) then None else Topdir(cfg, name)
  }

  /** A directory that is asked for, accepted, and not there yet. */
  predicate Adds(cfg: Config, tops: seq<string>, c: Command) {
    var d := Asked(cfg, c);
    d.Some? && JudgeTop(cfg, d.value) == Accept && d.value !in tops
  }

  /** The directories in the order in which they are first asked for. */
  function Tops(cfg: Config, cs: seq<Command>): seq<string> {
    if cs == [] then []
    else
      var tops, c := Tops(cfg, cs[..|cs|-1]), cs[|cs|-1];
      tops + if Adds(cfg, tops, c) then [Asked(cfg, c).value] else []
  }

  /** The error that a command causes when these directories are there. */
  function Stops(cfg: Config, tops: seq<string>, c: Command): Option<Error> {
    var d := Asked(cfg, c);
    if c.Name? && (BadName(c.name) || (!c.no && d.None?)) then Some(InvalidPath)
    else if d.Some? && JudgeTop(cfg, d.value) == Refuse then Some(InvalidPath)
    else if !Adds(cfg, tops, c) then None
    else if |tops| >= TOP_MAX then Some(TooMany)
    else if !cfg.opens(d.value) then Some(CannotOpen)
    else None
  }

  /** Exactly the accepted directories that some command asks for, each one once. */
  lemma {:induction false} TopsExact(cfg: Config, cs: seq<Command>)
    ensures forall j, k | 0 <= j < k < |Tops(cfg, cs)| :: Tops(cfg, cs)[j] != Tops(cfg, cs)[k]
    ensures forall d :: d in Tops(cfg, cs) <==> JudgeTop(cfg, d) == Accept && AskedBy(cfg, cs, d)
  {
    if cs != [] {
      var front, c := cs[..|cs|-1], cs[|cs|-1];
      TopsExact(cfg, front);
      assert cs == front + [c];
      forall d ensures AskedBy(cfg, cs, d) <==> AskedBy(cfg, front, d) || Asked(cfg, c) == Some(d) {
        AskedSnoc(cfg, front, c, d);
      }
    }
  }

  ghost predicate AskedBy(cfg: Config, cs: seq<Command>, d: string) {
    exists i | 0 <= i < |cs| :: Asked(cfg, cs[i]) == Some(d)
  }

  lemma AskedSnoc(cfg: Config, cs: seq<Command>, c: Command, d: string)
    ensures AskedBy(cfg, cs + [c], d) <==> AskedBy(cfg, cs, d) || Asked(cfg, c) == Some(d)
  {
    var more := cs + [c];
    assert more[|cs|] == c;
    if i :| 0 <= i < |cs| && Asked(cfg, cs[i]) == Some(d) { assert more[i] == cs[i]; }
  }

  /** The error that command i causes. */
  function StopsAt(cfg: Config, cs: seq<Command>, i: nat): Option<Error>
    requires i < |cs|
  {
    Stops(cfg, Tops(cfg, cs[..i]), cs[i])
  }

  /** Command i causes no error. */
  predicate Passes(cfg: Config, cs: seq<Command>, i: nat)
    requires i < |cs|
  {
    StopsAt(cfg, cs, i).None?
  }

  /** What the second pass is told about command i, given the directories. */
  predicate Correct(cfg: Config, tops: seq<string>, cs: seq<Command>, p: Option<Param>, i: nat)
    requires i < |cs|
  {
    && (p.Some? <==> Selected(cfg, cs, i))
    && (p.Some? ==>
          && p.value.top < |tops| && Some(tops[p.value.top]) == Topdir(cfg, cs[i].name)
          && RealName(cs[i]) == Some(p.value.file)
          && p.value.link == (if cs[i].link then Some(cs[i].name) else None)
          && (p.value.link.Some? ==> Inside(tops[p.value.top], p.value.link.value)))
  }

  /** The commands so far have caused no error and got their parameters. */
  predicate Told(cfg: Config, tops: seq<string>, cs: seq<Command>, ps: seq<Option<Param>>)
    requires |ps| <= |cs|
  {
    forall k | 0 <= k < |ps| :: Passes(cfg, cs, k) && Correct(cfg, tops, cs, ps[k], k)
  }

  lemma ToldStep(cfg: Config, cs: seq<Command>, ps: seq<Option<Param>>, p: Option<Param>, i: nat)
    requires i == |ps| < |cs| && Told(cfg, Tops(cfg, cs[..i]), cs, ps)
    requires Passes(cfg, cs, i) && Correct(cfg, Tops(cfg, cs[..i + 1]), cs, p, i)
    ensures Told(cfg, Tops(cfg, cs[..i + 1]), cs, ps + [p])
  {
    TopsStep(cfg, cs, i);
    var tops, more := Tops(cfg, cs[..i]), Tops(cfg, cs[..i + 1]);
    forall k | 0 <= k < i ensures Correct(cfg, more, cs, ps[k], k) { assert Correct(cfg, tops, cs, ps[k], k); }
  }

  // ---------------------------------------------------------------------
  // The pass
  // ---------------------------------------------------------------------

  class FirstPass {
    const cfg: Config
    const topdirs: array<Option<string>>
    var cnt: nat

    /** The array is packed and holds accepted directories, each one once. */
    ghost predicate Valid()
      reads this, topdirs
    {
      && topdirs.Length == TOP_MAX && cnt <= TOP_MAX
      && (forall k | 0 <= k < TOP_MAX :: topdirs[k].Some? <==> k < cnt)
      && (forall k | 0 <= k < cnt :: JudgeTop(cfg, topdirs[k].value) == Accept)
      && (forall j, k | 0 <= j < k < cnt :: topdirs[j] != topdirs[k])
    }

    /** The array holds these directories. */
    ghost predicate Holds(tops: seq<string>)
      reads this, topdirs
    {
      Valid() && cnt == |tops| && forall k | 0 <= k < cnt :: topdirs[k] == Some(tops[k])
    }

    constructor (cfg: Config)
      ensures this.cfg == cfg && Holds([]) && fresh(topdirs)
    {
      this.cfg := cfg;
      topdirs := new Option<string>[TOP_MAX](_ => None);
      cnt := 0;
    }

    method HaveTopdir(dir: string) returns (k: Option<nat>)
      requires Valid()
      ensures k.Some? ==> k.value < cnt && topdirs[k.value] == Some(dir)
      ensures k.None? ==> forall j | 0 <= j < cnt :: topdirs[j] != Some(dir)
    {
      var i := 0;
      while i < TOP_MAX
        invariant 0 <= i <= TOP_MAX && i <= cnt
        invariant forall j | 0 <= j < i :: topdirs[j] != Some(dir)
      {
        if topdirs[i].None? { break; }
        if topdirs[i].value == dir { return Some(i); }
        i := i + 1;
      }
      return None;
    }

    method AddTopdir(dir: string, ghost tops: seq<string>) returns (r: Result<Option<nat>, Error>)
      requires Holds(tops) && dir !in tops
      modifies this, topdirs
      ensures Valid()
      ensures match r
              case Failure(InvalidPath) => JudgeTop(cfg, dir) == Refuse
              case Failure(TooMany) => JudgeTop(cfg, dir) == Accept && |tops| == TOP_MAX
              case Failure(CannotOpen) => JudgeTop(cfg, dir) == Accept && |tops| < TOP_MAX && !cfg.opens(dir)
              case Success(None) => JudgeTop(cfg, dir) == Skip && Holds(tops)
              case Success(Some(k)) =>
                JudgeTop(cfg, dir) == Accept && cfg.opens(dir) && k == |tops| < TOP_MAX && Holds(tops + [dir])
    {
      if dir == "/" || dir == "/proc" || dir == "/sys" { return Failure(InvalidPath); }
      if cfg.privateHome && dir == cfg.homedir { return Success(None); }
      var s := cfg.lstat(dir);
      if s == Missing { return Success(None); }
      if s != Directory {
        if s == Link { return Success(None); }
        return Failure(InvalidPath);
      }
      if dir in cfg.reject { return Success(None); }
      if cnt >= TOP_MAX { return Failure(TooMany); }
      var k := cnt;
      cnt := cnt + 1;
      topdirs[k] := Some(dir);
      assert forall j | 0 <= j < k :: topdirs[j] == Some(tops[j]) && tops[j] in tops;
      if !cfg.opens(dir) { return Failure(CannotOpen); }
      return Success(Some(k));
    }

    /** Looks the directory up and adds it if it is new. */
    method FindOrAdd(dir: string, ghost tops: seq<string>) returns (r: Result<Option<nat>, Error>)
      requires Holds(tops)
      modifies this, topdirs
      ensures Valid()
      ensures var new_ := JudgeTop(cfg, dir) == Accept && dir !in tops;
              match r
              case Failure(InvalidPath) => JudgeTop(cfg, dir) == Refuse
              case Failure(TooMany) => new_ && |tops| == TOP_MAX
              case Failure(CannotOpen) => new_ && |tops| < TOP_MAX && !cfg.opens(dir)
              case Success(None) => JudgeTop(cfg, dir) == Skip && Holds(tops)
              case Success(Some(k)) =>
                && JudgeTop(cfg, dir) == Accept && (new_ ==> |tops| < TOP_MAX && cfg.opens(dir))
                && Holds(tops + if new_ then [dir] else []) && k < cnt && topdirs[k] == Some(dir)
    {
      var k := HaveTopdir(dir);
      if k.Some? {
        assert tops[k.value] == dir && tops + [] == tops;
        return Success(k);
      }
      r := AddTopdir(dir, tops);
    }

    /** Exactly the selected commands get parameters; each names its own top level
        directory, and a link lies inside it, which is what whitelist_symlink
        asserts.  The array ends with the directories asked for, in order of first
        use.  The first command that causes an error stops the pass with it. */
    method Run(cs: seq<Command>) returns (r: Result<seq<Option<Param>>, Error>)
      requires Holds([])
      modifies this, topdirs
      ensures Valid()
      ensures r.Success? ==> Holds(Tops(cfg, cs)) && forall i | 0 <= i < |cs| :: Passes(cfg, cs, i)
      ensures r.Success? ==>
                |r.value| == |cs| && forall i | 0 <= i < |cs| :: Correct(cfg, Tops(cfg, cs), cs, r.value[i], i)
      ensures r.Failure? ==> exists n | 0 <= n < |cs| ::
                && StopsAt(cfg, cs, n) == Some(r.error)
                && forall i | 0 <= i < n :: Passes(cfg, cs, i)
    {
      var ps: seq<Option<Param>> := [];
      var nowhitelist: seq<string> := [];
      var i := 0;
      while i < |cs|
        invariant 0 <= i == |ps| <= |cs| && Holds(Tops(cfg, cs[..i]))
        invariant nowhitelist == SetAside(cs[..i])
        invariant Told(cfg, Tops(cfg, cs[..i]), cs, ps)
      {
        SetAsideStep(cs, i);
        var p := Handle(cs, i, nowhitelist);
        if p.Failure? { return Failure(p.error); }
        ToldStep(cfg, cs, ps, p.value, i);
        ps := ps + [p.value];
        if cs[i].Name? && cs[i].no && Usable(cs[i]) {
          nowhitelist := nowhitelist + [RealName(cs[i]).value];
        }
        i := i + 1;
      }
      assert cs[..i] == cs;
      return Success(ps);
    }

    /** The body of the loop, apart from the store of a nowhitelist path. */
    method Handle(cs: seq<Command>, i: nat, nowhitelist: seq<string>) returns (r: Result<Option<Param>, Error>)
      requires i < |cs| && Holds(Tops(cfg, cs[..i])) && nowhitelist == SetAside(cs[..i])
      modifies this, topdirs
      ensures Valid()
      ensures r.Success? ==> Holds(Tops(cfg, cs[..i + 1])) && Correct(cfg, Tops(cfg, cs[..i + 1]), cs, r.value, i)
      ensures StopsAt(cfg, cs, i) == if r.Failure? then Some(r.error) else None
    {
      ghost var tops := Tops(cfg, cs[..i]);
      TopsStep(cfg, cs, i);
      var c := cs[i];
      match c {
        case Unrelated => return Success(None);
        case Macro(no) =>
          if !no {
            var h := FindOrAdd(cfg.homedir, tops);
            if h.Failure? { return Failure(h.error); }
          }
          return Success(None);
        case Name(no, name, _, link) =>
          if BadName(name) { return Failure(InvalidPath); }
          var top: Option<nat> := None;
          if !no {
            var dir := ExtractTopdir(cfg, name);
            if dir.None? { return Failure(InvalidPath); }
            var t := FindOrAdd(dir.value, tops);
            if t.Failure? { return Failure(t.error); }
            if t.value.None? { return Success(None); }
            top := t.value;
          }
          if !Usable(c) { return Success(None); }
          if no { return Success(None); }
          if RealName(c).value in nowhitelist { return Success(None); }
          return Success(Some(Param(top.value, RealName(c).value, if link then Some(name) else None)));
      }
    }
  }

  lemma SetAsideStep(cs: seq<Command>, i: nat)
    requires i < |cs|
    ensures SetAside(cs[..i + 1]) ==
            SetAside(cs[..i]) + if cs[i].Name? && cs[i].no && Usable(cs[i]) then [RealName(cs[i]).value] else []
  {
    assert cs[..i + 1][..i] == cs[..i];
  }

  lemma TopsStep(cfg: Config, cs: seq<Command>, i: nat)
    requires i < |cs|
    ensures var tops := Tops(cfg, cs[..i]);
            Tops(cfg, cs[..i + 1]) == tops + if Adds(cfg, tops, cs[i]) then [Asked(cfg, cs[i]).value] else []
  {
    assert cs[..i + 1][..i] == cs[..i];
  }
}
