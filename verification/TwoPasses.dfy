/**
 The two passes of src/firejail/fs_whitelist.c together: what the first pass tells
 the second one is what the second one relies on, and what is seen in the end in
 each top level directory follows from the commands.
 */
module TwoPasses {
  import opened Strings
  import opened Wrappers
  import T = TopDirs
  import W = Whitelist

  /** The names of the commands have gone through clean_pathname. */
  predicate CleanNames(cfg: T.Config, cs: seq<T.Command>) {
    && Clean(cfg.homedir) && Clean(cfg.runuser)
    && forall i | 0 <= i < |cs| && cs[i].Name? :: Clean(cs[i].name)
  }

  /** What a command asks of the second pass. */
  function EntryOf(c: T.Command): W.Entry
    requires c.Name? && T.RealName(c).Some?
  {
    W.Entry(Components(T.RealName(c).value), if c.link then Some(Components(c.name)) else None)
  }

  /** Command i is carried out in this directory. */
  predicate InTop(cfg: T.Config, cs: seq<T.Command>, dir: string, i: nat)
    requires i < |cs|
  {
    T.Selected(cfg, cs, i) && T.Topdir(cfg, cs[i].name) == Some(dir)
  }

  /** The commands that are carried out in a directory, in their order. */
  function Chosen(cfg: T.Config, cs: seq<T.Command>, dir: string): seq<W.Entry> {
    if cs == [] then []
    else
      var n := |cs| - 1;
      Chosen(cfg, cs[..n], dir) + if InTop(cfg, cs, dir, n) then [EntryOf(cs[n])] else []
  }

  /** The same, from the parameters. */
  function Told(ps: seq<Option<T.Param>>, k: nat): seq<W.Entry> {
    if ps == [] then []
    else
      var p := ps[|ps|-1];
      Told(ps[..|ps|-1], k) + if p.Some? && p.value.top == k then [ParamEntry(p.value)] else []
  }

  function ParamEntry(p: T.Param): W.Entry {
    W.Entry(Components(p.file), if p.link.Some? then Some(Components(p.link.value)) else None)
  }

  /** The parameters are those that the first pass hands on. */
  ghost predicate Handed(cfg: T.Config, cs: seq<T.Command>, ps: seq<Option<T.Param>>) {
    |ps| == |cs| && forall i | 0 <= i < |cs| :: T.Correct(cfg, T.Tops(cfg, cs), cs, ps[i], i)
  }

  lemma SelectedFront(cfg: T.Config, cs: seq<T.Command>, n: nat, i: nat)
    requires i < n <= |cs|
    ensures T.Selected(cfg, cs[..n], i) <==> T.Selected(cfg, cs, i)
  {
    assert cs[..n][..i] == cs[..i];
  }

  lemma ChosenStep(cfg: T.Config, cs: seq<T.Command>, dir: string, n: nat)
    requires n < |cs|
    ensures Chosen(cfg, cs[..n + 1], dir) ==
            Chosen(cfg, cs[..n], dir) + if InTop(cfg, cs, dir, n) then [EntryOf(cs[n])] else []
  {
    assert cs[..n + 1][..n] == cs[..n];
    SelectedFront(cfg, cs, n + 1, n);
  }

  lemma ToldStep(ps: seq<Option<T.Param>>, k: nat, n: nat)
    requires n < |ps|
    ensures Told(ps[..n + 1], k) ==
            Told(ps[..n], k) + if ps[n].Some? && ps[n].value.top == k then [ParamEntry(ps[n].value)] else []
  {
    assert ps[..n + 1][..n] == ps[..n];
  }

  /** The parameter of one command, seen from the directory at index k. */
  lemma ParamFits(cfg: T.Config, cs: seq<T.Command>, p: Option<T.Param>, i: nat, k: nat)
    requires i < |cs| && k < |T.Tops(cfg, cs)| && T.Correct(cfg, T.Tops(cfg, cs), cs, p, i)
    ensures p.Some? && p.value.top == k <==> InTop(cfg, cs, T.Tops(cfg, cs)[k], i)
    ensures p.Some? && p.value.top == k ==> ParamEntry(p.value) == EntryOf(cs[i])
  {
    T.TopsExact(cfg, cs);
  }

  lemma {:induction false} ToldIsChosen(cfg: T.Config, cs: seq<T.Command>, ps: seq<Option<T.Param>>, k: nat, n: nat)
    requires Handed(cfg, cs, ps) && n <= |ps| && k < |T.Tops(cfg, cs)|
    ensures Told(ps[..n], k) == Chosen(cfg, cs[..n], T.Tops(cfg, cs)[k])
    decreases n
  {
    if n > 0 {
      ToldStep(ps, k, n - 1);
      ToldIsChosen(cfg, cs, ps, k, n - 1);
      ChosenStep(cfg, cs, T.Tops(cfg, cs)[k], n - 1);
      ParamFits(cfg, cs, ps[n - 1], n - 1, k);
    }
  }

  /** A path inside a directory lies strictly below it, by components. */
  lemma InsideBelow(dir: string, name: string)
    requires Inside(dir, name) && Clean(name) && dir != "" && dir != "/"
    ensures Components(dir) < Components(name)
  {
    assert name != "/";
    InsideIsBelow(dir, name);
    var ds, ns := Split(dir, '/'), Split(name, '/');
    assert ns[..|ds|] == ds && ns[1..][..|ds| - 1] == ds[1..];
  }

  lemma TopIsProper(cfg: T.Config, cs: seq<T.Command>, i: nat)
    requires i < |cs| && CleanNames(cfg, cs) && T.Admitted(cfg, cs[i])
    ensures var dir := T.Topdir(cfg, cs[i].name).value; dir != "" && dir != "/" && Inside(dir, cs[i].name)
  {
    T.TopdirMeans(cfg, cs[i].name);
  }

  lemma EntryBelow(cfg: T.Config, cs: seq<T.Command>, dir: string, i: nat)
    requires i < |cs| && CleanNames(cfg, cs) && InTop(cfg, cs, dir, i)
    ensures EntryOf(cs[i]).link.Some? ==> Components(dir) < EntryOf(cs[i]).link.value
  {
    TopIsProper(cfg, cs, i);
    InsideBelow(dir, cs[i].name);
  }

  /** Every link that the second pass is told about lies strictly below the top level
      directory that it goes with, as whitelist_symlink asserts. */
  lemma {:induction false} LinksFit(cfg: T.Config, cs: seq<T.Command>, dir: string)
    requires CleanNames(cfg, cs)
    ensures W.LinksBelow(Components(dir), Chosen(cfg, cs, dir))
  {
    if cs != [] {
      var n := |cs| - 1;
      LinksFit(cfg, cs[..n], dir);
      if InTop(cfg, cs, dir, n) { EntryBelow(cfg, cs, dir, n); }
    }
  }

  /** What the commands ask for in a directory. */
  function RequestsIn(cfg: T.Config, cs: seq<T.Command>, dir: string): (rs: seq<W.Request>)
    requires CleanNames(cfg, cs)
    ensures W.Requests(rs)
  {
    LinksFit(cfg, cs, dir);
    W.AllRequests(Components(dir), Chosen(cfg, cs, dir))
  }

  /** What stands in a directory when the requests have been served. */
  function Served(cfg: T.Config, cs: seq<T.Command>, dir: string, host: map<W.Path, W.Kind>): W.Namespace
    requires CleanNames(cfg, cs)
  {
    W.ServeAll(host, RequestsIn(cfg, cs, dir))
  }

  /** What is seen then: every file and directory of the original that the commands
      ask for, and exactly what they ask for if and only if no link is passed before
      it is asked for. */
  lemma ServedView(cfg: T.Config, cs: seq<T.Command>, dir: string, host: map<W.Path, W.Kind>)
    requires CleanNames(cfg, cs) && W.Tree(host) && W.LinkedLinks(host, RequestsIn(cfg, cs, dir))
    ensures var rs, ns := RequestsIn(cfg, cs, dir), Served(cfg, cs, dir, host);
            && (forall p | W.Firm(host, p) :: W.Visible(host, ns, p) == W.Shown(host, rs, p))
            && ((forall p :: W.Visible(host, ns, p) == W.Shown(host, rs, p)) <==> W.Unbent(host, rs))
  {
    W.WhitelistExact(host, RequestsIn(cfg, cs, dir));
  }

  /** The second pass for the directory at index k. */
  method SecondPass(cfg: T.Config, cs: seq<T.Command>, ps: seq<Option<T.Param>>, k: nat, host: map<W.Path, W.Kind>)
    returns (ns: W.Namespace)
    requires Handed(cfg, cs, ps) && k < |T.Tops(cfg, cs)| && CleanNames(cfg, cs)
    ensures ns == Served(cfg, cs, T.Tops(cfg, cs)[k], host)
  {
    var dir := T.Tops(cfg, cs)[k];
    ToldIsChosen(cfg, cs, ps, k, |cs|);
    LinksFit(cfg, cs, dir);
    assert cs[..|cs|] == cs && ps[..|ps|] == ps;
    var top := new W.TopDir(Components(dir), host);
    top.SecondPass(Told(ps, k));
    ns := top.ns;
  }

  /** Every directory with what stands in it. */
  function AllServed(cfg: T.Config, cs: seq<T.Command>, tops: seq<string>, host: string -> map<W.Path, W.Kind>)
    : (all: seq<W.Namespace>)
    requires CleanNames(cfg, cs)
    ensures |all| == |tops|
  {
    if tops == [] then []
    else
      var n := |tops| - 1;
      AllServed(cfg, cs, tops[..n], host) + [Served(cfg, cs, tops[n], host(tops[n]))]
  }

  lemma AllServedStep(cfg: T.Config, cs: seq<T.Command>, tops: seq<string>, host: string -> map<W.Path, W.Kind>, k: nat)
    requires CleanNames(cfg, cs) && k < |tops|
    ensures AllServed(cfg, cs, tops[..k + 1], host) ==
            AllServed(cfg, cs, tops[..k], host) + [Served(cfg, cs, tops[k], host(tops[k]))]
  {
    assert tops[..k + 1][..k] == tops[..k];
  }

  method SecondPasses(cfg: T.Config, cs: seq<T.Command>, ps: seq<Option<T.Param>>, host: string -> map<W.Path, W.Kind>)
    returns (all: seq<W.Namespace>)
    requires Handed(cfg, cs, ps) && CleanNames(cfg, cs)
    ensures all == AllServed(cfg, cs, T.Tops(cfg, cs), host)
  {
    var tops, k := T.Tops(cfg, cs), 0;
    all := [];
    while k < |tops|
      invariant 0 <= k <= |tops| && all == AllServed(cfg, cs, tops[..k], host)
    {
      var ns := SecondPass(cfg, cs, ps, k, host(tops[k]));
      AllServedStep(cfg, cs, tops, host, k);
      all := all + [ns];
      k := k + 1;
    }
    assert tops[..k] == tops;
  }

  /** Both passes: the first error of the first pass, or for each top level directory,
      in order of first use, what the commands that belong to it leave there. */
  method FsWhitelist(cfg: T.Config, cs: seq<T.Command>, host: string -> map<W.Path, W.Kind>)
    returns (r: Result<seq<W.Namespace>, T.Error>)
    requires CleanNames(cfg, cs)
    ensures r.Success? <==> forall i | 0 <= i < |cs| :: T.Passes(cfg, cs, i)
    ensures r.Success? ==> r.value == AllServed(cfg, cs, T.Tops(cfg, cs), host)
    ensures r.Failure? ==> exists n | 0 <= n < |cs| ::
              T.StopsAt(cfg, cs, n) == Some(r.error) && forall i | 0 <= i < n :: T.Passes(cfg, cs, i)
  {
    var first := new T.FirstPass(cfg);
    var ps := first.Run(cs);
    if ps.Failure? {
      ghost var n :| 0 <= n < |cs| && T.StopsAt(cfg, cs, n) == Some(ps.error)
                     && forall i | 0 <= i < n :: T.Passes(cfg, cs, i);
      assert !T.Passes(cfg, cs, n);
      return Failure(ps.error);
    }
    var all := SecondPasses(cfg, cs, ps.value, host);
    return Success(all);
  }
}
