/**
 Model of who waits for whom while any number of sandboxes start at the same
 time: the two lock files of src/firejail/preproc.c, the places in main.c and
 chroot.c where they are taken, and the two waits of the handshake between a
 parent and its child.

 The child inherits the open network lock file, so the lock survives the parent
 as long as the child lives.  Every process may die at any step; a process whose
 peer has died sees the end of the pipe and does not wait.
 */
module LockOrder {
  import opened Wrappers

  type Pid = nat

  // What a starting firejail does next.
  const M_DIR1 := 0       // take the directory lock
  const M_UNDIR1 := 1
  const M_NET := 2        // take the network lock, if a bridge is configured
  const M_DIR2 := 3       // take the directory lock
  const M_UNDIR2 := 4
  const M_CLONE := 5
  const M_NOTIFY := 6
  const M_WAIT := 7       // wait for the child's message
  const M_ANSWER := 8
  const M_UNNET := 9
  const M_REAP := 10      // wait for the child's end
  const M_DONE := 11

  // What a child does next.
  const C_WAIT := 0       // wait for the parent's first message
  const C_DIR := 1        // take the directory lock, if there is a chroot
  const C_UNDIR := 2
  const C_NOTIFY := 3
  const C_WAIT2 := 4      // wait for the parent's answer
  const C_RUN := 5
  const C_DONE := 6

  datatype Proc =
    | Main(pc: int, bridge: bool, chroot: bool, child: Option<Pid>)
    | Child(pc: int, chroot: bool, parent: Pid)

  /** Only processes that live are in the map.  The network lock is named after
      the process that took it. */
  datatype System = System(procs: map<Pid, Proc>, dir: Option<Pid>, net: Option<Pid>)

  predicate MainAt(s: System, p: Pid, pc: int) { p in s.procs && s.procs[p].Main? && s.procs[p].pc == pc }

  predicate ChildAt(s: System, p: Pid, pc: int) { p in s.procs && s.procs[p].Child? && s.procs[p].pc == pc }

  predicate WantsDir(s: System, p: Pid) {
    MainAt(s, p, M_DIR1) || MainAt(s, p, M_DIR2) || (ChildAt(s, p, C_DIR) && s.procs[p].chroot)
  }

  predicate WantsNet(s: System, p: Pid) { MainAt(s, p, M_NET) && s.procs[p].bridge }

  /** The processes that have the network lock file open: its owner and the child
      the owner has cloned. */
  predicate HoldsNet(s: System, q: Pid) {
    s.net.Some? && q in s.procs && (q == s.net.value || (s.procs[q].Child? && s.procs[q].parent == s.net.value))
  }

  /** The message that p waits for has not been sent by q. */
  predicate AwaitsMessage(s: System, p: Pid, q: Pid) {
    && p in s.procs && q in s.procs
    && (|| (MainAt(s, p, M_WAIT) && s.procs[p].child == Some(q) && s.procs[q].Child? && s.procs[q].pc <= C_NOTIFY)
        || (MainAt(s, p, M_REAP) && s.procs[p].child == Some(q) && s.procs[q].Child?)
        || (ChildAt(s, p, C_WAIT) && s.procs[p].parent == q && s.procs[q].Main? && s.procs[q].pc <= M_NOTIFY)
        || (ChildAt(s, p, C_WAIT2) && s.procs[p].parent == q && s.procs[q].Main? && s.procs[q].pc <= M_ANSWER))
  }

  /** p cannot go on before q does something. */
  predicate WaitsFor(s: System, p: Pid, q: Pid) {
    || (WantsDir(s, p) && s.dir == Some(q))
    || (WantsNet(s, p) && HoldsNet(s, q))
    || AwaitsMessage(s, p, q)
  }

  ghost predicate Blocked(s: System, p: Pid) {
    exists q :: WaitsFor(s, p, q)
  }

  // ---------------------------------------------------------------------
  // The steps
  // ---------------------------------------------------------------------

  datatype Action = Launch(p: Pid, bridge: bool, chroot: bool) | Go(p: Pid, newPid: Pid) | Die(p: Pid)

  /** The parent's and the child's ends of the pipes: who has gone sees the end of
      the file, and exits. */
  predicate PeerGone(s: System, p: Pid) {
    || (MainAt(s, p, M_WAIT) && (s.procs[p].child.None? || s.procs[p].child.value !in s.procs))
    || ((ChildAt(s, p, C_WAIT) || ChildAt(s, p, C_WAIT2)) && s.procs[p].parent !in s.procs)
  }

  ghost predicate Can(s: System, a: Action) {
    match a
    case Launch(p, _, _) => p !in s.procs && NoTrace(s, p)
    case Go(p, n) =>
      && p in s.procs && !Blocked(s, p) && !Ended(s.procs[p]) && !PeerGone(s, p)
      && (MainAt(s, p, M_CLONE) ==> n !in s.procs && NoTrace(s, n))
    case Die(p) => p in s.procs
  }

  /** A pid is not given again while something still refers to it. */
  ghost predicate NoTrace(s: System, n: Pid) {
    && s.dir != Some(n) && s.net != Some(n)
    && (forall p | p in s.procs :: s.procs[p].Main? ==> s.procs[p].child != Some(n))
    && (forall p | p in s.procs :: s.procs[p].Child? ==> s.procs[p].parent != n)
  }

  predicate Ended(x: Proc) { if x.Main? then x.pc == M_DONE else x.pc == C_DONE }

  function Next(x: Proc): Proc { x.(pc := x.pc + 1) }

  function GoOn(s: System, p: Pid, n: Pid): System
    requires p in s.procs
  {
    var x := s.procs[p];
    var t := s.(procs := s.procs[p := Next(x)]);
    match x
    case Main(pc, bridge, chroot, _) =>
      if pc == M_DIR1 || pc == M_DIR2 then t.(dir := Some(p))
      else if pc == M_UNDIR1 || pc == M_UNDIR2 then t.(dir := None)
      else if pc == M_NET && bridge then t.(net := Some(p))
      else if pc == M_CLONE then
        s.(procs := s.procs[p := Next(x).(child := Some(n))][n := Child(C_WAIT, chroot, p)])
      else if pc == M_UNNET && bridge then t.(net := None)
      else t
    case Child(pc, chroot, _) =>
      if pc == C_DIR && chroot then t.(dir := Some(p))
      else if pc == C_UNDIR && chroot then t.(dir := None)
      else t
  }

  function Without(s: System, p: Pid): System {
    s.(procs := s.procs - {p}, dir := if s.dir == Some(p) then None else s.dir)
  }

  ghost predicate NetHeld(s: System) { exists q :: HoldsNet(s, q) }

  /** Locks go with the last process that has the file open. */
  ghost function Drop(s: System, p: Pid): System {
    if NetHeld(Without(s, p)) then Without(s, p) else Without(s, p).(net := None)
  }

  ghost function Do(s: System, a: Action): System
    requires Can(s, a)
  {
    match a
    case Launch(p, bridge, chroot) => s.(procs := s.procs[p := Main(M_DIR1, bridge, chroot, None)])
    case Go(p, n) => GoOn(s, p, n)
    case Die(p) => Drop(s, p)
  }

  const NOTHING := System(map[], None, None)

  ghost predicate Run(s0: System, acts: seq<Action>, s: System)
    decreases |acts|
  {
    if acts == [] then s0 == s
    else Can(s0, acts[0]) && Run(Do(s0, acts[0]), acts[1..], s)
  }

  // ---------------------------------------------------------------------
  // The invariant
  // ---------------------------------------------------------------------

  /** The directory lock is only held in the innermost sections, which contain no
      wait. */
  predicate InDir(x: Proc) {
    if x.Main? then x.pc == M_UNDIR1 || x.pc == M_UNDIR2 else x.pc == C_UNDIR && x.chroot
  }

  predicate InNet(x: Proc) { x.Main? && x.bridge && M_DIR2 <= x.pc <= M_UNNET }

  predicate ProcOk(s: System, p: Pid, x: Proc) {
    match x
    case Main(pc, _, _, child) => M_DIR1 <= pc <= M_DONE && (child.Some? <==> pc > M_CLONE)
    case Child(pc, _, parent) =>
      && C_WAIT <= pc <= C_DONE
      && (parent in s.procs ==> s.procs[parent].Main? && s.procs[parent].child == Some(p))
      && (parent in s.procs && s.procs[parent].pc > M_WAIT ==> pc > C_NOTIFY)
  }

  predicate InvProcs(s: System) {
    forall p | p in s.procs :: ProcOk(s, p, s.procs[p])
  }

  predicate InvDir(s: System) {
    && (forall p | p in s.procs && InDir(s.procs[p]) :: s.dir == Some(p))
    && (s.dir.Some? ==> s.dir.value in s.procs && InDir(s.procs[s.dir.value]))
  }

  predicate InvNet(s: System) {
    && (forall p | p in s.procs && InNet(s.procs[p]) :: s.net == Some(p))
    && (s.net.Some? && s.net.value in s.procs ==> InNet(s.procs[s.net.value]))
  }

  predicate Inv(s: System) { InvProcs(s) && InvDir(s) && InvNet(s) }

  // ---------------------------------------------------------------------
  // No cycle of waits
  // ---------------------------------------------------------------------

  /** Waiting always leads to a process of lower rank. */
  function Rank(s: System, p: Pid): nat {
    if p !in s.procs then 0
    else match s.procs[p]
      case Main(pc, bridge, _, child) =>
        if pc == M_NET && bridge then 3
        else if pc == M_WAIT && child.Some? && child.value in s.procs && s.procs[child.value].pc <= C_NOTIFY then 2
        else if pc == M_REAP then 2
        else if pc == M_DIR1 || pc == M_DIR2 then 1
        else 0
      case Child(pc, chroot, _) =>
        if pc == C_WAIT || pc == C_WAIT2 || (pc == C_DIR && chroot) then 1 else 0
  }

  lemma WaitsDown(s: System, p: Pid, q: Pid)
    requires Inv(s) && WaitsFor(s, p, q)
    ensures Rank(s, q) < Rank(s, p) && q in s.procs
  {
  }

  lemma LaunchKeeps(s: System, p: Pid, bridge: bool, chroot: bool)
    requires Inv(s) && Can(s, Launch(p, bridge, chroot))
    ensures Inv(Do(s, Launch(p, bridge, chroot)))
  {
  }

  lemma CloneKeeps(s: System, p: Pid, n: Pid)
    requires Inv(s) && Can(s, Go(p, n)) && MainAt(s, p, M_CLONE)
    ensures Inv(GoOn(s, p, n))
  {
  }

  lemma GoKeepsDir(s: System, p: Pid, n: Pid)
    requires InvDir(s) && InvProcs(s) && p in s.procs && !Blocked(s, p) && !MainAt(s, p, M_CLONE)
    ensures InvDir(GoOn(s, p, n))
  {
    if s.dir.Some? { assert !WaitsFor(s, p, s.dir.value); }
  }

  lemma GoKeepsNet(s: System, p: Pid, n: Pid)
    requires InvNet(s) && InvProcs(s) && p in s.procs && !Blocked(s, p) && !MainAt(s, p, M_CLONE)
    ensures InvNet(GoOn(s, p, n))
  {
    if s.net.Some? { assert !WaitsFor(s, p, s.net.value); }
  }

  lemma GoKeepsProcs(s: System, p: Pid, n: Pid)
    requires InvProcs(s) && p in s.procs && !Blocked(s, p) && !MainAt(s, p, M_CLONE)
    requires !Ended(s.procs[p]) && !PeerGone(s, p)
    ensures InvProcs(GoOn(s, p, n))
  {
    var x, t := s.procs[p], GoOn(s, p, n);
    forall q | q in t.procs ensures ProcOk(t, q, t.procs[q]) {
      assert ProcOk(s, q, s.procs[q]) && ProcOk(s, p, x);
      if x.Main? && s.procs[q].Child? { assert !WaitsFor(s, p, q); }
    }
  }

  lemma DropKeeps(s: System, p: Pid)
    requires Inv(s)
    ensures Inv(Drop(s, p))
  {
    var t := Without(s, p);
    forall q | q in t.procs ensures ProcOk(t, q, t.procs[q]) {
      assert ProcOk(s, q, s.procs[q]);
    }
    NetSurvives(s, t);
  }

  lemma NetSurvives(s: System, t: System)
    requires InvNet(s) && t.net == s.net && forall q | q in t.procs :: q in s.procs && t.procs[q] == s.procs[q]
    ensures InvNet(t)
    ensures !NetHeld(t) ==> InvNet(t.(net := None))
  {
    forall q | q in t.procs && InNet(t.procs[q]) ensures HoldsNet(t, q) { }
  }

  lemma StepKeeps(s: System, a: Action)
    requires Inv(s) && Can(s, a)
    ensures Inv(Do(s, a))
  {
    match a
    case Launch(p, bridge, chroot) => LaunchKeeps(s, p, bridge, chroot);
    case Die(p) => DropKeeps(s, p);
    case Go(p, n) =>
      if MainAt(s, p, M_CLONE) {
        CloneKeeps(s, p, n);
      } else {
        GoKeepsProcs(s, p, n);
        GoKeepsDir(s, p, n);
        GoKeepsNet(s, p, n);
      }
  }

  lemma {:induction false} RunKeeps(s0: System, acts: seq<Action>, s: System)
    requires Inv(s0) && Run(s0, acts, s)
    ensures Inv(s)
    decreases |acts|
  {
    if acts != [] {
      StepKeeps(s0, acts[0]);
      RunKeeps(Do(s0, acts[0]), acts[1..], s);
    }
  }

  /** Each process of the chain waits for the next one. */
  predicate WaitChain(s: System, ps: seq<Pid>) {
    forall i | 0 <= i < |ps| - 1 :: WaitsFor(s, ps[i], ps[i + 1])
  }

  lemma {:induction false} ChainGoesDown(s: System, ps: seq<Pid>)
    requires Inv(s) && WaitChain(s, ps) && |ps| >= 2
    ensures Rank(s, ps[|ps|-1]) < Rank(s, ps[0])
  {
    WaitsDown(s, ps[0], ps[1]);
    if |ps| > 2 {
      assert WaitsFor(s, ps[0], ps[1]);
      forall i | 0 <= i < |ps[1..]| - 1 ensures WaitsFor(s, ps[1..][i], ps[1..][i + 1]) {
        assert WaitsFor(s, ps[i + 1], ps[i + 1 + 1]);
      }
      ChainGoesDown(s, ps[1..]);
    }
  }

  /** However many sandboxes start, in whatever order, and whoever dies: no chain
      of waits ever leads back to its start. */
  lemma NoCycle(acts: seq<Action>, s: System, ps: seq<Pid>)
    requires Run(NOTHING, acts, s) && |ps| >= 2 && WaitChain(s, ps)
    ensures ps[0] != ps[|ps|-1]
  {
    RunKeeps(NOTHING, acts, s);
    ChainGoesDown(s, ps);
  }

  /** A process that is not blocked, at the end of the chain of waits. */
  lemma {:induction false} Free(s: System, p: Pid) returns (q: Pid)
    requires Inv(s) && p in s.procs
    ensures q in s.procs && !Blocked(s, q)
    decreases Rank(s, p)
  {
    if Blocked(s, p) {
      var r :| WaitsFor(s, p, r);
      WaitsDown(s, p, r);
      q := Free(s, r);
    } else {
      q := p;
    }
  }

  lemma FreshPid(s: System) returns (n: Pid)
    ensures n !in s.procs && NoTrace(s, n)
  {
    var named := s.procs.Keys
                 + (set p | p in s.procs && s.procs[p].Main? && s.procs[p].child.Some? :: s.procs[p].child.value)
                 + (set p | p in s.procs && s.procs[p].Child? :: s.procs[p].parent)
                 + (if s.dir.Some? then {s.dir.value} else {})
                 + (if s.net.Some? then {s.net.value} else {});
    n := Unused(named);
    forall p | p in s.procs && s.procs[p].Main? ensures s.procs[p].child != Some(n) {
      if s.procs[p].child.Some? { assert s.procs[p].child.value in named; }
    }
    forall p | p in s.procs && s.procs[p].Child? ensures s.procs[p].parent != n {
      assert s.procs[p].parent in named;
    }
    if s.dir.Some? { assert s.dir.value in named; }
    if s.net.Some? { assert s.net.value in named; }
  }

  /** Whenever a process waits, some process can act: take its next step, or exit
      because it has ended or its peer has. */
  lemma SomeoneActs(acts: seq<Action>, s: System, p: Pid)
    requires Run(NOTHING, acts, s) && Blocked(s, p)
    ensures exists q :: q in s.procs && (Ended(s.procs[q]) || PeerGone(s, q) || exists n :: Can(s, Go(q, n)))
  {
    RunKeeps(NOTHING, acts, s);
    var r :| WaitsFor(s, p, r);
    WaitsDown(s, p, r);
    var q := Free(s, r);
    var n := FreshPid(s);
    if !Ended(s.procs[q]) && !PeerGone(s, q) {
      assert Can(s, Go(q, n));
    }
  }

  /** Each lock has at most one process in its section. */
  lemma MutualExclusion(acts: seq<Action>, s: System, p: Pid, q: Pid)
    requires Run(NOTHING, acts, s) && p in s.procs && q in s.procs
    requires (InDir(s.procs[p]) && InDir(s.procs[q])) || (InNet(s.procs[p]) && InNet(s.procs[q]))
    ensures p == q
  {
    RunKeeps(NOTHING, acts, s);
  }
}
