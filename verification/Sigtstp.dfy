/**
 Model of the deferral of SIGTSTP in src/firejail/preproc.c as a state
 machine over the steps of one process.  Taking a lock installs a handler that
 only counts the signal and saves the previous action in a backup of its own
 for each of the two locks; giving a lock back restores that action and, if a
 signal was counted, sends it again.  SIGTSTP may arrive between any two steps.

 A program is a list of calls.  The backups are static and start out zeroed,
 which is the default action.
 */
module Sigtstp {
  datatype LockId = Directory | Network

  /** What SIGTSTP does: the default, ignoring it, some handler, or the
      deferring handler. */
  datatype Disposition = Default | Ignored | Handler(id: nat) | Deferred

  datatype Call = Lock(l: LockId) | Unlock(l: LockId)

  /** Where the process is: between calls, or inside one. */
  datatype Phase =
    | Ready
    | Installed(l: LockId)   // lock: the handler is installed, the lock is not taken yet
    | Released(l: LockId)    // unlock: the lock is given back
    | Restored(l: LockId)    // the saved action is back in place
    | Cleared(l: LockId)     // the count is reset, the signal is to be sent again

  datatype State = State(
    calls: seq<Call>,          // still to be made
    phase: Phase,
    action: Disposition,
    directory: Disposition,    // backup_tstp_directory_action
    network: Disposition,      // backup_tstp_network_action
    caught: nat,
    held: set<LockId>,
    open: seq<LockId>,         // locks whose handler has been installed and not yet removed
    log: seq<Disposition>,     // the actions under which SIGTSTP took effect
    owed: bool)                // a SIGTSTP was counted and none has taken effect since

  function Pick(directory: Disposition, network: Disposition, l: LockId): Disposition {
    if l == Directory then directory else network
  }

  function Backup(s: State, l: LockId): Disposition { Pick(s.directory, s.network, l) }

  function Receive(s: State): State {
    if s.action == Deferred then s.(caught := s.caught + 1, owed := true)
    else s.(log := s.log + [s.action], owed := false)
  }

  function Closed(open: seq<LockId>, l: LockId): seq<LockId> {
    if open != [] && open[|open|-1] == l then open[..|open|-1] else open
  }

  /** The next step of the program. */
  function Advance(s: State): State
    requires s.phase != Ready || s.calls != []
  {
    match s.phase
    case Ready =>
      (match s.calls[0]
       case Lock(l) =>
         var t := s.(calls := s.calls[1..], phase := Installed(l), action := Deferred, open := s.open + [l]);
         if l == Directory then t.(directory := s.action) else t.(network := s.action)
       case Unlock(l) => s.(calls := s.calls[1..], phase := Released(l), held := s.held - {l}))
    case Installed(l) => s.(phase := Ready, held := s.held + {l})
    case Released(l) => s.(phase := Restored(l), action := Backup(s, l), open := Closed(s.open, l))
    case Restored(l) => if s.caught > 0 then s.(phase := Cleared(l), caught := 0) else s.(phase := Ready)
    case Cleared(l) => Receive(s.(phase := Ready))
  }

  datatype Event = Go | Signal

  predicate Run(s0: State, es: seq<Event>, s: State)
    decreases |es|
  {
    if es == [] then s0 == s
    else if es[0] == Signal then Run(Receive(s0), es[1..], s)
    else (s0.phase != Ready || s0.calls != []) && Run(Advance(s0), es[1..], s)
  }

  function Start(calls: seq<Call>, original: Disposition): State {
    State(calls, Ready, original, Default, Default, 0, {}, [], [], false)
  }

  predicate Finished(s: State) { s.phase == Ready && s.calls == [] }

  /** The calls are paired and properly nested, and no lock is taken twice. */
  predicate Nested(calls: seq<Call>, open: seq<LockId>) {
    if calls == [] then open == []
    else match calls[0]
      case Lock(l) => l !in open && Nested(calls[1..], open + [l])
      case Unlock(l) => open != [] && open[|open|-1] == l && Nested(calls[1..], open[..|open|-1])
  }

  /** The locks are distinct, and their backups lead back to the original action. */
  predicate Chain(open: seq<LockId>, directory: Disposition, network: Disposition, original: Disposition) {
    && (forall i, j | 0 <= i < j < |open| :: open[i] != open[j])
    && (forall i | 0 <= i < |open| :: Pick(directory, network, open[i]) == if i == 0 then original else Deferred)
  }

  lemma ChainPush(open: seq<LockId>, directory: Disposition, network: Disposition, original: Disposition,
                  l: LockId, action: Disposition)
    requires Chain(open, directory, network, original) && l !in open
    requires action == if open == [] then original else Deferred
    ensures l == Directory ==> Chain(open + [l], action, network, original)
    ensures l == Network ==> Chain(open + [l], directory, action, original)
  {
    forall i | 0 <= i < |open| ensures open[i] != l { assert open[i] in open; }
  }

  /** With properly nested calls: the outermost backup is the original action and
      the inner ones defer; while a handler is installed signals are deferred, and
      a counted signal is either still counted or about to be sent again. */
  ghost predicate Inv(s: State, original: Disposition) {
    && (s.phase.Released? ==> s.open != [] && s.open[|s.open|-1] == s.phase.l && s.phase.l !in s.held)
    && Nested(s.calls, if s.phase.Released? then s.open[..|s.open|-1] else s.open)
    && (s.phase.Installed? ==> s.phase.l in s.open)
    && Chain(s.open, s.directory, s.network, original)
    && s.action == (if s.open == [] then original else Deferred)
    && (forall l | l in s.held :: l in s.open)
    && (s.owed ==> s.caught > 0 || s.phase.Cleared?)
    && (s.open == [] && s.caught > 0 ==> s.phase.Restored?)
    && (forall i | 0 <= i < |s.log| :: s.log[i] == original)
  }

  lemma ReceiveKeeps(s: State, original: Disposition)
    requires Inv(s, original) && original != Deferred
    ensures Inv(Receive(s), original)
  {
  }

  lemma InnerHeld(s: State)
    requires s.open != [] && s.open[|s.open|-1] !in s.held
    requires forall l | l in s.held :: l in s.open
    ensures forall l | l in s.held :: l in s.open[..|s.open|-1]
  {
    forall l | l in s.held ensures l in s.open[..|s.open|-1] {
      var i :| 0 <= i < |s.open| && s.open[i] == l;
      assert s.open[..|s.open|-1][i] == l;
    }
  }

  lemma LockKeeps(s: State, original: Disposition)
    requires Inv(s, original) && s.phase == Ready && s.calls != [] && s.calls[0].Lock?
    ensures Inv(Advance(s), original)
  {
    ChainPush(s.open, s.directory, s.network, original, s.calls[0].l, s.action);
  }

  lemma UnlockKeeps(s: State, original: Disposition)
    requires Inv(s, original) && s.phase == Ready && s.calls != [] && s.calls[0].Unlock?
    ensures Inv(Advance(s), original)
  {
  }

  lemma RestoreKeeps(s: State, original: Disposition)
    requires Inv(s, original) && s.phase.Released?
    ensures Inv(Advance(s), original)
  {
    InnerHeld(s);
  }

  lemma OtherKeeps(s: State, original: Disposition)
    requires Inv(s, original) && original != Deferred && (s.phase.Installed? || s.phase.Restored? || s.phase.Cleared?)
    ensures Inv(Advance(s), original)
  {
  }

  lemma AdvanceKeeps(s: State, original: Disposition)
    requires Inv(s, original) && original != Deferred && (s.phase != Ready || s.calls != [])
    ensures Inv(Advance(s), original)
  {
    if s.phase != Ready {
      if s.phase.Released? { RestoreKeeps(s, original); } else { OtherKeeps(s, original); }
    } else if s.calls[0].Lock? {
      LockKeeps(s, original);
    } else {
      UnlockKeeps(s, original);
    }
  }

  lemma {:induction false} RunKeeps(s0: State, es: seq<Event>, s: State, original: Disposition)
    requires Inv(s0, original) && original != Deferred && Run(s0, es, s)
    ensures Inv(s, original)
    decreases |es|
  {
    if es != [] {
      if es[0] == Signal {
        ReceiveKeeps(s0, original);
        RunKeeps(Receive(s0), es[1..], s, original);
      } else {
        AdvanceKeeps(s0, original);
        RunKeeps(Advance(s0), es[1..], s, original);
      }
    }
  }

  /** At every step of every run of properly nested calls, whenever signals
      arrive: while a lock is held signals are deferred, and no signal takes effect
      under any action but the original one. */
  lemma HoldingDefers(calls: seq<Call>, original: Disposition, es: seq<Event>, s: State)
    requires Nested(calls, []) && original != Deferred && Run(Start(calls, original), es, s)
    ensures s.held != {} ==> s.action == Deferred
    ensures forall i | 0 <= i < |s.log| :: s.log[i] == original
  {
    RunKeeps(Start(calls, original), es, s, original);
    if s.held != {} {
      var l :| l in s.held;
      assert l in s.open;
    }
  }

  /** When no lock is open the original action is back and no signal is owed: every
      SIGTSTP that arrived has taken effect, or one after it has. */
  lemma OutermostRestores(calls: seq<Call>, original: Disposition, es: seq<Event>, s: State)
    requires Nested(calls, []) && original != Deferred && Run(Start(calls, original), es, s)
    requires s.phase == Ready && s.open == []
    ensures s.action == original && s.caught == 0 && !s.owed
  {
    RunKeeps(Start(calls, original), es, s, original);
  }

  /** The number of SIGTSTP events of a run. */
  function Signals(es: seq<Event>): nat {
    if es == [] then 0 else (if es[0] == Signal then 1 else 0) + Signals(es[1..])
  }

  /** A signal is owed, or has taken effect since the log had length n. */
  lemma {:induction false} SignalTakesEffect(s0: State, es: seq<Event>, s: State)
    requires Run(s0, es, s) && (Signals(es) > 0 || s0.owed)
    ensures s.owed || |s.log| > |s0.log|
    ensures |s.log| >= |s0.log|
    decreases |es|
  {
    if es != [] {
      var s1 := if es[0] == Signal then Receive(s0) else Advance(s0);
      assert |s1.log| >= |s0.log| && (es[0] == Signal || s0.owed ==> s1.owed || |s1.log| > |s0.log|);
      if Signals(es[1..]) > 0 || s1.owed {
        SignalTakesEffect(s1, es[1..], s);
      } else {
        LogGrows(s1, es[1..], s);
      }
    }
  }

  lemma {:induction false} LogGrows(s0: State, es: seq<Event>, s: State)
    requires Run(s0, es, s)
    ensures |s.log| >= |s0.log|
    decreases |es|
  {
    if es != [] {
      LogGrows(if es[0] == Signal then Receive(s0) else Advance(s0), es[1..], s);
    }
  }

  /** A program that has ended has passed on the signals it got. */
  lemma NotLost(calls: seq<Call>, original: Disposition, es: seq<Event>, s: State)
    requires Nested(calls, []) && original != Deferred && Run(Start(calls, original), es, s)
    requires Finished(s) && Signals(es) > 0
    ensures s.log != [] && s.action == original
  {
    RunKeeps(Start(calls, original), es, s, original);
    OutermostRestores(calls, original, es, s);
    SignalTakesEffect(Start(calls, original), es, s);
  }

  // ---------------------------------------------------------------------
  // The calls of main
  // ---------------------------------------------------------------------

  /** main.c takes the network lock only if a bridge is configured, but always
      gives it back. */
  function MainCalls(bridge: bool): seq<Call> {
    [Lock(Directory), Unlock(Directory)] +
    (if bridge then [Lock(Network)] else []) +
    [Lock(Directory), Unlock(Directory), Unlock(Network)]
  }

  lemma MainNested()
    ensures Nested(MainCalls(true), [])
    ensures Nested(MainCalls(false)[..|MainCalls(false)|-1], [])
  {
    NestedPair(Directory, [Lock(Directory), Unlock(Directory)], []);
    NestedPair(Directory, [], []);
    NestedPair(Directory, [Unlock(Network)], [Network]);
    assert [] + [Network] == [Network];
    var inner := [Lock(Directory), Unlock(Directory)] + [Unlock(Network)];
    assert ([Lock(Network)] + inner)[1..] == inner;
    NestedPair(Directory, [Lock(Network)] + inner, []);
    assert MainCalls(true) == [Lock(Directory), Unlock(Directory)] + ([Lock(Network)] + inner);
    assert MainCalls(false)[..4] == [Lock(Directory), Unlock(Directory)] + [Lock(Directory), Unlock(Directory)];
  }

  lemma NestedPair(l: LockId, rest: seq<Call>, open: seq<LockId>)
    requires l !in open
    ensures Nested([Lock(l), Unlock(l)] + rest, open) == Nested(rest, open)
  {
    var calls := [Lock(l), Unlock(l)] + rest;
    assert calls[1..][0] == Unlock(l) && calls[1..][1..] == rest;
    assert (open + [l])[..|open|] == open;
  }

  /** The calls end with an unlock of the network lock that was never taken. */
  ghost predicate InvUnpaired(s: State, original: Disposition) {
    if s.calls != [] then
      && s.calls[|s.calls|-1] == Unlock(Network)
      && (forall i | 0 <= i < |s.calls| :: s.calls[i] != Lock(Network))
      && Inv(s.(calls := s.calls[..|s.calls|-1]), original)
      && s.network == Default
    else
      && s.open == []
      && match s.phase
         case Released(l) => l == Network && s.network == Default
         case Installed(l) => false
         case _ => s.action == Default
  }

  function Front(s: State): State
    requires s.calls != []
  {
    s.(calls := s.calls[..|s.calls|-1])
  }

  lemma UnpairedReceives(s: State, original: Disposition)
    requires InvUnpaired(s, original) && original != Deferred
    ensures InvUnpaired(Receive(s), original)
  {
    if s.calls != [] {
      ReceiveKeeps(Front(s), original);
      assert Front(Receive(s)) == Receive(Front(s));
    }
  }

  lemma UnpairedAdvances(s: State, original: Disposition)
    requires InvUnpaired(s, original) && original != Deferred && (s.phase != Ready || s.calls != [])
    ensures InvUnpaired(Advance(s), original)
  {
    if s.calls != [] && (s.phase != Ready || |s.calls| > 1) {
      AdvanceKeeps(Front(s), original);
      AdvanceFront(s);
    }
  }

  lemma AdvanceFront(s: State)
    requires s.calls != [] && (s.phase != Ready || |s.calls| > 1)
    ensures Advance(s).calls != [] && Front(Advance(s)) == Advance(Front(s))
    ensures s.phase == Ready ==> Advance(s).calls == s.calls[1..]
    ensures s.phase != Ready ==> Advance(s).calls == s.calls
    ensures !(s.phase == Ready && s.calls[0] == Lock(Network)) ==> Advance(s).network == s.network
  {
    if s.phase == Ready {
      assert s.calls[1..][..|s.calls|-2] == s.calls[..|s.calls|-1][1..];
    }
  }

  lemma {:induction false} UnpairedRun(s0: State, es: seq<Event>, s: State, original: Disposition)
    requires InvUnpaired(s0, original) && original != Deferred && Run(s0, es, s)
    ensures InvUnpaired(s, original)
    decreases |es|
  {
    if es != [] {
      if es[0] == Signal {
        UnpairedReceives(s0, original);
        UnpairedRun(Receive(s0), es[1..], s, original);
      } else {
        UnpairedAdvances(s0, original);
        UnpairedRun(Advance(s0), es[1..], s, original);
      }
    }
  }

  lemma MainStarts(original: Disposition)
    ensures Inv(Start(MainCalls(true), original), original)
    ensures InvUnpaired(Start(MainCalls(false), original), original)
  {
    MainNested();
  }

  /** What SIGTSTP does after main has made its calls, whenever signals arrive. */
  lemma MainDisposition(bridge: bool, original: Disposition, es: seq<Event>, s: State)
    requires original != Deferred && Run(Start(MainCalls(bridge), original), es, s) && Finished(s)
    ensures s.action == if bridge then original else Default
  {
    MainStarts(original);
    var s0 := Start(MainCalls(bridge), original);
    if bridge { RunKeeps(s0, es, s, original); } else { UnpairedRun(s0, es, s, original); }
  }

  /** Startup leaves the user's action in place exactly when a bridge is configured
      or the action was the default one anyway. */
  lemma MainKeepsActionExactly(bridge: bool, original: Disposition, es: seq<Event>, s: State)
    requires original != Deferred && Run(Start(MainCalls(bridge), original), es, s) && Finished(s)
    ensures s.action == original <==> bridge || original == Default
  {
    MainDisposition(bridge, original, es, s);
  }

  // ---------------------------------------------------------------------
  // The child
  // ---------------------------------------------------------------------

  /** main clones the child when only the last call is left. */
  predicate AtClone(bridge: bool, original: Disposition, es: seq<Event>, s: State) {
    Run(Start(MainCalls(bridge), original), es, s) && s.phase == Ready && s.calls == [Unlock(Network)]
  }

  /** The child has copies of the action, of the backups and of the count, and takes
      the directory lock once more if there is a chroot. */
  function ChildOf(s: State, chroot: bool): State {
    s.(calls := if chroot then [Lock(Directory), Unlock(Directory)] else [], log := [], owed := s.caught > 0)
  }

  lemma CloneState(bridge: bool, original: Disposition, es: seq<Event>, s: State)
    requires original != Deferred && AtClone(bridge, original, es, s)
    ensures bridge ==> s.action == Deferred
    ensures !bridge ==> Inv(s.(calls := []), original) && s.open == []
  {
    MainStarts(original);
    var s0 := Start(MainCalls(bridge), original);
    if bridge {
      RunKeeps(s0, es, s, original);
    } else {
      UnpairedRun(s0, es, s, original);
      assert s.calls[..|s.calls|-1] == [];
    }
  }

  /** Everything that the child could restore is the deferring handler. */
  ghost predicate Stuck(c: State) {
    && c.action == Deferred && c.log == []
    && match c.phase
       case Ready =>
         || c.calls == [] || c.calls == [Lock(Directory), Unlock(Directory)]
         || (c.calls == [Unlock(Directory)] && c.directory == Deferred)
       case Installed(l) => c.calls == [Unlock(Directory)] && c.directory == Deferred
       case Released(l) => l == Directory && c.calls == [] && c.directory == Deferred
       case _ => c.calls == []
  }

  lemma StuckStays(c: State)
    requires Stuck(c)
    ensures Stuck(Receive(c))
    ensures c.phase != Ready || c.calls != [] ==> Stuck(Advance(c))
  {
    assert [Lock(Directory), Unlock(Directory)][1..] == [Unlock(Directory)];
  }

  lemma {:induction false} StuckRun(c0: State, es: seq<Event>, c: State)
    requires Stuck(c0) && Run(c0, es, c)
    ensures Stuck(c)
    decreases |es|
  {
    if es != [] {
      StuckStays(c0);
      StuckRun(if es[0] == Signal then Receive(c0) else Advance(c0), es[1..], c);
    }
  }

  /** With a bridge the child is cloned while the network lock is held: it never
      leaves the deferring handler, and no SIGTSTP it gets ever takes effect. */
  lemma ChildDefersForever(chroot: bool, original: Disposition, es: seq<Event>, s: State, es': seq<Event>, c: State)
    requires original != Deferred && AtClone(true, original, es, s) && Run(ChildOf(s, chroot), es', c)
    ensures c.action == Deferred && c.log == [] && (Signals(es') > 0 ==> c.owed)
  {
    CloneState(true, original, es, s);
    StuckRun(ChildOf(s, chroot), es', c);
    if Signals(es') > 0 { SignalTakesEffect(ChildOf(s, chroot), es', c); }
  }

  lemma ChildNested(s: State, chroot: bool, original: Disposition)
    requires Inv(s.(calls := []), original) && s.open == [] && s.phase == Ready
    ensures Inv(ChildOf(s, chroot), original)
  {
    assert [] + [Directory] == [Directory];
    NestedPair(Directory, [], []);
    assert [Lock(Directory), Unlock(Directory)] + [] == [Lock(Directory), Unlock(Directory)];
  }

  /** Without a bridge the child has the original action whenever it holds no lock,
      and no signal is lost. */
  lemma ChildRestores(chroot: bool, original: Disposition, es: seq<Event>, s: State, es': seq<Event>, c: State)
    requires original != Deferred && AtClone(false, original, es, s) && Run(ChildOf(s, chroot), es', c) && Finished(c)
    ensures c.action == original && !c.owed && (Signals(es') > 0 ==> c.log != [])
  {
    CloneState(false, original, es, s);
    ChildNested(s, chroot, original);
    RunKeeps(ChildOf(s, chroot), es', c, original);
    if Signals(es') > 0 { SignalTakesEffect(ChildOf(s, chroot), es', c); }
  }

  /** The child gets the user's action back exactly when no bridge is configured. */
  lemma ChildKeepsActionExactly(bridge: bool, chroot: bool, original: Disposition, es: seq<Event>, s: State,
                                es': seq<Event>, c: State)
    requires original != Deferred && AtClone(bridge, original, es, s) && Run(ChildOf(s, chroot), es', c) && Finished(c)
    ensures c.action == original <==> !bridge
  {
    if bridge {
      ChildDefersForever(chroot, original, es, s, es', c);
    } else {
      ChildRestores(chroot, original, es, s, es', c);
    }
  }

  // ---------------------------------------------------------------------
  // The same lock twice
  // ---------------------------------------------------------------------

  ghost predicate Reach(s: State, t: State) { exists es :: Run(s, es, t) }

  lemma ReachGo(s: State, t: State)
    requires (s.phase != Ready || s.calls != []) && Reach(Advance(s), t)
    ensures Reach(s, t)
  {
    var es :| Run(Advance(s), es, t);
    assert ([Go] + es)[1..] == es && Run(s, [Go] + es, t);
  }

  /** A lock is taken, and nothing happens meanwhile. */
  lemma Taken(s: State, l: LockId, rest: seq<Call>) returns (s': State)
    requires s.phase == Ready && s.calls == [Lock(l)] + rest && s.caught == 0
    ensures s'.phase == Ready && s'.calls == rest && s'.caught == 0
    ensures s'.action == Deferred && Backup(s', l) == s.action
    ensures forall t | Reach(s', t) :: Reach(s, t)
  {
    assert s.calls[1..] == rest;
    s' := Advance(Advance(s));
    forall t | Reach(s', t) ensures Reach(s, t) {
      ReachGo(Advance(s), t);
      ReachGo(s, t);
    }
  }

  /** A lock is given back, and nothing happens meanwhile. */
  lemma Given(s: State, l: LockId, rest: seq<Call>) returns (s': State)
    requires s.phase == Ready && s.calls == [Unlock(l)] + rest && s.caught == 0
    ensures s'.phase == Ready && s'.calls == rest && s'.caught == 0
    ensures s'.action == Backup(s, l) && Backup(s', l) == Backup(s, l)
    ensures forall t | Reach(s', t) :: Reach(s, t)
  {
    assert s.calls[1..] == rest;
    s' := Advance(Advance(Advance(s)));
    forall t | Reach(s', t) ensures Reach(s, t) {
      ReachGo(Advance(Advance(s)), t);
      ReachGo(Advance(s), t);
      ReachGo(s, t);
    }
  }

  /** Taking the same lock twice loses the original action: the deferring handler
      stays for good. */
  lemma TwiceLosesAction(l: LockId, original: Disposition)
    ensures exists s ::
              && Reach(Start([Lock(l), Lock(l), Unlock(l), Unlock(l)], original), s)
              && Finished(s) && s.action == Deferred
  {
    var s0 := Start([Lock(l), Lock(l), Unlock(l), Unlock(l)], original);
    assert s0.calls == [Lock(l)] + [Lock(l), Unlock(l), Unlock(l)];
    assert [Lock(l), Unlock(l), Unlock(l)] == [Lock(l)] + [Unlock(l), Unlock(l)];
    assert [Unlock(l), Unlock(l)] == [Unlock(l)] + [Unlock(l)] && [Unlock(l)] == [Unlock(l)] + [];
    var s1 := Taken(s0, l, [Lock(l), Unlock(l), Unlock(l)]);
    var s2 := Taken(s1, l, [Unlock(l), Unlock(l)]);
    var s3 := Given(s2, l, [Unlock(l)]);
    var s4 := Given(s3, l, []);
    assert Run(s4, [], s4);
    assert Reach(s4, s4);
  }
}
