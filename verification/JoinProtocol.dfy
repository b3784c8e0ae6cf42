/**
 Model of the start of a sandbox and of joining it, as a state machine over
 the steps of four kinds of processes:

   parent       src/firejail/main.c, run_files.c
   child        src/firejail/sandbox.c
   application  src/firejail/sandbox.c, start_application
   joiners      src/firejail/join.c, any number of them

 They share two pipes, a pidfile with a lock, and a status byte.  A message on
 a pipe carries the sender's arg_noroot, which the receiver takes over.  The
 receiver reads through a buffered stream that it throws away afterwards, so
 whatever else is in the pipe is lost: a wait drains the pipe.

 Every process may die at any step.
 */
module JoinProtocol {
  import opened Decimal
  import opened Wrappers

  // Program counters: each name is the state after the step it stands for.
  const P_START := 0      // the program has started
  const P_CLEAN := 1      // run files left by an earlier process with this pid are deleted
  const P_CLONED := 2     // the child exists
  const P_OPENED := 3     // the pidfile is created and being written
  const P_LOCKED := 4     // the pidfile is complete and locked
  const P_NET := 5        // a process that sets up the network is running
  const P_BASE := 6       // that process has ended, or there was nothing to do
  const P_NOTIFIED := 7   // the child is told that base setup is complete
  const P_HEARD := 8      // the child has answered
  const P_UID := 9        // the uid map is written, if there is a user namespace
  const P_GID := 10       // the gid map is written, likewise
  const P_MAPPED := 11    // the child is told so
  const P_REAPED := 12    // the child has been waited for
  const P_RELEASED := 13  // the lock is released

  const C_NONE := 0
  const C_STARTED := 1    // cloned, waiting for the parent
  const C_SETUP := 2      // base setup is complete
  const C_CAPS := 3       // filters are prepared and capabilities are dropped
  const C_FILE := 4       // the join file is created
  const C_SIZED := 5      // it is one byte long
  const C_USERNS := 6     // the new user namespace was tried, if asked for
  const C_NOTIFIED := 7   // the parent is told
  const C_MAPPED := 8     // the parent has answered
  const C_RECAPS := 9     // capabilities are dropped again in the new user namespace
  const C_NNP := 10       // NO_NEW_PRIVS is set, if asked for
  const C_DROPPED := 11   // privileges are dropped
  const C_FORKED := 12    // the application is forked

  const A_NONE := 0
  const A_STARTED := 1
  const A_FILTERED := 2   // seccomp filters are installed
  const A_DONE := 3       // SANDBOX_DONE is written

  datatype Config = Config(pid: nat, noroot: bool, nonetwork: bool, nonewprivs: bool, timeout: nat)

  /** The process that sets up the network, and how it ended. */
  datatype Net = NetNone | NetRunning | NetEnded(ok: bool)

  datatype JoinFile = NoFile | Unsized | Byte(done: bool)

  /** A pidfile as an inode; it can outlive its name. */
  datatype PidFile = PidFile(content: string, locked: bool)

  datatype Joiner =
    | Idle
    | Opened(inode: nat)        // the pidfile is open
    | Checked(inode: nat)       // the parent holds the lock
    | HasPid(pid: nat)          // a pid was read
    | Polling(pid: nat, waited: nat)  // the child is pinned; microseconds so far
    | Accepted(pid: nat)
    | GaveUp

  datatype Pids = Pids(
    name: Option<nat>,            // the inode the pidfile's name leads to
    inodes: map<nat, PidFile>,
    mine: Option<nat>)            // the inode the parent has opened

  /** What has been done to the sandbox. */
  datatype Box = Box(
    net: Net,
    userns: bool, uidMap: bool, gidMap: bool,
    capsDropped: bool, nnp: bool, privsDropped: bool, filtered: bool)

  datatype State = State(
    parent: int, parentAlive: bool, parentNoroot: bool,
    child: int, childAlive: bool, childNoroot: bool,
    app: int, appAlive: bool,
    toChild: seq<bool>, toParent: seq<bool>,
    pids: Pids, box: Box, file: JoinFile,
    joiners: map<nat, Joiner>)

  // ---------------------------------------------------------------------
  // The text of the pidfile
  // ---------------------------------------------------------------------

  function PidText(pid: nat): string { Digits(pid) + "\n" }

  // ---------------------------------------------------------------------
  // The steps
  // ---------------------------------------------------------------------

  datatype SetupStep = Clean | Clone | OpenPidfile(inode: nat) | WritePidfile(n: nat) | LockPidfile

  datatype TalkStep =
    | StartNet | EndNet(ok: bool) | SkipNet | NotifyChild | HearChild | WriteUidMap | WriteGidMap | AnswerChild

  datatype LeaveStep = Reap | Release | DeleteName | ParentDies

  datatype BuildStep = HearParent | DropCaps | CreateFile | SizeFile | Unshare(ok: bool) | NotifyParent

  datatype FinishStep = HearAnswer | DropCapsAgain | SetNoNewPrivs | DropPrivs | Fork | ChildDies

  datatype AppStep = InstallFilters | WriteDone | AppDies

  datatype JoinStep = OpenByName | CheckLock | ReadPid | PinChild | Poll

  datatype Action =
    | Setup(setup: SetupStep) | Talk(talk: TalkStep) | Leave(leave: LeaveStep)   // the parent
    | Build(build: BuildStep) | Finish(finish: FinishStep)                       // the child
    | ByApp(app: AppStep)
    | ByJoiner(j: nat, join: JoinStep)

  predicate Mine(p: Pids) { p.mine.Some? && p.mine.value in p.inodes }

  function Written(p: Pids): nat
    requires Mine(p)
  {
    |p.inodes[p.mine.value].content|
  }

  function UpdateMine(p: Pids, f: PidFile): Pids
    requires Mine(p)
  {
    p.(inodes := p.inodes[p.mine.value := f])
  }

  function Unlock(p: Pids): Pids {
    if Mine(p) then UpdateMine(p, p.inodes[p.mine.value].(locked := false)) else p
  }

  predicate CanSetup(c: Config, s: State, a: SetupStep) {
    s.parentAlive && match a
      case Clean => s.parent == P_START
      case Clone => s.parent == P_CLEAN
      case OpenPidfile(k) =>
        s.parent == P_CLONED && (if s.pids.name.Some? then k == s.pids.name.value else k !in s.pids.inodes)
      case WritePidfile(n) => s.parent == P_OPENED && Mine(s.pids) && Written(s.pids) + n <= |PidText(c.pid)|
      case LockPidfile => s.parent == P_OPENED && Mine(s.pids) && Written(s.pids) == |PidText(c.pid)|
  }

  function DoSetup(c: Config, s: State, a: SetupStep): (s': State)
    requires CanSetup(c, s, a)
    ensures s'.box.net == s.box.net
  {
    match a
    case Clean => s.(parent := P_CLEAN, pids := s.pids.(name := None))
    case Clone => s.(parent := P_CLONED, child := C_STARTED, childAlive := true, childNoroot := s.parentNoroot)
    case OpenPidfile(k) =>
      s.(parent := P_OPENED, pids := Pids(Some(k), s.pids.inodes[k := PidFile("", false)], Some(k)))
    case WritePidfile(n) =>
      var w := Written(s.pids);
      var f := s.pids.inodes[s.pids.mine.value];
      s.(pids := UpdateMine(s.pids, f.(content := f.content + PidText(c.pid)[w..w + n])))
    case LockPidfile =>
      s.(parent := P_LOCKED, pids := UpdateMine(s.pids, s.pids.inodes[s.pids.mine.value].(locked := true)))
  }

  predicate CanTalk(c: Config, s: State, a: TalkStep) {
    s.parentAlive && match a
      case StartNet => s.parent == P_LOCKED && !c.nonetwork
      case EndNet(_) => s.parent == P_NET
      case SkipNet => s.parent == P_LOCKED && c.nonetwork
      case NotifyChild => s.parent == P_BASE
      case HearChild => s.parent == P_NOTIFIED && s.toParent != []
      case WriteUidMap => s.parent == P_HEARD
      case WriteGidMap => s.parent == P_UID
      case AnswerChild => s.parent == P_GID
  }

  /** A process that waits takes over the first message and drains the pipe.  The
      parent goes on however the network process has ended. */
  function DoTalk(c: Config, s: State, a: TalkStep): (s': State)
    requires CanTalk(c, s, a)
    ensures s'.box.net == if a == StartNet then NetRunning else if a.EndNet? then NetEnded(a.ok) else s.box.net
  {
    match a
    case StartNet => s.(parent := P_NET, box := s.box.(net := NetRunning))
    case EndNet(ok) => s.(parent := P_BASE, box := s.box.(net := NetEnded(ok)))
    case SkipNet => s.(parent := P_BASE)
    case NotifyChild => s.(parent := P_NOTIFIED, toChild := s.toChild + [s.parentNoroot])
    case HearChild => s.(parent := P_HEARD, parentNoroot := s.toParent[0], toParent := [])
    case WriteUidMap => s.(parent := P_UID, box := s.box.(uidMap := s.parentNoroot))
    case WriteGidMap => s.(parent := P_GID, box := s.box.(gidMap := s.parentNoroot))
    case AnswerChild => s.(parent := P_MAPPED, toChild := s.toChild + [s.parentNoroot])
  }

  predicate CanLeave(s: State, a: LeaveStep) {
    match a
    case Reap => s.parentAlive && s.parent == P_MAPPED && !s.childAlive
    case Release => s.parentAlive && s.parent == P_REAPED
    case DeleteName => !s.parentAlive || s.parent == P_RELEASED
    case ParentDies => s.parentAlive
  }

  function DoLeave(s: State, a: LeaveStep): (s': State)
    requires CanLeave(s, a)
    ensures s'.box.net == s.box.net
  {
    match a
    case Reap => s.(parent := P_REAPED)
    case Release => s.(parent := P_RELEASED, pids := Unlock(s.pids))
    case DeleteName => s.(pids := s.pids.(name := None))
    case ParentDies => s.(parentAlive := false, pids := Unlock(s.pids))
  }

  predicate CanBuild(s: State, a: BuildStep) {
    s.childAlive && match a
      case HearParent => s.child == C_STARTED && s.toChild != []
      case DropCaps => s.child == C_SETUP
      case CreateFile => s.child == C_CAPS && s.file == NoFile
      case SizeFile => s.child == C_FILE
      case Unshare(ok) => s.child == C_SIZED && (ok ==> s.childNoroot)
      case NotifyParent => s.child == C_USERNS
  }

  /** A new user namespace starts with all capabilities; if it cannot be made,
      arg_noroot is cleared. */
  function DoBuild(s: State, a: BuildStep): (s': State)
    requires CanBuild(s, a)
    ensures s'.box.net == s.box.net
  {
    match a
    case HearParent => s.(child := C_SETUP, childNoroot := s.toChild[0], toChild := [])
    case DropCaps => s.(child := C_CAPS, box := s.box.(capsDropped := true))
    case CreateFile => s.(child := C_FILE, file := Unsized)
    case SizeFile => s.(child := C_SIZED, file := Byte(false))
    case Unshare(ok) =>
      s.(child := C_USERNS, childNoroot := ok, box := s.box.(userns := ok, capsDropped := s.box.capsDropped && !ok))
    case NotifyParent => s.(child := C_NOTIFIED, toParent := s.toParent + [s.childNoroot])
  }

  predicate CanFinish(s: State, a: FinishStep) {
    s.childAlive && match a
      case HearAnswer => s.child == C_NOTIFIED && s.toChild != []
      case DropCapsAgain => s.child == C_MAPPED
      case SetNoNewPrivs => s.child == C_RECAPS
      case DropPrivs => s.child == C_NNP
      case Fork => s.child == C_DROPPED
      case ChildDies => true
  }

  function DoFinish(c: Config, s: State, a: FinishStep): (s': State)
    requires CanFinish(s, a)
    ensures s'.box.net == s.box.net
  {
    match a
    case HearAnswer => s.(child := C_MAPPED, childNoroot := s.toChild[0], toChild := [])
    case DropCapsAgain => s.(child := C_RECAPS, box := s.box.(capsDropped := s.box.capsDropped || s.childNoroot))
    case SetNoNewPrivs => s.(child := C_NNP, box := s.box.(nnp := c.nonewprivs))
    case DropPrivs => s.(child := C_DROPPED, box := s.box.(privsDropped := true))
    case Fork => s.(child := C_FORKED, app := A_STARTED, appAlive := true)
    case ChildDies => s.(childAlive := false)
  }

  predicate CanApp(s: State, a: AppStep) {
    s.appAlive && match a
      case InstallFilters => s.app == A_STARTED
      case WriteDone => s.app == A_FILTERED
      case AppDies => true
  }

  function DoApp(s: State, a: AppStep): (s': State)
    requires CanApp(s, a)
    ensures s'.box.net == s.box.net
  {
    match a
    case InstallFilters => s.(app := A_FILTERED, box := s.box.(filtered := true))
    case WriteDone => s.(app := A_DONE, file := Byte(true))
    case AppDies => s.(appAlive := false)
  }

  const SNOOZE := 10000

  predicate CanJoin(s: State, j: nat, a: JoinStep) {
    j in s.joiners && match a
      case OpenByName => s.joiners[j].Idle?
      case CheckLock => s.joiners[j].Opened?
      case ReadPid => s.joiners[j].Checked?
      case PinChild => s.joiners[j].HasPid?
      case Poll => s.joiners[j].Polling?
  }

  function JoinerNext(c: Config, s: State, me: Joiner, a: JoinStep): Joiner
    requires match a
             case OpenByName => me.Idle?
             case CheckLock => me.Opened?
             case ReadPid => me.Checked?
             case PinChild => me.HasPid?
             case Poll => me.Polling?
  {
    match a
    case OpenByName => if s.pids.name.Some? then Opened(s.pids.name.value) else GaveUp
    case CheckLock =>
      if me.inode in s.pids.inodes && s.pids.inodes[me.inode].locked then Checked(me.inode) else GaveUp
    case ReadPid =>
      if me.inode !in s.pids.inodes then GaveUp
      else (match ScanNat(s.pids.inodes[me.inode].content, None) case Some(n) => HasPid(n) case None => GaveUp)
    // the process must still be a child of the parent
    case PinChild =>
      if me.pid == c.pid && s.child > C_NONE && s.parent < P_REAPED then Polling(me.pid, SNOOZE) else GaveUp
    case Poll =>
      if s.file == Byte(true) then Accepted(me.pid)
      else if me.waited > c.timeout then GaveUp
      else Polling(me.pid, me.waited + SNOOZE)
  }

  function DoJoin(c: Config, s: State, j: nat, a: JoinStep): (s': State)
    requires CanJoin(s, j, a)
    ensures s'.box.net == s.box.net
  {
    s.(joiners := s.joiners[j := JoinerNext(c, s, s.joiners[j], a)])
  }

  predicate Can(c: Config, s: State, a: Action) {
    match a
    case Setup(x) => CanSetup(c, s, x)
    case Talk(x) => CanTalk(c, s, x)
    case Leave(x) => CanLeave(s, x)
    case Build(x) => CanBuild(s, x)
    case Finish(x) => CanFinish(s, x)
    case ByApp(x) => CanApp(s, x)
    case ByJoiner(j, x) => CanJoin(s, j, x)
  }

  function Do(c: Config, s: State, a: Action): State
    requires Can(c, s, a)
  {
    match a
    case Setup(x) => DoSetup(c, s, x)
    case Talk(x) => DoTalk(c, s, x)
    case Leave(x) => DoLeave(s, x)
    case Build(x) => DoBuild(s, x)
    case Finish(x) => DoFinish(c, s, x)
    case ByApp(x) => DoApp(s, x)
    case ByJoiner(j, x) => DoJoin(c, s, j, x)
  }

  /** Before the start there may be a pidfile that an earlier process with the
      same pid has left behind, with any content but without a lock. */
  predicate Init(c: Config, s: State) {
    && s.parent == P_START && s.parentAlive && s.parentNoroot == c.noroot
    && s.child == C_NONE && !s.childAlive
    && s.app == A_NONE && !s.appAlive
    && s.toChild == [] && s.toParent == []
    && s.pids.mine == None
    && (forall k | k in s.pids.inodes :: !s.pids.inodes[k].locked)
    && (s.pids.name.Some? ==> s.pids.name.value in s.pids.inodes)
    && s.box == Box(NetNone, false, false, false, false, false, false, false)
    && s.file == NoFile
    && (forall j | j in s.joiners :: s.joiners[j] == Idle)
  }

  /** s is reached from s0 by the actions. */
  predicate Run(c: Config, s0: State, acts: seq<Action>, s: State)
    decreases |acts|
  {
    if acts == [] then s0 == s
    else Can(c, s0, acts[0]) && Run(c, Do(c, s0, acts[0]), acts[1..], s)
  }

  // ---------------------------------------------------------------------
  // The invariant
  // ---------------------------------------------------------------------

  /** Each side of the handshake is where the other side's messages let it be,
      and no pipe ever holds a second message that a wait could lose. */
  predicate InvPipes(c: Config, s: State) {
    && P_START <= s.parent <= P_RELEASED && C_NONE <= s.child <= C_FORKED
    && (s.child > C_NONE <==> s.parent >= P_CLONED)
    && (s.child >= C_SETUP ==> s.parent >= P_NOTIFIED)
    && (s.parent >= P_HEARD ==> s.child >= C_NOTIFIED)
    && (s.child >= C_MAPPED ==> s.parent >= P_MAPPED)
    && s.toChild == (if (s.child == C_STARTED && s.parent >= P_NOTIFIED)
                        || (s.child == C_NOTIFIED && s.parent >= P_MAPPED)
                     then [s.parentNoroot] else [])
    && s.toParent == (if s.child >= C_NOTIFIED && s.parent == P_NOTIFIED then [s.childNoroot] else [])
    && (s.parent < P_HEARD ==> s.parentNoroot == c.noroot)
    && (C_NONE < s.child < C_USERNS ==> s.childNoroot == c.noroot)
    && (s.parent >= P_HEARD ==> s.parentNoroot == s.childNoroot)
  }

  /** What has been done to the sandbox so far. */
  predicate InvBox(c: Config, s: State) {
    && (s.box.userns <==> s.child >= C_USERNS && s.childNoroot)
    && (s.child >= C_CAPS ==> s.box.capsDropped || (s.box.userns && s.child < C_RECAPS))
    && (s.child >= C_NNP ==> s.box.nnp == c.nonewprivs)
    && (s.child >= C_DROPPED ==> s.box.privsDropped)
    && (s.box.uidMap ==> s.box.userns) && (s.box.gidMap ==> s.box.userns)
    && (s.parent >= P_UID ==> s.box.uidMap == s.parentNoroot)
    && (s.parent >= P_GID ==> s.box.gidMap == s.parentNoroot)
    && (s.box.net.NetEnded? <==> s.parent >= P_BASE && !c.nonetwork)
    && (c.nonetwork ==> s.box.net == NetNone && s.parent != P_NET)
  }

  predicate InvFile(s: State) {
    && A_NONE <= s.app <= A_DONE
    && (s.app > A_NONE <==> s.child == C_FORKED)
    && (s.app >= A_FILTERED ==> s.box.filtered)
    && (s.file == NoFile <==> s.child < C_FILE)
    && (s.file == Byte(true) ==> s.app == A_DONE)
  }

  predicate InvPids(c: Config, parent: int, p: Pids) {
    && (p.mine.Some? <==> parent >= P_OPENED)
    && (p.mine.Some? ==> Mine(p))
    && (p.name.Some? ==> p.name.value in p.inodes)
    && (P_CLEAN <= parent <= P_CLONED ==> p.name == None)
    && (forall k | k in p.inodes && p.inodes[k].locked :: p.mine == Some(k) && parent >= P_LOCKED)
    && (parent == P_OPENED ==> p.inodes[p.mine.value].content <= PidText(c.pid))
    && (parent >= P_LOCKED ==> p.inodes[p.mine.value].content == PidText(c.pid))
  }

  predicate JoinerOk(c: Config, s: State, me: Joiner) {
    match me
    case Checked(k) => s.pids.mine == Some(k) && s.parent >= P_LOCKED
    case HasPid(p) => p == c.pid
    case Polling(p, w) => p == c.pid && w <= c.timeout + SNOOZE
    case Accepted(p) => p == c.pid && s.app == A_DONE
    case _ => true
  }

  predicate InvJoiners(c: Config, s: State) {
    forall j | j in s.joiners :: JoinerOk(c, s, s.joiners[j])
  }

  predicate Inv(c: Config, s: State) {
    InvPipes(c, s) && InvBox(c, s) && InvFile(s) && InvPids(c, s.parent, s.pids) && InvJoiners(c, s)
  }

  lemma InitInv(c: Config, s: State)
    requires Init(c, s)
    ensures Inv(c, s)
  {
  }

  lemma SetupKeeps(c: Config, s: State, a: SetupStep)
    requires Inv(c, s) && CanSetup(c, s, a)
    ensures Inv(c, DoSetup(c, s, a))
  {
    SetupKeepsPids(c, s, a);
  }

  lemma SetupKeepsPids(c: Config, s: State, a: SetupStep)
    requires InvPids(c, s.parent, s.pids) && CanSetup(c, s, a)
    ensures var s' := DoSetup(c, s, a); InvPids(c, s'.parent, s'.pids)
  {
  }

  lemma TalkKeeps(c: Config, s: State, a: TalkStep)
    requires Inv(c, s) && CanTalk(c, s, a)
    ensures Inv(c, DoTalk(c, s, a))
  {
  }

  lemma LeaveKeeps(c: Config, s: State, a: LeaveStep)
    requires Inv(c, s) && CanLeave(s, a)
    ensures Inv(c, DoLeave(s, a))
  {
    LeaveKeepsPipes(c, s, a);
    LeaveKeepsBox(c, s, a);
    LeaveKeepsFile(s, a);
    LeaveKeepsPids(c, s, a);
    LeaveKeepsJoiners(c, s, a);
  }

  lemma LeaveKeepsPipes(c: Config, s: State, a: LeaveStep)
    requires InvPipes(c, s) && CanLeave(s, a)
    ensures InvPipes(c, DoLeave(s, a))
  {
  }

  lemma LeaveKeepsBox(c: Config, s: State, a: LeaveStep)
    requires InvBox(c, s) && CanLeave(s, a)
    ensures InvBox(c, DoLeave(s, a))
  {
  }

  lemma LeaveKeepsFile(s: State, a: LeaveStep)
    requires InvFile(s) && CanLeave(s, a)
    ensures InvFile(DoLeave(s, a))
  {
  }

  lemma LeaveKeepsPids(c: Config, s: State, a: LeaveStep)
    requires InvPids(c, s.parent, s.pids) && s.parent <= P_RELEASED && CanLeave(s, a)
    ensures var s' := DoLeave(s, a); InvPids(c, s'.parent, s'.pids) && s'.pids.mine == s.pids.mine
  {
    UnlockKeeps(c, s.parent, s.pids);
  }

  lemma UnlockKeeps(c: Config, parent: int, p: Pids)
    requires InvPids(c, parent, p)
    ensures InvPids(c, parent, Unlock(p)) && Unlock(p).mine == p.mine
  {
  }

  lemma LeaveKeepsJoiners(c: Config, s: State, a: LeaveStep)
    requires InvJoiners(c, s) && CanLeave(s, a)
    ensures InvJoiners(c, DoLeave(s, a))
  {
  }

  lemma BuildKeeps(c: Config, s: State, a: BuildStep)
    requires Inv(c, s) && CanBuild(s, a)
    ensures Inv(c, DoBuild(s, a))
  {
  }

  lemma FinishKeeps(c: Config, s: State, a: FinishStep)
    requires Inv(c, s) && CanFinish(s, a)
    ensures Inv(c, DoFinish(c, s, a))
  {
    FinishKeepsPipes(c, s, a);
    FinishKeepsBox(c, s, a);
    FinishKeepsRest(c, s, a);
  }

  lemma FinishKeepsPipes(c: Config, s: State, a: FinishStep)
    requires InvPipes(c, s) && CanFinish(s, a)
    ensures InvPipes(c, DoFinish(c, s, a))
  {
  }

  lemma FinishKeepsBox(c: Config, s: State, a: FinishStep)
    requires InvPipes(c, s) && InvBox(c, s) && CanFinish(s, a)
    ensures InvBox(c, DoFinish(c, s, a))
  {
  }

  lemma FinishKeepsRest(c: Config, s: State, a: FinishStep)
    requires InvFile(s) && InvPids(c, s.parent, s.pids) && InvJoiners(c, s) && CanFinish(s, a)
    ensures var s' := DoFinish(c, s, a); InvFile(s') && InvPids(c, s'.parent, s'.pids) && InvJoiners(c, s')
  {
  }

  lemma AppKeeps(c: Config, s: State, a: AppStep)
    requires Inv(c, s) && CanApp(s, a)
    ensures Inv(c, DoApp(s, a))
  {
  }

  lemma JoinKeeps(c: Config, s: State, j: nat, a: JoinStep)
    requires Inv(c, s) && CanJoin(s, j, a)
    ensures Inv(c, DoJoin(c, s, j, a))
  {
    ScanDigits(c.pid, "\n");
    assert JoinerOk(c, s, s.joiners[j]);
  }

  lemma StepKeeps(c: Config, s: State, a: Action)
    requires Inv(c, s) && Can(c, s, a)
    ensures Inv(c, Do(c, s, a))
  {
    match a
    case Setup(x) => SetupKeeps(c, s, x);
    case Talk(x) => TalkKeeps(c, s, x);
    case Leave(x) => LeaveKeeps(c, s, x);
    case Build(x) => BuildKeeps(c, s, x);
    case Finish(x) => FinishKeeps(c, s, x);
    case ByApp(x) => AppKeeps(c, s, x);
    case ByJoiner(j, x) => JoinKeeps(c, s, j, x);
  }

  lemma {:induction false} RunKeeps(c: Config, s0: State, acts: seq<Action>, s: State)
    requires Inv(c, s0) && Run(c, s0, acts, s)
    ensures Inv(c, s)
    decreases |acts|
  {
    if acts != [] {
      StepKeeps(c, s0, acts[0]);
      RunKeeps(c, Do(c, s0, acts[0]), acts[1..], s);
    }
  }

  // ---------------------------------------------------------------------
  // What holds in every run
  // ---------------------------------------------------------------------

  /** The sandbox is complete: the network process has ended, both sides agree
      on the user namespace and it has its maps, capabilities and privileges are
      dropped, and the filters are installed. */
  predicate Complete(c: Config, s: State) {
    && (c.nonetwork || s.box.net.NetEnded?)
    && s.parentNoroot == s.childNoroot == s.box.userns == s.box.uidMap == s.box.gidMap
    && s.box.capsDropped && s.box.nnp == c.nonewprivs && s.box.privsDropped && s.box.filtered
  }

  lemma TalkNet(c: Config, s: State, a: TalkStep, ok: bool)
    requires InvBox(c, s) && CanTalk(c, s, a)
    ensures DoTalk(c, s, a).box.net == NetEnded(ok) <==> s.box.net == NetEnded(ok) || a == EndNet(ok)
  {
  }

  lemma OtherNet(c: Config, s: State, a: Action)
    requires Can(c, s, a) && !a.Talk?
    ensures Do(c, s, a).box.net == s.box.net
  {
  }

  lemma StepNet(c: Config, s: State, a: Action, ok: bool)
    requires InvBox(c, s) && Can(c, s, a)
    ensures Do(c, s, a).box.net == NetEnded(ok) <==> s.box.net == NetEnded(ok) || a == Talk(EndNet(ok))
  {
    if a.Talk? { TalkNet(c, s, a.talk, ok); } else { OtherNet(c, s, a); }
  }

  lemma {:induction false} RunNet(c: Config, s0: State, acts: seq<Action>, s: State, ok: bool)
    requires Inv(c, s0) && Run(c, s0, acts, s)
    ensures s.box.net == NetEnded(ok) <==> s0.box.net == NetEnded(ok) || Talk(EndNet(ok)) in acts
    decreases |acts|
  {
    if acts != [] {
      StepKeeps(c, s0, acts[0]);
      StepNet(c, s0, acts[0], ok);
      RunNet(c, Do(c, s0, acts[0]), acts[1..], s, ok);
      assert acts == [acts[0]] + acts[1..];
    }
  }

  /** In every interleaving, with deaths and a stale pidfile, a joiner is let in
      only when the sandbox is complete, and then the pid it has is the child's.  The
      network process has ended; it has set the network up exactly if it succeeded. */
  lemma JoinIsSafe(c: Config, s0: State, acts: seq<Action>, s: State, j: nat)
    requires Init(c, s0) && Run(c, s0, acts, s) && j in s.joiners && s.joiners[j].Accepted?
    ensures s.joiners[j].pid == c.pid && Complete(c, s)
    ensures s.box.net == NetEnded(true) <==> Talk(EndNet(true)) in acts
    ensures c.nonetwork || Talk(EndNet(true)) in acts || Talk(EndNet(false)) in acts
  {
    InitInv(c, s0);
    RunKeeps(c, s0, acts, s);
    RunNet(c, s0, acts, s, true);
    RunNet(c, s0, acts, s, false);
  }

  // ---------------------------------------------------------------------
  // A run to the end, however the network process ends
  // ---------------------------------------------------------------------

  ghost predicate Reach(c: Config, s: State, t: State) { exists acts :: Run(c, s, acts, t) }

  lemma ReachSame(c: Config, s: State)
    ensures Reach(c, s, s)
  {
    assert Run(c, s, [], s);
  }

  lemma ReachStep(c: Config, s: State, a: Action, t: State)
    requires Can(c, s, a) && Reach(c, Do(c, s, a), t)
    ensures Reach(c, s, t)
  {
    var acts :| Run(c, Do(c, s, a), acts, t);
    assert ([a] + acts)[1..] == acts;
    assert Run(c, s, [a] + acts, t);
  }

  /** Nothing is left of earlier processes, and there is one joiner. */
  function AtStart(c: Config): State {
    State(P_START, true, c.noroot, C_NONE, false, false, A_NONE, false, [], [], Pids(None, map[], None),
          Box(NetNone, false, false, false, false, false, false, false), NoFile, map[0 := Idle])
  }

  function AtOpen(c: Config): State {
    AtStart(c).(parent := P_OPENED, child := C_STARTED, childAlive := true, childNoroot := c.noroot,
                pids := Pids(Some(0), map[0 := PidFile("", false)], Some(0)))
  }

  function AtLock(c: Config): State {
    AtOpen(c).(parent := P_LOCKED, pids := Pids(Some(0), map[0 := PidFile(PidText(c.pid), true)], Some(0)))
  }

  function AtNotice(c: Config, ok: bool): State {
    AtLock(c).(parent := P_NOTIFIED, toChild := [c.noroot], box := AtLock(c).box.(net := NetEnded(ok)))
  }

  function AtAnswer(c: Config, ok: bool): State {
    AtNotice(c, ok).(child := C_NOTIFIED, toChild := [], toParent := [c.noroot], file := Byte(false),
                     box := Box(NetEnded(ok), c.noroot, false, false, !c.noroot, false, false, false))
  }

  function AtMaps(c: Config, ok: bool): State {
    AtAnswer(c, ok).(parent := P_MAPPED, toParent := [], toChild := [c.noroot],
                     box := AtAnswer(c, ok).box.(uidMap := c.noroot, gidMap := c.noroot))
  }

  function AtFork(c: Config, ok: bool): State {
    AtMaps(c, ok).(child := C_FORKED, toChild := [], app := A_STARTED, appAlive := true,
                   box := AtMaps(c, ok).box.(capsDropped := true, nnp := c.nonewprivs, privsDropped := true))
  }

  function AtDone(c: Config, ok: bool): State {
    AtFork(c, ok).(app := A_DONE, file := Byte(true), box := AtFork(c, ok).box.(filtered := true))
  }

  function AtJoin(c: Config, ok: bool, me: Joiner): State { AtDone(c, ok).(joiners := map[0 := me]) }

  lemma FromStart(c: Config, t: State)
    requires Reach(c, AtOpen(c), t)
    ensures Reach(c, AtStart(c), t)
  {
    var s0 := AtStart(c);
    var s1 := Do(c, s0, Setup(Clean));
    var s2 := Do(c, s1, Setup(Clone));
    var s3 := Do(c, s2, Setup(OpenPidfile(0)));
    assert s3 == AtOpen(c);
    ReachStep(c, s2, Setup(OpenPidfile(0)), t);
    ReachStep(c, s1, Setup(Clone), t);
    ReachStep(c, s0, Setup(Clean), t);
  }

  lemma FromOpen(c: Config, t: State)
    requires Reach(c, AtLock(c), t)
    ensures Reach(c, AtOpen(c), t)
  {
    assert "" + PidText(c.pid)[0..|PidText(c.pid)|] == PidText(c.pid);
    var s0 := AtOpen(c);
    var s1 := Do(c, s0, Setup(WritePidfile(|PidText(c.pid)|)));
    var s2 := Do(c, s1, Setup(LockPidfile));
    assert s2 == AtLock(c);
    ReachStep(c, s1, Setup(LockPidfile), t);
    ReachStep(c, s0, Setup(WritePidfile(|PidText(c.pid)|)), t);
  }

  lemma FromLock(c: Config, ok: bool, t: State)
    requires !c.nonetwork
    requires Reach(c, AtNotice(c, ok), t)
    ensures Reach(c, AtLock(c), t)
  {
    var s0 := AtLock(c);
    var s1 := Do(c, s0, Talk(StartNet));
    var s2 := Do(c, s1, Talk(EndNet(ok)));
    var s3 := Do(c, s2, Talk(NotifyChild));
    assert s3 == AtNotice(c, ok);
    ReachStep(c, s2, Talk(NotifyChild), t);
    ReachStep(c, s1, Talk(EndNet(ok)), t);
    ReachStep(c, s0, Talk(StartNet), t);
  }

  lemma FromNotice(c: Config, ok: bool, t: State)
    requires Reach(c, AtAnswer(c, ok), t)
    ensures Reach(c, AtNotice(c, ok), t)
  {
    var s0 := AtNotice(c, ok);
    var s1 := Do(c, s0, Build(HearParent));
    var s2 := Do(c, s1, Build(DropCaps));
    var s3 := Do(c, s2, Build(CreateFile));
    var s4 := Do(c, s3, Build(SizeFile));
    var s5 := Do(c, s4, Build(Unshare(c.noroot)));
    var s6 := Do(c, s5, Build(NotifyParent));
    assert s6 == AtAnswer(c, ok);
    ReachStep(c, s5, Build(NotifyParent), t);
    ReachStep(c, s4, Build(Unshare(c.noroot)), t);
    ReachStep(c, s3, Build(SizeFile), t);
    ReachStep(c, s2, Build(CreateFile), t);
    ReachStep(c, s1, Build(DropCaps), t);
    ReachStep(c, s0, Build(HearParent), t);
  }

  lemma FromAnswer(c: Config, ok: bool, t: State)
    requires Reach(c, AtMaps(c, ok), t)
    ensures Reach(c, AtAnswer(c, ok), t)
  {
    var s0 := AtAnswer(c, ok);
    var s1 := Do(c, s0, Talk(HearChild));
    var s2 := Do(c, s1, Talk(WriteUidMap));
    var s3 := Do(c, s2, Talk(WriteGidMap));
    var s4 := Do(c, s3, Talk(AnswerChild));
    assert s4 == AtMaps(c, ok);
    ReachStep(c, s3, Talk(AnswerChild), t);
    ReachStep(c, s2, Talk(WriteGidMap), t);
    ReachStep(c, s1, Talk(WriteUidMap), t);
    ReachStep(c, s0, Talk(HearChild), t);
  }

  lemma FromMaps(c: Config, ok: bool, t: State)
    requires Reach(c, AtFork(c, ok), t)
    ensures Reach(c, AtMaps(c, ok), t)
  {
    var s0 := AtMaps(c, ok);
    var s1 := Do(c, s0, Finish(HearAnswer));
    var s2 := Do(c, s1, Finish(DropCapsAgain));
    var s3 := Do(c, s2, Finish(SetNoNewPrivs));
    var s4 := Do(c, s3, Finish(DropPrivs));
    var s5 := Do(c, s4, Finish(Fork));
    assert s5 == AtFork(c, ok);
    ReachStep(c, s4, Finish(Fork), t);
    ReachStep(c, s3, Finish(DropPrivs), t);
    ReachStep(c, s2, Finish(SetNoNewPrivs), t);
    ReachStep(c, s1, Finish(DropCapsAgain), t);
    ReachStep(c, s0, Finish(HearAnswer), t);
  }

  lemma FromFork(c: Config, ok: bool, t: State)
    requires Reach(c, AtDone(c, ok), t)
    ensures Reach(c, AtFork(c, ok), t)
  {
    var s0 := AtFork(c, ok);
    var s1 := Do(c, s0, ByApp(InstallFilters));
    var s2 := Do(c, s1, ByApp(WriteDone));
    assert s2 == AtDone(c, ok);
    ReachStep(c, s1, ByApp(WriteDone), t);
    ReachStep(c, s0, ByApp(InstallFilters), t);
  }

  lemma FromDone(c: Config, ok: bool, t: State)
    requires Reach(c, AtJoin(c, ok, Checked(0)), t)
    ensures Reach(c, AtDone(c, ok), t)
  {
    var s0 := AtDone(c, ok);
    var s1 := Do(c, s0, ByJoiner(0, OpenByName));
    var s2 := Do(c, s1, ByJoiner(0, CheckLock));
    assert s2 == AtJoin(c, ok, Checked(0));
    ReachStep(c, s1, ByJoiner(0, CheckLock), t);
    ReachStep(c, s0, ByJoiner(0, OpenByName), t);
  }

  lemma FromLocked(c: Config, ok: bool, t: State)
    requires Reach(c, AtJoin(c, ok, HasPid(c.pid)), t)
    ensures Reach(c, AtJoin(c, ok, Checked(0)), t)
  {
    ScanDigits(c.pid, "\n");
    var s0 := AtJoin(c, ok, Checked(0));
    var s1 := Do(c, s0, ByJoiner(0, ReadPid));
    assert s1 == AtJoin(c, ok, HasPid(c.pid));
    ReachStep(c, s0, ByJoiner(0, ReadPid), t);
  }

  lemma FromPid(c: Config, ok: bool, t: State)
    requires Reach(c, AtJoin(c, ok, Accepted(c.pid)), t)
    ensures Reach(c, AtJoin(c, ok, HasPid(c.pid)), t)
  {
    var s0 := AtJoin(c, ok, HasPid(c.pid));
    var s1 := Do(c, s0, ByJoiner(0, PinChild));
    var s2 := Do(c, s1, ByJoiner(0, Poll));
    assert s2 == AtJoin(c, ok, Accepted(c.pid));
    ReachStep(c, s1, ByJoiner(0, Poll), t);
    ReachStep(c, s0, ByJoiner(0, PinChild), t);
  }

  /** A joiner can be let in whether or not the network process has succeeded. */
  lemma JoinsAnyway(c: Config, ok: bool) returns (s0: State, acts: seq<Action>, s: State)
    requires !c.nonetwork
    ensures Init(c, s0) && Run(c, s0, acts, s) && Talk(EndNet(ok)) in acts && s.box.net == NetEnded(ok)
    ensures 0 in s.joiners && s.joiners[0] == Accepted(c.pid) && Complete(c, s)
  {
    s0, s := AtStart(c), AtJoin(c, ok, Accepted(c.pid));
    ReachSame(c, s);
    FromPid(c, ok, s);
    FromLocked(c, ok, s);
    FromDone(c, ok, s);
    FromFork(c, ok, s);
    FromMaps(c, ok, s);
    FromAnswer(c, ok, s);
    FromNotice(c, ok, s);
    FromLock(c, ok, s);
    FromOpen(c, s);
    FromStart(c, s);
    acts :| Run(c, s0, acts, s);
    InitInv(c, s0);
    RunNet(c, s0, acts, s, ok);
  }

  /** No wait ever throws a message away. */
  lemma NoMessageLost(c: Config, s0: State, acts: seq<Action>, s: State)
    requires Init(c, s0) && Run(c, s0, acts, s)
    ensures |s.toChild| <= 1 && |s.toParent| <= 1
  {
    InitInv(c, s0);
    RunKeeps(c, s0, acts, s);
  }

  /** Id maps are written exactly for a user namespace that was made: if unshare
      fails, both sides go on without it. */
  lemma MapsMatchNamespace(c: Config, s0: State, acts: seq<Action>, s: State)
    requires Init(c, s0) && Run(c, s0, acts, s) && s.child >= C_MAPPED
    ensures s.box.uidMap == s.box.gidMap == s.box.userns == s.childNoroot == s.parentNoroot
  {
    InitInv(c, s0);
    RunKeeps(c, s0, acts, s);
  }

  /** A step of the parent or the child on the way to the application. */
  predicate Progress(c: Config, s: State, a: Action) {
    Can(c, s, a) && (a.Setup? || a.Talk? || a.Build? || (a.Finish? && a.finish != ChildDies))
  }

  /** The step that the parent takes next, unless it waits for the child. */
  lemma ParentGoesOn(c: Config, s: State) returns (a: Action)
    requires Inv(c, s) && s.parentAlive && s.parent < P_MAPPED && (s.parent == P_NOTIFIED ==> s.toParent != [])
    ensures Progress(c, s, a)
  {
    if s.parent == P_START { a := Setup(Clean); }
    else if s.parent == P_CLEAN { a := Setup(Clone); }
    else if s.parent == P_CLONED { var k := Unused(s.pids.inodes.Keys); a := Setup(OpenPidfile(k)); }
    else if s.parent == P_OPENED {
      a := if Written(s.pids) < |PidText(c.pid)| then Setup(WritePidfile(1)) else Setup(LockPidfile);
    }
    else if s.parent == P_LOCKED { a := if c.nonetwork then Talk(SkipNet) else Talk(StartNet); }
    else if s.parent == P_NET { a := Talk(EndNet(true)); }
    else if s.parent == P_BASE { a := Talk(NotifyChild); }
    else if s.parent == P_NOTIFIED { a := Talk(HearChild); }
    else if s.parent == P_HEARD { a := Talk(WriteUidMap); }
    else if s.parent == P_UID { a := Talk(WriteGidMap); }
    else { a := Talk(AnswerChild); }
  }

  lemma ChildGoesOn(c: Config, s: State) returns (a: Action)
    requires Inv(c, s) && s.childAlive && C_NONE < s.child < C_FORKED
    requires s.child == C_STARTED || s.child == C_NOTIFIED ==> s.toChild != []
    ensures Progress(c, s, a)
  {
    if s.child == C_STARTED { a := Build(HearParent); }
    else if s.child == C_SETUP { a := Build(DropCaps); }
    else if s.child == C_CAPS { a := Build(CreateFile); }
    else if s.child == C_FILE { a := Build(SizeFile); }
    else if s.child == C_SIZED { a := Build(Unshare(s.childNoroot)); }
    else if s.child == C_USERNS { a := Build(NotifyParent); }
    else if s.child == C_NOTIFIED { a := Finish(HearAnswer); }
    else if s.child == C_MAPPED { a := Finish(DropCapsAgain); }
    else if s.child == C_RECAPS { a := Finish(SetNoNewPrivs); }
    else if s.child == C_NNP { a := Finish(DropPrivs); }
    else { a := Finish(Fork); }
  }

  /** As long as both sides live and the application is not started, one of them
      can go on: they never wait for each other. */
  lemma NoDeadlock(c: Config, s0: State, acts: seq<Action>, s: State)
    requires Init(c, s0) && Run(c, s0, acts, s)
    requires s.parentAlive && (s.child > C_NONE ==> s.childAlive) && s.child < C_FORKED
    ensures exists a :: Progress(c, s, a)
  {
    InitInv(c, s0);
    RunKeeps(c, s0, acts, s);
    if s.parent < P_MAPPED && (s.parent == P_NOTIFIED ==> s.toParent != []) {
      var a := ParentGoesOn(c, s);
    } else {
      var a := ChildGoesOn(c, s);
    }
  }

  /** A joiner sleeps for no longer than the timeout. */
  lemma JoinerWaits(c: Config, s0: State, acts: seq<Action>, s: State, j: nat)
    requires Init(c, s0) && Run(c, s0, acts, s) && j in s.joiners && s.joiners[j].Polling?
    ensures s.joiners[j].waited - SNOOZE <= c.timeout
  {
    InitInv(c, s0);
    RunKeeps(c, s0, acts, s);
  }
}
