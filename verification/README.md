# Verified model of firejail's core logic

This project models the parts of firejail that carry real logic and proves what
they promise. The kernel is reduced to the small state each part needs: a mount
table, lock files, a signal disposition, pipes, the free addresses of a network.
`dafny verify dfyconfig.toml` checks the lemmas and methods of the table below;
the remarks about the kernel, the shell and the callers are prose. Nothing was
executed.

| module | part of firejail |
|---|---|
| `Whitelist` | the second whitelist pass: a tmpfs over a top level directory, and bind mounts back into it |
| `TopDirs` | the first whitelist pass: the array of top level directories |
| `TwoPasses` | both passes together |
| `Cmdline` | the two-pass command line quoter, with a shell reader as its inverse |
| `ProfileList` | the in-place rewriting of comma lists with `+`, `-` and `=` |
| `ProfileReader` | profile files with includes, conditionals and ignore lists |
| `JoinProtocol` | parent, child, application and joiners over pipes, pidfile and status byte |
| `LockOrder` | who waits for whom while any number of sandboxes start |
| `LockFile` | one attempt to take a lock, with growing sleeps and a timeout |
| `Sigtstp` | the deferral of SIGTSTP while locks are held |
| `Arp` | the allocation of an IP address, in 32-bit arithmetic |
| `MountInfo`, `MountArray` | the parser of `/proc/self/mountinfo` and the array built from it |
| `Dbus` | the recognisers of D-Bus names, object paths and call rules |
| `BuildDirs` | the duplication of a directory chain with two path buffers |
| `Env` | the environment list against a map |
| `Strings`, `Decimal`, `Wrappers` | splitting and joining, decimal numbers, `Option` and `Result` |

Code that works in place is kept in place: buffers are arrays of characters that
methods overwrite, objects are classes whose methods reassign their fields. Each
such method is proved against a function of its inputs, and the promises are
proved of that function. The processes of the startup and locking protocols are
step relations, and what is proved of them holds in every reachable state of
every interleaving.

## Where the code does less than expected

- Lists: an item with two operators is stored with the second one, and the next
  `profile_list_augment` reads that as an operator: `++a` stores `+a`, and then
  becomes `a`. Augmenting equals compressing everything at once exactly when no
  stored item starts with an operator (`ProfileList.AugmentExact`).
- Links: files and directories are shown right whatever links are asked for. The
  whole tree is exactly what was asked for, and shows nothing but the original,
  if and only if every link that some request passes lies in a requested directory
  or was asked for before it was passed (`Whitelist.WhitelistExact`,
  `Whitelist.LinkFaithful`). The order of the requests decides what is seen, for
  instance for a link below a link (`Whitelist.LinkOrderMatters`), if and only if
  one requested link is passed by a request for another one outside the requested
  directories (`Whitelist.OrderDoesNotMatter`).
- Signals: `main` gives the network lock back even when no bridge made it take
  it. The user's SIGTSTP action survives startup exactly when a bridge is
  configured or the action was the default (`Sigtstp.MainKeepsActionExactly`).
  The child is cloned while the network lock is held: it gets the user's action
  back exactly when no bridge is configured (`Sigtstp.ChildKeepsActionExactly`),
  and otherwise no SIGTSTP ever takes effect in it (`Sigtstp.ChildDefersForever`).
- Includes: a cycle of includes ends in an exit if no line that is read in front of
  them silences one (`ProfileReader.CycleExits`); a file that ignores its own
  include is read to its end (`ProfileReader.SilencedCycle`). For a simple file that
  includes itself it is known exactly when it ends in an exit
  (`ProfileReader.SelfIncludeExact`).
- Addresses: `--netmask` takes masks with zeros between ones. The addresses that
  can be drawn all lie in the network exactly when the mask has leading ones only
  (`Arp.MaskExact`, with 255.255.255.1 in `Arp.GapMask`). An address range that starts at 0.0.0.0 counts as having no start,
  and then the random tries can go beyond its end exactly when there is a free
  address there (`Arp.HalfRangeEscapes`). A network whose own address is 0.0.0.0
  stops the allocator (`Arp.ArpAssign`).
- mountinfo: a hyphen in an option field is taken for the separator, so that the
  filesystem type is the word behind it (`MountInfo.ParseExact`).
- mount array: for the path `/` no mount is found below it. What is found are the
  mounts strictly below the path exactly when the path is not `/` or nothing else
  is mounted (`MountArray.BelowExact`).
- Environment: a setting with a name that `setenv` refuses is stored and stops
  `env_apply_all` later. The environment of helper programs loses every whitelisted
  variable that was removed at some time, even if it was set again, and loses
  `PATH` if that was removed (`Env.EnvList.EnvApplyWhitelistSbox`).
- AppImage: without extra quotes the length that is compared with `ARG_MAX` is
  two short (`Cmdline.BuildAppimageCmdline`). All callers ask for extra quotes.
- Network setup: the result of the helper process is not looked at. A joiner can be
  let in whether or not the helper succeeded (`JoinProtocol.JoinsAnyway`), and has
  a network exactly if it did (`JoinProtocol.JoinIsSafe`).

## Model

| member | source | states |
|---|---|---|
| `Whitelist.Mkpath` | src/firejail/fs_whitelist.c:52-130 | mounts never change, and a descriptor is only returned for a place on the tmpfs itself, at exactly the requested path |
| `Whitelist.WalkTop` | src/firejail/fs_whitelist.c:132-243 | what a path lookup finds in the finished namespace: below a mount point the original tree, elsewhere the tmpfs |
| `Whitelist.MkpathGrows` | src/firejail/fs_whitelist.c:52-130 | for a directory of the original, only directories on the way are added, and the call gives up exactly when a mount point lies on the way |
| `Whitelist.InvShown` | src/firejail/fs_whitelist.c:753-780 | the invariant of the pass determines what is seen at every file and directory of the original |
| `Whitelist.ServeKeeps` | src/firejail/fs_whitelist.c:132-284 | every request, met, skipped, repeated or nested, also a link behind a link, keeps the invariant |
| `Whitelist.ServeAllKeeps` | src/firejail/fs_whitelist.c:753-780 | the invariant holds after any sequence of requests, links behind links included |
| `Whitelist.WhitelistExact` | src/firejail/fs_whitelist.c:753-780 | every file and directory is seen exactly if it was asked for or leads to a request, whatever links were asked for; the whole visible tree is exactly the union of the requested subtrees, the requested links and the directories leading to them if and only if every link that some request passes lies in a requested directory or was asked for before it was passed |
| `Whitelist.OrderDoesNotMatter` | src/firejail/fs_whitelist.c:753-780 | all orders of the requests, also with repetitions, show the same tree if and only if no requested link is passed by a request for another one outside the requested directories |
| `Whitelist.TwoOrders` | src/firejail/fs_whitelist.c:245-284 | otherwise two permutations of the requests that show different trees |
| `Whitelist.ApartView` | src/firejail/fs_whitelist.c:245-284 | what is seen at every path, links behind links included, when the order does not matter |
| `Whitelist.StraightIsPlain` | src/firejail/fs_whitelist.c:245-284 | requested links that lie in the original itself meet both conditions |
| `Whitelist.ServeAdds` | src/firejail/fs_whitelist.c:132-284 | no request removes or changes anything that stands on the tmpfs |
| `Whitelist.LinkAlone` | src/firejail/fs_whitelist.c:245-284 | what one link request leaves, whatever lies on the way to the link |
| `Whitelist.LinkFaithful` | src/firejail/fs_whitelist.c:245-284 | any sequence of requests shows only parts of the original exactly when every link that some request passes lies in a requested directory or was asked for before it was passed |
| `Whitelist.LinkOrderMatters` | src/firejail/fs_whitelist.c:245-284 | for a link below a link the order of two requests decides what is seen |
| `Whitelist.TopDir.CreateAt` | src/firejail/fs_whitelist.c:84-95 | creation succeeds exactly for a new name, changes nothing else, and happens on the tmpfs only |
| `Whitelist.TopDir.BindMount` | src/firejail/fs_whitelist.c:220-223 | the place leads to a new mount with the same path as its root, every other place leads where it led, the tmpfs is unchanged, and just this place becomes a mount point |
| `Whitelist.TopDir.WhitelistMkpath` | src/firejail/fs_whitelist.c:52-130 | the loop over path components leaves the namespace and the descriptor that the reference gives |
| `Whitelist.TopDir.WhitelistFile` | src/firejail/fs_whitelist.c:132-243 | a file outside the top level directory, missing, or a link changes nothing; any other one is served |
| `Whitelist.TopDir.WhitelistSymlink` | src/firejail/fs_whitelist.c:245-284 | the link is created unless its path cannot be made or it exists |
| `Whitelist.TopDir.SecondPass` | src/firejail/fs_whitelist.c:753-780 | the loop over all profile entries ends with every requested file and directory visible, and with exactly the requested tree if and only if no link was passed before it was asked for |
| `TopDirs.ExtractTopdir` | src/firejail/fs_whitelist.c:514-550 | the path lies strictly inside the result, which is the home directory, the runtime directory, `/sys/module`, a directory of `/usr` or a directory of the root; an error only for a path that is inside none |
| `TopDirs.TopdirMeans` | src/firejail/fs_whitelist.c:514-550 | the same of the reference, and that a path inside one of the three special directories gets a special one |
| `TopDirs.TopLength` | src/firejail/fs_whitelist.c:514-550 | the top level directory ends in front of a slash of the path |
| `TopDirs.FirstPass.HaveTopdir` | src/firejail/fs_whitelist.c:500-512 | finds a directory in the array if and only if it is there |
| `TopDirs.FirstPass.AddTopdir` | src/firejail/fs_whitelist.c:435-498 | the array grows by the directory at its end exactly when it is acceptable, can be opened and there is room; each refusal has its exact cause |
| `TopDirs.FirstPass.Handle` | src/firejail/fs_whitelist.c:575-751 | one command gets parameters exactly when it is selected, adds the directory it asks for to the array unless it is there, and fails exactly with the error that the reference gives |
| `TopDirs.FirstPass.Run` | src/firejail/fs_whitelist.c:575-751 | the array holds the directories asked for in order of first use, exactly the selected commands get parameters, each with its own top level directory, every link lies inside it, and the first command that causes an error stops the pass with it |
| `TopDirs.TopsExact` | src/firejail/fs_whitelist.c:435-512 | the directories of the array are exactly the acceptable ones that some command asks for, each one once |
| `TwoPasses.LinksFit` | src/firejail/fs_whitelist.c:514-780 | for cleaned names, every link that the first pass hands on lies strictly below its top level directory by components, which is what the second pass requires |
| `TwoPasses.ToldIsChosen` | src/firejail/fs_whitelist.c:575-780 | the entries that the parameters give for a directory are those of the selected commands that belong to it, in their order |
| `TwoPasses.FsWhitelist` | src/firejail/fs_whitelist.c:553-780 | both passes fail exactly with the error of the first command that causes one; else each top level directory ends up as the commands that belong to it ask for |
| `TwoPasses.ServedView` | src/firejail/fs_whitelist.c:553-780 | what is then seen in such a directory: every file and directory that the commands ask for, and exactly what they ask for if and only if no link is passed before it is asked for |
| `Cmdline.CmdlineLength` | src/firejail/cmdline.c:29-66 | the exact length of the text that the second pass writes |
| `Cmdline.QuoteSingle` | src/firejail/cmdline.c:84-103 | a single quote closes open quotes and, in a run, overwrites the double quote written before |
| `Cmdline.QuoteArg` | src/firejail/cmdline.c:77-131 | one argument extends the text by exactly its quoted form, inside the buffer |
| `Cmdline.QuoteCmdline` | src/firejail/cmdline.c:68-132 | the buffer holds the text and its terminator, and nothing behind it is touched; without arguments nothing is written |
| `Cmdline.Room` | src/firejail/cmdline.c:68-132 | at every point there is room for the closing quote, the space and the terminator |
| `Cmdline.ReadPrefix` | src/firejail/cmdline.c:82-117 | what a shell has read after any number of characters of an argument, also when the writer stands behind a double quote that it may take back |
| `Cmdline.RoundTrip` | src/firejail/cmdline.c:68-132 | a shell reads the line back as the original arguments: always with extra quotes, and without them exactly when each character is a single quote or not in the lists of section 2.2 of POSIX.1, Shell Command Language |
| `Cmdline.QuotedCons` | src/firejail/cmdline.c:166-188 | cutting off the length of the first argument leaves the text of the others |
| `Cmdline.BuildCmdline` | src/firejail/cmdline.c:134-156 | fails exactly when the text is longer than `ARG_MAX`; the result reads back as the arguments |
| `Cmdline.BuildAppimageCmdline` | src/firejail/cmdline.c:158-195 | the result reads back as AppRun and the other arguments; the exact condition of the length error |
| `ProfileList.Normalize` | src/firejail/profile.c:1819-1841 | removes redundant commas in place, writing nothing outside the text |
| `ProfileList.NormalizedItems` | src/firejail/profile.c:1819-1841 | what is left is the comma-join of the non-empty items |
| `ProfileList.NormalizeKeepsFold` | src/firejail/profile.c:1819-1841 | normalising does not change what the items add up to |
| `ProfileList.CountItems` | src/firejail/profile.c:1864-1869 | the number of items |
| `ProfileList.CollectItems` | src/firejail/profile.c:1871-1880 | commas become terminators, and the table points at the start of each item |
| `ProfileList.FilterRemove` | src/firejail/profile.c:1889-1900 | the operator `-` takes the item out of the table, as the fold does |
| `ProfileList.FilterAdd` | src/firejail/profile.c:1901-1918 | `+` or no operator adds the item unless it is empty or there |
| `ProfileList.FilterReset` | src/firejail/profile.c:1919-1927 | `=` clears the table and adds the item |
| `ProfileList.Filter` | src/firejail/profile.c:1882-1929 | the table stands for the left fold of all items |
| `ProfileList.CopyBack` | src/firejail/profile.c:1931-1946 | the items are joined in place; none is overwritten before it is read, and the result is not longer than the text |
| `ProfileList.Compress` | src/firejail/profile.c:1843-1947 | the buffer holds the join of the fold of the original items, and nothing behind the original text changes |
| `ProfileList.FoldProper` | src/firejail/profile.c:1843-1947 | items of the result are distinct, non-empty and free of commas |
| `ProfileList.RefoldExact` | src/firejail/profile.c:1843-1947 | a list is reproduced when compressed again exactly when none of its items starts with an operator |
| `ProfileList.AugmentExact` | src/firejail/profile.c:1949-1962 | augmenting equals compressing everything at once, for every addition, exactly when no stored item starts with an operator |
| `ProfileList.AugmentCounterexample` | src/firejail/profile.c:1949-1962 | `++a` is a list for which it does not |
| `ProfileList.AugmentAllExact` | src/firejail/profile.c:1949-1962 | any number of calls equals one compress of all arguments joined by commas, if no item has a second operator |
| `ProfileList.Augment` | src/firejail/profile.c:1949-1962 | the new list, or the error exactly when it is longer than the limit |
| `ProfileReader.ReadGuard` | src/firejail/profile.c:195-251 | what a conditional leaves of a line is strictly shorter |
| `ProfileReader.GuardRead` | src/firejail/profile.c:195-251 | every known conditional is recognised, although names are compared by prefix only |
| `ProfileReader.GuardsAreConjunction` | src/firejail/profile.c:195-251 | nested conditionals act as a conjunction, and `quiet` and `include` are refused behind them |
| `ProfileReader.FileIsFlat` | src/firejail/profile.c:1663-1817 | reading a file with its includes equals reading the flattened text: depth-first order, and what an included file ignores stays ignored |
| `ProfileReader.LeavesAppendOnly` | src/firejail/profile.c:1640-1659 | entries and ignored commands are only ever appended |
| `ProfileReader.CycleExits` | src/firejail/profile.c:1663-1817 | a cycle of includes, at any place of its files and among any other lines and includes, ends in an exit if no line in front of its includes, nor of a file that can be read from there, makes firejail ignore an include of the cycle |
| `ProfileReader.FileKeeps` | src/firejail/profile.c:1663-1817 | any such file, read with everything it includes, leaves the includes of the cycle heard |
| `ProfileReader.SilencedCycle` | src/firejail/profile.c:1640-1659 | a file that ignores its own include in front of it is read to its end |
| `ProfileReader.SelfIncludeExact` | src/firejail/profile.c:1663-1817 | a file that includes itself, without other includes, conditionals, errors or lines that ignore ignore lines, ends in an exit if and only if it is included too deep, its include is ignored neither at the start nor by a line in front of it, or there is no room for its ignore lines |
| `ProfileReader.Reader.ProfileRead` | src/firejail/profile.c:1663-1817 | for any include graph the call returns or exits, never has more than 17 readers active, restores the include level and leaves the lists of the reference |
| `ProfileReader.Reader.ReadAll` | src/firejail/profile.c:1732-1815 | the loop over the lines of one file |
| `ProfileReader.Reader.ReadLine` | src/firejail/profile.c:1749-1808 | one line: an include one level deeper, or any other line |
| `JoinProtocol.StepKeeps` | src/firejail/main.c:2742-2984 | every step of every process keeps the invariant of pipes, sandbox, pidfile and joiners |
| `JoinProtocol.RunKeeps` | src/firejail/main.c:2742-2984 | so does every run |
| `JoinProtocol.JoinIsSafe` | src/firejail/join.c:207-239 | a joiner is let in only when the network helper has ended, id maps are written, capabilities and privileges are dropped and filters are installed, and the pid it has is the child's; the network is set up if and only if the helper succeeded |
| `JoinProtocol.JoinsAnyway` | src/firejail/main.c:2794-2816 | for every configuration with a network there is a run in which a joiner is let in, whether the network helper succeeds or fails |
| `JoinProtocol.JoinKeeps` | src/firejail/join.c:315-383 | a pid is only read from a locked and completely written pidfile |
| `JoinProtocol.NoMessageLost` | src/firejail/util.c:863-930 | a pipe never holds a second message, which a wait would throw away |
| `JoinProtocol.MapsMatchNamespace` | src/firejail/sandbox.c:1250-1275 | id maps are written exactly for a user namespace that was made, and both sides agree about it |
| `JoinProtocol.NoDeadlock` | src/firejail/sandbox.c:661-674 | while both sides live, one of them can go on |
| `JoinProtocol.JoinerWaits` | src/firejail/join.c:217-239 | a joiner sleeps for no longer than the timeout |
| `LockOrder.WaitsDown` | src/firejail/preproc.c:167-185 | in every state of the invariant a wait leads to a process of lower rank |
| `LockOrder.StepKeeps` | src/firejail/main.c:2694-2727 | launching, going on, cloning and dying keep the invariant |
| `LockOrder.NoCycle` | src/firejail/chroot.c:279-282 | no chain of waits leads back to its start, for any number of processes |
| `LockOrder.SomeoneActs` | src/firejail/main.c:2742-2984 | whenever a process waits, some process can act |
| `LockOrder.MutualExclusion` | src/firejail/preproc.c:167-185 | each lock has at most one process in its section |
| `LockFile.Sleep` | src/firejail/preproc.c:80-135 | each sleep lies between the initial and the maximal one |
| `LockFile.TimeoutExact` | src/firejail/preproc.c:30-32 | the timeout is passed after exactly 19 sleeps and 5.0115 seconds |
| `LockFile.Attempt` | src/firejail/preproc.c:105-130 | the first try that does not find the lock busy decides, and there are at most 20 |
| `LockFile.Lock.Take` | src/firejail/preproc.c:80-135 | a lock that is held is left alone; else a timeout happens exactly when 20 tries find it busy, and the sleeps stay below the timeout plus one maximal sleep |
| `LockFile.Lock.Release` | src/firejail/preproc.c:137-165 | a lock that is not held is left alone; else it is given back, and the program ends exactly when flock or close fails |
| `Sigtstp.AdvanceKeeps` | src/firejail/preproc.c:39-78 | each step of a lock or unlock keeps the chain of backups |
| `Sigtstp.RunKeeps` | src/firejail/preproc.c:39-78 | so does every run, with signals at any point |
| `Sigtstp.HoldingDefers` | src/firejail/preproc.c:167-185 | while a lock is held signals are deferred, and none takes effect under another action than the original one |
| `Sigtstp.OutermostRestores` | src/firejail/preproc.c:39-78 | when no lock is open the original action is back and no signal is owed |
| `Sigtstp.NotLost` | src/firejail/preproc.c:39-78 | signals that arrived have taken effect when the program ends |
| `Sigtstp.SignalTakesEffect` | src/firejail/preproc.c:39-78 | after a signal, one is owed or has taken effect |
| `Sigtstp.MainDisposition` | src/firejail/main.c:2694-2727 | the action that startup leaves: the original one with a bridge, else the default |
| `Sigtstp.MainKeepsActionExactly` | src/firejail/main.c:2983-2983 | the exact condition for the original action to survive |
| `Sigtstp.ChildDefersForever` | src/firejail/main.c:2774-2777 | with a bridge the child keeps the deferring handler for ever and no SIGTSTP takes effect in it, whether or not it takes and gives back the lock of the directory |
| `Sigtstp.ChildRestores` | src/firejail/chroot.c:279-282 | without a bridge the child ends up with the original action, and signals that arrived have taken effect |
| `Sigtstp.ChildKeepsActionExactly` | src/firejail/main.c:2694-2777 | the child gets the original action back exactly when no bridge is configured |
| `Sigtstp.TwiceLosesAction` | src/firejail/preproc.c:39-78 | taking the same lock twice leaves the deferring handler in place |
| `Arp.NetrangeIsHost` | src/include/common.h:107-115 | the bitwise range check accepts exactly the addresses strictly between the network and the broadcast address |
| `Arp.MaskExact` | src/firejail/arp.c:255-304 | every address that can be drawn lies in the network exactly when the mask has leading ones only |
| `Arp.GapMask` | src/firejail/main.c:2345-2360 | with the mask 255.255.255.1 the first address that can be drawn lies in another network, for every interface address |
| `Arp.AssignSound` | src/firejail/arp.c:255-379 | whatever is assigned is a free host address, not that of interface or gateway, and inside a range that has a start |
| `Arp.AssignComplete` | src/firejail/arp.c:255-379 | the allocator gives up only when all candidates are in use, and, unless the range lacks its start, exactly then |
| `Arp.HalfRangeEscapes` | src/firejail/arp.c:267-295 | with an end but no start, an address behind the end can be assigned exactly when there is one |
| `Arp.NoWrap` | src/firejail/arp.c:307-349 | none of the 32-bit sums wraps around |
| `Arp.ArpRandom` | src/firejail/arp.c:255-304 | up to ten tries, each a random candidate; an address in use ends the attempt |
| `Arp.ArpSequential` | src/firejail/arp.c:307-349 | the first free candidate |
| `Arp.ArpScan` | src/firejail/arp.c:336-348 | the scan ends, and finds the first free address if there is one |
| `Arp.ArpAssign` | src/firejail/arp.c:358-379 | the outcome of two random attempts and a scan, and what holds of a success |
| `Arp.Bridge.Configure` | src/firejail/network_main.c:59-137 | for any mask: the exact condition of the error, the address that the network is taken from, exactly when the interface goes without an address, and that for a mask of leading ones everything holds that the allocator relies on |
| `Arp.Bridge.ConfigureSandboxIp` | src/firejail/network_main.c:140-163 | a given address is kept and checked, else one is assigned; the result is a free host address |
| `MountInfo.UnmangleMangled` | src/firejail/mountinfo.c:39-67 | undoing the escapes gives back every path that the kernel has escaped |
| `MountInfo.ReadOct` | src/firejail/mountinfo.c:39-51 | succeeds exactly for three octal digits, with their value as a character |
| `MountInfo.UndoRun` | src/firejail/mountinfo.c:61-64 | a run of escapes is undone while the write position never passes the read position |
| `MountInfo.UnmanglePath` | src/firejail/mountinfo.c:54-67 | the path is unescaped in place, inside its own bytes |
| `MountInfo.Strtok` | src/firejail/mountinfo.c:87-110 | the next token; only the delimiter behind it is overwritten |
| `MountInfo.TakeFields` | src/firejail/mountinfo.c:87-110 | the tokens of a line and where they stand |
| `MountInfo.ParseLine` | src/firejail/mountinfo.c:69-132 | the record, or the error, that the reference gives for the line |
| `MountInfo.ParsePrinted` | src/firejail/mountinfo.c:69-132 | every mount whose option fields hold no hyphen is read back as it was printed |
| `MountInfo.ParseExact` | src/firejail/mountinfo.c:103-110 | what is read for any mount, and exactly when the filesystem type is right |
| `Strings.InsideExact` | src/firejail/mountinfo.c:276-279 | for clean paths the check of a prefix and the next character tells whether one path lies strictly below the other, by components, exactly when the upper one is not `/` or both are |
| `MountArray.RootFindsNothing` | src/firejail/mountinfo.c:276-279 | below `/` nothing is found, although everything but `/` itself lies below it |
| `MountArray.BelowExact` | src/firejail/mountinfo.c:276-279 | what is found are the mounts strictly below the path, in order, exactly when the path is not `/` or only `/` is mounted |
| `MountArray.Append` | src/firejail/mountinfo.c:280-288 | an element is added, with the array doubled when it is full |
| `MountArray.Collect` | src/firejail/mountinfo.c:263-308 | the path and, in file order, exactly the mounts below it, ended by NULL inside the array |
| `MountArray.Build` | src/firejail/mountinfo.c:230-309 | found exactly when the mount id occurs; then the path and the mounts listed behind its first occurrence, which are those strictly below a clean path other than `/` |
| `Dbus.ScanExact` | src/firejail/dbus.c:52-81 | the one-pass loop accepts exactly the grammar of segments, from any state |
| `Dbus.CheckName` | src/firejail/dbus.c:52-81 | accepts exactly names of at most 255 characters with two or more segments, or a star as the last one |
| `Dbus.CheckObjectPath` | src/firejail/dbus.c:83-115 | accepts exactly object paths, with a star as the last segment allowed |
| `Dbus.Unambiguous` | src/firejail/dbus.c:121-147 | a text stands for at most one rule |
| `Dbus.RuleCuts` | src/firejail/dbus.c:121-147 | any rule that a text stands for cuts it at the first separators |
| `Dbus.CheckCallRule` | src/firejail/dbus.c:121-147 | accepts exactly the texts of well-formed rules |
| `BuildDirs.PrefixHasBoundary` | src/firejail/fs_etc.c:216-241 | every leading part of the name is complete at some place where the loop stops |
| `BuildDirs.BoundaryIsPrefix` | src/firejail/fs_etc.c:216-241 | every place where the loop stops stands for a leading part of the name |
| `BuildDirs.ParentStands` | src/firejail/fs_etc.c:225-235 | for a source closed under parents, the parent of the next directory stands already |
| `BuildDirs.Chain` | src/firejail/fs_etc.c:204-243 | the destination gains exactly the source directories on the way, with the modes of the source, and nothing else changes |
| `BuildDirs.Deepest` | src/firejail/fs_etc.c:204-243 | the place where the destination path is cut off is behind the deepest source directory on the way |
| `BuildDirs.Visit` | src/firejail/fs_etc.c:220-241 | one component: the source path is restored, the destination path cut off behind the new directory |
| `BuildDirs.BuildDirs` | src/firejail/fs_etc.c:209-243 | the source buffer is unchanged, the destination buffer names the last directory made or its prefix, the destination is built up to the end, and making a directory cannot fail for a source closed under parents |
| `Env.EnvList.EnvStore` | src/firejail/env.c:155-192 | a setting is cut at its first `=`; errors change nothing |
| `Env.EnvList.EnvStoreNameVal` | src/firejail/env.c:194-224 | appends one entry unless the name is empty |
| `Env.EnvList.EnvGet` | src/firejail/env.c:243-257 | the last entry for the name decides |
| `Env.EnvList.EnvApplyAll` | src/firejail/env.c:227-240 | each stored name ends with the value that a lookup reports, all others keep theirs; fails exactly for a name that setenv refuses |
| `Env.EnvList.EnvApplyList` | src/firejail/env.c:277-302 | listed names get their last value, removals always count; fails exactly for an overlong listed value |
| `Env.EnvList.EnvApplyWhitelist` | src/firejail/env.c:306-318 | whitelisted names with their looked-up values, the fixed PATH, and nothing else |
| `Env.EnvList.EnvApplyWhitelistSbox` | src/firejail/env.c:321-324 | the environment of a helper, and exactly when PATH and a whitelisted value survive the second replay |

## Left out

- Whitelist.MkpathGrows: other errors of `mkdirat` and `openat` than existing names, wrong kinds and links are not modelled.
- Whitelist.TopDir.WhitelistFile: the check of the last line of mountinfo after each mount, and mounts that lie inside a mounted directory, are not modelled.
- Whitelist.TopDir.SecondPass: one top level directory at a time; a top level directory inside another one and the directories that `tmpfs_topdirs` restores are not modelled.
- TopDirs.FirstPass.Run: macro expansion, `clean_pathname`, `realpath`, `is_link` and globbing are inputs, and the growing array of nowhitelist paths is a sequence.
- TwoPasses.FsWhitelist: serves one top level directory after the other, where the code goes through the entries; the directories do not depend on each other here.
- Cmdline.CmdlineLength: the overflow of `int` for arguments of more than 2 GiB is not modelled.
- Cmdline.RoundTrip: the condition without extra quotes is relative to this reader, which refuses every bare character in the lists of POSIX.1; a shell takes some of them literally at some places, for instance `=` in a later word. No caller leaves the extra quotes out.
- Cmdline.ReadPrefix: the reader knows quotes, spaces and literal characters; expansions and operators of the shell count as a failure to read.
- ProfileReader.Reader.ProfileRead: lines come without comments and superfluous blanks, the 8 KiB line buffer is not modelled, and the profile list is a sequence instead of a linked list.
- ProfileReader.CycleExits: goes one way; whether a line that could silence an include is carried out depends on conditionals and commands, which are inputs. `ProfileReader.SelfIncludeExact` goes both ways for one file without them.
- ProfileReader.GuardsAreConjunction: the profile commands themselves, a long chain of independent branches, are an input.
- JoinProtocol.JoinIsSafe: entering the namespaces, and the monitor loop that follows the application, are not modelled.
- LockFile.Attempt: the creation of the lock file and errors of `open` are not modelled.
- Arp.Bridge.Configure: that an address is a host of the network is stated for masks of leading ones; `Arp.MaskExact` shows that for no other mask it holds of every draw.
- Arp.ArpAssign: ARP frames and their timing; whether an address answers is an input.
- MountInfo.ParseLine: `atoi` beyond 32 bits and leading blanks, which tokens cannot have, are not modelled.
- MountArray.Build: reading the file line by line; the lines come as parsed records.
- BuildDirs.BuildDirs: a component `.` counts as a name of its own, and only directories of the destination are modelled.
- Env.EnvList.EnvApplyAll: the linked list is a sequence, and memory shortage is not modelled.
- The fs_private home skeleton, Xauthority and pulse handling: extra files without a common invariant.
- The option chains of `main.c` and `profile_check_line`: each branch is settled by reading it.
- Seccomp filters, capability tables, resource limits, cgroups: tables and system calls.
- firemon, firecfg, fbuilder, fcopy, ftee and the other helper programs: input and output.
