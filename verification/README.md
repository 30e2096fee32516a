# A model of Chromium's base library

Dafny models of the parts of `base/` whose correctness is not visible in one function body:
containers that may be changed while they are iterated, the concurrent list built on one of them,
streaming digests, printers and parsers that undo each other, a cache over user-supplied lookups,
lock-free protocols, and exact arithmetic.  `dafny verify dfyconfig.toml` verifies the whole project.

| file | models |
|---|---|
| `ObserverListThreadSafe.dfy` | per-thread contexts, the locked map and who deletes a context, as a step relation with reusable addresses |
| `NotificationPasses.dfy` | which observers a notification reaches: the contexts of that relation follow the reference of `ObserverList.dfy` |
| `NotificationDelivery.dfy` | where notifications are posted and that they are delivered, and what adding and removing do |
| `ObserverList.dfy`, `CallbackList.dfy`, `IdMap.dfy` | containers with deferred removal, as classes, against a list of registrations or entries |
| `BlockHash.dfy`, `Sha1.dfy`, `Md5.dfy` | the digests as classes over arrays, against FIPS 180-3 and RFC 1321 |
| `DigestExamples.dfy` | one published digest for each |
| `CommandLineQuoting.dfy`, `CommandLine.dfy` | printing a command line and parsing argv |
| `CommandLinePlaceholders.dfy`, `CommandLineTokens.dfy` | text filled in for placeholders, and what becomes of each token |
| `Pickle.dfy` | the growing buffer, the reader and the byte format |
| `PickleBytes.dfy` | the bytes of the format |
| `Environment.dfy` | altering environment blocks in both layouts |
| `PathService.dfy` | the cache, sequentially as a class and with several threads as a step relation |
| `PathResolution.dfy` | whose path is returned, and that none has a parent reference |
| `Atomics.dfy`, `LazyInstance.dfy` | the compare-and-swap loops with BarrierClosure, and the three-state spinlock |
| `AtomicUses.dfy` | what callers rely on: elections, exchanges, the last write |
| `RandUtil.dfy` | rejection sampling |
| `Sequences.dfy` | what the others share |

Three kinds of reference are used.  A class is tied by its contracts to a function of its old state or
to a simpler structure (registrations with a cursor, a whole-message digest, a list of entries), and
what the source promises is proved of that.  A concurrent protocol is a function from a state and a
step to a state; a theorem about it is over all sequences of steps.  A printer is paired with an
independently written parser.

Where the obvious claim is false, the code is kept and the exact condition is proved, as an
equivalence over all inputs or runs:

- quoting leaves an empty argument, or one with only a tab to protect, unquoted, and never quotes
  switch names (`PrintedReadsBack`, `EmptyArgumentIsLost`); `-=`, `--=` and `--foo =` do not re-parse
  (`ReparseIff`, `DashEqualsIsNoSwitchAgain`); text with a blank put in place of a placeholder in a
  switch name cuts the argument there (`FilledReadsBack`);
- a callback added by the last callback of a pass is not run in it (`AddedMeanwhile`);
- clearing a map of external pointers outside iteration does nothing (`IdMap.Clear`);
- an override during a lookup on another thread, or during one that a provider makes inside it, can be
  lost to the cache, and lookups return a wrong path (`RunsAreSoundIff`, `ChangeIsCarefulIff`; the
  inputs are in `ShadowedIff` and `NestedOverrideLost`);
- a context address that is handed out again to the same thread defeats the pointer comparison in
  `NotifyWrapper` (`StaleDeliveryIff`; the run is in `StaleDeliveryFromInit`);
- two failed reads leave a pickle iterator short of the end, although base/pickle.h:28-31 says that
  it is then not possible to read on (`FailureExhausts`, `CountLeavesBytes`);
- writing to a copy of a read-only pickle, whose write offset is 0, starts its payload over
  (`WriteBytesCommon`; the inputs are in `WriteAfterWrapping`);
- base/callback_list.h:112 says that the removal callback runs when the list is changed, but a
  compaction runs it at every node from the first reset one on (`RunsAreUpdates`, `UpdatesIff`,
  `ForceBehindReset`);
- a name with an equals sign in it sets another variable (`LookupAlteredIff`, `CompoundNameSets`), and
  a NUL ends what is read of a name or value (`ArrayReadsIff`, `LookupReadIff`, `NulCutsValue`; for the
  Windows block `AlteredParsesIff`);
- `RandInt` adds with overflow for wide intervals (`WrapsIff`); the model wraps around.

One more is shown in one direction each way: a provider registered after a lookup that failed can make
a cached path wrong although it keeps off every cached key (`RegisteredTooLate`), and cannot if it
keeps off all keys that the cached lookups lead to (`RegisteredElsewhere`), which is sufficient but
not necessary.

## Model

| member | source | states |
|---|---|---|
| ObserverListThreadSafe.RunKeeps | base/observer_list_threadsafe.h:108-251 | no run of adds, removals, notifications, posted tasks run or dropped, and destruction, in any interleaving and nesting, dereferences or deletes a deleted context, and the ownership invariant holds after it |
| ObserverListThreadSafe.LiveExactlyWhenUsed | base/observer_list_threadsafe.h:150-156 | whenever only client code runs, a context is alive exactly when it is in the map or being iterated, the map names live contexts, and every call in progress concerns a live context of its own thread |
| ObserverListThreadSafe.DeletedExactlyOnce | base/observer_list_threadsafe.h:206-208 | contexts allocated are contexts deleted plus contexts alive, and once the list is gone none is alive: each was deleted exactly once |
| ObserverListThreadSafe.ActKeeps | base/observer_list_threadsafe.h:108-251 | every single action is free of faults and keeps the ownership invariant |
| ObserverListThreadSafe.StepKeeps | base/observer_list_threadsafe.h:150-156 | the same for each access a call makes outside the lock, whatever other threads did in between |
| ObserverListThreadSafe.AddKeeps | base/observer_list_threadsafe.h:108-123 | AddObserver, with a context found or allocated, keeps the invariant |
| ObserverListThreadSafe.RemoveKeeps | base/observer_list_threadsafe.h:130-149 | the locked part of RemoveObserver always finds its context alive and keeps the invariant, whether or not it takes the context out of the map |
| ObserverListThreadSafe.RemoveTestKeeps | base/observer_list_threadsafe.h:152-157 | deleting at the end of RemoveObserver exactly when the list has no slot left is safe |
| ObserverListThreadSafe.RunTaskKeeps | base/observer_list_threadsafe.h:214-228 | a task that runs late enters a pass only over the live context now in the map |
| ObserverListThreadSafe.WrapperTestKeeps | base/observer_list_threadsafe.h:237-250 | at the end of a pass the context is deleted, out of the map, exactly when its list has no slot left |
| ObserverListThreadSafe.AdvanceKeeps | base/observer_list_threadsafe.h:230-235 | going on to the next observer, or ending the pass and compacting, keeps the invariant under nesting |
| ObserverListThreadSafe.DestroyKeeps | base/observer_list_threadsafe.h:206-208 | the destructor deletes every live context once |
| ObserverListThreadSafe.StaleDeliveryIff | base/observer_list_threadsafe.h:218-228 | when thread t is not mapped to the context at an address (deleted, about to be, or another thread's), a task posted for the two finds t mapped to it at some moment of a run if and only if some AddObserver of t in the run, finding no context of its own, is given that address |
| ObserverListThreadSafe.MapsIff | base/observer_list_threadsafe.h:112-122 | one action maps a thread to an address it was not mapped to exactly when it is an AddObserver of that thread that is given the address for a new context |
| ObserverListThreadSafe.DeliversIff | base/observer_list_threadsafe.h:214-228 | running a task makes its thread notify exactly when the thread is mapped to the context the task was posted for, and otherwise only consumes the task |
| ObserverListThreadSafe.NoStaleDelivery | base/observer_list_threadsafe.h:218-228 | so a task for a deleted context is consumed without effect in every run in which its address is not handed out to its thread again; other threads may be given it |
| ObserverListThreadSafe.StaleDeliveryFromInit | base/observer_list_threadsafe.h:222-227 | a run from the start that delivers to the wrong context: the only observer is removed, another is added at the same address, and the task posted for the first notifies the second |
| ObserverListThreadSafe.StaleDeliveryByReuse | base/observer_list_threadsafe.h:222-227 | the same from every state with such a task pending |
| NotificationPasses.NotificationReaches | base/observer_list_threadsafe.h:230-236 | in any run, whenever a NotifyWrapper goes on, it calls the next registration of its pass, or, when there is none, ends having called each registration then in force on its thread once and in order of addition, those made since it began exactly for NOTIFY_ALL |
| NotificationPasses.RunTracks | base/observer_list_threadsafe.h:108-251 | in any run each live context has the slots of a list of registrations that changes as the reference list does, and each NotifyWrapper iterating it stands where a pass of the reference stands |
| NotificationPasses.EndFollows | base/observer_list_threadsafe.h:230-236 | a NotifyWrapper that ends has called all its pass should, and when it is the last over its list the list is compacted without losing a registration |
| NotificationDelivery.NotifyPosts | base/observer_list_threadsafe.h:171-187 | Notify, from any thread, posts exactly one task for each thread in the map, to that thread and for the context it is mapped to, and changes nothing else |
| NotificationDelivery.TasksAreConserved | base/observer_list_threadsafe.h:178-185 | in any run, of each task, those pending and those posted are those run, dropped or still pending |
| NotificationDelivery.NotificationIsDelivered | base/observer_list_threadsafe.h:165-187 | after a notification, in every run that goes on from it, the task of each thread that was in the map is pending, and can be run whenever that thread runs client code, until as many have been run or dropped as were pending before; while the thread is mapped to its context, running it begins a pass |
| NotificationDelivery.PendingIsDeliverable | base/observer_list_threadsafe.h:214-228 | in any run a pending task can be run, the list being alive |
| NotificationDelivery.PassBegins | base/observer_list_threadsafe.h:230-236 | the pass it begins starts at the first slot, has called nothing and is limited to the registrations made so far exactly for NOTIFY_EXISTING_ONLY; NotificationReaches says how it goes on |
| NotificationDelivery.AddIsEnabled | base/observer_list_threadsafe.h:108-111 | an observer can be added whenever client code runs; without a message loop nothing happens |
| NotificationDelivery.AddRegisters | base/observer_list_threadsafe.h:108-123 | an added observer becomes the last of its thread, if it was not there yet, whether its context is found or made; the observers of other threads stay |
| NotificationDelivery.RemoveUnregisters | base/observer_list_threadsafe.h:130-158 | a removed observer is taken out once, the others of its thread keep their order, and the observers of other threads stay |
| NotificationDelivery.DestroyHappens | base/observer_list_threadsafe.h:206-208 | with no task and no call left the destructor can run, and leaves no context |
| Sha1.SHA1HashBytes | base/sha1_portable.cc:207-214 | the result is the FIPS 180-3 digest (sections 5.1.1, 5.3.1, 6.1.2) of the data |
| Sha1.HashInPieces | base/sha1_portable.cc:115-131 | whatever the split into pieces, Update over them and Final give the digest of their concatenation |
| Sha1.SecureHashAlgorithm.constructor | base/sha1_portable.cc:36-36 | starts with the initial hash value and an empty message |
| Sha1.SecureHashAlgorithm.Init | base/sha1_portable.cc:100-113 | makes the object ready for a new message, with the initial hash value of section 5.3.1 |
| Sha1.SecureHashAlgorithm.Update | base/sha1_portable.cc:123-131 | absorbs the bytes, keeping the hash of the whole blocks, the rest in the buffer and the bit count modulo 2^64 |
| Sha1.SecureHashAlgorithm.Pad | base/sha1_portable.cc:133-155 | the message is extended to the padded message of section 5.1.1, over one block or two |
| Sha1.SecureHashAlgorithm.Process | base/sha1_portable.cc:157-198 | the buffered block is folded into the hash as section 6.1.2 says, although W and M share storage |
| Sha1.SecureHashAlgorithm.Expand | base/sha1_portable.cc:165-171 | the in-place words become the message schedule of the block |
| Sha1.SecureHashAlgorithm.Mix | base/sha1_portable.cc:173-195 | eighty in-place rounds are the rounds of section 6.1.2 and are added to the hash |
| Sha1.SecureHashAlgorithm.Final | base/sha1_portable.cc:115-121 | the hash bytes are the digest of everything absorbed |
| Sha1.FIsStandard | base/sha1_portable.cc:66-76 | f with OR is Ch, Parity or Maj of section 4.1.1, written with exclusive OR, in every round |
| Sha1.SwapEndsReads | base/sha1_portable.cc:94-96 | swapends turns a word read in memory order into a big-endian word |
| Sha1.SwapEndsWrites | base/sha1_portable.cc:94-96 | swapends makes the stored word appear big-endian in memory |
| Sha1.StepAgrees | base/sha1_portable.cc:181-188 | one round as computed, with its order of additions, is one round of the standard |
| WordValues.AddIs | base/sha1_portable.cc:191-195 | the sum of two words is their sum modulo 2^32, each word standing for the number its binary digits make |
| WordValues.Sum5Is | base/sha1_portable.cc:182-182 | and so is the sum of five |
| WordValues.Xor4Is | base/sha1_portable.cc:170-171 | the schedule combines four words by exclusive OR in every bit |
| Fips180Example.DigestOfAbc | base/sha1_unittest.cc:12-27 | the digest of "abc" is the published one, so that the constants, the rounds, the schedule, the padding and the byte order the code shares with its reference are those of FIPS 180-3 |
| Md5.MD5Sum | base/md5.cc:289-294 | the result is the digest of RFC 1321, sections 3.1 to 3.5 |
| Md5.MD5InPieces | base/md5.cc:171-217 | whatever the split into pieces, MD5Init, MD5Update over them and MD5Final give the digest of their concatenation |
| Md5.MD5IntermediateFinal | base/md5.cc:266-272 | gives the digest of the prefix so far and leaves the context as it is |
| Md5.MD5Transform | base/md5.cc:67-147 | the sixty-four unrolled steps are the operations of section 3.4 on the block, added to the old chain |
| Md5.MD5Context.MD5Init | base/md5.cc:157-165 | the initial chain of section 3.3, with an empty message |
| Md5.MD5Context.MD5Update | base/md5.cc:171-217 | absorbs the bytes, keeping the chain of whole blocks, the rest in the buffer and the two-word count |
| Md5.MD5Context.UpdateBitCount | base/md5.cc:178-185 | the two halves count the bits modulo 2^64, carry included, and tell the bytes buffered |
| Md5.MD5Context.MD5Final | base/md5.cc:223-264 | returns the digest of everything absorbed and clears the context |
| Md5.F1IsF | base/md5.cc:52-53 | the rewritten F1 is the F of section 3.4 |
| Md5.F2IsG | base/md5.cc:54-54 | F2 is the G of section 3.4 |
| Md5.StepIsOperation | base/md5.cc:58-60 | one step is one operation of section 3.4 |
| Md5.CountGrows | base/md5.cc:180-183 | low half, carry test and high half together add eight bits for each byte, modulo 2^64 |
| Md5.LengthHalves | base/md5.cc:254-258 | the two halves stored last are the length field of section 3.2 |
| BlockHash.RotateLeftMovesBits | base/sha1_portable.cc:78-80 | rotation to the left takes each bit from n places below, counted round the word: no bit is lost |
| BlockHash.FoldAppend | base/md5.cc:206-212 | hashing blocks one by one is hashing their concatenation |
| BlockHash.FillerIsShortest | base/md5.cc:236-251 | the padding is the shortest that reaches 56 bytes modulo 64 |
| WordValues.Sum4Is | base/md5.cc:59-60 | the sum in a step is the sum of four words modulo 2^32 |
| Rfc1321Example.DigestOfEmpty | base/md5_unittest.cc:145-149 | the digest of the empty message is the published one, so that the tables, shifts, functions, padding and byte order the code shares with its reference are those of RFC 1321 |
| Rfc1321Example.WordsInOrder | base/md5.cc:75-141 | the operations use the words of the block in the order RFC 1321 lists |
| CommandLineQuoting.PrintedReadsBack | base/command_line.cc:424-453 | splitting the printed arguments by the 2n and 2n+1 backslash rule gives the entries again if and only if every entry is safe: no empty or unprotected tabbed argument, no blank or quote in a switch name, no name with an equals sign and an empty value |
| CommandLineQuoting.EmptyArgumentIsLost | base/command_line.cc:119-122 | an empty argument is printed as nothing, and the line splits into the others |
| CommandLineQuoting.QuoteForCommandLineToArgvW | base/command_line.cc:110-155 | the scanning loops compute the quoted form; what has a blank, a backslash or a quotation mark, and with placeholders a percent sign, begins and ends with a quotation mark, and anything else comes back as it is |
| CommandLineQuoting.GetArgumentsStringInternal | base/command_line.cc:424-453 | the loop prints each entry, quoting switch values and arguments, with a separator before all but the first |
| CommandLineQuoting.RunEnd | base/command_line.cc:128-131 | finds the end of a run of backslashes |
| CommandLineQuoting.ReadQuote | base/command_line.cc:110-155 | a quoted or harmless argument reads back as itself, wherever it stands |
| CommandLineQuoting.ReadEscaped | base/command_line.cc:126-151 | from inside the quotes the escaped text reads as the argument, up to the closing quote |
| CommandLineQuoting.ReadEntry | base/command_line.cc:436-450 | a safe entry reads back as itself |
| CommandLineQuoting.UncleanName | base/command_line.cc:437-437 | a switch name with a blank or a quote, which is printed unquoted, does not |
| CommandLineQuoting.UnsafeArgument | base/command_line.cc:119-122 | neither does an empty argument, nor one with a tab that nothing else causes to be quoted |
| CommandLineQuoting.UnsafeSwitch | base/command_line.cc:437-444 | neither does a switch that is not safe |
| CommandLineQuoting.FirstUnsafe | base/command_line.cc:424-453 | so the first unsafe entry breaks the reading of the whole line |
| CommandLinePlaceholders.FilledReadsBack | base/command_line.cc:115-118 | safe entries printed with placeholders quoted, each percent sign then replaced by a text without quotation marks and backslashes, split into the entries with the same replacement, blanks in the text and all, exactly if no blank comes into a switch name, names being printed without quotes |
| CommandLinePlaceholders.FilledEscaped | base/command_line.cc:127-153 | filling in such a text and escaping may be done in either order |
| CommandLinePlaceholders.NothingFilledIn | base/command_line.cc:134-148 | an empty text in place of a placeholder after a backslash leaves the backslash before the closing quotation mark, and the argument is another |
| Switches.IsSwitch | base/command_line.cc:56-73 | a switch has two characters or more, begins with a dash, or on Windows with a slash, and is not -- |
| CommandLines.ReparseIff | base/command_line.cc:73-94 | parsing a parsed argv reproduces argv, switches and divider if and only if every switch token with an empty value has a name that goes on past its prefix and does not end in white space |
| CommandLines.DashEqualsIsNoSwitchAgain | base/command_line.cc:73-94 | -= is parsed as a switch with an empty name and stored as a dash, which parses as an argument |
| CommandLines.GetArgsIs | base/command_line.cc:345-354 | after a parse GetArgs gives the trimmed non-switch tokens before the first terminator and then all tokens after it |
| CommandLines.PrintedLineParsesBack | base/command_line.cc:393-424 | printing a parsed line and parsing the print gives it again, under the two conditions |
| CommandLines.Layout | base/command_line.cc:72-94 | a parse puts its switches at the divider and its arguments at the end, each in order |
| CommandLines.InitIs | base/command_line.cc:249-255 | a parsed argv is the program, the switch strings, the arguments, with the divider between |
| CommandLines.FixedIff | base/command_line.cc:308-325 | a switch is stored as a string that parses to it exactly under the condition |
| CommandLines.FixedIfReadBack | base/command_line.cc:73-94 | stored strings that read back as themselves each parse to themselves |
| CommandLines.CommandLine.constructor | base/command_line.cc:176-181 | the fields are those of the parse |
| CommandLines.CommandLine.InitFromArgv | base/command_line.cc:249-255 | resets the object and parses |
| CommandLines.CommandLine.AppendSwitchesAndArguments | base/command_line.cc:73-94 | the loop is the parse of the tokens after the first |
| CommandLines.CommandLine.AppendSwitchNative | base/command_line.cc:308-325 | lower-cases on Windows, keeps or adds the prefix, stores under the bare key, inserts at the divider and moves it |
| CommandLines.CommandLine.AppendArgNative | base/command_line.cc:369-371 | appends at the end and nothing else |
| CommandLines.CommandLine.GetArgs | base/command_line.cc:345-354 | everything after the divider without the first terminator |
| CommandLineTokens.ArgsAreOperands | base/command_line.cc:74-93 | after a parse GetArgs returns the trimmed tokens that do not look like switches, judged by their first characters alone, up to --, and all after it |
| CommandLineTokens.UnprefixedIsOperand | base/command_line.cc:74-93 | a token that begins with no prefix is an argument, wherever it stands |
| CommandLineTokens.SlashOnPosix | base/command_line.cc:40-41 | on POSIX /b is an argument |
| CommandLineTokens.SlashOnWindows | base/command_line.cc:35-38 | on Windows /b is the switch b |
| CommandLineTokens.TrimCuts | base/command_line.cc:79-79 | trimming cuts white space off both ends, all of it, and nothing else |
| CommandLineTokens.KeyIs | base/command_line.cc:56-73 | a token of a prefix, a name without equals sign and perhaps a value is a switch with that name, lowered on Windows, and that value |
| CommandLineTokens.LastSwitchWins | base/command_line.cc:308-317 | of the switches with one key the last before -- gives the value |
| CommandLineTokens.KeyHasSwitch | base/command_line.cc:308-317 | every key comes from a switch before -- |
| CommandLineTokens.AppendedIsSwitch | base/command_line.cc:308-327 | a switch appended under a name without prefix is stored behind -- and reads as that name and value |
| CommandLineTokens.LowerLetters | base/command_line.cc:95-105 | on Windows A to Z become a to z, and no other character changes; on POSIX none does |
| CommandLineTokens.KeysAreLower | base/command_line.cc:308-317 | on Windows no key has an upper-case letter |
| Atomics.Linearizable | base/atomicops_internals_gcc.h:15-53 | any interleaving of the retry loops, loads and stores by any number of threads is a run in which each call acts once, at one point between its invocation and its return, with the result it returned |
| Atomics.RunKeeps | base/atomicops_internals_gcc.h:15-53 | the same for every prefix of a run, with what is known of calls under way |
| Atomics.AccessActs | base/atomicops_internals_gcc.h:15-53 | the access that settles a result is the whole call acting at once, and no other access changes the word |
| Atomics.IncrementsAreConserved | base/atomicops_internals_gcc.h:41-53 | in every run in which threads only increment and load, the word is at every moment the start value plus the sum of the increments of the calls settled, modulo 2^32; once all have returned, of all calls made |
| Atomics.RetryOnlyAfterAnother | base/atomicops_internals_gcc.h:15-53 | a call goes back to the start of its loop only if between its two accesses some other call has taken effect and changed the word |
| AtomicUses.OneWinner | base/atomicops_internals_gcc.h:15-25 | in every interleaving of calls that swap one value for another, with nothing else writing, never two get the first value, and one does as soon as any has its result |
| AtomicUses.ExchangesHandOn | base/atomicops_internals_gcc.h:27-34 | in every interleaving of exchanges each value put in is taken out by the next: the first value and those put in are those taken out and the last |
| AtomicUses.LastWriteIsSeen | base/atomicops_internals_gcc.h:15-100 | every call finds the word as the last store, exchange, or swap that succeeded left it, loads and refused swaps leaving it alone |
| AtomicUses.FinishesAlone | base/atomicops_internals_gcc.h:15-100 | from wherever its loop is, a call that nothing interferes with ends after at most three accesses, having done what it does at once |
| BarrierClosures.AllCallsReturned | base/barrier_closure.cc:28-34 | after fewer than n calls the done closure has not run; after n, or up to 2^32 - 1 more, it has run exactly once |
| BarrierClosures.DoneRunsOnce | base/barrier_closure.cc:28-50 | at any moment it has run once or not at all: once when nothing is awaited, or when the n-th call to take effect has returned |
| BarrierClosures.ZeroIsSeenOnce | base/barrier_closure.cc:30-32 | zero is seen by the call that takes effect n-th and by no other |
| BarrierClosures.CountDown | base/atomic_ref_count.h:30-46 | the k-th decrement sees the start value less k, in 32 bits |
| ObserverLists.FinishedPass | base/observer_list.h:143-153 | in every run of nested passes and changes, a pass with nothing more to call has called each registration in force once and in order of addition; those made since it began are among them exactly for NOTIFY_ALL |
| ObserverLists.NeverAfterRemoval | base/observer_list.h:165-176 | a removed registration is called by no pass, running, nested or later |
| ObserverLists.RunKeeps | base/observer_list.h:127-205 | every run keeps passes in step with the list: what is behind a pass and in force has been called |
| ObserverLists.NextAt | base/observer_list.h:143-153 | scanning the slots from the index gives the registration the pass reaches next |
| ObserverLists.FilledWithout | base/observer_list.h:166-176 | clearing a slot and erasing it both take out exactly the first registration of the observer |
| ObserverLists.ObserverListBase.constructor | base/observer_list.h:92-94 | an empty list |
| ObserverLists.ObserverListBase.AddObserver | base/observer_list.h:155-163 | adds a new last registration, or nothing when the observer is there already; every live iterator stays where its pass says |
| ObserverLists.ObserverListBase.RemoveObserver | base/observer_list.h:165-176 | takes the registration out, by clearing the slot while something iterates and by erasing it otherwise |
| ObserverLists.ObserverListBase.HasObserver | base/observer_list.h:178-186 | whether a registration of the observer is in force |
| ObserverLists.ObserverListBase.Clear | base/observer_list.h:188-198 | leaves no registration in force |
| ObserverLists.ObserverListBase.Compact | base/observer_list.h:200-205 | removes the empty slots and no registration |
| ObserverLists.Iterator.constructor | base/observer_list.h:127-135 | begins a pass, bounded by the registrations made so far unless the type is NOTIFY_ALL |
| ObserverLists.Iterator.GetNext | base/observer_list.h:143-153 | returns the next registration of the pass, or nothing, also when the list is gone, and moves no other iterator |
| ObserverLists.Iterator.Destroy | base/observer_list.h:137-141 | ends the pass; the last one compacts; registrations stay |
| ObserverMembership.RegisteredIff | base/observer_list.h:155-201 | after any run an observer is registered exactly if the last operation that speaks of it, or of all, added it, and it is registered once |
| CallbackLists.FinishedPass | base/callback_list.h:146-156 | a finished pass has called, once and in order, the callbacks in force that were added before it stood at end(), and no others |
| CallbackLists.AddedMeanwhile | base/callback_list.h:103-110 | of a callback added during a pass and still in force when the pass finishes: the pass has run it if and only if some node followed the running one at the moment of addition |
| CallbackLists.NeverAfterRemoval | base/callback_list.h:86-94 | a callback removed before its turn is called by no pass, running or later |
| CallbackLists.RunKeeps | base/callback_list.h:126-192 | in every run each position held names a node of the list |
| CallbackLists.AtEndForGood | base/callback_list.h:150-155 | an iterator at end() calls nothing more |
| CallbackLists.RunsAreUpdates | base/callback_list.h:181-191 | a compaction runs the removal callback once for each node from the first reset one on |
| CallbackLists.UpdatesIff | base/callback_list.h:181-191 | which is once for each node taken out if and only if no node in force follows a reset one, and more often otherwise |
| CallbackLists.ForceBehindReset | base/callback_list.h:181-191 | of a reset node and one in force behind it one goes and the callback runs twice |
| CallbackLists.EraseIs | base/callback_list.h:90-90 | erasing a node is resetting it and compacting |
| CallbackLists.CallbackListBase.Add | base/callback_list.h:103-110 | inserts at the end, moves no position, and hands out the subscription of the new node |
| CallbackLists.CallbackListBase.GetIterator | base/callback_list.h:172-174 | an iterator at begin() |
| CallbackLists.CallbackListBase.Compact | base/callback_list.h:178-192 | takes out exactly the reset nodes and runs the removal callback as often as said above |
| CallbackLists.Subscription.Destroy | base/callback_list.h:86-94 | resets the node while something iterates and erases it otherwise; all positions stay valid |
| CallbackLists.Iterator.constructor | base/callback_list.h:128-132 | stands at begin() |
| CallbackLists.Iterator.Copy | base/callback_list.h:134-138 | stands where the other does |
| CallbackLists.Iterator.Destroy | base/callback_list.h:140-144 | the last iterator compacts |
| CallbackLists.Iterator.GetNext | base/callback_list.h:146-156 | skips reset nodes, returns the callback and stands at the node after it, before the callback runs |
| CallbackMembership.InForceIff | base/callback_list.h:80-113 | after any run a callback is in force exactly if it was added and its subscription not destroyed since |
| PickleFormat.RoundTrip | base/pickle.cc:81-208 | values written in any order read back in that order, the iterator ends at the end, and one further integer read fails |
| PickleFormat.ValueReadsBack | base/pickle.cc:81-208 | each kind of value, whatever stands before and after it, reads back and the index moves past its alignment |
| PickleFormat.BoolReadsBack | base/pickle.h:165-167 | a bool takes the four bytes of an int and reads back from the first |
| PickleFormat.FailureExhausts | base/pickle.cc:48-79 | a failed read leaves the iterator at the end, except exactly a 16-bit string whose size in bytes is no int and a size that does not fit size_t, with bytes left |
| PickleFormat.CountLeavesBytes | base/pickle.cc:70-79 | the 32-bit count 0x7fffffff of 16-bit units fails to read and leaves the iterator behind the count |
| PickleFormat.ExhaustedReadsNothing | base/pickle.cc:48-68 | at the end no read of one or more bytes succeeds |
| PickleFormat.SuccessIsInside | base/pickle.cc:39-68 | a successful read gives a value of its kind from bytes inside the payload ahead of the index |
| PickleFormat.NumberReadsBack | base/pickle.cc:27-37 | the bytes of a number are its two's complement, little-endian |
| Pickles.WrapIff | base/pickle.cc:232-249 | bytes are accepted if and only if an aligned header of at least four bytes and the payload it tells of make up their length |
| Pickles.FindNextIff | base/pickle.cc:334-348 | FindNext finds an end exactly when the bytes up to it can be wrapped with that header size |
| Pickles.WrittenWraps | base/pickle.cc:232-249 | bytes that hold a header and the encoded values wrap, and the values read back |
| Pickles.WriteAll | base/pickle.cc:212-378 | any values written to a new pickle leave a header that tells the payload size, and their encodings in order as its payload |
| Pickles.WriteThenRead | base/pickle.cc:21-378 | any values written to a new pickle are read back, in order, by an iterator over the payload that its bytes wrap |
| Pickles.ReadBack | base/pickle.cc:81-208 | reading one value after the other with an iterator gives what reading the payload gives, up to the first that fails |
| Pickles.Pickle.constructor | base/pickle.cc:212-219 | an empty payload, with room for 64 bytes |
| Pickles.Pickle.WithHeader | base/pickle.cc:221-230 | the same behind an aligned larger header |
| Pickles.Pickle.CopyOfWrapped | base/pickle.cc:251-259 | a copy of a read-only pickle has its bytes and its payload but a write offset of 0 |
| Pickles.Pickle.Copy | base/pickle.cc:251-259 | a copy has the header, the payload and the write offset of the other, whether that was written, wraps bytes, or is itself a copy |
| Pickles.Pickle.Resize | base/pickle.cc:323-331 | capacity rounded up to 64, the whole old buffer kept |
| Pickles.Pickle.Reserve | base/pickle.cc:311-321 | room for the length, with the payload kept, at least double when it grows; what was given up stays below what there is, which stays 64 or below three times the largest need plus 64 |
| Pickles.Pickle.WriteBytesCommon | base/pickle.cc:358-378 | the payload becomes its first bytes up to the write offset and then the padded bytes, so that the write appends to the payload if and only if the payload size in the header is the write offset; the rest of the header is kept, and growing is as for Reserve |
| Pickles.WriteAfterWrapping | base/pickle.cc:358-378 | writing to a copy of a read-only pickle leaves the padded bytes written as its whole payload |
| Pickles.Pickle.WritePOD | base/pickle.h:295-298 | appends the number |
| Pickles.Pickle.WriteBool | base/pickle.h:165-167 | appends the bool as an int |
| Pickles.Pickle.WriteSizeT | base/pickle.h:191-195 | appends 64 bits |
| Pickles.Pickle.WriteString | base/pickle.cc:287-292 | appends length and bytes |
| Pickles.Pickle.WriteString16 | base/pickle.cc:294-300 | appends length in units and twice as many bytes |
| Pickles.Pickle.WriteData | base/pickle.cc:302-304 | refuses a negative length and then writes nothing |
| Pickles.PickleIterator.constructor | base/pickle.cc:21-25 | begins at the first byte of the payload |
| Pickles.PickleIterator.Advance | base/pickle.cc:39-46 | moves by the aligned size, never past the end |
| Pickles.PickleIterator.GetReadPointerAndAdvance | base/pickle.cc:59-68 | a pointer exactly when the bytes are there, the end otherwise |
| Pickles.PickleIterator.GetReadPointerForElements | base/pickle.cc:70-79 | nothing, and no move, when the size in bytes is no int |
| Pickles.PickleIterator.ReadBuiltinType | base/pickle.cc:27-37 | reads a number, or fails at the end |
| Pickles.PickleIterator.ReadBool | base/pickle.cc:81-83 | reads one byte and moves by four |
| Pickles.PickleIterator.ReadSizeT | base/pickle.cc:109-117 | reads 64 bits and fails when they do not fit |
| Pickles.PickleIterator.ReadString | base/pickle.cc:143-153 | reads a length and that many bytes |
| Pickles.PickleIterator.ReadString16 | base/pickle.cc:167-177 | reads a length and twice as many bytes |
| Pickles.PickleIterator.ReadData | base/pickle.cc:192-200 | reads a length and that many bytes |
| Pickles.PickleIterator.ReadBytes | base/pickle.cc:202-208 | reads as many bytes as it is told |
| PickleBytes.LittleEndian | base/pickle.cc:27-37 | byte k of a number is its digit of weight 256^k |
| PickleBytes.InterpretIs | base/pickle.cc:27-37 | what is read from n bytes differs from them as a number by a multiple of 256^n and is in the range of the type |
| PickleBytes.RepresentIs | base/pickle.h:295-298 | what is written of a number differs from it by a multiple of 256^n |
| PickleBytes.WrittenAsRead | base/pickle.cc:27-37 | a number read from any bytes is written as those bytes |
| PickleBytes.PaddingIsZero | base/pickle.cc:372-375 | what is appended is padded with zeros to the next multiple of four |
| PickleBytes.EncodedBools | base/pickle.h:165-167 | the bytes of true and false |
| PickleBytes.EncodedNumber | base/pickle.h:168-170 | the bytes of -2 as an int |
| PickleBytes.EncodedShort | base/pickle.h:179-181 | the bytes of a 16-bit number, padded |
| PickleBytes.EncodedSizeT | base/pickle.h:191-195 | the bytes of a size |
| PickleBytes.EncodedString | base/pickle.cc:287-292 | the bytes of a string, length first |
| PickleBytes.EncodedString16 | base/pickle.cc:294-300 | the bytes of a 16-bit string, length in units first |
| PickleBytes.EncodedData | base/pickle.cc:302-309 | the bytes of data and of raw bytes |
| PathServices.PathData.Get | base/path_service.cc:182-232 | returns what resolution without the cache returns, and keeps every cache entry equal to it, although providers may look up other keys on the way; the current directory and overrides are returned as they are; and if MakeAbsoluteFilePath gives no path with a parent reference, no other path returned is empty or has one |
| PathServices.PathData.OverrideAndCreateIfNeeded | base/path_service.cc:242-280 | on success the key resolves to the absolute path and the cache is empty; on failure nothing changes |
| PathServices.PathData.RemoveOverride | base/path_service.cc:283-299 | removes the override and empties the cache, if there was one |
| PathServices.PathData.RegisterProvider | base/path_service.cc:302-331 | what is cached stays right when the new provider keeps off the cached keys and all keys their lookups lead to |
| PathServices.PathData.DisableCache | base/path_service.cc:334-341 | empties the cache for good |
| PathServices.PathData.LockedGetFromCache | base/path_service.cc:150-160 | a cached answer is the resolved one |
| PathServices.PathData.LockedGetFromOverrides | base/path_service.cc:164-174 | an override is the answer and is cached |
| PathServices.RegisteredElsewhere | base/path_service.cc:329-330 | a provider in front changes no resolution of keys it keeps off, lookups included |
| PathServices.RegisteredTooLate | base/path_service.cc:302-331 | keeping off the cached keys alone is not enough: a cached key may have come from a lookup that failed |
| PathServices.RunsAreSoundIff | base/path_service.cc:182-299 | with several threads, each with its stack of lookups made inside providers, every continuation without a change of overrides, from every moment of a run, returns only what resolution gives and keeps the cache right, if and only if each change of the overrides in the run left every lookup under way, nested ones too, with the outcome resolution then gives |
| PathServices.StaysSoundIff | base/path_service.cc:192-231 | from a moment when cache and returns are right they stay right in every continuation without a change of overrides exactly if each lookup under way, nested ones too, will return what resolution gives for its key when its remaining providers are asked |
| PathServices.Completes | base/path_service.cc:192-231 | if nothing wrong will be seen, going on with a thread alone ends its innermost lookup, which returns what resolution gives to the one below |
| PathServices.ContinueKeeps | base/path_service.cc:192-231 | each step of a lookup, asking a provider, entering and leaving nested ones and writing the cache, keeps cache, returns and lookups right |
| PathServices.ChangeIsCarefulIff | base/path_service.cc:242-299 | an override or its removal leads to nothing wrong exactly if it spares each lookup under way: where the key is the one changed or all providers have answered, the key resolves as before; where the key was overridden meanwhile, its remaining providers give the same as before; and elsewhere they give what asking all again would, as when none has been asked |
| PathServices.CarefulRunsKeep | base/path_service.cc:192-231 | while every change of the overrides leaves lookups right, cache, returns and lookups stay right |
| PathServices.CarefulRunsReturnResolution | base/path_service.cc:192-231 | so every lookup of such a run, nested ones too, returns what resolution gives at that moment |
| PathServices.QuietIsCareful | base/path_service.cc:192-231 | a run that changes overrides only while no lookup is under way is one |
| PathServices.OwnOverride | base/path_service.cc:182-190 | the override of a key plays no part in resolving the keys its providers look up |
| PathServices.ShadowedIff | base/path_service.cc:193-229 | with one lookup under way, at whatever point, an override of its key leads to nothing wrong if and only if its path is the one resolved before |
| PathServices.NestedOverrideLost | base/base_paths.cc:17-20 | a lookup of one key is under way when the key it looks up is overridden: the old path goes into the cache, and the next lookup of the overridden key returns it, whether or not the outer key resolves as before |
| PathResolutions.FirstFinderWins | base/path_service.cc:205-221 | the path of the first provider that finds the key is returned as it is, or made absolute if it refers to a parent, or is a failure if it is empty or cannot be made absolute |
| PathResolutions.LeftPathCounts | base/path_service.cc:205-221 | a path left by a provider that did not find the key is returned if no other provider touches it |
| PathResolutions.NobodyFinds | base/path_service.cc:212-213 | if no provider touches the path, the lookup fails |
| PathResolutions.NeverAParentReference | base/path_service.cc:215-231 | in every run of several threads, overrides without parent references changing at any moment, no lookup but of the current directory returns or caches a path with a parent reference, and a disabled cache stays empty |
| PathResolutions.FoundIsCached | base/path_service.cc:223-229 | a path found while the cache is on is kept, and the next Get of the key on an idle thread returns it |
| PathResolutions.OverrideIsReturned | base/path_service.cc:242-299 | an override is returned by the next Get of its key, and removing it undoes it |
| PathResolutions.DisabledForGood | base/path_service.cc:334-341 | once disabled the cache is empty in every run that follows |
| LazyInstances.OncePerEpoch | base/lazy_instance.h:141-203 | in every run, between two resets of the word the constructor runs at most once, every return comes after it finished and with its instance, and the destructor is registered at most once, never for a leaky one; an epoch that was ended had exactly one of each |
| LazyInstances.RegisteredWhenQuiet | base/lazy_instance.cc:40-52 | when no thread is inside, the destructor is registered exactly when a construction took place and is not leaked |
| LazyInstances.SpinnerIsReleased | base/lazy_instance.cc:33-35 | a spinning thread leaves its loop at its next step unless the word is held for creation; then the one or two steps left to the thread that holds it, and none less, release it |
| LazyInstances.RunKeeps | base/lazy_instance.cc:17-52 | the word is 0, held by one creator, or the instance, in every run |
| LazyInstances.CreatedAlone | base/lazy_instance.h:141-170 | a call alone without an instance creates one, registers its destructor unless it is leaked, and returns it |
| LazyInstances.FoundAlone | base/lazy_instance.h:141-170 | a call alone with an instance returns it and creates nothing |
| LazyInstances.ResetThenCreated | base/lazy_instance.h:190-203 | after any run with an instance, OnExit with no thread inside resets the word, and the next call creates another instance |
| LazyInstances.LeakedStays | base/lazy_instance.h:91-104 | a leaked instance is never reset |
| IdMaps.SizeCounts | base/id_map.h:141-144 | size() is the number of entries that survive |
| IdMaps.EveryoneVisited | base/id_map.h:202-221 | whatever was removed on the way, the entries left at the positions an iterator at its end has stood at are the surviving entries, each once and in table order, and it stood at no key twice |
| IdMaps.SurvivingIs | base/id_map.h:141-144 | the surviving entries are those whose id is not noted, each as often as in the table |
| IdMaps.IdMap.AddWithID | base/id_map.h:75-80 | adds the entry and takes the pointer in |
| IdMaps.IdMap.Add | base/id_map.h:61-69 | adds under the next id |
| IdMaps.IdMap.Remove | base/id_map.h:82-96 | the entry no longer survives; nothing goes while something iterates; an unknown id changes nothing |
| IdMaps.IdMap.Erase | base/id_map.h:90-92 | outside iteration the entry goes and an owned pointer is deleted |
| IdMaps.IdMap.Replace | base/id_map.h:103-115 | swaps the pointer and hands the old one back, undeleted |
| IdMaps.IdMap.Clear | base/id_map.h:117-126 | no entry survives, except that outside iteration a map of external pointers is left as it is |
| IdMaps.IdMap.Size | base/id_map.h:141-144 | the number of surviving entries |
| IdMaps.IdMap.IsEmpty | base/id_map.h:128-131 | whether none survives |
| IdMaps.IdMap.Lookup | base/id_map.h:133-139 | finds entries, those noted for removal included |
| IdMaps.IdMap.Compact | base/id_map.h:250-257 | the table becomes its surviving entries, and each owned pointer taken out is deleted once |
| IdMaps.IdMap.Destroy | base/id_map.h:48-54 | afterwards every owned pointer taken in was handed back or deleted, each once |
| IdMaps.Iterator.constructor | base/id_map.h:157-161 | stands at the first surviving entry |
| IdMaps.Iterator.Copy | base/id_map.h:163-167 | stands where the other does, or at the next surviving entry when that one was removed |
| IdMaps.Iterator.Destroy | base/id_map.h:176-185 | the last iterator compacts |
| IdMaps.Iterator.Advance | base/id_map.h:202-221 | goes to the next surviving entry |
| Environments.LookupAltered | base/environment.cc:144-180 | with no equals sign in the names changed, a changed key has its new value, or none when that is empty, and any other key its old one |
| Environments.AlteredTwice | base/environment.cc:184-232 | altering twice looks the same as altering once with the merged changes |
| Environments.LookupAlteredIff | base/environment.cc:144-171 | in the altered lines, with equals signs allowed in names, every lookup gives what it should if and only if no such name sets a variable that should be absent |
| Environments.LookupReadIff | base/environment.cc:184-232 | in what a reader of the array finds, where each string ends at its first NUL, every lookup gives what it should if and only if no name with an equals sign sets, as far as it is read, a variable that should be absent, and no variable that can be looked up is set to a value with NUL |
| Environments.ArrayReadsIff | base/environment.cc:204-213 | the strings a reader finds are the altered lines if and only if no name or value that is set contains NUL |
| Environments.LookupCut | base/environment.cc:105-117 | looking up in what is read finds what is read of what is found |
| Environments.CompoundNameSets | base/environment.cc:206-209 | setting A=B to C sets A to B=C |
| Environments.NulCutsValue | base/environment.cc:206-210 | setting X to a value with NUL sets it to what is before the NUL |
| Environments.AlteredParsesIff | base/environment.cc:174-179 | the altered block parses as the altered lines if and only if no name or value that is set contains NUL |
| Environments.ParseEnvLine | base/environment.cc:105-117 | the key up to the equals sign, and the length with the NUL |
| Environments.AlterEnvironmentBlock | base/environment.cc:144-180 | the unchanged lines and then the set ones, each with its NUL, ended by one NUL or by two when there is none |
| Environments.AlterEnvironmentArray | base/environment.cc:184-232 | every pointer is to a NUL-terminated line inside the allotted words, in order, the array ends in a null pointer, and a reader finds each line up to its first NUL |
| Environments.JoinedParses | base/environment.cc:144-180 | a printed block parses as its lines |
| RandUtil.Uniform | base/rand_util.cc:47-62 | each result has exactly floor((2^64 - 1) / range) accepted values behind it |
| RandUtil.MostAreAccepted | base/rand_util.cc:53-59 | more than half of the values below the greatest are accepted |
| RandUtil.RandGenerator | base/rand_util.cc:47-62 | returns the remainder of the first accepted value |
| RandUtil.RandInt | base/rand_util.cc:18-26 | returns an integer of the interval, drawn from the first accepted value |
| RandUtil.EachHitOnce | base/rand_util.cc:21-22 | every integer from min to max is hit by exactly one draw and no other is, for all bounds |
| RandUtil.WrapsIff | base/rand_util.cc:22-22 | the sum stays within an int for every draw if and only if the interval is no wider than one |

## Left out

- CommandLinePlaceholders.FilledReadsBack: requires, for an empty text only, that no placeholder follows a backslash; `NothingFilledIn` has the input for which the result is wrong, but with an empty text the exact condition is not shown.
- CommandLineToArgvW itself, which is not part of this repository: its documented 2n and 2n+1 rule is modelled; its rules for the program name and for `""` inside quotes are not.
- Switches.PrefixLength: a slash always counts as a switch prefix on Windows; set_slash_is_not_a_switch, which takes it out of the table, is not modelled.
- Printing on POSIX, where nothing is quoted; conversions between UTF-16, UTF-8 and ASCII, characters standing for themselves.
- `CommandLine` members that only combine the modelled ones: wrappers, copying switches, appending another line, the process-wide instance.
- TrimWhitespace and StringToLowerASCII are functions on strings, with the white space of base/strings/string_util_constants.cc.
- Big-endian byteReverse in MD5, hexadecimal printing of digests, and where the sine table comes from.
- Memory ordering: every access of a word is one sequentially consistent step; `int` and pointers of the platform are unbounded numbers where they cannot wrap.
- Message loops: a posted task is a pending step of its thread that may be dropped; running calls and pending tasks hold references to the ObserverListThreadSafe, so its destructor comes after them.
- Observers that are null pointers, and the `check_empty` assertion of ObserverList.
- What callbacks compute: a callback is any sequence of operations on the container, made between two calls of GetNext; the removal callback and destructors of owned objects are taken not to touch it.
- IdMaps.IdMap.AddWithID: requires that nothing iterates, because insertion may rehash the table under the iterators and the header speaks only of removal during iteration; what an iterator then visits is not modelled.
- IdMaps.IdMap.Add: requires the same.
- Assignment of an IDMap iterator, which names members that do not exist.
- Next ids of IDMap wrap around at 2^31; here they are unbounded.
- The order in which IDMap::Compact removes ids is left open.
- Pickle assignment, StringPiece reads (they read as ReadString does), the 32-bit wrap-around of a payload beyond the size the DCHECKs allow, uninitialised bytes of a fresh buffer (zeros here), and a pickle changed while an iterator reads it.
- Floating-point values in a pickle are the numbers their bits are.
- Pickles.Pickle.WriteString: requires that the length fits an int and the payload 32 bits, as the DCHECKs in WriteBytesCommon do.
- PathService providers look up at most one other key for each key, as those in the repository do, and lookups do not go round in circles; the current directory and the file system are functions; with several threads the providers are those registered before, and each answer of a provider, each locked part and each entry into a nested lookup is one step.
- The debug-only collision check of RegisterProvider, and the load in the DCHECK of BarrierInfo::Run.
- AtExitManager: OnExit runs only when registered and with no thread inside, as its comment demands.
- LazyInstance::operator==, scoped wrappers, GUIDs, enumerations, sockets, files, native libraries: no algorithm of their own.
- RandUtil.RandGenerator: takes the values RandUint64 will give as a sequence and may run out of them; that the loop ends is not modelled.
- BitsToOpenEndedUnitInterval, where rounding is the point.
