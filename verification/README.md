# Verified models of Chromium's `base` library

This project models the algorithms with state in `base` and proves properties of them in
Dafny 4.11. `dafny verify dfyconfig.toml` checks all of it.

| file | models |
|---|---|
| `ObserverList.dfy` | `ObserverListBase` and its iterators, which may be nested and re-entered |
| `ObserverListThreadSafe.dfy` | `ObserverListThreadSafe`: threads, a lock, posted tasks with raw context pointers |
| `ObserverListDelivery.dfy`, `ObserverListInTransit.dfy` | whom its posted tasks call, and what becomes of notifications in transit |
| `Pickle.dfy`, `Bits.dfy` | `Pickle` and `PickleIterator`, with their encoding in the module `PickleFormat` |
| `MD5.dfy`, `SHA1.dfy`, `Hashing.dfy` | the two streaming hashes, against RFC 1321 and FIPS 180-3 |
| `CommandLine.dfy`, `CommandLineSwitches.dfy` | parsing an argv on POSIX |
| `CommandLineQuoting.dfy` | quoting a command line on Windows, against the documented parser |
| `LazyInstance.dfy` | creation on first use by compare-and-swap |
| `Vlog.dfy` | glob patterns and verbosity levels |
| `DeathData.dfy`, `Stopwatch.dfy`, `WorkerPool.dfy` | three state machines of `tracked_objects.cc` |
| `Environment.dfy` | building the environment of a child process |
| `RandUtil.dfy` | unbiased numbers from 64-bit draws |
| `Common.dfy` | definitions shared by the models |

Code that updates fields or buffers in place is a class or a method with loops, proved
against a specification function; what the library promises is then proved of that function.
Protocols between threads (`ObserverListThreadSafe`, `LazyInstance`, `WorkerPool`) are state
machines: a step is a section under a lock or one atomic access, the steps of any number of
threads interleave in any order, and the main results hold for every run.

Hosts are little-endian with a 64-bit `size_t`. Null pointers are `None`. What `DCHECK` demands
of a caller is a precondition.

Where the library's own words and its code differ, the model follows the code:

- `base/observer_list_threadsafe.h` says that a removal aborts the notifications in transit. The
  posted task still calls the observer, once, exactly if its pass finds it, or if under NOTIFY_ALL
  it is added again to the pass's own context while the pass goes on. The pass finds it exactly if
  it was added again before, and the entry of the thread names the context that the task carries:
  because the entry was never erased, or because the address was handed out again
  (`RemovedObserverIsCalledIff`, `RemovedObserverIsFoundIff`). An observer that is removed while
  the pass goes on was called before exactly if the pass had gone over its slot (`CallsSoFar`), and
  is called afterwards only by the second way (`CallsAfterRemoval`). Three inputs are given as runs
  from the start: the reused address (`ReusedAddressReceives`), an entry that another observer
  keeps (`KeptContextReceives`), and an addition by the other observer's method during the pass
  (`AddedDuringPassReceives`). A caller that does not add the observer again is safe
  (`NotAddedAgainIsNotCalled`).
- `base/vlog.cc` says that at least one star follows the characters consumed. There is none when
  the string is used up first; the result is right all the same.
- `Pickle::WriteString` and `WriteString16` cast the length to `int`, so what was written is read
  back exactly if its length fits; a longer string comes back cut off, or not at all
  (`WrittenIsRecoveredIff`).
- `Pickle(data(), size())` takes its size as an `int`, so a block is found again exactly if its
  size is at most `INT_MAX` (`ReopenedIffSizeFitsInt`).
- A quoted argument comes back as it was exactly if quotes were needed, or it is neither empty
  nor contains a tab, which is not among the quotable characters (`QuotedIsOneArgument`).
- Parsing `argv()` again changes nothing exactly if every switch that was found without a value
  has a name, and one that does not end in white space (`ParsingAgainChangesNothingIff`).
- The clock of `TrackedTime` is null for one millisecond in 2^32, and a stopwatch that starts or
  stops then records nothing. On a clock that goes forward, for tasks of less than 2^31 ms, no run
  duration is negative exactly if nothing is recorded inside a task that starts or ends at a null
  instant (`NonNegativeIffHollow`). A task of 2^31 ms or more goes wrong by itself, because
  differences are read as signed (`LongTaskGoesNegative`, `NonNegativeIffCovered`).
- The environment is changed as asked exactly if no change that sets a value has an `=` in its
  key or a NUL anywhere: the array on POSIX (`ChangesAreMadeIff`) and the block on Windows
  (`BlockChangesAreMadeIff`).

## Model

| member | source | states |
|---|---|---|
| ObserverList.ObserverListBase.AddObserver | base/observer_list.h:160-168 | an observer is appended unless it is there already |
| ObserverList.ObserverListBase.RemoveObserver | base/observer_list.h:170-182 | the first slot with the observer is nulled while iterators are alive, and erased otherwise |
| ObserverList.ObserverListBase.HasObserver | base/observer_list.h:184-192 | true exactly if some slot holds the observer |
| ObserverList.ObserverListBase.Clear | base/observer_list.h:194-204 | all slots are nulled while iterators are alive; otherwise the list is emptied |
| ObserverList.ObserverListBase.Compact | base/observer_list.h:206-211 | the null slots go, the others keep their order |
| ObserverList.Iterator.constructor | base/observer_list.h:132-140 | starts at slot 0, bounded by the present size under NOTIFY_EXISTING_ONLY, and raises the depth |
| ObserverList.Iterator.Close | base/observer_list.h:142-146 | lowers the depth of a living list and compacts it when the last iterator goes |
| ObserverList.Iterator.GetNext | base/observer_list.h:148-158 | the next slot within bounds that is not null; null for a destroyed list |
| ObserverList.CompactedKeepsDuplicateFree | base/observer_list.h:206-211 | compaction leaves no null and no duplicate |
| ObserverList.RemovedKeepsDuplicateFree | base/observer_list.h:170-182 | after a removal the observer is gone, every other one stays, and none is duplicated |
| ObserverList.StepKeepsInv | base/observer_list.h:132-211 | every operation, at any nesting of iterators, keeps the invariant: null slots only while an iterator is alive, no duplicates, the depth counts the iterators |
| ObserverList.EveryRunKeepsInv | base/observer_list.h:132-211 | the invariant holds after every run of operations |
| ObserverList.PassDeliversWhatItReaches | base/observer_list.h:148-158 | a pass delivers, in order and once per slot, exactly the slots that are not null when reached, and slots never move meanwhile |
| ObserverList.ReachedSlotIsStable | base/observer_list.h:148-182 | what a pass reads in a slot is what the slot held at its start, or null |
| ObserverList.SteadyObserverIsDeliveredOnce | base/observer_list.h:148-158 | an observer that keeps its slot is delivered once if the pass goes over it, and else not |
| ObserverList.RemovedObserverIsNotDelivered | base/observer_list.h:170-182 | after its removal an observer is delivered only if it is added again |
| ObserverList.ExistingOnlyStaysInside | base/observer_list.h:73-81 | under NOTIFY_EXISTING_ONLY a pass delivers only from slots present at its start |
| ObserverList.PassEndsWhenAllVisited | base/observer_list.h:148-158 | a pass ends exactly when every slot that it may visit was visited |
| ObserverListThreadSafe.StepKeepsInv | base/observer_list_threadsafe.h:114-255 | each step of any thread keeps the invariant that ties contexts, map entries, tasks and calls in progress together |
| ObserverListThreadSafe.EveryRunIsSafe | base/observer_list_threadsafe.h:114-255 | in no interleaving is a freed context used or freed again, and every map entry is live |
| ObserverListThreadSafe.NoContextLeaks | base/observer_list_threadsafe.h:209-211 | when the list is destroyed, no context is left |
| ObserverListThreadSafe.RemovalIsComplete | base/observer_list_threadsafe.h:136-163 | when a removal has done its work, no context of the thread holds the observer |
| ObserverListThreadSafe.HeldIffRegistered | base/observer_list_threadsafe.h:114-163 | a thread's contexts hold exactly the observers that it added and has not removed since |
| ObserverListThreadSafe.OnlyRegisteredObserversAreCalled | base/observer_list_threadsafe.h:234-239 | an observer is called only on the thread that added it, and only while it is registered |
| ObserverListThreadSafe.NotifyReachesEveryThread | base/observer_list_threadsafe.h:176-192 | Notify posts to the context of every thread with a registered observer, once, on that thread |
| ObserverListThreadSafe.DanglingTaskIsDropped | base/observer_list_threadsafe.h:220-232 | a task for a freed context does nothing while its address is not reused |
| ObserverListDelivery.SteadyObserverIsCalledOnce | base/observer_list_threadsafe.h:234-239 | under any interleaving, a pass calls an observer that keeps its slot exactly once |
| ObserverListDelivery.CallsSoFar | base/observer_list_threadsafe.h:234-239 | at any point of a pass, such an observer has been called exactly if the pass has gone over its slot |
| ObserverListDelivery.AbsentObserverCalls | base/observer_list_threadsafe.h:234-239 | a pass calls an observer out of its reach once if that is added to its own context meanwhile under NOTIFY_ALL, and otherwise never |
| ObserverListDelivery.TaskCalls | base/observer_list_threadsafe.h:217-239 | a task calls an observer that is not removed meanwhile once if its pass finds it or it is added to the pass's context under NOTIFY_ALL, and otherwise never |
| ObserverListDelivery.CallsAfterRemoval | base/observer_list_threadsafe.h:136-163 | after a removal during the pass, the pass calls the observer again only if it is added to its context again under NOTIFY_ALL, and then once |
| ObserverListInTransit.PassFindsIff | base/observer_list_threadsafe.h:220-239 | a task's pass finds an observer exactly if it is registered then and the thread's entry names the task's context |
| ObserverListInTransit.NotifiedObserverIsCalledOnce | base/observer_list_threadsafe.h:176-239 | from the notification to the call: an observer registered at a Notify that stays registered is called exactly once by the task posted for it, whenever that runs |
| ObserverListInTransit.RegisteredIffAddedAgain | base/observer_list_threadsafe.h:114-163 | after a removal an observer is registered exactly if it was added again and not removed since |
| ObserverListInTransit.ListedByCause | base/observer_list_threadsafe.h:124-125 | the entry names the task's context exactly if it was never erased since, or the address was handed out again and kept since; never both |
| ObserverListInTransit.RemovedObserverIsFoundIff | base/observer_list_threadsafe.h:131-163 | in every run, the pass of a task posted before the removal begins over a context with the observer exactly if it was added again and one of these two causes holds |
| ObserverListInTransit.RemovedObserverIsCalledIff | base/observer_list_threadsafe.h:131-163 | in every run, that task calls the observer once if its pass finds it so, or if it is added to the pass's context meanwhile under NOTIFY_ALL, and otherwise never |
| ObserverListInTransit.NotAddedAgainIsNotCalled | base/observer_list_threadsafe.h:131-135 | in every run, an observer that is not added again after its removal is never called |
| ObserverListInTransit.ReusedAddressReceives | base/observer_list_threadsafe.h:131-163 | a run from the start in which the context is deleted, its address reused, and the old notification received |
| ObserverListInTransit.KeptContextReceives | base/observer_list_threadsafe.h:131-163 | a run from the start in which a second observer keeps the only context, no address is handed out twice, and the old notification is received |
| ObserverListInTransit.AddedDuringPassReceives | base/observer_list_threadsafe.h:131-163 | a run from the start in which the pass does not find the removed observer, which is added again in a callback and receives the old notification |
| Bits.Align | base/bits.h:46-50 | rounds up by less than the alignment; nothing is left of a sum that wraps around |
| Bits.AlignIsMaskedSum | base/bits.h:46-50 | for every power of two, the masked sum of the code is that multiple of the alignment |
| PickleFormat.Read | base/pickle.cc:29-209 | a read never moves back or past the end of the payload |
| PickleFormat.ValueIsRecovered | base/pickle.cc:83-209 | a read of the matching kind gives back one written value and stops right behind it |
| PickleFormat.WrittenIsRecoveredIff | base/pickle.cc:289-302 | for every string that the code accepts, reading gives back what was written exactly if the length fits in an int |
| PickleFormat.ReadsBackWhatWasWritten | base/pickle.cc:83-209 | reading the kinds that were written, in order, gives back the values and ends at the payload end |
| Pickle.CapacityFor | base/pickle.cc:404-411 | a growth at least doubles the capacity above the first unit and keeps it a multiple of 64 |
| Pickle.CopyingIsAmortised | base/pickle.cc:395-418 | over any sequence of writes, reallocation moves at most twice the final capacity |
| Pickle.Pickle.constructor | base/pickle.cc:213-233 | an empty payload behind an aligned header, with capacity 64 |
| Pickle.Pickle.Resize | base/pickle.cc:325-331 | to any capacity, larger or smaller, rounded up to the unit; what fits is kept and counts as moved |
| Pickle.Pickle.Reserve | base/pickle.cc:313-323 | there is room for the length, the contents are unchanged, and at most twice the capacity was ever moved |
| Pickle.Pickle.ClaimUninitializedBytes | base/pickle.cc:395-418 | the payload grows by the padded length, the padding is zero, all before it is kept |
| Pickle.Pickle.WriteBytesCommon | base/pickle.cc:420-426 | the payload is the old one, the data and zero padding |
| Pickle.Pickle.Write | base/pickle.cc:289-311 | each typed write appends exactly what its value is written as, with the length of a string as cast to int, and at most twice the capacity was ever moved |
| Pickle.ContentsArePickle | base/pickle.h:151-158 | data() and size() give a block that stores its own payload size |
| Pickle.PayloadOfOneMore | base/pickle.h:165-200 | write after write, the payload encodes the list of the values written |
| Pickle.PickleIterator.Advance | base/pickle.cc:41-48 | the position moves by the padded size, but never past the end |
| Pickle.PickleIterator.GetReadPointerAndAdvance | base/pickle.cc:61-70 | the bytes, if they are all there; otherwise the position goes to the end |
| Pickle.PickleIterator.GetReadPointerAndAdvanceElements | base/pickle.cc:72-81 | the same for elements; when the byte count overflows an int the position stays |
| Pickle.PickleIterator.ReadInt | base/pickle.cc:87-89 | the next word as a signed int |
| Pickle.PickleIterator.ReadString | base/pickle.cc:145-155 | a length and so many bytes |
| Pickle.PickleIterator.ReadString16 | base/pickle.cc:169-179 | a length and so many 16-bit units |
| Pickle.ReadOnlyFillsItsBlock | base/pickle.cc:235-252 | a block that is not rejected is exactly a header, not empty and aligned, and its payload |
| Pickle.ReadOnlyPickle.constructor | base/pickle.cc:235-252 | the block is used, or rejected with a null header |
| Pickle.AnyReadsStayInThePayload | base/pickle.cc:145-209 | whatever the block holds, any sequence of reads, failed ones included, stays in the payload |
| Pickle.AnyReadIsInsideTheBlock | base/pickle.cc:61-81 | the bytes that a read returns lie in the block, and the position never goes back |
| Pickle.ReopenedIffSizeFitsInt | base/pickle.cc:235-252 | a written block is found again exactly if its size fits in an int; otherwise it is rejected |
| Pickle.RoundTripThroughABlock | base/pickle.cc:235-252 | values written, copied out as a block, reopened and read are the same values |
| Pickle.CutIffConcatenation | base/pickle.cc:346-385 | repeated FindNext cuts a range into pickles exactly if it is their concatenation |
| MD5.CodeFunctionIsAuxiliary | base/md5.cc:52-58 | the optimised F1 and F2, and F3 and F4, are the functions of RFC 1321, section 3.4 |
| MD5.OperationIsStep | base/md5.cc:60-62 | a step of the code is an operation of RFC 1321 |
| MD5.Rounds | base/md5.cc:67-142 | the unrolled steps are the 64 table-driven operations |
| MD5.Transform | base/md5.cc:67-147 | the registers become the RFC's compression of a block |
| MD5.CountingCarries | base/md5.cc:178-182 | the two counter words stay 8 times the length modulo 2^64, across every carry |
| MD5.BufferedCount | base/md5.cc:184-184 | the low counter word gives the number of bytes buffered |
| MD5.ByteReverse | base/md5.cc:39-50 | on a little-endian host the bytes stay as they are |
| MD5.Context.constructor | base/md5.cc:157-165 | an empty message |
| MD5.Context.Update | base/md5.cc:171-215 | the message grows by the data; its whole blocks are in the registers, the rest is buffered |
| MD5.Context.PadInput | base/md5.cc:225-248 | the padding of RFC 1321, section 3.1, in one block or two |
| MD5.Context.Final | base/md5.cc:221-262 | the digest of RFC 1321 of everything updated; the context is cleared |
| MD5.Context.IntermediateFinal | base/md5.cc:264-270 | the digest so far, with the context unchanged |
| MD5.Sum | base/md5.cc:286-291 | the digest of the data |
| MD5.SumOfChunks | base/md5.cc:171-262 | for every cutting of a message into chunks, the digest of the whole message |
| SHA1.FIsLogicalFunction | base/sha1_portable.cc:67-77 | F is the function of FIPS 180-3, section 4.1.1 |
| SHA1.SwappedWordAt | base/sha1_portable.cc:95-97 | swapends reads the bytes of a word highest first |
| SHA1.MakeSchedule | base/sha1_portable.cc:158-172 | W becomes the schedule of the block, although M shares its storage |
| SHA1.CodeStep | base/sha1_portable.cc:181-189 | a step of the loop is a step of section 6.1.2 |
| SHA1.SecureHashAlgorithm.constructor | base/sha1_portable.cc:101-114 | an empty message |
| SHA1.SecureHashAlgorithm.Process | base/sha1_portable.cc:158-199 | the registers take in the full block |
| SHA1.SecureHashAlgorithm.Update | base/sha1_portable.cc:124-132 | the message grows by the data, byte by byte |
| SHA1.SecureHashAlgorithm.Pad | base/sha1_portable.cc:134-156 | the padding of FIPS 180-3, section 5.1.1, in one block or two |
| SHA1.SecureHashAlgorithm.Final | base/sha1_portable.cc:116-122 | what H then is in memory is the digest of FIPS 180-3 of everything updated |
| SHA1.SHA1HashBytes | base/sha1_portable.cc:208-215 | the digest of the data |
| CommandLineQuoting.QuoteForCommandLineToArgvW | base/command_line.cc:102-146 | the quoted form, with backslashes doubled before a double quote and at the end |
| CommandLineQuoting.EscapedIsReadBack | base/command_line.cc:116-143 | inside quotes the documented parser reads the escaped form back as the text |
| CommandLineQuoting.QuotedIsReadBack | base/command_line.cc:102-146 | wherever an argument starts or goes on, its quoted form adds exactly it |
| CommandLineQuoting.QuotedIsOneArgument | base/command_line.cc:102-146 | the quoted form is parsed to just the argument exactly if it needed quotes, or is neither empty nor has a tab |
| CommandLineQuoting.ValueFollowsItsName | base/command_line.cc:458-466 | after an unquoted name and an equals sign the value comes back exactly if its quoted form survives or it is empty |
| CommandLineQuoting.GetArgumentsString | base/command_line.cc:445-476 | the elements emitted in order with spaces between, and no switches after the terminator |
| CommandLineQuoting.LineIsTakenApart | base/command_line.cc:445-476 | for every argv, the parser gives it back exactly if every element is kept |
| CommandLineQuoting.TabTearsAnArgument | base/command_line.cc:107-115 | an argument with a tab that comes back as two |
| CommandLineQuoting.EmptyArgumentIsLost | base/command_line.cc:107-115 | an empty argument does not come back |
| CommandLineQuoting.EmptyValueLosesItsEquals | base/command_line.cc:458-466 | a switch that ends in its only equals sign comes back without it |
| CommandLineSwitches.SwitchIsItsParts | base/command_line.cc:56-70 | name and value combine to the switch again, unless it ends in its only equals sign |
| CommandLine.CommandLine.constructor | base/command_line.cc:169-173 | the parsed command line |
| CommandLine.CommandLine.InitFromArgv | base/command_line.cc:256-263 | argv is the program, the switches in order and the arguments in order, and the boundary and the switch map agree with it |
| CommandLine.CommandLine.SetProgram | base/command_line.cc:269-275 | element 0 is the trimmed program |
| CommandLine.CommandLine.AppendSwitchNative | base/command_line.cc:323-345 | the switch, with a prefix, is inserted before the arguments and mapped |
| CommandLine.CommandLine.AppendArgNative | base/command_line.cc:389-391 | the argument is appended |
| CommandLine.CommandLine.AppendSwitchesAndArguments | base/command_line.cc:73-99 | the switches found are inserted in order before the arguments, all else appended in order |
| CommandLine.CommandLine.AppendArguments | base/command_line.cc:393-398 | the same from another command line, with its program on request |
| CommandLine.CommandLine.GetArgs | base/command_line.cc:365-374 | the arguments without the first terminator |
| CommandLine.PartitionIsStable | base/command_line.cc:73-99 | element i comes directly after those of its kind before it; it is a switch if it looks like one and no terminator came first; there is nothing else in either part |
| CommandLine.LastValueWins | base/command_line.cc:334-338 | a switch is mapped to the last value given |
| CommandLine.OnlySwitchesAreMapped | base/command_line.cc:334-338 | nothing else is mapped |
| CommandLine.ParsingAgainChangesNothingIff | base/command_line.cc:73-99 | parsing argv() again is a fixpoint exactly if every switch without a value has a name that does not end in white space |
| CommandLine.EmptySwitchBecomesTheTerminator | base/command_line.cc:323-345 | a switch for which it is not |
| LazyInstance.CreatedIff | base/lazy_instance.h:150-152 | the created mask is set exactly in words other than 0 and the marker |
| LazyInstance.StepKeepsInv | base/lazy_instance.cc:16-46 | each step of any thread keeps the invariant of the protocol |
| LazyInstance.ConstructedOnce | base/lazy_instance.h:142-170 | the constructor runs once in each life, and all calls that return in a life return the instance built in it |
| LazyInstance.OneThreadBuilds | base/lazy_instance.cc:16-27 | at most one thread is between winning the swap and publishing, and then the word is the marker |
| LazyInstance.DestroyedOnce | base/lazy_instance.cc:39-51 | every instance is registered once for destruction at exit, and never without registration |
| LazyInstance.StepsGetNearer | base/lazy_instance.cc:29-37 | every step but an idle turn of the spin loop brings a call nearer to its return |
| LazyInstance.SomeoneCanAdvance | base/lazy_instance.cc:29-37 | while a call is in progress such a step is possible |
| LazyInstance.ReturnsWithinWait | base/lazy_instance.cc:29-37 | a call returns within as many fair stretches of a run as its wait counts, whatever other threads do |
| LazyInstance.EveryCallReturns | base/lazy_instance.cc:29-37 | under a fair scheduler nobody spins for ever: eleven fair stretches of any run are enough for any call |
| Vlog.GlobIsLanguage | base/vlog.h:62-73 | the character-by-character form of the language and the one by pieces agree |
| Vlog.StarsCoalesce | base/vlog.cc:159-162 | one more star in a run makes no difference |
| Vlog.MatchVlogPattern | base/vlog.cc:128-179 | true exactly if the string can be cut into pieces for which the characters of the pattern stand |
| Vlog.GetModule | base/vlog.cc:88-101 | the base name without its extension and -inl |
| Vlog.ModuleOfPath | base/vlog.cc:88-101 | directory and extension do not count |
| Vlog.VlogInfo.GetVlogLevel | base/vlog.cc:105-117 | the level of the first pattern that matches the path or the module, or else the maximum |
| Vlog.VlogInfo.SetMaxVlogLevel | base/vlog.cc:119-122 | the maximum is the level set |
| DeathData.DeathData.RecordDeath | base/tracked_objects.cc:136-173 | the totals are those of all deaths, the maxima and the sample those of this phase |
| DeathData.DeathData.OnProfilingPhaseCompleted | base/tracked_objects.cc:175-210 | the phase is snapshotted and a new one begins |
| DeathData.DeathData.SnapshotExecutedTasks | base/tracked_objects.cc:648-659 | the walk gives the reports that the phases call for, newest first |
| DeathData.DeltaIsReport | base/tracked_objects.cc:241-248 | the delta of two snapshots is the sums, maxima and sample of one phase alone |
| DeathData.NoDeathsNoReport | base/tracked_objects.cc:648-659 | one report for each phase with deaths, none for one without |
| DeathData.ReportOfPhase | base/tracked_objects.cc:648-659 | the report on a phase is at its place and counts the deaths of the phase |
| DeathData.MaximaAreReached | base/tracked_objects.cc:155-158 | the maxima bound the durations and are reached |
| Stopwatch.TaskStopwatch.Start | base/tracked_objects.cc:874-895 | the stopwatch becomes the current one of its thread |
| Stopwatch.TaskStopwatch.Stop | base/tracked_objects.cc:897-924 | the wallclock is taken, and excluded from the parent, which becomes current again |
| Stopwatch.ElapsedIsTrue | base/tracked_objects.cc:904-906 | across a wrap of the clock the elapsed time is the true one |
| Stopwatch.RunTask | base/tracked_objects.cc:874-940 | for every nesting, on whatever clock, each run duration is what was recorded for the task less what was recorded for its children |
| Stopwatch.DurationsSumToRecorded | base/tracked_objects.cc:897-940 | the run durations of every nesting sum to what was recorded for the outermost task |
| Stopwatch.NonNegativeIffCovered | base/tracked_objects.cc:905-940 | on a clock that goes forward no run duration is negative exactly if every task that meets a null instant or lasts 2^31 ms has no more recorded for its children than for itself |
| Stopwatch.NonNegativeIffHollow | base/tracked_objects.cc:905-940 | for tasks of less than 2^31 ms: exactly if nothing is recorded inside a task that starts or ends at a null instant |
| Stopwatch.LongTaskGoesNegative | base/tracked_objects.cc:905-940 | a task of 2^31 ms or more, and less than 2^32, has a negative run duration in it unless it meets a null instant |
| Stopwatch.NullInstantGoesNegative | base/tracked_objects.cc:905-940 | stopwatches that meet the null instant, at the start or at the end, with run duration -5 |
| WorkerPool.StepKeepsInv | base/tracked_objects.cc:380-436 | each step of any thread keeps the records shared out between threads and the retired list |
| WorkerPool.RecordsAreSharedOut | base/tracked_objects.cc:380-436 | after any run each record is with exactly one thread or on the list exactly once, and the list ends |
| WorkerPool.CreatedIsPeak | base/tracked_objects.cc:392-400 | as many records are created as there were workers at one time |
| Environment.ParseEnvLine | base/environment.cc:108-120 | the key up to the equals sign, and the length of the line with its NUL |
| Environment.AlterEnvironment | base/environment.cc:187-235 | pointers to the lines kept and added, in order, all inside one allocation |
| Environment.AlterEnvironmentBlock | base/environment.cc:147-183 | on Windows, the block of the lines kept and added, ended by a NUL more |
| Environment.LineIsStored | base/environment.cc:198-230 | each line is read back at its offset |
| Environment.LinesOfBlock | base/environment.cc:147-183 | a block is read back as the lines that it was made of |
| Environment.ChangesAreMadeIff | base/environment.cc:187-235 | on POSIX, looking up every variable gives the old environment with the changes made exactly if each change can be a line |
| Environment.BlockChangesAreMadeIff | base/environment.cc:147-183 | the same on Windows, for the variables read back from the block |
| RandUtil.RandGenerator | base/rand_util.cc:52-67 | the first accepted draw modulo the range |
| RandUtil.GeneratorIsUniform | base/rand_util.cc:52-67 | each residue has exactly UINT64_MAX / range accepted draws, and at least half of all draws are accepted |
| RandUtil.RandInt | base/rand_util.cc:19-30 | a value from min to max |
| RandUtil.RandIntIsUniform | base/rand_util.cc:19-30 | each value from min to max has the same number of accepted draws |
| RandUtil.UniformWithoutRejectionIff | base/rand_util.cc:54-57 | without the rejection all residues of the 2^64 draws are equally likely exactly if the range divides 2^64 |

## Left out

- Pickle.PickleIterator.ReadInt: the other fixed-size reads are modelled by PickleFormat.Read alone; float, double, long and size_t are bit patterns of the integer types there.
- DeathData.DeathData.RecordDeath: the overflow of the 32-bit sums, which is undefined in the code; the counters do stop at INT_MAX as there.
- Stopwatch.TaskStopwatch.Start: the DCHECK-only state and child fields.
- Stopwatch.RunTask: the overflow of the 32-bit sums, which is undefined in the code and needs tasks of 2^31 ms in all.
- Bits.Align: an alignment of 0, which is no power of two and still passes the DCHECK.
- ObserverListThreadSafe.EveryRunIsSafe: a thread that ends, and thread ids that are used again.
- LazyInstance.ConstructedOnce: weak memory ordering, a constructor that enters its own instance, and OnExit while a call is in progress.
- WorkerPool.RecordsAreSharedOut: records of an earlier incarnation, which only tests have.
- Environment.AlterEnvironmentBlock: blocks that do not end in an empty line.
- RandUtil.RandGenerator: a sequence of draws of which none is accepted, on which the loop does not end.
- The program name of a Windows command line, for which CommandLineToArgvW has rules of its own.
- Lower-casing of switch names on Windows, PrependWrapper, and the mirror map of string pieces.
- The constructor of VlogInfo, which parses its patterns from a switch.
- Log2Floor and Log2Ceiling, MD5DigestToBase16, BitsToOpenEndedUnitInterval.
- Copies of pickles, and writing to a copy of a read-only one.
- Births, and the balance reported as Still_Alive.
- Big-endian hosts, allocation failure, logging and other input and output.
- Bind, Callback, scoped_ptr and the other type-level templates.
