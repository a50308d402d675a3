# Verified models of linux-programing-demo

This project models the parts of the repository in which several threads or processes have to agree, or in
which a loop has to get every input right, and proves what they guarantee over all runs and all inputs.

| file | models |
|---|---|
| `Semaphore.dfy`, `SemaphoreLiveness.dfy`, `SemaphoreWitnesses.dfy` | the semaphore built from a mutex and a condition variable (`thread/semaphore`) |
| `SemaphoreFile.dfy` | who shares a semaphore when copies of the client create, open and unlink its file (`thread/semaphore/main.c`) |
| `AtomicSemaphore.dfy` | the reference semaphore with indivisible operations that it is proved to simulate |
| `SystemV.dfy` | the System V semaphore with its initialisation handshake and its undo on exit (`process/system-v-ipc/semaphore`) |
| `ProducerConsumer.dfy` | producer and consumer with a condition variable (`thread/cond`) |
| `ReadWriteLock.dfy`, `RecursiveMutex.dfy` | counters under a reader/writer lock and under a recursive mutex (`thread/rw-lock`, `thread/mutex`) |
| `LineReader.dfy`, `LineStream.dfy`, `Echo.dfy` | `readLine` and the line-echo exchange (`socket/internet_tcp`) |
| `Sleep.dfy` | interruptible sleeping and millisecond arithmetic (`time/sleep`) |
| `Records.dfy`, `Inotify.dfy` | the walk over variable-length inotify records (`io/inotify`) |
| `Folds.dfy`, `Bytes.dfy`, `Options.dfy` | sums over participants, bytes and C strings, optional values |

`dafny verify dfyconfig.toml` checks everything.

## How the concurrent programs are modelled

A program is a state, a set of actions (one action is one statement of one thread or process, or one thing the
library or the kernel may do by itself), `Enabled` and `Apply`. A run is any sequence of enabled actions, so
every theorem about `Exec(Init(...), run)` holds for every interleaving, and the number of participants is a
parameter. Blocking calls are actions that are not enabled. `counter++` is a load and a store. Beside the values
stands a class with the program's variables as fields (`SharedSemaphore`, `SemaphoreSet`, `Globals`,
`SharedCounter`, `PthreadMutex`), whose methods change them in place and are proved to do what `Apply` says; its `Run`
executes a whole schedule.

Taken as given: sequentially consistent memory; `pthread_cond_wait` releases the mutex and sleeps in one step,
`pthread_cond_signal` wakes at least one sleeper if there is one, and spurious wake-ups happen (chapter 3 of the
System Interfaces volume of POSIX.1-2017); a recursive mutex counts up to 2^32 - 1 nested locks; `SETVAL` clears the
undo adjustments and leaves `sem_otime` alone, `semop` sets `sem_otime` and blocks until it succeeds, and exit adds the adjustment; a relative sleep is rounded up to clock ticks
from the call, an absolute expiry to the next tick, and any time may pass between an interruption and the next call.

## Results that differ from what one might expect

- `semaphore_post` signals only when count is 0. For arbitrary clients wake-ups can be lost
  (`SemaphoreWitnesses.CarelessClientIsStranded`), and a lost one is never repaired by later posts
  (`SemaphoreLiveness.LostForever`). `SemaphoreLiveness.StrandedIffCareless` says exactly which runs strand a client; the
  wait-then-post client always meets the condition.
- The creator unlinks the file although others may still use it. A copy started then gets a semaphore of its own, and two
  copies can be inside together (`SemaphoreFile.ThreeCopiesOverlap`); `SemaphoreFile.SharedIffNoOvertaking` and
  `SemaphoreFile.OvertakingOverlaps` give the exact condition.
- `count` is an `unsigned`: it is 1 + posts - waits exactly as long as that number is at most 4294967295
  (`Semaphore.CountIsExact`), and 4294967295 posts after creation make it 0 (`SemaphoreWitnesses.CreatedSemaphoreWraps`).
- An opener of the System V semaphore is turned away, although a creator is at work, exactly if all its three polls come
  before the creator's +1 (`SystemV.WhoGetsAnId`).
- `_trySemWait` logs `ret > 0` but returns `ret > 1`, which no reachable value satisfies (`SystemV.TryAlwaysFails`).
- The consumer of `thread/cond` can sleep for ever after everything is consumed, for every number of items
  (`ProducerConsumer.CanHang`), exactly when it misses the exit flag and the last signal (`ProducerConsumer.HangsIffMissed`).
- An absolute sleep is late by one handler delay at most, a relative one by all of them and by rounding
  (`Sleep.AbsoluteBounds`, `Sleep.RelativeBounds`, `Sleep.DriftIsReal`).
- The comment on `readLine` promises a null-terminated string. At end of file with nothing stored there is no
  terminator, also when n is 1 and bytes were discarded (`LineReader.TerminatedIff`).
- `timeInterval` converts a possibly negative double to an unsigned integer: it is defined only if the nanosecond
  fields differ by more than -1.5 ms and right only from -0.5 ms on (`Sleep.TimeIntervalIff`). A sleep that crosses a full
  second normally violates this (`Sleep.TimeIntervalFails`).

## Model

| member | source | states |
|---|---|---|
| `Semaphore.InvAlways` | thread/semaphore/sem.c:52-68 | in every reachable state, for arbitrary clients, exactly the mutex owner is between lock and unlock, a signal is only sent at count 0 and a decrement only made above 0 |
| `Semaphore.StepRefines` | thread/semaphore/sem.c:52-68 | each statement is one atomic P or V of the reference semaphore (the increment and the decrement) or changes nothing there; a wait never completes at 0 |
| `Semaphore.RunRefines` | thread/semaphore/sem.c:52-68 | every interleaved run of any clients performs a run of the reference semaphore with the same value and the same pending operations |
| `AtomicSemaphore.Ledger` | thread/semaphore/sem.c:57-66 | value = start + posts - waits modulo 4294967296, never below 0, and exactly equal if and only if that number is at most 4294967295 |
| `Semaphore.CountIsExact` | thread/semaphore/sem.c:31-68 | from `semaphore_create` over every interleaving of any clients, count is 1 + posts - waits if and only if that is at most 4294967295, and otherwise that number modulo 4294967296 |
| `Semaphore.EffectsInProgramOrder` | thread/semaphore/sem.c:52-68 | every call takes effect exactly once, between its start and its return, in the order of the client's program |
| `AtomicSemaphore.OneTokenExcludes` | thread/semaphore/main.c:35-40 | hence value is 0 or 1, and 0 while a client is inside, and two clients are never inside |
| `Semaphore.MainIsDisciplined` | thread/semaphore/main.c:35-40 | the wait and post of `main` make any number of copies that share one semaphore wait-then-post clients |
| `SemaphoreFile.CopiesExclude` | thread/semaphore/main.c:16-47 | with creation, opening and unlinking of the file: copies of `main` are never inside together in a run in which no copy creates a semaphore while an earlier one has still to get in or out |
| `SemaphoreFile.SharedIffNoOvertaking` | thread/semaphore/main.c:16-47 | a step keeps all copies on one semaphore if and only if it is not such an overtaking creation |
| `SemaphoreFile.OvertakingOverlaps` | thread/semaphore/main.c:44-47 | after any overtaking creation two copies can come to be inside together |
| `SemaphoreFile.SharedIffNoOverlapAhead` | thread/semaphore/main.c:16-47 | in any reachable state two copies can come to be inside together without further overtaking if and only if copies in use, or about to open, have different semaphores |
| `SemaphoreFile.ThreeCopiesOverlap` | thread/semaphore/main.c:16-47 | a run of three copies from the start ends with two inside |
| `SemaphoreFile.FailsIffUnlinked` | thread/semaphore/main.c:20-25 | a copy that lost the race to create fails if and only if the file is gone again when it opens it; otherwise it waits on the semaphore the name leads to and never fails later |
| `SemaphoreFile.BlockedIff` | thread/semaphore/main.c:16-47 | in every reachable state a copy that has not ended can move unless it waits for a semaphore another copy is inside of |
| `Semaphore.MutualExclusion` | thread/semaphore/main.c:35-40 | the same for every interleaving of any number of wait-then-post clients |
| `Semaphore.SharedSemaphore.Run` | thread/semaphore/sem.c:52-68 | a whole schedule executed in place keeps the invariant and performs a run of the reference semaphore |
| `SemaphoreLiveness.CoveredIffCareful` | thread/semaphore/sem.c:54-57 | for arbitrary clients: while somebody sleeps every unit of count keeps a waiter on its way to it, if and only if unsignalled posts are made with nobody asleep or with more waiters on their way than units |
| `SemaphoreLiveness.CoveredMeansWoken` | thread/semaphore/sem.c:64-66 | if somebody sleeps with the mutex free and count above 0, another waiter has been woken |
| `SemaphoreLiveness.CoveredIffCarefulRun` | thread/semaphore/sem.c:52-68 | for arbitrary clients, once no new wait starts, nobody wakes spuriously and no wrap-around is possible: the invariant holds after a run if and only if each of its posts was careful |
| `SemaphoreLiveness.StrandedIffCareless` | thread/semaphore/sem.c:52-68 | such a run stops with a sleeper and count above 0 if and only if one of its posts was careless |
| `SemaphoreLiveness.StrandedIffUncovered` | thread/semaphore/sem.c:64-66 | in a stuck state the invariant holds if and only if nobody sleeps or count is 0 |
| `SemaphoreLiveness.CarefulClientsStop` | thread/semaphore/sem.c:52-68 | a run of careful clients, whatever their programs, never stops with a sleeper and count above 0 |
| `SemaphoreLiveness.LostForever` | thread/semaphore/sem.c:55-56 | once violated, no later post signals and a sleeper stays behind with count above 0, until a new wait or a spurious wake-up |
| `SemaphoreLiveness.NoLostWakeup` | thread/semaphore/sem.c:54-66 | wait-then-post clients: no reachable state has a lost wake-up, spurious and multiple wake-ups included |
| `SemaphoreLiveness.RunIsBounded` | thread/semaphore/sem.c:52-68 | any clients: a run has at most Measure(start) actions plus three per spurious wake-up |
| `SemaphoreLiveness.StuckIff` | thread/semaphore/sem.c:52-68 | a state is stuck if and only if the mutex is free and every client is finished or asleep |
| `SemaphoreLiveness.BlockedIff` | thread/semaphore/sem.c:52-68 | in every reachable state a client with work left can move unless it sleeps, or needs the mutex while another is between lock and unlock |
| `SemaphoreLiveness.WakesAreFree` | thread/semaphore/sem.c:56-65 | a signal may wake any non-empty set of sleepers, and any sleeper may wake without one |
| `SemaphoreLiveness.DisciplinedClientsFinish` | thread/semaphore/main.c:35-40 | wait-then-post clients: every run is bounded and can stop exactly where all are finished, count is 1 and the mutex is free |
| `SemaphoreWitnesses.CarelessClientIsStranded` | thread/semaphore/sem.c:55-57 | a concrete run of three clients ends with one asleep for ever although count is 1 |
| `SemaphoreWitnesses.PostsAreCounted` | thread/semaphore/sem.c:57 | up to 4294967294 posts after `semaphore_create` are all counted, one by one |
| `SemaphoreWitnesses.CreatedSemaphoreWraps` | thread/semaphore/sem.c:57 | 4294967295 posts after `semaphore_create` leave count at 0 |
| `SystemV.InvAlways` | process/system-v-ipc/semaphore/main.c:19-186 | every mix of steps and crashes keeps value + adjustments = 1 once initialised, adjustment 1 exactly while holding, one creator, ids only after initialisation |
| `SystemV.CrashSafeExclusion` | process/system-v-ipc/semaphore/main.c:118-161 | in every reachable state after initialisation: value + sum of adjustments is 1, value and adjustments are 0 or 1, at most one process holds the semaphore |
| `SystemV.ExitGivesBack` | process/system-v-ipc/semaphore/main.c:178-185 | a process that ends at any step gives back exactly what it holds, and the value stays in {0, 1} |
| `SystemV.KilledHolderIsReplaced` | process/system-v-ipc/semaphore/main.c:118-132 | in every reachable state the holder can be killed, and then any waiter can take the semaphore at once |
| `SystemV.KillAnywhere` | process/system-v-ipc/semaphore/main.c:163-186 | for every place but the creator's two before its +1 there is a run that kills a process there and lets another take the semaphore |
| `SystemV.KillCreatorEarly` | process/system-v-ipc/semaphore/main.c:25-47 | the creator can be killed before its +1 too, over any value the new set holds, and the semaphore is then abandoned |
| `SystemV.Handshake` | process/system-v-ipc/semaphore/main.c:25-93 | sem_otime is set if and only if the run has executed the creator's +1, which happens at most once; nobody has a valid id before; while a process is creating nobody uses the semaphore or has an adjustment; one process at most creates |
| `SystemV.WhoGetsAnId` | process/system-v-ipc/semaphore/main.c:19-94 | in every run, for every process not dead: it fails if and only if it made three polls before the creator's +1; it has a valid id if and only if the +1 was its own or it has polled after it, and the first such poll gives the id |
| `SystemV.MainWaitsPostsWaits` | process/system-v-ipc/semaphore/main.c:175-182 | a process that has returned, or is at its try, has changed the value by -1, +1, -1 in this order and by nothing else; likewise for every earlier place |
| `SystemV.AbandonedForever` | process/system-v-ipc/semaphore/main.c:66-90 | if the creator dies before its +1, no process ever gets a valid id |
| `SystemV.OpenerGivesUp` | process/system-v-ipc/semaphore/main.c:69-90 | while sem_otime stays zero, whatever others do in between, an opener moves from poll to poll and fails at its third |
| `SystemV.TryAlwaysFails` | process/system-v-ipc/semaphore/main.c:134-145 | `_trySemWait` returns true from value 2 on and logs true from 1 on; it returns false in every reachable initialised state and changes nothing, and where `main` calls it the log says false as well |
| `SystemV.EveryRunRecovers` | process/system-v-ipc/semaphore/main.c:163-186 | at most ten actions per process, a run stops exactly when all processes are gone, and then an initialised semaphore has value 1 |
| `SystemV.BlockedIff` | process/system-v-ipc/semaphore/main.c:19-185 | in every reachable state a process that has not returned can take a step unless it waits while some process holds the semaphore |
| `SystemV.SemaphoreSet.Run` | process/system-v-ipc/semaphore/main.c:163-186 | a whole schedule of steps and crashes executed in place keeps the one token |
| `ProducerConsumer.NothingLost` | thread/cond/main.c:36-45 | produced = consumed + counter always; if the consumer returned, the producer has finished, all items were produced and consumed, counter is 0 and nothing happens any more |
| `ProducerConsumer.NoStrandedItem` | thread/cond/main.c:22-34 | while signals succeed, a consumer asleep over an item has the producer between its increment and its signal; asleep with the producer finished means everything is consumed |
| `ProducerConsumer.RunIsBounded` | thread/cond/main.c:19-78 | a run has at most Measure(start) actions plus nine per spurious wake-up |
| `ProducerConsumer.StuckIff` | thread/cond/main.c:19-78 | a state is stuck if and only if the producer has returned and the consumer has returned or sleeps |
| `ProducerConsumer.HangsIffMissed` | thread/cond/main.c:22-34 | without failed signals and spurious wake-ups: every run is bounded and ends with everything consumed; the consumer hangs if and only if the run has an action that reads the exit flag as false after the last signal, or sends the last signal between that test and the sleep |
| `ProducerConsumer.DoomedIffCannotFinish` | thread/cond/main.c:22-45 | from any state of the invariant: the consumer is doomed, on its way to sleep or asleep after the last signal, if and only if no plain continuation lets it return |
| `ProducerConsumer.CanStillFinishIff` | thread/cond/main.c:22-45 | after any plain run the consumer can still return if and only if no action of it missed |
| `ProducerConsumer.CanFinish` | thread/cond/main.c:44-45 | for every number of items some run ends with both threads returned |
| `ProducerConsumer.CanHang` | thread/cond/main.c:24-27 | for every number of items some run ends with the consumer asleep for ever |
| `ProducerConsumer.SpuriousRescues` | thread/cond/main.c:22-34 | from every reachable sleep one wake-up without a signal lets the consumer return in some continuation |
| `ProducerConsumer.FailedSignalIsFinal` | thread/cond/main.c:66-71 | after a failed signal nothing more is produced, the exit flag stays unset and in no continuation whatsoever does the consumer return |
| `ProducerConsumer.BlockedIff` | thread/cond/main.c:19-78 | in every reachable state a thread with work left can move unless it sleeps, or needs the mutex while the other is inside |
| `ProducerConsumer.Globals.Run` | thread/cond/main.c:14-79 | a whole schedule executed in place conserves the items and never returns early |
| `ReadWriteLock.NoIncrementLost` | thread/rw-lock/main.c:38-43 | k writers: counter is the number of stores made, never decreases, and is k * max when all are done |
| `ReadWriteLock.ReaderReturnsLast` | thread/rw-lock/main.c:18-27 | a reader that returned through its unlocked test did so after every writer's last increment |
| `ReadWriteLock.NoDeadlock` | thread/rw-lock/main.c:18-45 | no thread can move if and only if all have returned |
| `ReadWriteLock.BlockedIff` | thread/rw-lock/main.c:18-45 | in every reachable state a reader is blocked exactly at its lock call by a writer inside, a writer exactly there by a writer or a reader inside, and a writer inside is alone |
| `ReadWriteLock.ReadersShare` | thread/rw-lock/main.c:20-21 | all readers, or any first k of them, can hold the lock together |
| `ReadWriteLock.ReaderRounds` | thread/rw-lock/main.c:18-27 | in every run a reader goes through whole rounds of lock, unlock, test, holds the lock exactly after the first action of a round, and returns only after a whole round |
| `ReadWriteLock.WritersAreBounded` | thread/rw-lock/main.c:38-45 | however the readers spin, the writers need a bounded number of actions in all |
| `ReadWriteLock.ReadersThenReturn` | thread/rw-lock/main.c:18-27 | once the writers are done each reader takes at most three more actions, and has returned exactly after the last of them |
| `ReadWriteLock.SharedCounter.Run` | thread/rw-lock/main.c:13-50 | a whole schedule executed in place loses no increment |
| `RecursiveMutex.DepthIsBalance` | thread/mutex/main.c:51-87 | for any sequence of calls by any threads: what a thread holds changes by its successful locks minus its successful unlocks, and owner and depth stay consistent |
| `RecursiveMutex.OwnerIsUnbalanced` | thread/mutex/main.c:66-82 | from a free mutex a thread owns it if and only if its successful calls are unbalanced, with that depth |
| `RecursiveMutex.NestingLimit` | thread/mutex/main.c:51-87 | k nested calls, up to 4294967295, give depth k; the next one answers 11; another thread's lock blocks, its trylock answers 16 and its unlock 1, and none of these changes the mutex |
| `RecursiveMutex.ProgramCounts` | thread/mutex/main.c:12-99 | the whole program with k workers: bounded, no deadlock, every call of `main` and of the workers answers 0, the nested prelude leaves the mutex free, and after the joins counter is k * max |
| `RecursiveMutex.StuckIff` | thread/mutex/main.c:89-97 | nothing can move if and only if `main` has joined every worker |
| `RecursiveMutex.BlockedIff` | thread/mutex/main.c:12-97 | in every reachable state a started worker with turns left can move unless it needs the mutex while another is inside, and `main` unless the worker it joins is unfinished |
| `RecursiveMutex.PthreadMutex.Nested` | thread/mutex/main.c:66-82 | lock, trylock, unlock, unlock take a free mutex back to free with code 0 |
| `LineReader.FirstLineIff` | socket/internet_tcp/common.c:19-25 | the first line of an event stream is the only one that holds the bytes of its events and ends with the first newline, error or end of file |
| `LineReader.TakesIff` | socket/internet_tcp/common.c:38-73 | a line takes exactly k events if and only if the k-th is the first newline (10), error or end of file, or none is left; its bytes are those of these events, and it fails if and only if the k-th is an error |
| `LineReader.IntrInvisible` | socket/internet_tcp/common.c:41-45 | EINTR changes neither the line nor what the next call finds |
| `LineReader.BufferShape` | socket/internet_tcp/common.c:60-76 | the buffer starts with min(n - 1, length) bytes of the line, then the terminator, and is untouched behind it and from index n on |
| `LineReader.TerminatedIff` | socket/internet_tcp/common.c:50-76 | the string is terminated if and only if the file did not end with nothing stored |
| `LineReader.ZeroIff` | socket/internet_tcp/common.c:50-58 | the result is 0 if and only if there was no error and no byte, or n is 1 |
| `LineReader.ResultIs` | socket/internet_tcp/common.c:41-76 | the return value is -1 if the first event that ends a line is an error, and else the smaller of n - 1 and the number of bytes read; what is kept is that many of these bytes |
| `LineReader.ReadLine` | socket/internet_tcp/common.c:26-77 | for every event stream: -1 if and only if n is 0, the buffer is null or the first event that ends a line is an error, else the smaller of n - 1 and the bytes read; exact consumption, where errno comes from, and the whole buffer afterwards (what fits, terminator, rest untouched) |
| `LineStream.LinesSplit` | socket/internet_tcp/common.c:19-25 | the lines of a stream concatenate to it, have newlines only at their ends, and all but the last have one |
| `LineStream.TextsAreLines` | socket/internet_tcp/common.c:19-77 | with n at least 2, the i-th call returns the i-th line cut to n - 1 bytes |
| `LineStream.ReassemblyIff` | socket/internet_tcp/common.c:60-68 | repeated calls give the stream back if and only if every line fits in n - 1 bytes |
| `LineStream.ReadAll` | socket/internet_tcp/common.c:26-77 | a reading loop returns exactly those texts |
| `Echo.ServeOne` | socket/internet_tcp/server.c:111-121 | for every event stream: a reply if and only if no read failed before the line ended and a byte came; it is the first 63 bytes read at most, up to the first NUL; the write complaint appears if and only if these 63 hold a NUL |
| `Echo.ServeAll` | socket/internet_tcp/server.c:84-125 | every connection is answered from its own bytes alone although all share one buffer |
| `Echo.ReplyIs` | socket/internet_tcp/server.c:111-120 | the same of the specification of a reply, a line that ends at end of file included |
| `Echo.EchoRoundTrip` | socket/internet_tcp/client.c:68-79 | every message without NUL is shown by the client as the first 63 bytes of its first line with newline (10), a message without newline as the first min(63, length + 1) bytes of message plus newline, whatever interrupts either side |
| `Echo.KeptIsStable` | socket/internet_tcp/client.c:74-79 | reading a kept line again keeps it as it is |
| `Sleep.Deadline` | time/sleep/main.c:128-136 | the deadline is normalised and is now + ms exactly |
| `Sleep.NormalisedUnique` | time/sleep/main.c:132-136 | a normalised timespec is determined by its time, so the deadline is unique |
| `Sleep.SleepAbsolute` | time/sleep/main.c:126-142 | there is exactly one k such that the first k signals come before the deadline's tick, each counted from where the ones before it and their handlers have led, and the next one does not; the sleep ends at that tick or, if later, when these k signals and handlers are over |
| `Sleep.LastCallIs` | time/sleep/main.c:138-139 | the same of the specification: the last restart is the start plus the time of the signals that interrupt and of their handlers |
| `Sleep.AbsoluteBounds` | time/sleep/main.c:138-139 | the delays of the interruptions do not add up: the last restart is late by at most the longest single delay |
| `Sleep.RelativeBounds` | time/sleep/main.c:143-154 | restarting with the remainder is never too short, all delays add up, and each call adds at most tick - 1 |
| `Sleep.DriftIsReal` | time/sleep/README.md:15-17 | k badly timed interruptions cost exactly k * (tick - 1) beside their delays |
| `Sleep.SleepRelative` | time/sleep/main.c:92-106 | there is exactly one k such that each of the first k signals cuts its call short and the next one does not; the sleep ends when these and their handlers are over and what is left then, rounded up, has passed, and never early |
| `Sleep.RelFinishIs` | time/sleep/main.c:143-154 | the same of the specification, where each call asks for the rounded remainder of the one before it |
| `Sleep.Timespec2MsIsNearest` | time/sleep/main.c:46-49 | the nearest millisecond, halves up |
| `Sleep.TimeIntervalIff` | time/sleep/main.c:51-54 | defined if and only if the nanosecond fields differ by more than -1.5 ms, right if and only if by at least -0.5 ms |
| `Sleep.TimeIntervalFails` | time/sleep/main.c:51-54 | a concrete interval with an undefined result |
| `Records.WalkOfJoined` | io/inotify/main.c:83-89 | a walk over records written back to back visits exactly those records, for any format that reads back |
| `Records.JoinedOfWalk` | io/inotify/main.c:83-89 | a walk that stays inside has read the whole buffer as records |
| `Records.Walk` | io/inotify/main.c:83-89 | the pointer loop computes that walk |
| `Inotify.FirstOfEncoding` | io/inotify/main.c:86-88 | wd, mask, cookie, len and name read back from an encoded record |
| `Inotify.FirstIs` | io/inotify/main.c:86-88 | wd, mask, cookie and len are the little-endian words at bytes 0, 4, 8 and 12, wd signed, the name is the len bytes from 16 on, and the step is 16 + len |
| `Inotify.WalkOfEncoding` | io/inotify/main.c:83-89 | every list of events encoded back to back is visited exactly, in order and to the end |
| `Inotify.EncodingOfWalk` | io/inotify/main.c:83-89 | encoding the visited events gives the buffer back |
| `Inotify.WalkStaysInsideIff` | io/inotify/main.c:83-89 | the walk stays inside the bytes read if and only if they are a sequence of whole records |
| `Inotify.ShownName` | io/inotify/main.c:34-35 | a padded name is printed as the name |
| `Inotify.Walk` | io/inotify/main.c:83-89 | the loop on the buffer: inside if and only if the bytes are whole records, and then their decoding |

## Left out

- Printing, argument parsing, name resolution, socket set-up, file mapping and the `sleep` calls between steps: no logic of their own.
- The race between `semaphore_create` and `semaphore_open` on a half-initialised file (thread/semaphore/sem.c:13-50): the model starts after initialisation.
- Failing `semop` calls after initialisation (process/system-v-ipc/semaphore/main.c:124-128): `semop` blocks or succeeds; failures during creation are covered as exits. The limit SEMVMX is never near.
- Weak memory and the C rules on data races for the unlocked reads in thread/cond/main.c and thread/rw-lock/main.c.
- The counters of thread/cond, thread/mutex and thread/rw-lock are unbounded integers; the programs stay far below the range of `long`. `producerExit` in thread/rw-lock/main.c is set and never read. The turn counts of thread/mutex and thread/rw-lock are non-negative, as their constants are.
- ReadWriteLock.ReadersThenReturn: fairness is not assumed, so a schedule in which only readers spin can go on for ever.
- Interleavings of the mutex workers, and the file of thread/semaphore/main.c, are steps on values only; `PthreadMutex` is the part of the mutex program with fields changed in place.
- Partial writes, lost and reset connections in socket/internet_tcp; `accept` failures.
- Sleep.SleepRelative: the other error returns of `nanosleep`, and `sleep`, `usleep`, `select`, `poll` and `epoll_wait` in time/sleep/main.c, which do not pass the remainder on. Rounding of `double` is not modelled, and seconds stay in the range of the types.
- Big-endian machines, and what lies in the inotify buffer beyond the bytes of the last read.
- `io/file_lock`, `io/epoll`, `io/select`, `io/poll`, `timer`, `thread/cancel`, `thread/tls-tsd`: their behaviour is in the kernel or the C library.
- `thread/spin-lock`, `process/posix-ipc`, the shared-memory demos, `io/bigfile`, `other`, `memory`, `socket/http_client`, the UDP and Unix-domain demos: the same counter argument again, or plain copy loops that would only add easy members.
