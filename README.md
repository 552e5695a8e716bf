# Hand-built synchronization primitives, modelled in Dafny

The repository builds four synchronization primitives from a mutex and condition
variables, each twice: once in C with pthreads and once in C++11.

- A counting semaphore (P/V).
- A conveyor belt: a ring of slots that producers fill and consumers empty, used
  unprotected and behind a pair of semaphores.
- A cyclic barrier with a generation counter.
- A writer-preferring reader/writer lock.

The header comments of semaphore.c (P and V) and rwlock.c (reader and writer)
describe those primitives as guarded commands. A guarded command is a wait loop
`while (!guard) wait` followed by an update, the two done atomically under the mutex.
The barrier and the C++ classes follow the same wait-then-update pattern without
naming it. The model keeps that structure:

- every atomic region under a mutex is one Dafny method on a class holding the
  source's variables. The exceptions are semaphore.c's P and V, which take an
  `int*`: they become the module-level methods `SemaphoreC.P` and `SemaphoreC.V`
  on a `Cell`;
- the wait loop in front of a region is that method's `requires`;
- notifying a condition variable changes nothing else in the state. Where the source
  chooses whom to wake, the method returns the choice as a `Wake` value.

Four modules state the primitives as pure state machines and hold the proofs:

- `PermitCounter`: the semaphore counter and sequences of P/V.
- `Ring`: the belt, its cursors, and the protected discipline with the threads that
  are between two of its regions.
- `BarrierRound`: `count`, `generation` and the generations the waiters recorded.
- `RwCounters`: the lock's `readers`, `writers` and `active_writers`, with the three
  writer wait loops (the one in rwlock.c, the one in ReaderWriter.cpp, and the
  intended one).

Six modules follow the six source files: `SemaphoreC`, `SemaphoreCxx`, `BarrierC`,
`BarrierCxx`, `RwLockC` and `ReaderWriterCxx`. Each class method ensures that its new
state is the matching step function applied to its old state, and that the class
invariant still holds.

A C global becomes a field of one object (semaphore.c's belt, cursors and two
counters; barrier.c's `count`/`generation`; rwlock.c's three counters). An `int*`
passed to P/V becomes a `Cell`. The threads that are between two regions of a
protected produce/consume, or inside a barrier's wait loop, are stood for by ghost
counters and a ghost multiset. These are per-thread program counters and locals, not
program variables.

Where the code and its own description differ, the model follows the code, with one
exception: the writer wait loop. The lock classes `RwLockC.ReadWriteLock` and
`ReaderWriterCxx.ReaderWriter` wait with the loop that rwlock.c's header describes.
Both coded loops are modelled in `RwCounters`, as `WriterMustWait(CodedC, _)` and
`WriterMustWait(CodedCxx, _)`, with lemmas showing what goes wrong (see Findings).

- The channel stores only the constant 1 ("product"); it does not carry arbitrary
  items in FIFO order. Because every item is 1, the FIFO claim is shown only as
  "the occupied slots are the `occup` slots from `nextOut`".
- `BarrierSync(int n)` does not reject `n <= 0`; the model accepts it, and with
  `n <= 1` every arrival completes a round by itself.
- semaphore.c's V broadcasts, while Semaphore.cxx's v notifies one waiter.
- The writer wait loops of rwlock.c and ReaderWriter.cpp differ from each other and
  from the header of rwlock.c; the lock classes use the header's loop (see above).

## Model

| member | source | states |
|---|---|---|
| `PermitCounter.RunBalance` | semaphore.c:11-12 | after any sequence of P/V the counter is its initial value plus the V's minus the P's: no permit is created or lost |
| `PermitCounter.FeasibleStaysNonNegative` | semaphore.c:34-36 | from a non-negative counter, a sequence of P/V in which every P found its guard true leaves the counter non-negative |
| `PermitCounter.FeasibleIffNoOverdraw` | semaphore.c:31-47 | a P/V sequence can run (no P blocks forever) iff at every prefix the P's do not exceed the initial permits plus the V's; both directions |
| `PermitCounter.ZeroBlocksUntilRelease` | Semaphore.cxx:13-28 | a semaphore made with the default count 0 completes no p() in a run without any v() |
| `SemaphoreC.P` | semaphore.c:31-38 | callable only when `*sem > 0` (the wait loop); leaves `*sem` exactly one smaller and changes nothing else |
| `SemaphoreC.V` | semaphore.c:41-47 | increases `*sem` by exactly one and changes nothing else |
| `SemaphoreC.ConveyorBelt.constructor` | semaphore.c:25-26 | the globals start as MAX = 20 zero slots, `nextin = nextout = 0` (line 50), `empty = MAX`, `occup = 0` (line 73); the protected invariant holds |
| `SemaphoreC.ConveyorBelt.Produce` | semaphore.c:51-58 | slot `nextin` becomes 1, `nextin` becomes `(nextin+1) % MAX` and stays in `[0, MAX)`, no other slot and not `nextout` changes |
| `SemaphoreC.ConveyorBelt.Consume` | semaphore.c:61-70 | returns the old value of slot `nextout`, clears that slot, advances `nextout` modulo MAX; nothing else changes |
| `SemaphoreC.ConveyorBelt.ProduceEnter` | semaphore.c:78 | P(&empty) as a step of produceProtected: needs `empty > 0`, keeps the protected invariant |
| `SemaphoreC.ConveyorBelt.ProduceSection` | semaphore.c:80-82 | the produce under mutex `min`, by a producer holding an empty-slot permit: keeps the protected invariant (there is always room) |
| `SemaphoreC.ConveyorBelt.ProduceLeave` | semaphore.c:84 | V(&occup) as a step of produceProtected: keeps the protected invariant |
| `SemaphoreC.ConveyorBelt.ProduceProtected` | semaphore.c:75-87 | the three steps in order; started with nothing in flight, it ends with nothing in flight and `empty + occup == MAX` |
| `SemaphoreC.ConveyorBelt.ConsumeEnter` | semaphore.c:93 | P(&occup) as a step of consumeProtected: needs `occup > 0`, keeps the protected invariant |
| `SemaphoreC.ConveyorBelt.ConsumeSection` | semaphore.c:95-98 | the consume under mutex `mout`, by a consumer holding an occupied-slot permit: returns 1, keeps the protected invariant |
| `SemaphoreC.ConveyorBelt.ConsumeLeave` | semaphore.c:100 | V(&empty) as a step of consumeProtected: keeps the protected invariant |
| `SemaphoreC.ConveyorBelt.ConsumeProtected` | semaphore.c:91-103 | the three steps in order; returns 1, never the "consuming NULL" value 0 of line 169; started with nothing in flight it keeps `empty + occup == MAX` |
| `SemaphoreCxx.Semaphore.constructor` | Semaphore.cxx:13 | `counter` is `cnt`, 0 by default |
| `SemaphoreCxx.Semaphore.P` | Semaphore.cxx:22-28 | callable only when `counter > 0`; decrements it by exactly one |
| `SemaphoreCxx.Semaphore.V` | Semaphore.cxx:30-35 | increments `counter` by exactly one |
| `SemaphoreCxx.ProducerConsumer.constructor` | Semaphore.cxx:50-53 | MAX = 35 (line 46) zero slots, `nextIn == nextOut == 0`: an empty ring |
| `SemaphoreCxx.ProducerConsumer.Produce` | Semaphore.cxx:55-59 | writes 1 at `nextIn`, advances it modulo MAX within `[0, MAX)`, no other slot changes |
| `SemaphoreCxx.ProducerConsumer.Consume` | Semaphore.cxx:61-66 | emits the slot at `nextOut`, zeroes it, advances `nextOut` modulo MAX, no other slot changes |
| `SemaphoreCxx.ProducerConsumerProtected.constructor` | Semaphore.cxx:72 | `nEmpty.counter == MAX`, `nOccup.counter == 0` over an empty belt; the protected invariant holds |
| `SemaphoreCxx.ProducerConsumerProtected.ProduceEnter` | Semaphore.cxx:82 | `nEmpty.p()`: needs `nEmpty.counter > 0`, keeps the protected invariant |
| `SemaphoreCxx.ProducerConsumerProtected.ProduceSection` | Semaphore.cxx:83-88 | the write under `mtxIn` by a producer holding a permit: keeps the protected invariant |
| `SemaphoreCxx.ProducerConsumerProtected.ProduceLeave` | Semaphore.cxx:89 | `nOccup.v()`: keeps the protected invariant |
| `SemaphoreCxx.ProducerConsumerProtected.Produce` | Semaphore.cxx:80-90 | the three steps in order; from a quiescent object it keeps `nEmpty.counter + nOccup.counter == MAX` |
| `SemaphoreCxx.ProducerConsumerProtected.ConsumeEnter` | Semaphore.cxx:94 | `nOccup.p()`: needs `nOccup.counter > 0`, keeps the protected invariant |
| `SemaphoreCxx.ProducerConsumerProtected.ConsumeSection` | Semaphore.cxx:95-101 | the take under `mtxOut` by a consumer holding a permit: emits 1, keeps the protected invariant |
| `SemaphoreCxx.ProducerConsumerProtected.ConsumeLeave` | Semaphore.cxx:102 | `nEmpty.v()`: keeps the protected invariant |
| `SemaphoreCxx.ProducerConsumerProtected.Consume` | Semaphore.cxx:92-103 | the three steps in order; emits 1 ("Product", line 109), never 0 ("Empty"); from a quiescent object it keeps the counters' sum at MAX |
| `Ring.Advance` | semaphore.c:56 | `(i + 1) % max` stays in `[0, max)` and is `i + 1`, or 0 after the last slot |
| `Ring.Produce` | semaphore.c:55-56 | slot `nextIn` becomes 1, every other slot and `nextOut` are unchanged, `nextIn` steps modulo the length |
| `Ring.Consume` | semaphore.c:66-68 | the item is the old slot at `nextOut`, that slot becomes 0, every other slot and `nextIn` are unchanged, `nextOut` steps modulo the length |
| `Ring.EmptyBeltHolds` | Semaphore.cxx:50-53 | an all-zero belt with both cursors at 0 satisfies the ring invariant with 0 products |
| `Ring.ProduceKeeps` | semaphore.c:55-56 | on a belt that is not full, a produce adds exactly one product at the tail: the ring invariant holds with one more product |
| `Ring.ConsumeKeeps` | semaphore.c:66-68 | on a belt that is not empty, a consume takes 1 from the head and the ring invariant holds with one product fewer |
| `Ring.ConsumeOnEmptyTakesNothing` | semaphore.c:61-70 | without protection, a consume on an empty belt returns 0 (the "consuming NULL" value of line 169) |
| `Ring.ProduceOnFullOverwrites` | semaphore.c:51-58 | without protection, a produce on a full belt overwrites an unconsumed product and the number of products does not grow |
| `Ring.InitialInv` | semaphore.c:73 | `empty = MAX`, `occup = 0` over an empty belt satisfy the protected invariant with nothing in flight |
| `Ring.ProduceEnterKeeps` | semaphore.c:78 | P(&empty) keeps the protected invariant |
| `Ring.ProduceSectionKeeps` | semaphore.c:80-82 | a producer holding an empty-slot permit always finds room: its section keeps the invariant |
| `Ring.ProduceLeaveKeeps` | semaphore.c:84 | V(&occup) keeps the protected invariant |
| `Ring.ConsumeEnterKeeps` | semaphore.c:93 | P(&occup) keeps the protected invariant |
| `Ring.ConsumeSectionKeeps` | semaphore.c:95-98 | a consumer holding an occupied-slot permit takes 1, and its section keeps the invariant |
| `Ring.ConsumeLeaveKeeps` | semaphore.c:100 | V(&empty) keeps the protected invariant |
| `Ring.QuiescentShape` | semaphore.c:73-103 | with no protected operation in flight: `empty + occup == MAX`, `nextin == (nextout + occup) % MAX`, and a slot holds 1 iff it is among the `occup` slots starting at `nextout` |
| `Ring.ProduceProtectedComplete` | semaphore.c:75-87 | one whole produceProtected from a quiescent belt: `empty` one lower, `occup` one higher, the belt is the unprotected produce of the old belt |
| `Ring.ConsumeProtectedComplete` | semaphore.c:91-103 | one whole consumeProtected from a quiescent belt returns 1, `occup` one lower, `empty` one higher |
| `Ring.SectionsCommute` | semaphore.c:80-98 | a producer inside `min` and a consumer inside `mout` at the same time work on different slots and their sections commute |
| `Ring.Produced` | semaphore.c:73-87 | k whole protected produces in a row from the initial channel leave `empty = MAX - k`, `occup = k`, nothing in flight and the invariant intact |
| `Ring.CapacityThenBlocks` | semaphore.c:73-103 | from the empty channel the first MAX protected produces find P(&empty) open, the next one must wait, and one whole protected consume opens it again |
| `BarrierRound.InitialInv` | barrier.c:10-11 | `count = 0`, `generation = 0` with nobody waiting satisfies the barrier invariant |
| `BarrierRound.ArriveKeeps` | barrier.c:17-27 | an arrival keeps `0 <= count < NUM`; a waiting arrival only increments count and leaves generation; the final arrival resets count to 0 and adds exactly one to generation |
| `BarrierRound.LeaveKeeps` | barrier.c:19-21 | a waiter that leaves keeps the invariant and changes neither count nor generation |
| `BarrierRound.PartialRound` | barrier.c:17-21 | until the round is full, generation stays the same, so no waiter of the current round may leave; each arrival adds one waiter |
| `BarrierRound.RoundCompletes` | barrier.c:23-27 | the arrival that fills the round resets count to 0 and advances generation by one, and every waiter may then leave |
| `BarrierRound.RoundsAreArrivals` | Barrier.cxx:21-31 | r rounds are exactly r * num arrivals in a row |
| `BarrierRound.RoundKeepsInv` | Barrier.cxx:21-31 | a whole round from `count == 0` keeps the invariant |
| `BarrierRound.Rounds` | Barrier.cxx:21-31 | from `count == 0`, every round of num arrivals brings count back to 0 and raises generation by exactly one: the barrier is reusable |
| `BarrierRound.LoneArrivalCompletes` | Barrier.cxx:10-31 | with `num <= 1` (the constructor allows it) nobody waits and every arrival is a whole round |
| `BarrierRound.GenerationMonotone` | barrier.c:26 | generation never decreases |
| `BarrierC.Barrier.constructor` | barrier.c:10 | `count = 0`, `generation = 0` |
| `BarrierC.Barrier.Arrive` | barrier.c:14-28 | `++count`; below NUM = 3 the caller records generation and waits, otherwise count is reset and generation advances; keeps `0 <= count < NUM` |
| `BarrierC.Barrier.Leave` | barrier.c:19-21 | a waiter leaves only once `generation` differs from the value it recorded; count and generation are unchanged |
| `BarrierCxx.BarrierSync.constructor` | Barrier.cxx:10 | `num = n`, `count = 0`, `generation = 0` |
| `BarrierCxx.BarrierSync.Arrive` | Barrier.cxx:18-31 | `++count`; below num the caller records `mygen`, otherwise `count = 0` and `generation + 1`; generation never decreases |
| `BarrierCxx.BarrierSync.Leave` | Barrier.cxx:24-25 | a waiter leaves only when `generation != mygen`; count and generation are unchanged |
| `RwCounters.CountingKept` | rwlock.c:76-86 | with matched enter/exit pairs `readers`, `writers`, `active_writers` stay non-negative and `active_writers <= writers`, under every coded wait loop |
| `RwCounters.IntendedIsExclusive` | rwlock.c:11-18 | with the wait loop of the header every reachable state has at most one writer inside and none beside a reader |
| `RwCounters.NoReaderWhileWriterPending` | rwlock.c:57 | writer preference: while `writers > 0`, no reader entry happens and `readers` does not grow |
| `RwCounters.WakeOpensGuard` | rwlock.c:65-91 | the writer signalled by the last reader out, or by a leaving writer, finds its guard open; readers woken by a leaving writer find theirs open |
| `RwCounters.CodedCAdmitsWriterBesideReader` | rwlock.c:77 | the coded loop `readers > 0 && active_writers > 0` admits a writer while a reader is inside |
| `RwCounters.CodedCAdmitsTwoWriters` | rwlock.c:77 | the coded loop admits a second writer while the first is writing |
| `RwCounters.CodedCxxNeverAdmits` | ReaderWriter.cpp:42-44 | `readers > 0 or writers > 0`, tested after `writers++`, is never false for a waiting writer: no writer is ever admitted |
| `RwCounters.CodedCxxDeadlocks` | ReaderWriter.cpp:42-44 | once a writer has registered under the coded loop, `writers` never returns to 0, so no reader ever enters again |
| `RwLockC.ReadWriteLock.constructor` | rwlock.c:49 | `readers = writers = 0` and `active_writers = 0` (line 72) |
| `RwLockC.ReadWriteLock.ReaderEnter` | rwlock.c:56-60 | enabled only when `writers == 0`; increments `readers` by one |
| `RwLockC.ReadWriteLock.ReaderExit` | rwlock.c:64-67 | decrements `readers`; signals the writer queue only when `readers` becomes 0 |
| `RwLockC.ReadWriteLock.WriterRegister` | rwlock.c:75-76 | increments `writers`; afterwards no reader entry is enabled |
| `RwLockC.ReadWriteLock.WriterAdmit` | rwlock.c:77-80 | increments `active_writers`, only for a registered writer and only with no reader and no writer inside (the corrected wait loop, see Findings) |
| `RwLockC.ReadWriteLock.WriterExit` | rwlock.c:84-92 | decrements `writers` and `active_writers`; wakes one writer if `writers > 0`, otherwise all readers |
| `ReaderWriterCxx.ReaderWriter.constructor` | ReaderWriter.cpp:14 | zeroes `readers`, `writers` and `active_writers` |
| `ReaderWriterCxx.ReaderWriter.ReaderEnter` | ReaderWriter.cpp:26-30 | enabled only when `writers == 0`; increments `readers` |
| `ReaderWriterCxx.ReaderWriter.ReaderExit` | ReaderWriter.cpp:33-36 | decrements `readers`; notifies one writer exactly when it reaches 0 |
| `ReaderWriterCxx.ReaderWriter.WriterRegister` | ReaderWriter.cpp:41-42 | `writers++` before the wait loop, which blocks every new reader |
| `ReaderWriterCxx.ReaderWriter.WriterAdmit` | ReaderWriter.cpp:43-46 | increments `active_writers`, only with no reader and no writer inside (the corrected wait loop, see Findings) |
| `ReaderWriterCxx.ReaderWriter.WriterExit` | ReaderWriter.cpp:48-54 | decrements `active_writers` and `writers`; if `writers` is still non-zero it notifies one writer, otherwise all readers |

## Left out

- Thread creation and joining, and every demo driver: `helperFunc`, `readyGo`, `createWRThreads`, `threadCreate`, `printSync` and the `main` functions. They are harness code. The model's class methods are the steps those threads take. semaphore.c's `main` runs the protected demo on the belt the unprotected demo left behind; the model starts the protected discipline from the initial state. So "a protected consume returns 1, never 0" (`ConsumeSection`, `ConsumeProtected`) is proved only from the initial state. On a belt whose slots and cursors the unprotected run left out of step with `empty = MAX`, `occup = 0`, a protected consumer can read a 0 slot. Semaphore.cxx builds a fresh `ProducerConsumerProtected`, so this does not arise there.
- The POSIX variants `producePosix`/`consumePosix`, `readerPosix`/`writerPosix` and `printPosix`. They are thin calls into `sem_t`, `pthread_rwlock_t` and `pthread_barrier_t`, whose code is not part of this model.
- The mechanics of mutexes and condition variables: locking, waiting, waking, spurious wake-ups, wake order and fairness. Each region under a mutex is one atomic method and each wait loop is that method's guard, so only safety is modelled, not liveness. `SectionsCommute` justifies treating the producers' and the consumers' sections as atomic although they hold different mutexes.
- Interleavings inside the unprotected `produce`/`consume`. `SemaphoreC.ConveyorBelt.Produce`, `SemaphoreC.ConveyorBelt.Consume`, `SemaphoreCxx.ProducerConsumer.Produce` and `SemaphoreCxx.ProducerConsumer.Consume` are each one atomic step. In the source they hold no lock and run on several threads at once (semaphore.c:139-143, Semaphore.cxx:115-119). So two threads reading the same `nextin` and both writing one slot, or a lost update of `nextin = (nextin + 1) % MAX`, are not captured. `Ring.ProduceOnFullOverwrites` and `Ring.ConsumeOnEmptyTakesNothing` show only the failures that the order of whole operations causes.
- Which thread is which. Threads in flight are counted, not named. An exit step only requires that some caller of its kind exists: a reader inside, a writer inside, or a producer or consumer holding a permit.
- Timing and output: `usleep` in `produce`/`consume`, `print`, `gettimeofday`, `sleep`, `printf`/`std::cout`. The value that `consume` boxes with `malloc` or prints is returned instead.
- The data-race demo bodies `lire`/`ecrire`. The reading and writing happen between a lock's entry and exit methods, in the caller.
- eventtrigger.c is not part of this model: its only state is a one-bit event latch; the rest is sleep, timestamp and thread harness.
- Integer width. `int` counters and `generation` are unbounded here. The 32-bit overflow of `generation` after 2^31 rounds (undefined behaviour in C) is not modelled.
- RwLockC.ReadWriteLock.WriterAdmit: waits with the intended loop `readers > 0 || active_writers > 0`, not the coded `readers > 0 && active_writers > 0`. The coded loop is modelled in `RwCounters.WriterMustWait(CodedC, _)` with the counterexample lemmas; see Findings.
- ReaderWriterCxx.ReaderWriter.WriterAdmit: waits with the intended loop `readers > 0 || active_writers > 0`, not the coded `readers > 0 or writers > 0`, which never lets a writer through. The coded loop is `RwCounters.WriterMustWait(CodedCxx, _)`; see Findings.
- FIFO delivery of distinct items. The source only ever stores the constant 1, so there is no item order to observe.

## Findings

| source | as written | input that shows it | evidently intended | confidence | as-written member | corrected member |
|---|---|---|---|---|---|---|
| rwlock.c:77 | the writer waits only while `readers > 0 && active_writers > 0` | a reader is inside (`readers = 1`, `writers = active_writers = 0`) and a writer calls writerLocked: it is admitted beside the reader (state `1, 1, 1`); two writers in a row are both admitted (`0, 2, 2`) | wait while `readers > 0 \|\| active_writers > 0`, the header's `when (writers == 0 and readers == 0)` at rwlock.c:13 | high; not executed | `RwCounters.CodedCAdmitsWriterBesideReader` | `RwCounters.IntendedIsExclusive` |
| ReaderWriter.cpp:43 | after `writers++` the writer waits while `readers > 0 or writers > 0` | any writer on an idle lock: its own registration makes `writers = 1`, so the loop never exits; `writers` never drops, so every later reader blocks too | wait while `readers > 0 or active_writers > 0` | high; not executed | `RwCounters.CodedCxxNeverAdmits` | `RwCounters.IntendedIsExclusive`, `ReaderWriterCxx.ReaderWriter.WriterAdmit` |
