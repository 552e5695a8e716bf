/** The writer-preferring reader/writer lock as a state machine over its three counters:
      readers         readers inside (between reader entry and reader exit)
      writers         writers that have registered (waiting or writing)
      activeWriters   writers inside (between admission and writer exit)
    Each atomic region under the lock's mutex is one step; a wait loop is the guard of
    the step that follows it. Writer entry is two steps: registration (`writers++`,
    which closes the readers' gate at once) and admission past the writer wait loop.
    rwlock.c and ReaderWriter.cpp implement it with different writer wait loops;
    `WriterGuard` names the loop in force. */
module RwCounters {

  datatype Counters = Counters(readers: int, writers: int, activeWriters: int)

  const Idle: Counters := Counters(0, 0, 0)

  /** Which condition variable an exit step notifies. */
  datatype Wake = Nobody | OneWriter | AllReaders

  /** CodedC: `while (readers > 0 && active_writers > 0)` of rwlock.c.
      CodedCxx: `while (readers > 0 or writers > 0)` of ReaderWriter.cpp.
      Intended: wait while any reader or any writer is inside, as the guarded-command
      header of rwlock.c states it (`when (writers == 0 and readers == 0)`, where its
      `writers` counts the writers inside). */
  datatype WriterGuard = CodedC | CodedCxx | Intended

  predicate WriterMustWait(g: WriterGuard, s: Counters) {
    match g
    case CodedC => s.readers > 0 && s.activeWriters > 0
    case CodedCxx => s.readers > 0 || s.writers > 0
    case Intended => s.readers > 0 || s.activeWriters > 0
  }

  /** `while (writers > 0) wait`: any registered writer keeps new readers out. */
  predicate ReaderMayEnter(s: Counters) {
    s.writers == 0
  }

  datatype Op = ReaderEnter | ReaderExit | WriterRegister | WriterAdmit | WriterExit

  /** When a step may happen. The exits and the admission also require that a caller
      of the matching kind exists (a reader inside, a writer inside, a registered
      writer not yet inside): that is what matched enter/exit pairs mean. */
  predicate Enabled(g: WriterGuard, s: Counters, op: Op) {
    match op
    case ReaderEnter => ReaderMayEnter(s)
    case ReaderExit => s.readers > 0
    case WriterRegister => true
    case WriterAdmit => s.writers > s.activeWriters && !WriterMustWait(g, s)
    case WriterExit => s.activeWriters > 0
  }

  function Step(s: Counters, op: Op): Counters {
    match op
    case ReaderEnter => s.(readers := s.readers + 1)
    case ReaderExit => s.(readers := s.readers - 1)
    case WriterRegister => s.(writers := s.writers + 1)
    case WriterAdmit => s.(activeWriters := s.activeWriters + 1)
    case WriterExit => s.(writers := s.writers - 1, activeWriters := s.activeWriters - 1)
  }

  /** The notification a step issues: the last reader out signals one writer; a
      writer leaving signals the next writer if one is registered, otherwise wakes
      every reader. */
  function WakeOf(s: Counters, op: Op): Wake {
    match op
    case ReaderExit => if s.readers - 1 == 0 then OneWriter else Nobody
    case WriterExit => if s.writers - 1 > 0 then OneWriter else AllReaders
    case _ => Nobody
  }

  predicate Feasible(g: WriterGuard, s: Counters, ops: seq<Op>)
    decreases |ops|
  {
    ops == [] || (Enabled(g, s, ops[0]) && Feasible(g, Step(s, ops[0]), ops[1..]))
  }

  function Run(s: Counters, ops: seq<Op>): Counters
    decreases |ops|
  {
    if ops == [] then s else Run(Step(s, ops[0]), ops[1..])
  }

  /** No counter goes negative and no more writers are inside than have registered. */
  ghost predicate Counting(s: Counters) {
    s.readers >= 0 && 0 <= s.activeWriters <= s.writers
  }

  /** Mutual exclusion: at most one writer inside, and never beside a reader. */
  ghost predicate Exclusive(s: Counters) {
    s.activeWriters <= 1 && (s.activeWriters > 0 ==> s.readers == 0)
  }

  ghost predicate Safe(s: Counters) {
    Counting(s) && Exclusive(s)
  }

  /** With matched pairs, the counting invariant holds whichever wait loop is coded. */
  lemma {:induction false} CountingKept(g: WriterGuard, s: Counters, ops: seq<Op>)
    requires Counting(s) && Feasible(g, s, ops)
    ensures Counting(Run(s, ops))
    decreases |ops|
  {
    if ops != [] {
      CountingKept(g, Step(s, ops[0]), ops[1..]);
    }
  }

  /** With the intended writer wait loop, every reachable state is mutually exclusive. */
  lemma {:induction false} IntendedIsExclusive(s: Counters, ops: seq<Op>)
    requires Safe(s) && Feasible(Intended, s, ops)
    ensures Safe(Run(s, ops))
    decreases |ops|
  {
    if ops != [] {
      IntendedIsExclusive(Step(s, ops[0]), ops[1..]);
    }
  }

  /** Writers stay registered: `writers > 0` at every state the steps pass through. */
  predicate WriterPendingThroughout(s: Counters, ops: seq<Op>)
    decreases |ops|
  {
    s.writers > 0 && (ops == [] || WriterPendingThroughout(Step(s, ops[0]), ops[1..]))
  }

  /** Writer preference: while some writer is registered, no reader gets in, whichever
      wait loop is coded for writers. */
  lemma {:induction false} NoReaderWhileWriterPending(g: WriterGuard, s: Counters, ops: seq<Op>)
    requires Feasible(g, s, ops) && WriterPendingThroughout(s, ops)
    ensures Run(s, ops).readers <= s.readers
    ensures forall k :: 0 <= k < |ops| ==> ops[k] != ReaderEnter
    decreases |ops|
  {
    if ops != [] {
      NoReaderWhileWriterPending(g, Step(s, ops[0]), ops[1..]);
      forall k | 0 < k < |ops| ensures ops[k] != ReaderEnter {
        assert ops[k] == ops[1..][k - 1];
      }
    }
  }

  /** With the intended wait loop no notification is wasted: the last reader out finds
      a registered writer's guard open, and a leaving writer opens the guard it signals. */
  lemma WakeOpensGuard(s: Counters, op: Op)
    requires Safe(s) && Enabled(Intended, s, op)
    ensures WakeOf(s, op) == OneWriter ==> !WriterMustWait(Intended, Step(s, op))
    ensures WakeOf(s, op) == AllReaders ==> ReaderMayEnter(Step(s, op))
  {
  }

  /** rwlock.c as coded: a reader is inside and a writer arrives; the coded wait loop
      lets the writer in beside the reader. */
  lemma CodedCAdmitsWriterBesideReader()
    ensures Feasible(CodedC, Idle, [ReaderEnter, WriterRegister, WriterAdmit])
    ensures Run(Idle, [ReaderEnter, WriterRegister, WriterAdmit]) == Counters(1, 1, 1)
    ensures !Exclusive(Counters(1, 1, 1))
  {
  }

  /** rwlock.c as coded: two writers arriving one after the other are both let in. */
  lemma CodedCAdmitsTwoWriters()
    ensures Feasible(CodedC, Idle, [WriterRegister, WriterAdmit, WriterRegister, WriterAdmit])
    ensures Run(Idle, [WriterRegister, WriterAdmit, WriterRegister, WriterAdmit]) == Counters(0, 2, 2)
    ensures !Exclusive(Counters(0, 2, 2))
  {
  }

  /** ReaderWriter.cpp as coded: a writer tests `writers > 0` after counting itself in,
      so its wait loop never ends; no writer is ever admitted. */
  lemma {:induction false} CodedCxxNeverAdmits(s: Counters, ops: seq<Op>)
    requires Counting(s) && s.activeWriters == 0 && Feasible(CodedCxx, s, ops)
    ensures Run(s, ops).activeWriters == 0
    ensures forall k :: 0 <= k < |ops| ==> ops[k] != WriterAdmit
    decreases |ops|
  {
    if ops != [] {
      CodedCxxNeverAdmits(Step(s, ops[0]), ops[1..]);
      forall k | 0 < k < |ops| ensures ops[k] != WriterAdmit {
        assert ops[k] == ops[1..][k - 1];
      }
    }
  }

  /** ReaderWriter.cpp as coded: once one writer has registered, writers never
      returns to 0, so every later reader is shut out as well: the lock deadlocks. */
  lemma {:induction false} CodedCxxDeadlocks(s: Counters, ops: seq<Op>)
    requires Counting(s) && s.activeWriters == 0 && s.writers > 0 && Feasible(CodedCxx, s, ops)
    ensures WriterPendingThroughout(s, ops)
    ensures Run(s, ops).writers >= s.writers && Run(s, ops).readers <= s.readers
    decreases |ops|
  {
    if ops != [] {
      CodedCxxDeadlocks(Step(s, ops[0]), ops[1..]);
    }
  }
}
