/** ReaderWriter.cpp: class ReaderWriter, whose reader() and writer() are split at the
    points where they release the mutex, so that the reading or writing done between
    them is the caller's. The writer wait loop coded at ReaderWriter.cpp:43 never lets
    a writer through (RwCounters.CodedCxx and the lemmas beside it); this lock waits
    with the intended loop: while a reader or a writer is inside. */
module ReaderWriterCxx {
  import opened RwCounters

  class ReaderWriter {
    var readers: int
    var writers: int
    var active_writers: int

    ghost function View(): Counters
      reads this
    {
      Counters(readers, writers, active_writers)
    }

    ghost predicate Valid()
      reads this
    {
      Safe(View())
    }

    /** readers(0), writers(0), active_writers(0). */
    constructor ()
      ensures Valid() && View() == Idle
    {
      readers, writers, active_writers := 0, 0, 0;
    }

    /** reader(), entry: `while (writers > 0)` is the guard; then `readers++`. */
    method ReaderEnter()
      requires Valid() && Enabled(Intended, View(), Op.ReaderEnter)
      modifies this
      ensures Valid() && View() == Step(old(View()), Op.ReaderEnter)
    {
      readers := readers + 1;
    }

    /** reader(), exit: `--readers`; notify one writer when it reaches 0. */
    method ReaderExit() returns (wake: Wake)
      requires Valid() && Enabled(Intended, View(), Op.ReaderExit)
      modifies this
      ensures Valid() && View() == Step(old(View()), Op.ReaderExit)
      ensures wake == WakeOf(old(View()), Op.ReaderExit)
      ensures wake == (if readers == 0 then OneWriter else Nobody)
    {
      readers := readers - 1;
      wake := if readers == 0 then OneWriter else Nobody;
    }

    /** writer(), first step: `writers++` before the wait loop; new readers are out. */
    method WriterRegister()
      requires Valid()
      modifies this
      ensures Valid() && View() == Step(old(View()), Op.WriterRegister)
      ensures !ReaderMayEnter(View())
    {
      writers := writers + 1;
    }

    /** writer(), past its wait loop: `active_writers++`. */
    method WriterAdmit()
      requires Valid() && Enabled(Intended, View(), Op.WriterAdmit)
      modifies this
      ensures Valid() && View() == Step(old(View()), Op.WriterAdmit)
      ensures active_writers == 1 && readers == 0
    {
      active_writers := active_writers + 1;
    }

    /** writer(), exit: `active_writers--`, then `--writers`; notify one writer if it is
        not 0, otherwise notify all readers. */
    method WriterExit() returns (wake: Wake)
      requires Valid() && Enabled(Intended, View(), Op.WriterExit)
      modifies this
      ensures Valid() && View() == Step(old(View()), Op.WriterExit)
      ensures wake == WakeOf(old(View()), Op.WriterExit)
      ensures wake == (if writers != 0 then OneWriter else AllReaders)
    {
      active_writers := active_writers - 1;
      writers := writers - 1;
      wake := if writers != 0 then OneWriter else AllReaders;
    }
  }
}
