/** rwlock.c: readerLocked and writerLocked over the globals `readers`, `writers` and
    `active_writers`. The globals become the fields of one ReadWriteLock object; each
    atomic region under the mutex `m` is one method, with the reading or writing done
    by the caller between the entry and the exit. The writer wait loop coded at
    rwlock.c:77 does not exclude readers or other writers (RwCounters.CodedC and the
    lemmas beside it); this lock waits with the loop the file's header describes. */
module RwLockC {
  import opened RwCounters

  class ReadWriteLock {
    var readers: int
    var writers: int
    var active_writers: int

    ghost function View(): Counters
      reads this
    {
      Counters(readers, writers, active_writers)
    }

    ghost predicate Valid()
      reads this
    {
      Safe(View())
    }

    /** `readers = 0, writers = 0`, `active_writers = 0`. */
    constructor ()
      ensures Valid() && View() == Idle
    {
      readers, writers, active_writers := 0, 0, 0;
    }

    /** readerLocked, entry: `while (writers > 0)` is the guard; then `readers++`. */
    method ReaderEnter()
      requires Valid() && Enabled(Intended, View(), Op.ReaderEnter)
      modifies this
      ensures Valid() && View() == Step(old(View()), Op.ReaderEnter)
    {
      readers := readers + 1;
    }

    /** readerLocked, exit: `--readers`; the last reader out signals writersQ. */
    method ReaderExit() returns (wake: Wake)
      requires Valid() && Enabled(Intended, View(), Op.ReaderExit)
      modifies this
      ensures Valid() && View() == Step(old(View()), Op.ReaderExit)
      ensures wake == WakeOf(old(View()), Op.ReaderExit)
      ensures wake == (if readers == 0 then OneWriter else Nobody)
    {
      readers := readers - 1;
      wake := if readers == 0 then OneWriter else Nobody;
    }

    /** writerLocked, first step: `writers++`, which at once keeps new readers out. */
    method WriterRegister()
      modifies this
      requires Valid()
      ensures Valid() && View() == Step(old(View()), Op.WriterRegister)
      ensures !ReaderMayEnter(View())
    {
      writers := writers + 1;
    }

    /** writerLocked, past its wait loop: `active_writers++`, once no reader and no
        writer is inside. */
    method WriterAdmit()
      requires Valid() && Enabled(Intended, View(), Op.WriterAdmit)
      modifies this
      ensures Valid() && View() == Step(old(View()), Op.WriterAdmit)
      ensures active_writers == 1 && readers == 0
    {
      active_writers := active_writers + 1;
    }

    /** writerLocked, exit: `writers--`, `active_writers--`; signal writersQ if a writer
        is still registered, otherwise broadcast readersQ. */
    method WriterExit() returns (wake: Wake)
      requires Valid() && Enabled(Intended, View(), Op.WriterExit)
      modifies this
      ensures Valid() && View() == Step(old(View()), Op.WriterExit)
      ensures wake == WakeOf(old(View()), Op.WriterExit)
      ensures wake == (if writers > 0 then OneWriter else AllReaders)
    {
      writers := writers - 1;
      active_writers := active_writers - 1;
      wake := if writers > 0 then OneWriter else AllReaders;
    }
  }
}
