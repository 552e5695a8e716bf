/** barrier.c: barrierSync over the globals `count` and `generation` with NUM = 3
    participants per round. The globals become the fields of one Barrier object; the
    call is split at its wait loop into Arrive and Leave. */
module BarrierC {
  import BR = BarrierRound

  const NUM: int := 3

  class Barrier {
    var count: int
    var generation: int
    /** The myGeneration of every caller still inside the wait loop. */
    ghost var waiting: multiset<int>

    ghost function View(): BR.Barrier
      reads this
    {
      BR.Barrier(count, generation, waiting)
    }

    ghost predicate Valid()
      reads this
    {
      BR.Inv(View(), NUM)
    }

    /** `count = 0, generation = 0`. */
    constructor ()
      ensures Valid() && View() == BR.Initial
    {
      count, generation, waiting := 0, 0, multiset{};
    }

    /** barrierSync up to its wait loop: `++count`; below NUM the caller records
        generation and waits, otherwise it resets count, advances generation and wakes
        every waiter. */
    method Arrive() returns (ticket: BR.Ticket)
      requires Valid()
      modifies this
      ensures Valid()
      ensures View() == BR.Arrive(old(View()), NUM)
      ensures ticket == BR.TicketOf(old(View()), NUM)
      ensures 0 <= count < NUM && generation >= old(generation)
    {
      BR.ArriveKeeps(View(), NUM);
      count := count + 1;
      if count < NUM {
        ticket := BR.Waiting(generation);
        waiting := waiting + multiset{generation};
      } else {
        count := 0;
        generation := generation + 1;
        ticket := BR.Released;
      }
    }

    /** barrierSync after its wait loop: the loop `while (myGeneration == generation)`
        is the guard; leaving changes neither count nor generation. */
    method Leave(myGeneration: int)
      requires Valid() && BR.MayLeave(View(), myGeneration)
      modifies this
      ensures Valid()
      ensures View() == BR.Leave(old(View()), myGeneration)
      ensures count == old(count) && generation == old(generation)
    {
      BR.LeaveKeeps(View(), NUM, myGeneration);
      waiting := waiting - multiset{myGeneration};
    }
  }
}
