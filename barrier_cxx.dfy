/** Barrier.cxx: class BarrierSync, whose sync() is split at its wait loop into
    Arrive and Leave. `num` is whatever the constructor is given; the source does not
    reject n <= 0, with which every arrival completes a round on its own. */
module BarrierCxx {
  import BR = BarrierRound

  class BarrierSync {
    const num: int
    var count: int
    var generation: int
    /** The mygen of every caller still inside the wait loop. */
    ghost var waiting: multiset<int>

    ghost function View(): BR.Barrier
      reads this
    {
      BR.Barrier(count, generation, waiting)
    }

    ghost predicate Valid()
      reads this
    {
      BR.Inv(View(), num)
    }

    /** BarrierSync(int n): num(n), count(0), generation(0). */
    constructor (n: int)
      ensures Valid() && num == n && View() == BR.Initial
    {
      num := n;
      count, generation, waiting := 0, 0, multiset{};
    }

    /** sync up to its wait loop: `++count`; below num the caller records generation
        as mygen and waits, otherwise it resets count, advances generation and
        notifies all. */
    method Arrive() returns (ticket: BR.Ticket)
      requires Valid()
      modifies this
      ensures Valid()
      ensures View() == BR.Arrive(old(View()), num)
      ensures ticket == BR.TicketOf(old(View()), num)
      ensures generation >= old(generation)
    {
      BR.ArriveKeeps(View(), num);
      count := count + 1;
      if count < num {
        ticket := BR.Waiting(generation);
        waiting := waiting + multiset{generation};
      } else {
        count := 0;
        generation := generation + 1;
        ticket := BR.Released;
      }
    }

    /** sync after its wait loop: `while (mygen == generation)` is the guard; leaving
        changes neither count nor generation. */
    method Leave(mygen: int)
      requires Valid() && BR.MayLeave(View(), mygen)
      modifies this
      ensures Valid()
      ensures View() == BR.Leave(old(View()), mygen)
      ensures count == old(count) && generation == old(generation)
    {
      BR.LeaveKeeps(View(), num, mygen);
      waiting := waiting - multiset{mygen};
    }
  }
}
