/** Semaphore.cxx: class Semaphore (p/v over `counter`), class ProducerConsumer (the
    unprotected belt of MAX = 35 slots) and class ProducerConsumerProtected, which adds
    the semaphores nEmpty and nOccup around the same two sections. Dafny classes do not
    inherit, so the protected class holds its ProducerConsumer part as `base`; its
    sections are exactly the base class's produce/consume bodies. What consume prints
    is returned instead. Every atomic region under a mutex is one method; a wait loop
    is its requires. */
module SemaphoreCxx {
  import PC = PermitCounter
  import Ring

  class Semaphore {
    var counter: int

    /** Semaphore(int cnt = 0). */
    constructor (cnt: int := 0)
      ensures counter == cnt
    {
      counter := cnt;
    }

    /** p: the wait loop `while (counter <= 0)` is the guard; then `counter--`. */
    method P()
      requires PC.Enabled(counter, PC.Acquire)
      modifies this
      ensures counter == PC.Apply(old(counter), PC.Acquire)
    {
      counter := counter - 1;
    }

    /** v: `counter++`, then wake one waiter (nothing else changes). */
    method V()
      modifies this
      ensures counter == PC.Apply(old(counter), PC.Release)
    {
      counter := counter + 1;
    }
  }

  class ProducerConsumer {
    var nextIn: int
    var nextOut: int
    const MAX: int := 35
    const conveyorbelt: array<int>

    ghost predicate Valid()
      reads this
    {
      conveyorbelt.Length == MAX && 0 <= nextIn < MAX && 0 <= nextOut < MAX
    }

    ghost function Belt(): Ring.Belt
      reads this, conveyorbelt
    {
      Ring.Belt(conveyorbelt[..], nextIn, nextOut)
    }

    /** MAX zero slots, both cursors at 0. */
    constructor ()
      ensures Valid() && fresh(conveyorbelt)
      ensures Belt() == Ring.Initial(35).belt
      ensures Ring.Holds(Belt(), 0)
    {
      nextIn, nextOut := 0, 0;
      conveyorbelt := new int[35](_ => 0);
      new;
      assert conveyorbelt[..] == seq(MAX, _ => 0);
      Ring.EmptyBeltHolds(MAX);
    }

    /** produce: a 1 at nextIn, nextIn stepped modulo MAX. No guard. */
    method Produce()
      requires Valid()
      modifies this`nextIn, conveyorbelt
      ensures Valid()
      ensures Belt() == Ring.Produce(old(Belt()))
    {
      conveyorbelt[nextIn] := 1;
      nextIn := (nextIn + 1) % MAX;
    }

    /** consume: emit the slot at nextOut, zero it, step nextOut modulo MAX. No guard. */
    method Consume() returns (item: int)
      requires Valid()
      modifies this`nextOut, conveyorbelt
      ensures Valid()
      ensures Ring.Taken(Belt(), item) == Ring.Consume(old(Belt()))
    {
      item := conveyorbelt[nextOut];
      conveyorbelt[nextOut] := 0;
      nextOut := (nextOut + 1) % MAX;
    }
  }

  class ProducerConsumerProtected {
    const base: ProducerConsumer
    const nEmpty: Semaphore
    const nOccup: Semaphore
    // Threads between two atomic regions of produce/consume (see Ring.Channel).
    ghost var reserving: nat
    ghost var produced: nat
    ghost var claiming: nat
    ghost var consumed: nat

    ghost predicate Valid()
      reads this, base
    {
      base.Valid() && nEmpty != nOccup
    }

    ghost function View(): Ring.Channel
      reads this, base, base.conveyorbelt, nEmpty, nOccup
    {
      Ring.Channel(base.Belt(), nEmpty.counter, nOccup.counter, reserving, produced, claiming, consumed)
    }

    ghost predicate Disciplined()
      reads this, base, base.conveyorbelt, nEmpty, nOccup
    {
      Valid() && Ring.Inv(View(), base.MAX)
    }

    /** nEmpty(MAX), nOccup() after the base constructor. */
    constructor ()
      ensures Disciplined() && Ring.Quiescent(View())
      ensures base.nextIn == 0 && base.nextOut == 0 && nEmpty.counter == 35 && nOccup.counter == 0
      ensures forall i :: 0 <= i < 35 ==> base.conveyorbelt[i] == 0
      ensures fresh(base) && fresh(base.conveyorbelt) && fresh(nEmpty) && fresh(nOccup)
    {
      var pc := new ProducerConsumer();
      base := pc;
      nEmpty := new Semaphore(pc.MAX);
      nOccup := new Semaphore();
      reserving, produced, claiming, consumed := 0, 0, 0, 0;
      new;
      Ring.InitialInv(35);
      assert View() == Ring.Initial(35);
    }

    /** produce, first region: nEmpty.p(). */
    method ProduceEnter()
      requires Disciplined() && nEmpty.counter > 0
      modifies this, nEmpty
      ensures Disciplined() && View() == Ring.ProduceEnter(old(View()))
    {
      nEmpty.P();
      reserving := reserving + 1;
      Ring.ProduceEnterKeeps(old(View()), base.MAX);
    }

    /** produce, second region: the write under mtxIn. */
    method ProduceSection()
      requires Disciplined() && reserving > 0
      modifies this, base, base.conveyorbelt
      ensures Disciplined() && View() == Ring.ProduceSection(old(View()))
    {
      base.Produce();
      reserving, produced := reserving - 1, produced + 1;
      Ring.ProduceSectionKeeps(old(View()), base.MAX);
    }

    /** produce, third region: nOccup.v(). */
    method ProduceLeave()
      requires Disciplined() && produced > 0
      modifies this, nOccup
      ensures Disciplined() && View() == Ring.ProduceLeave(old(View()))
    {
      nOccup.V();
      produced := produced - 1;
      Ring.ProduceLeaveKeeps(old(View()), base.MAX);
    }

    /** produce: the three regions in order; from a quiescent belt it keeps
        nEmpty.counter + nOccup.counter == MAX. */
    method Produce()
      requires Disciplined() && nEmpty.counter > 0
      modifies this, base, base.conveyorbelt, nEmpty, nOccup
      ensures Disciplined()
      ensures View() == Ring.ProduceLeave(Ring.ProduceSection(Ring.ProduceEnter(old(View()))))
      ensures old(Ring.Quiescent(View())) ==> Ring.Quiescent(View()) && nEmpty.counter + nOccup.counter == base.MAX
    {
      ghost var quiet := Ring.Quiescent(View());
      ProduceEnter();
      ProduceSection();
      ProduceLeave();
      if quiet {
        Ring.QuiescentShape(View(), base.MAX);
      }
    }

    /** consume, first region: nOccup.p(). */
    method ConsumeEnter()
      requires Disciplined() && nOccup.counter > 0
      modifies this, nOccup
      ensures Disciplined() && View() == Ring.ConsumeEnter(old(View()))
    {
      nOccup.P();
      claiming := claiming + 1;
      Ring.ConsumeEnterKeeps(old(View()), base.MAX);
    }

    /** consume, second region: the take under mtxOut; it emits a product ("1"). */
    method ConsumeSection() returns (item: int)
      requires Disciplined() && claiming > 0
      modifies this, base, base.conveyorbelt
      ensures Disciplined() && Ring.Step(View(), item) == Ring.ConsumeSection(old(View()))
      ensures item == 1
    {
      Ring.ConsumeSectionKeeps(View(), base.MAX);
      item := base.Consume();
      claiming, consumed := claiming - 1, consumed + 1;
    }

    /** consume, third region: nEmpty.v(). */
    method ConsumeLeave()
      requires Disciplined() && consumed > 0
      modifies this, nEmpty
      ensures Disciplined() && View() == Ring.ConsumeLeave(old(View()))
    {
      nEmpty.V();
      consumed := consumed - 1;
      Ring.ConsumeLeaveKeeps(old(View()), base.MAX);
    }

    /** consume: the three regions in order; it emits "1" (Product), never "0" (Empty). */
    method Consume() returns (item: int)
      requires Disciplined() && nOccup.counter > 0
      modifies this, base, base.conveyorbelt, nEmpty, nOccup
      ensures Disciplined() && item == 1
      ensures var s := Ring.ConsumeSection(Ring.ConsumeEnter(old(View())));
              s.item == item && View() == Ring.ConsumeLeave(s.channel)
      ensures old(Ring.Quiescent(View())) ==> Ring.Quiescent(View()) && nEmpty.counter + nOccup.counter == base.MAX
    {
      ghost var quiet := Ring.Quiescent(View());
      ConsumeEnter();
      item := ConsumeSection();
      ConsumeLeave();
      if quiet {
        Ring.QuiescentShape(View(), base.MAX);
      }
    }
  }
}
