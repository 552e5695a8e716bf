/** semaphore.c: the self-made P/V on an int*, and the conveyor belt with its global
    cursors and the two counters `empty` and `occup`, used unprotected (produce,
    consume) and protected (produceProtected, consumeProtected). The file's globals
    become the fields of one ConveyorBelt object; each int that P/V point to is a Cell.
    Every atomic region under a mutex is one method; a wait loop is its requires. */
module SemaphoreC {
  import PC = PermitCounter
  import Ring

  const MAX: int := 20

  /** An `int` that P and V receive a pointer to. */
  class Cell {
    var value: int

    constructor (v: int)
      ensures value == v
    {
      value := v;
    }
  }

  /** P(sem): the wait loop `while (*sem <= 0)` is the guard; then `(*sem)--`. */
  method P(sem: Cell)
    requires PC.Enabled(sem.value, PC.Acquire)
    modifies sem
    ensures sem.value == PC.Apply(old(sem.value), PC.Acquire)
  {
    sem.value := sem.value - 1;
  }

  /** V(sem): `(*sem)++`, then wake every waiter (nothing else changes). */
  method V(sem: Cell)
    modifies sem
    ensures sem.value == PC.Apply(old(sem.value), PC.Release)
  {
    sem.value := sem.value + 1;
  }

  class ConveyorBelt {
    const conveyorbelt: array<int>
    var nextIn: int
    var nextOut: int
    const empty: Cell
    const occup: Cell
    // Threads inside produceProtected/consumeProtected between two atomic regions
    // (see Ring.Channel); they are program counters, not program variables.
    ghost var reserving: nat
    ghost var produced: nat
    ghost var claiming: nat
    ghost var consumed: nat

    ghost predicate Valid()
      reads this
    {
      conveyorbelt.Length == MAX && 0 <= nextIn < MAX && 0 <= nextOut < MAX && empty != occup
    }

    ghost function Belt(): Ring.Belt
      reads this, conveyorbelt
    {
      Ring.Belt(conveyorbelt[..], nextIn, nextOut)
    }

    ghost function View(): Ring.Channel
      reads this, conveyorbelt, empty, occup
    {
      Ring.Channel(Belt(), empty.value, occup.value, reserving, produced, claiming, consumed)
    }

    /** The protected discipline's invariant, true at every point where no lock is held. */
    ghost predicate Disciplined()
      reads this, conveyorbelt, empty, occup
    {
      Valid() && Ring.Inv(View(), MAX)
    }

    /** The initial globals: a zeroed belt, both cursors 0, empty = MAX, occup = 0. */
    constructor ()
      ensures Valid() && Disciplined() && Ring.Quiescent(View())
      ensures View() == Ring.Initial(MAX)
      ensures fresh(conveyorbelt) && fresh(empty) && fresh(occup)
    {
      conveyorbelt := new int[MAX](_ => 0);
      nextIn, nextOut := 0, 0;
      empty := new Cell(MAX);
      occup := new Cell(0);
      reserving, produced, claiming, consumed := 0, 0, 0, 0;
      new;
      assert conveyorbelt[..] == seq(MAX, _ => 0);
      Ring.InitialInv(MAX);
    }

    /** produce: put a 1 at nextin, step nextin modulo MAX. No guard: on a full belt it
        overwrites a product. */
    method Produce()
      requires Valid()
      modifies this`nextIn, conveyorbelt
      ensures Valid()
      ensures Belt() == Ring.Produce(old(Belt()))
    {
      conveyorbelt[nextIn] := 1;
      nextIn := (nextIn + 1) % MAX;
    }

    /** consume: return the slot at nextout, zero it, step nextout modulo MAX. No guard:
        on an empty belt it returns 0. */
    method Consume() returns (item: int)
      requires Valid()
      modifies this`nextOut, conveyorbelt
      ensures Valid()
      ensures Ring.Taken(Belt(), item) == Ring.Consume(old(Belt()))
    {
      item := conveyorbelt[nextOut];
      conveyorbelt[nextOut] := 0;
      nextOut := (nextOut + 1) % MAX;
    }

    /** produceProtected, first region: P(&empty). */
    method ProduceEnter()
      requires Disciplined() && empty.value > 0
      modifies this, empty
      ensures Disciplined() && View() == Ring.ProduceEnter(old(View()))
    {
      P(empty);
      reserving := reserving + 1;
      Ring.ProduceEnterKeeps(old(View()), MAX);
    }

    /** produceProtected, second region: produce under the producers' mutex. */
    method ProduceSection()
      requires Disciplined() && reserving > 0
      modifies this, conveyorbelt
      ensures Disciplined() && View() == Ring.ProduceSection(old(View()))
    {
      Produce();
      reserving, produced := reserving - 1, produced + 1;
      Ring.ProduceSectionKeeps(old(View()), MAX);
    }

    /** produceProtected, third region: V(&occup). */
    method ProduceLeave()
      requires Disciplined() && produced > 0
      modifies this, occup
      ensures Disciplined() && View() == Ring.ProduceLeave(old(View()))
    {
      V(occup);
      produced := produced - 1;
      Ring.ProduceLeaveKeeps(old(View()), MAX);
    }

    /** produceProtected: the three regions in order; from a quiescent belt it moves one
        permit from empty to occup and leaves empty + occup == MAX. */
    method ProduceProtected()
      requires Disciplined() && empty.value > 0
      modifies this, conveyorbelt, empty, occup
      ensures Disciplined()
      ensures View() == Ring.ProduceLeave(Ring.ProduceSection(Ring.ProduceEnter(old(View()))))
      ensures old(Ring.Quiescent(View())) ==> Ring.Quiescent(View()) && empty.value + occup.value == MAX
    {
      ghost var quiet := Ring.Quiescent(View());
      ProduceEnter();
      ProduceSection();
      ProduceLeave();
      if quiet {
        Ring.QuiescentShape(View(), MAX);
      }
    }

    /** consumeProtected, first region: P(&occup). */
    method ConsumeEnter()
      requires Disciplined() && occup.value > 0
      modifies this, occup
      ensures Disciplined() && View() == Ring.ConsumeEnter(old(View()))
    {
      P(occup);
      claiming := claiming + 1;
      Ring.ConsumeEnterKeeps(old(View()), MAX);
    }

    /** consumeProtected, second region: consume under the consumers' mutex. It always
        takes a product. */
    method ConsumeSection() returns (item: int)
      requires Disciplined() && claiming > 0
      modifies this, conveyorbelt
      ensures Disciplined() && Ring.Step(View(), item) == Ring.ConsumeSection(old(View()))
      ensures item == 1
    {
      Ring.ConsumeSectionKeeps(View(), MAX);
      item := Consume();
      claiming, consumed := claiming - 1, consumed + 1;
    }

    /** consumeProtected, third region: V(&empty). */
    method ConsumeLeave()
      requires Disciplined() && consumed > 0
      modifies this, empty
      ensures Disciplined() && View() == Ring.ConsumeLeave(old(View()))
    {
      V(empty);
      consumed := consumed - 1;
      Ring.ConsumeLeaveKeeps(old(View()), MAX);
    }

    /** consumeProtected: the three regions in order; what it returns is a product (1),
        never the "consuming NULL" value 0. */
    method ConsumeProtected() returns (item: int)
      requires Disciplined() && occup.value > 0
      modifies this, conveyorbelt, empty, occup
      ensures Disciplined() && item == 1
      ensures var s := Ring.ConsumeSection(Ring.ConsumeEnter(old(View())));
              s.item == item && View() == Ring.ConsumeLeave(s.channel)
      ensures old(Ring.Quiescent(View())) ==> Ring.Quiescent(View()) && empty.value + occup.value == MAX
    {
      ghost var quiet := Ring.Quiescent(View());
      ConsumeEnter();
      item := ConsumeSection();
      ConsumeLeave();
      if quiet {
        Ring.QuiescentShape(View(), MAX);
      }
    }
  }
}
