/** The conveyor belt: a fixed array of slots (1 = product, 0 = empty) with an input
    cursor and an output cursor, both advanced modulo the belt length, and the
    protected discipline that wraps produce in P(empty) .. V(occup) and consume in
    P(occup) .. V(empty). semaphore.c (MAX = 20) and Semaphore.cxx (MAX = 35) both
    implement it. */
module Ring {

  datatype Belt = Belt(slots: seq<int>, nextIn: int, nextOut: int) {
    ghost predicate WellFormed() {
      |slots| > 0 && 0 <= nextIn < |slots| && 0 <= nextOut < |slots|
    }
  }

  /** `(i + 1) % max`, the cursor step of both produce and consume. */
  function Advance(i: int, max: int): (r: int)
    requires 0 <= i < max
    ensures 0 <= r < max
    ensures r == if i + 1 == max then 0 else i + 1
  {
    (i + 1) % max
  }

  /** The position of slot `i` in the queue that starts at `from`: 0 for the head. */
  function Offset(from: int, i: int, max: int): int {
    if from <= i then i - from else i - from + max
  }

  /** Unprotected produce: put a product at nextIn, step nextIn. */
  function Produce(b: Belt): (r: Belt)
    requires b.WellFormed()
    ensures r.WellFormed() && |r.slots| == |b.slots|
    ensures r.slots[b.nextIn] == 1
    ensures forall i :: 0 <= i < |b.slots| && i != b.nextIn ==> r.slots[i] == b.slots[i]
    ensures r.nextIn == (b.nextIn + 1) % |b.slots| && r.nextOut == b.nextOut
  {
    Belt(b.slots[b.nextIn := 1], Advance(b.nextIn, |b.slots|), b.nextOut)
  }

  datatype Taken = Taken(belt: Belt, item: int)

  /** Unprotected consume: take whatever is at nextOut, clear that slot, step nextOut. */
  function Consume(b: Belt): (r: Taken)
    requires b.WellFormed()
    ensures r.belt.WellFormed() && |r.belt.slots| == |b.slots|
    ensures r.item == b.slots[b.nextOut] && r.belt.slots[b.nextOut] == 0
    ensures forall i :: 0 <= i < |b.slots| && i != b.nextOut ==> r.belt.slots[i] == b.slots[i]
    ensures r.belt.nextOut == (b.nextOut + 1) % |b.slots| && r.belt.nextIn == b.nextIn
  {
    Taken(Belt(b.slots[b.nextOut := 0], b.nextIn, Advance(b.nextOut, |b.slots|)), b.slots[b.nextOut])
  }

  /** The ring invariant: the `filled` slots starting at nextOut hold a product, every
      other slot is empty, and nextIn is `filled` positions past nextOut. */
  ghost predicate Holds(b: Belt, filled: int) {
    && b.WellFormed()
    && 0 <= filled <= |b.slots|
    && b.nextIn == (b.nextOut + filled) % |b.slots|
    && forall i :: 0 <= i < |b.slots| ==> b.slots[i] == (if Offset(b.nextOut, i, |b.slots|) < filled then 1 else 0)
  }

  lemma ModBelowTwice(x: int, m: int)
    requires 0 < m && 0 <= x < 2 * m
    ensures x % m == if x < m then x else x - m
  {
    if x < m {
      assert x == 0 * m + x;
    } else {
      assert x == 1 * m + (x - m);
    }
  }

  /** The empty belt that both programs start from. */
  lemma EmptyBeltHolds(max: int)
    requires max > 0
    ensures Holds(Belt(seq(max, _ => 0), 0, 0), 0)
  {
    ModBelowTwice(0, max);
  }

  /** A produce on a belt that is not full adds one product at the tail. */
  lemma ProduceKeeps(b: Belt, filled: int)
    requires Holds(b, filled) && filled < |b.slots|
    ensures Holds(Produce(b), filled + 1)
  {
    var m := |b.slots|;
    ModBelowTwice(b.nextOut + filled, m);
    ModBelowTwice(b.nextOut + filled + 1, m);
    var r := Produce(b);
    forall i | 0 <= i < m
      ensures r.slots[i] == (if Offset(r.nextOut, i, m) < filled + 1 then 1 else 0)
    {
      if i == b.nextIn {
        assert Offset(b.nextOut, i, m) == filled;
      } else {
        assert Offset(b.nextOut, i, m) != filled;
      }
    }
  }

  /** A consume on a belt that is not empty takes a product (1) from the head. */
  lemma ConsumeKeeps(b: Belt, filled: int)
    requires Holds(b, filled) && filled > 0
    ensures Consume(b).item == 1
    ensures Holds(Consume(b).belt, filled - 1)
  {
    var m, o := |b.slots|, b.nextOut;
    assert Offset(o, o, m) == 0;
    var r := Consume(b).belt;
    var o' := r.nextOut;
    assert o' == if o + 1 == m then 0 else o + 1;
    ModBelowTwice(o + filled, m);
    ModBelowTwice(o' + (filled - 1), m);
    assert b.nextIn == (o' + (filled - 1)) % m;
    forall i | 0 <= i < m
      ensures r.slots[i] == (if Offset(o', i, m) < filled - 1 then 1 else 0)
    {
      if i == o {
        assert Offset(o', i, m) == m - 1;
      } else {
        assert Offset(o', i, m) == Offset(o, i, m) - 1;
      }
    }
  }

  /** Without protection, a consume on an empty belt takes the "consuming NULL" value 0. */
  lemma ConsumeOnEmptyTakesNothing(b: Belt)
    requires Holds(b, 0)
    ensures Consume(b).item == 0
  {
    assert Offset(b.nextOut, b.nextOut, |b.slots|) == 0;
  }

  /** Without protection, a produce on a full belt overwrites a product nobody consumed. */
  lemma ProduceOnFullOverwrites(b: Belt)
    requires Holds(b, |b.slots|)
    ensures b.slots[b.nextIn] == 1 && Produce(b).slots == b.slots
  {
    assert Offset(b.nextOut, b.nextIn, |b.slots|) < |b.slots|;
    assert Produce(b).slots == b.slots;
  }

  /** The whole protected belt, seen at the points where its locks are free.
      `reserving` counts producers past P(empty) that have not yet written,
      `produced` producers that have written but not yet done V(occup),
      `claiming` consumers past P(occup) that have not yet taken, and
      `consumed` consumers that have taken but not yet done V(empty). */
  datatype Channel = Channel(belt: Belt, empty: int, occup: int,
                             reserving: nat, produced: nat, claiming: nat, consumed: nat)

  /** The products on the belt: the advertised ones and those in flight to or from it. */
  function Filled(c: Channel): int {
    c.occup + c.claiming + c.produced
  }

  predicate Quiescent(c: Channel) {
    c.reserving == 0 && c.produced == 0 && c.claiming == 0 && c.consumed == 0
  }

  /** Every permit is either in a semaphore or held by a thread in flight, and the
      belt holds exactly the products the permits account for. */
  ghost predicate Inv(c: Channel, max: int) {
    && |c.belt.slots| == max
    && c.empty >= 0 && c.occup >= 0
    && c.empty + c.reserving + c.produced + c.occup + c.claiming + c.consumed == max
    && Holds(c.belt, Filled(c))
  }

  function Initial(max: int): Channel
    requires max > 0
  {
    Channel(Belt(seq(max, _ => 0), 0, 0), max, 0, 0, 0, 0, 0)
  }

  /** P(empty): wait for a free slot. */
  function ProduceEnter(c: Channel): Channel
    requires c.empty > 0
  {
    c.(empty := c.empty - 1, reserving := c.reserving + 1)
  }

  /** The producer's section under its own lock: the unprotected produce. */
  function ProduceSection(c: Channel): Channel
    requires c.reserving > 0 && c.belt.WellFormed()
  {
    c.(belt := Produce(c.belt), reserving := c.reserving - 1, produced := c.produced + 1)
  }

  /** V(occup): advertise the new product. */
  function ProduceLeave(c: Channel): Channel
    requires c.produced > 0
  {
    c.(produced := c.produced - 1, occup := c.occup + 1)
  }

  /** P(occup): wait for a product. */
  function ConsumeEnter(c: Channel): Channel
    requires c.occup > 0
  {
    c.(occup := c.occup - 1, claiming := c.claiming + 1)
  }

  datatype Step = Step(channel: Channel, item: int)

  /** The consumer's section under its own lock: the unprotected consume. */
  function ConsumeSection(c: Channel): Step
    requires c.claiming > 0 && c.belt.WellFormed()
  {
    var t := Consume(c.belt);
    Step(c.(belt := t.belt, claiming := c.claiming - 1, consumed := c.consumed + 1), t.item)
  }

  /** V(empty): give the slot back to the producers. */
  function ConsumeLeave(c: Channel): Channel
    requires c.consumed > 0
  {
    c.(consumed := c.consumed - 1, empty := c.empty + 1)
  }

  /** Both programs start with empty = MAX, occup = 0 and an empty belt. */
  lemma InitialInv(max: int)
    requires max > 0
    ensures Inv(Initial(max), max) && Quiescent(Initial(max))
  {
    EmptyBeltHolds(max);
  }

  lemma ProduceEnterKeeps(c: Channel, max: int)
    requires Inv(c, max) && c.empty > 0
    ensures Inv(ProduceEnter(c), max)
  {
  }

  /** A producer that holds an empty-slot permit always finds room on the belt. */
  lemma ProduceSectionKeeps(c: Channel, max: int)
    requires Inv(c, max) && c.reserving > 0
    ensures Inv(ProduceSection(c), max)
  {
    ProduceKeeps(c.belt, Filled(c));
  }

  lemma ProduceLeaveKeeps(c: Channel, max: int)
    requires Inv(c, max) && c.produced > 0
    ensures Inv(ProduceLeave(c), max)
  {
  }

  lemma ConsumeEnterKeeps(c: Channel, max: int)
    requires Inv(c, max) && c.occup > 0
    ensures Inv(ConsumeEnter(c), max)
  {
  }

  /** A consumer that holds an occupied-slot permit always takes a product (1), never
      the empty value 0. */
  lemma ConsumeSectionKeeps(c: Channel, max: int)
    requires Inv(c, max) && c.claiming > 0
    ensures ConsumeSection(c).item == 1
    ensures Inv(ConsumeSection(c).channel, max)
  {
    ConsumeKeeps(c.belt, Filled(c));
  }

  lemma ConsumeLeaveKeeps(c: Channel, max: int)
    requires Inv(c, max) && c.consumed > 0
    ensures Inv(ConsumeLeave(c), max)
  {
  }

  /** With no operation in flight, the two semaphores add up to the belt length and
      the occup slots from nextOut are exactly the products. */
  lemma QuiescentShape(c: Channel, max: int)
    requires Inv(c, max) && Quiescent(c)
    ensures c.empty + c.occup == max
    ensures c.belt.nextIn == (c.belt.nextOut + c.occup) % max
    ensures forall i :: 0 <= i < max ==>
              (c.belt.slots[i] == 1 <==> Offset(c.belt.nextOut, i, max) < c.occup)
  {
  }

  /** One complete protected produce from a quiescent belt: P(empty), produce, V(occup). */
  lemma ProduceProtectedComplete(c: Channel, max: int)
    requires Inv(c, max) && Quiescent(c) && c.empty > 0
    ensures var d := ProduceLeave(ProduceSection(ProduceEnter(c)));
            Inv(d, max) && Quiescent(d) && d.empty == c.empty - 1 && d.occup == c.occup + 1 &&
            d.belt == Produce(c.belt)
  {
    ProduceEnterKeeps(c, max);
    ProduceSectionKeeps(ProduceEnter(c), max);
  }

  /** One complete protected consume from a quiescent belt: P(occup), consume, V(empty);
      what it takes is a product. */
  lemma ConsumeProtectedComplete(c: Channel, max: int)
    requires Inv(c, max) && Quiescent(c) && c.occup > 0
    ensures var s := ConsumeSection(ConsumeEnter(c));
            var d := ConsumeLeave(s.channel);
            s.item == 1 && Inv(d, max) && Quiescent(d) &&
            d.empty == c.empty + 1 && d.occup == c.occup - 1 && d.belt == Consume(c.belt).belt
  {
    ConsumeEnterKeeps(c, max);
    ConsumeSectionKeeps(ConsumeEnter(c), max);
  }

  /** A producer and a consumer inside their sections at the same time (they hold
      different locks) work on different slots, so the two sections commute and
      treating each as one atomic step loses no interleaving. */
  lemma SectionsCommute(c: Channel, max: int)
    requires Inv(c, max) && c.reserving > 0 && c.claiming > 0
    ensures c.belt.nextIn != c.belt.nextOut
    ensures ConsumeSection(ProduceSection(c)) ==
            var s := ConsumeSection(c); Step(ProduceSection(s.channel), s.item)
  {
    ModBelowTwice(c.belt.nextOut + Filled(c), max);
    var p := ProduceSection(c);
    var s := ConsumeSection(c);
    assert p.belt.slots[c.belt.nextOut] == c.belt.slots[c.belt.nextOut];
    assert ConsumeSection(p).channel.belt.slots == ProduceSection(s.channel).belt.slots;
  }

  /** k whole protected produces in a row from the initial channel, with no consume. */
  function Produced(max: int, k: nat): (c: Channel)
    requires 0 < max && k <= max
    ensures Inv(c, max) && Quiescent(c)
    ensures c.empty == max - k && c.occup == k
    decreases k
  {
    if k == 0 then
      InitialInv(max);
      Initial(max)
    else
      var p := Produced(max, k - 1);
      ProduceProtectedComplete(p, max);
      ProduceLeave(ProduceSection(ProduceEnter(p)))
  }

  /** Capacity: from the empty channel the first max protected produces find P(empty)
      open, the next one waits, and a single whole consume opens it again. */
  lemma CapacityThenBlocks(max: int)
    requires max > 0
    ensures forall k :: 0 <= k < max ==> Produced(max, k).empty > 0
    ensures Produced(max, max).empty == 0 && Produced(max, max).occup == max
    ensures var c := Produced(max, max);
            var d := ConsumeLeave(ConsumeSection(ConsumeEnter(c)).channel);
            d.empty == 1 && Inv(d, max) && Quiescent(d)
  {
    ConsumeProtectedComplete(Produced(max, max), max);
  }
}
