/** The cyclic barrier as a state machine over `count` and `generation`, split at its
    wait loop:
      Arrive:         ++count; if count < num, record myGeneration := generation and wait;
                      otherwise count := 0, generation++ and wake everyone.
      Leave(myGen):   when (generation != myGen) [ ]
    `waiting` holds the myGeneration of every participant still inside its wait loop;
    it is the waiters' own local state, kept here so that the guard can be reasoned about.
    barrier.c (num = NUM = 3) and Barrier.cxx (num set by the constructor) implement it. */
module BarrierRound {

  datatype Barrier = Barrier(count: int, generation: int, waiting: multiset<int>)

  const Initial: Barrier := Barrier(0, 0, multiset{})

  /** `++count < num`: the arrival waits for the rest of its round. */
  predicate Waits(b: Barrier, num: int) {
    b.count + 1 < num
  }

  /** What an arrival leaves its caller with: released at once (it completed the
      round), or inside the wait loop with the generation it recorded. */
  datatype Ticket = Released | Waiting(myGeneration: int)

  function TicketOf(b: Barrier, num: int): Ticket {
    if Waits(b, num) then Waiting(b.generation) else Released
  }

  function Arrive(b: Barrier, num: int): Barrier {
    if Waits(b, num) then Barrier(b.count + 1, b.generation, b.waiting + multiset{b.generation})
    else Barrier(0, b.generation + 1, b.waiting)
  }

  /** The wait loop `while (myGen == generation) wait`, turned into a guard. */
  predicate MayLeave(b: Barrier, myGen: int) {
    myGen in b.waiting && b.generation != myGen
  }

  function Leave(b: Barrier, myGen: int): Barrier {
    b.(waiting := b.waiting - multiset{myGen})
  }

  /** Between calls count is below num (or 0 when num <= 0 makes every arrival
      final), exactly `count` waiters belong to the current generation, and no waiter
      recorded a generation that has not happened yet. */
  ghost predicate Inv(b: Barrier, num: int) {
    && 0 <= b.count && (b.count < num || b.count == 0)
    && b.waiting[b.generation] == b.count
    && forall g :: g in b.waiting ==> g <= b.generation
  }

  lemma InitialInv(num: int)
    ensures Inv(Initial, num)
  {
  }

  /** An arrival keeps the invariant. A waiting arrival only increments count and
      records the current generation; the final one resets count to 0 and moves
      generation on by exactly one. */
  lemma ArriveKeeps(b: Barrier, num: int)
    requires Inv(b, num)
    ensures Inv(Arrive(b, num), num)
    ensures Waits(b, num) ==> Arrive(b, num).count == b.count + 1 && Arrive(b, num).generation == b.generation
    ensures !Waits(b, num) ==> Arrive(b, num).count == 0 && Arrive(b, num).generation == b.generation + 1
  {
    var a := Arrive(b, num);
    if !Waits(b, num) {
      assert a.generation !in b.waiting;
    }
  }

  /** Leaving keeps the invariant and changes neither count nor generation. */
  lemma LeaveKeeps(b: Barrier, num: int, myGen: int)
    requires Inv(b, num) && MayLeave(b, myGen)
    ensures Inv(Leave(b, myGen), num)
    ensures Leave(b, myGen).count == b.count && Leave(b, myGen).generation == b.generation
  {
  }

  /** `k` arrivals in a row. */
  function Arrivals(b: Barrier, num: int, k: nat): Barrier
    decreases k
  {
    if k == 0 then b else Arrive(Arrivals(b, num, k - 1), num)
  }

  /** Until the round is full the generation stays put, so no waiter of the current
      round may leave: each non-final arrival adds one more waiter to it. */
  lemma {:induction false} PartialRound(b: Barrier, num: int, k: nat)
    requires Inv(b, num) && b.count + k < num
    ensures Arrivals(b, num, k) == Barrier(b.count + k, b.generation, b.waiting[b.generation := b.count + k])
  {
    if k > 0 {
      PartialRound(b, num, k - 1);
    }
  }

  /** The arrival that fills the round releases it: count is back to 0, generation
      is one higher, and every participant still waiting may leave. */
  lemma RoundCompletes(b: Barrier, num: int)
    requires Inv(b, num) && num >= 1
    ensures var a := Arrivals(b, num, num - b.count);
            a.count == 0 && a.generation == b.generation + 1 &&
            a.waiting[b.generation] == num - 1 &&
            forall g :: g in a.waiting ==> MayLeave(a, g)
  {
    var k := num - b.count;
    PartialRound(b, num, k - 1);
    var p := Arrivals(b, num, k - 1);
    ArriveKeeps(p, num);
  }

  /** Arrivals compose: i + j in a row are i and then j. */
  lemma {:induction false} ArrivalsAdd(b: Barrier, num: int, i: nat, j: nat)
    ensures Arrivals(b, num, i + j) == Arrivals(Arrivals(b, num, i), num, j)
    decreases j
  {
    if j > 0 {
      ArrivalsAdd(b, num, i, j - 1);
    }
  }

  /** `r` whole rounds of `num` arrivals each. */
  function AfterRounds(b: Barrier, num: int, r: nat): Barrier
    requires num >= 1
    decreases r
  {
    if r == 0 then b else Arrivals(AfterRounds(b, num, r - 1), num, num)
  }

  lemma MulStep(r: nat, num: int)
    requires r > 0 && num >= 1
    ensures (r - 1) * num >= 0 && (r - 1) * num + num == r * num
  {
  }

  /** r rounds are r * num arrivals. */
  lemma {:induction false} RoundsAreArrivals(b: Barrier, num: int, r: nat)
    requires num >= 1
    ensures AfterRounds(b, num, r) == Arrivals(b, num, r * num)
    decreases r
  {
    if r > 0 {
      MulStep(r, num);
      var before: nat := (r - 1) * num;
      calc {
        Arrivals(b, num, r * num);
        Arrivals(b, num, before + num);
        { ArrivalsAdd(b, num, before, num); }
        Arrivals(Arrivals(b, num, before), num, num);
        { RoundsAreArrivals(b, num, r - 1); }
        Arrivals(AfterRounds(b, num, r - 1), num, num);
      }
    }
  }

  /** From an empty barrier, every round of num arrivals ends with count back at 0 and
      generation one higher: the barrier is reusable indefinitely. */
  lemma {:induction false} Rounds(b: Barrier, num: int, r: nat)
    requires Inv(b, num) && b.count == 0 && num >= 1
    ensures Inv(AfterRounds(b, num, r), num)
    ensures AfterRounds(b, num, r).count == 0
    ensures AfterRounds(b, num, r).generation == b.generation + r
    decreases r
  {
    if r > 0 {
      Rounds(b, num, r - 1);
      var p := AfterRounds(b, num, r - 1);
      RoundCompletes(p, num);
      RoundKeepsInv(p, num);
    }
  }

  /** The invariant survives a whole round. */
  lemma RoundKeepsInv(b: Barrier, num: int)
    requires Inv(b, num) && b.count == 0 && num >= 1
    ensures Inv(Arrivals(b, num, num), num)
  {
    PartialRound(b, num, num - 1);
    ArriveKeeps(Arrivals(b, num, num - 1), num);
  }

  /** With num <= 1 nobody ever waits: every arrival is a whole round. */
  lemma LoneArrivalCompletes(b: Barrier, num: int)
    requires Inv(b, num) && num <= 1
    ensures !Waits(b, num) && Arrive(b, num) == Barrier(0, b.generation + 1, b.waiting)
  {
  }

  /** generation never decreases, whatever step is taken. */
  lemma GenerationMonotone(b: Barrier, num: int, myGen: int)
    ensures Arrive(b, num).generation >= b.generation
    ensures Leave(b, myGen).generation == b.generation
  {
  }
}
