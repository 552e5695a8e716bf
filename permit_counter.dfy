/** The counting semaphore as a guarded-command state machine over its counter:
      P: when (S > 0) [ S -= 1 ]        V: [ S += 1 ]
    Both the C functions P/V on an int* and the C++ class Semaphore implement it. */
module PermitCounter {

  datatype Op = Acquire | Release

  /** The wait loop `while (S <= 0) wait` of P, turned into the guard of its step. */
  predicate Enabled(s: int, op: Op) {
    op == Release || s > 0
  }

  /** The counter after one completed operation. */
  function Apply(s: int, op: Op): int {
    match op
    case Acquire => s - 1
    case Release => s + 1
  }

  /** Every P in `ops` finds its guard true when its turn comes. */
  predicate Feasible(s: int, ops: seq<Op>)
    decreases |ops|
  {
    ops == [] || (Enabled(s, ops[0]) && Feasible(Apply(s, ops[0]), ops[1..]))
  }

  function Run(s: int, ops: seq<Op>): int
    decreases |ops|
  {
    if ops == [] then s else Run(Apply(s, ops[0]), ops[1..])
  }

  function Count(ops: seq<Op>, op: Op): (n: nat)
    ensures n <= |ops|
    decreases |ops|
  {
    if ops == [] then 0 else (if ops[0] == op then 1 else 0) + Count(ops[1..], op)
  }

  /** Permits are neither created nor lost: the counter is the initial value plus
      the releases minus the acquires. */
  lemma {:induction false} RunBalance(s: int, ops: seq<Op>)
    ensures Run(s, ops) == s + Count(ops, Release) - Count(ops, Acquire)
    decreases |ops|
  {
    if ops != [] {
      RunBalance(Apply(s, ops[0]), ops[1..]);
    }
  }

  /** From a non-negative counter, no feasible sequence of P/V leaves it negative. */
  lemma {:induction false} FeasibleStaysNonNegative(s: int, ops: seq<Op>)
    requires s >= 0 && Feasible(s, ops)
    ensures Run(s, ops) >= 0
    decreases |ops|
  {
    if ops != [] {
      FeasibleStaysNonNegative(Apply(s, ops[0]), ops[1..]);
    }
  }

  lemma CountCons(op: Op, rest: seq<Op>, k: nat, which: Op)
    requires 1 <= k <= |rest| + 1
    ensures Count(([op] + rest)[..k], which) == (if op == which then 1 else 0) + Count(rest[..k - 1], which)
  {
    var s := ([op] + rest)[..k];
    assert s[0] == op;
    assert s[1..] == rest[..k - 1];
  }

  /** A sequence of P/V is possible exactly when, at every point, the completed
      acquires do not exceed the initial permits plus the completed releases. */
  lemma {:induction false} FeasibleIffNoOverdraw(s: int, ops: seq<Op>)
    requires s >= 0
    ensures Feasible(s, ops) <==>
            (forall k :: 0 <= k <= |ops| ==> Count(ops[..k], Acquire) <= s + Count(ops[..k], Release))
    decreases |ops|
  {
    if ops == [] {
      assert forall k :: 0 <= k <= |ops| ==> ops[..k] == [];
    } else {
      var op, rest := ops[0], ops[1..];
      assert ops == [op] + rest;
      var s' := Apply(s, op);
      if Feasible(s, ops) {
        FeasibleIffNoOverdraw(s', rest);
        forall k | 0 <= k <= |ops|
          ensures Count(ops[..k], Acquire) <= s + Count(ops[..k], Release)
        {
          if k > 0 {
            CountCons(op, rest, k, Acquire);
            CountCons(op, rest, k, Release);
          } else {
            assert ops[..k] == [];
          }
        }
      } else if forall k :: 0 <= k <= |ops| ==> Count(ops[..k], Acquire) <= s + Count(ops[..k], Release) {
        CountCons(op, rest, 1, Acquire);
        CountCons(op, rest, 1, Release);
        assert rest[..0] == [];
        assert s' >= 0;
        FeasibleIffNoOverdraw(s', rest);
        forall j | 0 <= j <= |rest|
          ensures Count(rest[..j], Acquire) <= s' + Count(rest[..j], Release)
        {
          CountCons(op, rest, j + 1, Acquire);
          CountCons(op, rest, j + 1, Release);
        }
        assert false;
      }
    }
  }

  /** A semaphore that starts at 0 cannot complete a P before some V. */
  lemma {:induction false} ZeroBlocksUntilRelease(ops: seq<Op>)
    requires Feasible(0, ops) && Count(ops, Release) == 0
    ensures Count(ops, Acquire) == 0
  {
    FeasibleIffNoOverdraw(0, ops);
    assert ops[..|ops|] == ops;
  }
}
