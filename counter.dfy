/**
 * The counter prototype: one integer state with Decrease, Reset and Increase
 * buttons. The count is a JavaScript number; every reachable value is an
 * integer far below 2^53, so it is modelled as an unbounded `int`.
 */
module CounterPrototype {

  class Counter {
    var count: int

    /** `useState(0)`. */
    constructor ()
      ensures count == 0
    {
      count := 0;
    }

    /** `setCount(count - 1)`: there is no lower bound, so the count can go negative. */
    method Decrease()
      modifies this
      ensures count == old(count) - 1
    {
      count := count - 1;
    }

    /** `setCount(0)`, whatever the previous value. */
    method Reset()
      modifies this
      ensures count == 0
    {
      count := 0;
    }

    /** `setCount(count + 1)`. */
    method Increase()
      modifies this
      ensures count == old(count) + 1
    {
      count := count + 1;
    }
  }

  /** Increase followed by Decrease restores the count. */
  method IncreaseThenDecrease(c: Counter)
    modifies c
    ensures c.count == old(c.count)
  {
    c.Increase();
    c.Decrease();
  }

  /** A fresh counter goes negative after one Decrease, and Reset brings it back to zero. */
  method DecreaseBelowZero() returns (low: int, after: int)
    ensures low == -1 && after == 0
  {
    var c := new Counter();
    c.Decrease();
    low := c.count;
    c.Reset();
    after := c.count;
  }
}
