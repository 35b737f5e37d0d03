/** The process-wide count of live top-level windows (`window_ref_count`,
    `inc_window_count`, `dec_window_count` in src/engine_base.cpp). It is a
    `std::atomic_uint`: incrementing wraps around at 2^32, decrementing stops
    at zero. */
module WindowCount {

  const UintLimit: nat := 0x1_0000_0000

  /** The value after `++count` on a 32-bit unsigned counter. */
  function IncCount(c: nat): (r: nat)
    requires c < UintLimit
    ensures r < UintLimit
    ensures c + 1 < UintLimit ==> r == c + 1
    ensures c + 1 == UintLimit ==> r == 0
  {
    (c + 1) % UintLimit
  }

  /** The value after `dec_window_count`: one less, but never below zero. */
  function DecCount(c: nat): (r: nat)
    ensures c > 0 ==> r + 1 == c
    ensures c == 0 ==> r == 0
    ensures r <= c
  {
    if c > 0 then c - 1 else 0
  }

  /** `on_window_destroyed` terminates exactly when the decremented count is
      zero and termination is not skipped, that is, when at most one window
      was counted before. */
  lemma TerminatesIffLastWindow(c: nat, skipTermination: bool)
    ensures (DecCount(c) == 0 && !skipTermination) <==> (c <= 1 && !skipTermination)
  {
  }

  /** A window created and then destroyed leaves the count as it was, unless
      the increment wrapped around. */
  lemma IncThenDec(c: nat)
    requires c + 1 < UintLimit
    ensures DecCount(IncCount(c)) == c
  {
  }

  class WindowCounter {
    var count: nat

    ghost predicate Valid()
      reads this
    {
      count < UintLimit
    }

    /** The static counter starts at zero. */
    constructor ()
      ensures Valid() && count == 0
    {
      count := 0;
    }

    /** `inc_window_count`: returns the incremented value. */
    method Inc() returns (n: nat)
      requires Valid()
      modifies this
      ensures Valid()
      ensures count == IncCount(old(count)) && n == count
    {
      count := (count + 1) % UintLimit;
      n := count;
    }

    /** `dec_window_count`: returns the decremented value, or 0 when the
        count already was 0. */
    method Dec() returns (n: nat)
      requires Valid()
      modifies this
      ensures Valid()
      ensures count == DecCount(old(count)) && n == count
    {
      if count > 0 {
        count := count - 1;
        n := count;
        return;
      }
      n := 0;
    }
  }
}
