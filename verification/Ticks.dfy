/** The tick of a worker: a 32-bit counter of its searches, every 61st of which looks at the
    global queue first. */
module Ticks {

  const TWO32: int := 0x1_0000_0000
  const PERIOD: int := 61

  function NextTick(tick: nat): nat {
    (tick + 1) % TWO32
  }

  /** The search that follows this tick looks at the global queue first. */
  predicate GlobalFirst(tick: nat) {
    NextTick(tick) % PERIOD == 0
  }

  /** The tick after `m` more searches. */
  function TickAfter(tick: nat, m: nat): nat {
    (tick + m) % TWO32
  }

  /** How many of the next `m` searches look at the global queue first. */
  function Forced(tick: nat, m: nat): nat {
    if m == 0 then 0 else Forced(tick, m - 1) + if GlobalFirst(TickAfter(tick, m - 1)) then 1 else 0
  }

  /** In any period of consecutive searches, also one across the wrap of the 32-bit tick, one
      looks at the global queue first: the wrap shortens a gap, it never lengthens one. */
  lemma OneForcedPerPeriod(tick: nat) returns (j: nat)
    ensures j < 61 && GlobalFirst(TickAfter(tick, j))
  {
    var t := tick % TWO32;
    var gap := 60 - t % 61;
    if t + gap + 1 < TWO32 {
      j := gap;
      TickSum(tick, j);
      assert t == 61 * (t / 61) + t % 61;
      assert NextTick(t + j) == 61 * (t / 61 + 1);
    } else {
      j := TWO32 - 1 - t;
      TickSum(tick, j);
      assert NextTick(t + j) == 0;
    }
  }

  lemma TickSum(tick: nat, j: nat)
    requires tick % TWO32 + j < TWO32
    ensures TickAfter(tick, j) == tick % TWO32 + j
  {
  }

  lemma {:induction false} ForcedGrows(tick: nat, m: nat, n: nat)
    requires m <= n
    ensures Forced(tick, m) <= Forced(tick, n)
    decreases n
  {
    if m < n {
      ForcedGrows(tick, m, n - 1);
    }
  }

  /** And only one, unless the counter wraps meanwhile. */
  lemma {:induction false} ForcedBefore(tick: nat, m: nat)
    requires tick + m < TWO32
    ensures Forced(tick, m) == (tick + m) / 61 - tick / 61
  {
    if m > 0 {
      ForcedBefore(tick, m - 1);
      assert TickAfter(tick, m - 1) == tick + m - 1 && NextTick(tick + m - 1) == tick + m;
    }
  }

  lemma ExactlyOneForced(tick: nat)
    requires tick + 61 < TWO32
    ensures Forced(tick, 61) == 1
  {
    ForcedBefore(tick, 61);
  }

  lemma ForcedInPeriod(tick: nat, m: nat)
    ensures Forced(tick, m + 61) >= Forced(tick, m) + 1
  {
    var j := OneForcedPerPeriod(TickAfter(tick, m));
    assert TickAfter(TickAfter(tick, m), j) == TickAfter(tick, m + j);
    ForcedGrows(tick, m, m + j);
    assert Forced(tick, m + j + 1) == Forced(tick, m + j) + 1;
    ForcedGrows(tick, m + j + 1, m + 61);
  }

  lemma {:induction false} ForcedAtLeast(tick: nat, periods: nat)
    ensures Forced(tick, 61 * periods) >= periods
  {
    if periods > 0 {
      ForcedAtLeast(tick, periods - 1);
      ForcedInPeriod(tick, 61 * (periods - 1));
    }
  }
}
