/** The bridges between machine time and the clocks of the microcontrollers: the 68HC05 of Cuda, with a debt for the
instruction that overran its slice, and the PIC of the ADB transceiver, with an accumulator that may go negative.

A microcontroller is a stream of instruction costs, each at least one cycle. */
module ClockBridge {
  import opened Arithmetic

  const MCU_HZ := 2097152
  const PIC_HZ := 460800

  // ----- the instruction stream

  ghost predicate Costs(cost: nat -> nat) {
    forall k :: cost(k) >= 1
  }

  /** Cycles taken by the first `k` instructions. */
  ghost function Ran(cost: nat -> nat, k: nat): nat {
    if k == 0 then 0 else Ran(cost, k - 1) + cost(k - 1)
  }

  lemma {:induction false} RanRises(cost: nat -> nat, i: nat, k: nat)
    requires Costs(cost) && i <= k
    ensures Ran(cost, i) + (k - i) <= Ran(cost, k)
    decreases k
  {
    if i < k {
      assert cost(k - 1) >= 1;
      RanRises(cost, i, k - 1);
    }
  }

  /** `k` is the first instruction boundary at or after cycle `m`. */
  ghost predicate Boundary(cost: nat -> nat, k: nat, m: int) {
    m <= Ran(cost, k) && (k > 0 ==> Ran(cost, k - 1) < m)
  }

  lemma {:induction false} BoundaryIsUnique(cost: nat -> nat, i: nat, k: nat, m: int)
    requires Costs(cost) && Boundary(cost, i, m) && Boundary(cost, k, m)
    ensures i == k
  {
    if i < k {
      RanRises(cost, i, k - 1);
    } else if k < i {
      RanRises(cost, k, i - 1);
    }
  }

  /** A later boundary is reached exactly when its cycle lies past the present one. */
  lemma {:induction false} BoundaryMoves(cost: nat -> nat, i: nat, m: int, k: nat, n: int)
    requires Costs(cost) && Boundary(cost, i, m) && Boundary(cost, k, n) && m <= n
    ensures i <= k && (i < k <==> Ran(cost, i) < n)
  {
    if i < k {
      RanRises(cost, i, k - 1);
    } else if k < i {
      RanRises(cost, k, i - 1);
    }
  }

  // ----- the law of time

  /** Whole microcontroller cycles in `time` machine cycles. */
  function Elapsed(time: nat, rate: nat, hz: nat): nat
    requires 0 < hz
  {
    time * rate / hz
  }

  /** Where a bridge is after `time` machine cycles: it has run `k` instructions, to the first boundary at or after
  the cycles elapsed, and what it has run is those cycles plus the carried debt. */
  ghost predicate Lawful(cost: nat -> nat, time: nat, rate: nat, hz: nat, acc: int, debt: int, k: nat) {
    && 0 < hz
    && acc == time * rate - Elapsed(time, rate, hz) * hz && 0 <= acc < hz
    && Boundary(cost, k, Elapsed(time, rate, hz))
    && debt == Ran(cost, k) - Elapsed(time, rate, hz)
  }

  /** However the time was sliced into ticks, the bridge is in the same state. */
  lemma {:induction false} SlicingDoesNotMatter(cost: nat -> nat, time: nat, rate: nat, hz: nat,
                             acc: int, debt: int, k: nat, acc': int, debt': int, k': nat)
    requires Costs(cost) && Lawful(cost, time, rate, hz, acc, debt, k) && Lawful(cost, time, rate, hz, acc', debt', k')
    ensures acc == acc' && debt == debt' && k == k'
  {
    BoundaryIsUnique(cost, k, k', Elapsed(time, rate, hz));
  }

  /** Machine cycles until the microcontroller cycle after the last one run begins. */
  function Due(acc: int, debt: int, rate: int, hz: int): int
    requires 0 < rate
  {
    ((debt + 1) * hz - acc + rate - 1) / rate
  }

  lemma {:induction false} DueIsReached(acc: int, debt: int, rate: nat, hz: nat, cycles: nat)
    requires 0 < rate && 0 < hz
    ensures Due(acc, debt, rate, hz) <= cycles <==> (debt + 1) * hz <= acc + cycles * rate
  {
    var need := (debt + 1) * hz - acc;
    DivBounds(need + rate - 1, rate);
    var due := Due(acc, debt, rate, hz);
    if due <= cycles {
      MulMonotone(due, cycles, rate);
    } else {
      MulMonotone(cycles + 1, due, rate);
    }
  }

  /** The announced time is exact: a tick runs another instruction if and only if it is at least that long. */
  lemma {:induction false} NextInstructionIsDue(cost: nat -> nat, time: nat, rate: nat, hz: nat, acc: int, debt: int,
                                                k: nat, cycles: nat, acc': int, debt': int, k': nat)
    requires Costs(cost) && 0 < rate && Lawful(cost, time, rate, hz, acc, debt, k)
    requires Lawful(cost, time + cycles, rate, hz, acc', debt', k')
    ensures 1 <= Due(acc, debt, rate, hz)
    ensures k <= k' && (k < k' <==> Due(acc, debt, rate, hz) <= cycles)
  {
    hide Due, Ran, Costs, Elapsed;
    var m, n := Elapsed(time, rate, hz), Elapsed(time + cycles, rate, hz);
    ElapsedRises(time, cycles, rate, hz);
    BoundaryMoves(cost, k, m, k', n);
    DueIsReached(acc, debt, rate, hz, cycles);
    DueIsReached(acc, debt, rate, hz, 0);
    PassedIsDue(time, cycles, rate, hz, acc, debt, Ran(cost, k));
    OneMoreCovers(acc, debt, hz);
  }

  lemma {:induction false} ElapsedRises(time: nat, cycles: nat, rate: nat, hz: nat)
    requires 0 < hz
    ensures Elapsed(time, rate, hz) <= Elapsed(time + cycles, rate, hz)
  {
    MulMonotone(time, time + cycles, rate);
    DivMonotone(time * rate, (time + cycles) * rate, hz);
  }

  /** A microcontroller cycle lies in the past exactly when the accumulator has come to cover it. */
  lemma {:induction false} PassedIsDue(time: nat, cycles: nat, rate: nat, hz: nat, acc: int, debt: int, ran: nat)
    requires 0 < hz && acc == time * rate - Elapsed(time, rate, hz) * hz && debt == ran - Elapsed(time, rate, hz)
    ensures ran < Elapsed(time + cycles, rate, hz) <==> (debt + 1) * hz <= acc + cycles * rate
  {
    var m := Elapsed(time, rate, hz);
    assert (time + cycles) * rate == time * rate + cycles * rate;
    DivAtLeast((time + cycles) * rate, ran + 1, hz);
    assert (ran + 1) * hz == (m + (debt + 1)) * hz == m * hz + (debt + 1) * hz;
  }

  lemma {:induction false} OneMoreCovers(acc: int, debt: int, hz: nat)
    requires 0 <= debt && acc < hz
    ensures acc < (debt + 1) * hz
  {
    MulMonotone(1, debt + 1, hz);
  }

  // ----- Cuda

  /** The microcontroller: how many instructions it has run. */
  class Mcu {
    const cost: nat -> nat
    var k: nat

    constructor (cost: nat -> nat)
      ensures this.cost == cost && k == 0
    {
      this.cost := cost;
      k := 0;
    }

    /** Run until the budget is used up; the last instruction may overrun it. */
    method RunFor(budget: int) returns (used: int)
      requires Costs(cost)
      modifies this`k
      ensures old(k) <= k && used == Ran(cost, k) - Ran(cost, old(k))
      ensures budget <= used && (k > old(k) ==> Ran(cost, k - 1) - Ran(cost, old(k)) < budget)
    {
      used := 0;
      while used < budget
        invariant old(k) <= k && used == Ran(cost, k) - Ran(cost, old(k))
        invariant k > old(k) ==> Ran(cost, k - 1) - Ran(cost, old(k)) < budget
        decreases budget - used
      {
        assert cost(k) >= 1;
        used := used + cost(k);
        k := k + 1;
      }
    }
  }

  class CudaBridge {
    const hz: nat
    const mcu: Mcu
    var acc: int
    var debt: int
    /** Machine cycles so far. */
    ghost var time: nat

    ghost predicate Valid()
      reads this, mcu
    {
      Costs(mcu.cost) && Lawful(mcu.cost, time, MCU_HZ, hz, acc, debt, mcu.k)
    }

    constructor (hz: nat, mcu: Mcu)
      requires 0 < hz && mcu.k == 0 && Costs(mcu.cost)
      ensures Valid() && time == 0 && this.hz == hz && this.mcu == mcu
    {
      this.hz, this.mcu, acc, debt, time := hz, mcu, 0, 0, 0;
    }

    /** `tick`: whatever the slice, the bridge stays where the machine time puts it. */
    method Tick(cycles: nat)
      requires Valid()
      modifies this, mcu
      ensures Valid() && time == old(time) + cycles && old(mcu.k) <= mcu.k
    {
      hide Elapsed, Ran, Costs;
      acc := acc + cycles * MCU_HZ;
      var budget := acc / hz;
      TickElapses(time, cycles, MCU_HZ, hz, acc, budget);
      acc := acc - budget * hz;
      time := time + cycles;
      budget := budget - debt;
      if budget > 0 {
        var used := mcu.RunFor(budget);
        debt := if used > budget then used - budget else 0;
      } else {
        debt := -budget;
      }
    }

    /** `cyclesToNextEvent`: the time to the next instruction. */
    method CyclesToNextEvent() returns (n: int)
      requires Valid()
      ensures n == Due(acc, debt, MCU_HZ, hz) && 1 <= n
    {
      var need := (debt + 1) * hz - acc;
      MulMonotone(1, debt + 1, hz);
      if need <= 0 { return 1; }
      var cycles := (need + MCU_HZ - 1) / MCU_HZ;
      return if cycles > 0 then cycles else 1;
    }
  }

  /** The cycles a tick adds are the cycles its new time has more than the old. */
  lemma {:induction false} TickElapses(time: nat, cycles: nat, rate: nat, hz: nat, acc: int, budget: int)
    requires 0 < hz && acc == time * rate - Elapsed(time, rate, hz) * hz + cycles * rate && budget == acc / hz
    ensures Elapsed(time + cycles, rate, hz) == Elapsed(time, rate, hz) + budget
    ensures acc - budget * hz == (time + cycles) * rate - Elapsed(time + cycles, rate, hz) * hz
    ensures 0 <= acc - budget * hz < hz
  {
    var m := Elapsed(time, rate, hz);
    DivBounds(acc, hz);
    assert (time + cycles) * rate == time * rate + cycles * rate;
    assert (m + budget) * hz == m * hz + budget * hz;
    assert (m + budget + 1) * hz == m * hz + (budget + 1) * hz;
    DivUnique((time + cycles) * rate, m + budget, hz);
  }

  // ----- the PIC

  class PicBridge {
    const hz: nat
    const pic: Mcu
    var acc: int
    var last: int
    ghost var time: nat

    /** The accumulator is short by the cycles the last instruction overran. */
    ghost predicate Valid()
      reads this, pic
    {
      && Costs(pic.cost) && 0 < hz
      && var debt := Ran(pic.cost, pic.k) - Elapsed(time, PIC_HZ, hz);
        Lawful(pic.cost, time, PIC_HZ, hz, acc + debt * hz, debt, pic.k)
    }

    constructor (hz: nat, pic: Mcu)
      requires 0 < hz && pic.k == 0 && Costs(pic.cost)
      ensures Valid() && time == 0 && last == -1 && this.hz == hz && this.pic == pic
    {
      this.hz, this.pic, acc, last, time := hz, pic, 0, -1, 0;
    }

    /** `tickLle`: one instruction at a time while the accumulator covers a cycle. */
    method Tick(cycles: nat)
      requires Valid()
      modifies this`acc, this`time, pic
      ensures Valid() && time == old(time) + cycles && old(pic.k) <= pic.k
    {
      hide Elapsed, Ran, Lawful;
      ghost var cost := pic.cost;
      PicStarts(cost, pic.k, time, PIC_HZ, hz, acc);
      acc := acc + cycles * PIC_HZ;
      time := time + cycles;
      ghost var total := time * PIC_HZ;
      while acc >= hz
        invariant old(pic.k) <= pic.k && time == old(time) + cycles && acc == total - Ran(cost, pic.k) * hz
        invariant pic.k > 0 ==> (Ran(cost, pic.k - 1) + 1) * hz <= total
        decreases acc
      {
        ghost var k := pic.k;
        var used := pic.RunFor(1);
        RanRises(cost, k, pic.k - 1);
        OneMore(Ran(cost, k), Ran(cost, pic.k), hz);
        acc := acc - used * hz;
      }
      PicSettles(cost, pic.k, time, PIC_HZ, hz, acc);
    }

    /** `syncTo`: bring the PIC up to an absolute machine clock; the first call only sets the origin. */
    method SyncTo(clock: int)
      requires Valid() && 0 <= clock
      modifies this`acc, this`time, this`last, pic
      ensures Valid()
      ensures old(last) < 0 ==> last == clock && time == old(time)
      ensures old(last) >= 0 ==>
        last == (if clock > old(last) then clock else old(last)) && time == old(time) + (last - old(last))
    {
      if last < 0 {
        last := clock;
        return;
      }
      var delta := clock - last;
      if delta <= 0 { return; }
      last := clock;
      Tick(delta);
    }

    /** `cyclesToNextEvent`: the time to the next instruction. */
    method CyclesToNextEvent() returns (n: int)
      requires Valid()
      ensures var debt := Ran(pic.cost, pic.k) - Elapsed(time, PIC_HZ, hz);
        n == Due(acc + debt * hz, debt, PIC_HZ, hz) && 1 <= n
    {
      ghost var debt := Ran(pic.cost, pic.k) - Elapsed(time, PIC_HZ, hz);
      var need := hz - acc;
      assert (debt + 1) * hz - (acc + debt * hz) == need;
      PicIsShort(acc, debt, hz);
      if need <= 0 { return 1; }
      var cycles := (need + PIC_HZ - 1) / PIC_HZ;
      return if cycles > 1 then cycles else 1;
    }
  }

  lemma {:induction false} PicIsShort(acc: int, debt: int, hz: nat)
    requires 0 <= acc + debt * hz < hz && 0 <= debt
    ensures acc < hz
  {
    MulMonotone(0, debt, hz);
  }

  lemma {:induction false} PicStarts(cost: nat -> nat, k: nat, time: nat, rate: nat, hz: nat, acc: int)
    requires 0 < hz
    requires var debt := Ran(cost, k) - Elapsed(time, rate, hz);
      Lawful(cost, time, rate, hz, acc + debt * hz, debt, k)
    ensures acc == time * rate - Ran(cost, k) * hz
    ensures k > 0 ==> (Ran(cost, k - 1) + 1) * hz <= time * rate
  {
    var m := Elapsed(time, rate, hz);
    assert (Ran(cost, k) - m) * hz == Ran(cost, k) * hz - m * hz;
    if k > 0 { DivAtLeast(time * rate, Ran(cost, k - 1) + 1, hz); }
  }

  lemma {:induction false} OneMore(before: nat, after: nat, hz: nat)
    requires before < after && 0 < hz
    ensures (before + 1) * hz == before * hz + hz && before * hz + (after - before) * hz == after * hz
    ensures hz <= (after - before) * hz
  {
    MulMonotone(1, after - before, hz);
  }

  /** Where the loop stops is where the law puts the PIC. */
  lemma {:induction false} PicSettles(cost: nat -> nat, k: nat, time: nat, rate: nat, hz: nat, acc: int)
    requires 0 < hz && acc == time * rate - Ran(cost, k) * hz && acc < hz
    requires k > 0 ==> (Ran(cost, k - 1) + 1) * hz <= time * rate
    ensures var debt := Ran(cost, k) - Elapsed(time, rate, hz);
      Lawful(cost, time, rate, hz, acc + debt * hz, debt, k)
  {
    var m := Elapsed(time, rate, hz);
    DivBounds(time * rate, hz);
    DivAtLeast(time * rate, Ran(cost, k) + 1, hz);
    assert (Ran(cost, k) + 1) * hz == Ran(cost, k) * hz + hz;
    assert (Ran(cost, k) - m) * hz == Ran(cost, k) * hz - m * hz;
    assert (m + 1) * hz == m * hz + hz;
    if k > 0 { DivAtLeast(time * rate, Ran(cost, k - 1) + 1, hz); }
  }
}
