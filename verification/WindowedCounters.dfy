/** Traffic counters over a window of days or hours (metrics/date_counter.rs,
    metrics/hour_counter.rs), proved against the whole history of calls they were given. */
module WindowedCounters {
  import opened Primitives
  import opened Wrappers

  function Saturate(x: int): i64 {
    if x < -TWO_63 then -TWO_63 else if x > I64_MAX then I64_MAX else x
  }

  // ---------- the unbounded history ----------

  /** A call, with what the clock showed: a day number, or an hour cut to its start. */
  datatype Op = Read(at: int) | Inc(at: int, delta: i64)

  /** Where the window stands: the time it was last moved to, and how many slots it has moved. */
  datatype Position = Position(last: int, moved: nat)

  function Move(unit: nat, p: Position, at: int): Position
    requires unit > 0
  {
    if at > p.last && (at - p.last) / unit > 0 then Position(at, p.moved + (at - p.last) / unit) else p
  }

  function PositionAfter(unit: nat, start: int, ops: seq<Op>): Position
    requires unit > 0
  {
    if ops == [] then Position(start, 0)
    else Move(unit, PositionAfter(unit, start, ops[..|ops| - 1]), ops[|ops| - 1].at)
  }

  /** What was added while the window stood at slot `slot`, saturating at every addition. */
  function InSlot(unit: nat, start: int, ops: seq<Op>, slot: int): i64
    requires unit > 0
  {
    if ops == [] then 0
    else
      var before := InSlot(unit, start, ops[..|ops| - 1], slot);
      var op := ops[|ops| - 1];
      if op.Inc? && PositionAfter(unit, start, ops).moved == slot then Saturate(before + op.delta) else before
  }

  /** The latest time seen. */
  function Latest(start: int, ops: seq<Op>): int {
    if ops == [] then start
    else
      var before := Latest(start, ops[..|ops| - 1]);
      if ops[|ops| - 1].at > before then ops[|ops| - 1].at else before
  }

  /** The exact sum of what was added while `moment` was the latest time seen. */
  function SumAt(start: int, ops: seq<Op>, moment: int): int {
    if ops == [] then 0
    else
      var op := ops[|ops| - 1];
      SumAt(start, ops[..|ops| - 1], moment)
      + if op.Inc? && Latest(start, ops) == moment then op.delta else 0
  }

  predicate NoDecrements(ops: seq<Op>) {
    forall op <- ops :: op.Inc? ==> op.delta >= 0
  }

  /** Every call comes no later than the latest time seen before it, or whole units after that. */
  predicate InStep(unit: nat, start: int, ops: seq<Op>)
    requires unit > 0
  {
    ops == [] ||
    var init, at := ops[..|ops| - 1], ops[|ops| - 1].at;
    InStep(unit, start, init) && (at <= Latest(start, init) || (at - Latest(start, init)) % unit == 0)
  }

  lemma {:induction false} NothingInTheFuture(unit: nat, start: int, ops: seq<Op>, slot: int)
    requires unit > 0 && slot > PositionAfter(unit, start, ops).moved
    ensures InSlot(unit, start, ops, slot) == 0
  {
    if ops != [] {
      NothingInTheFuture(unit, start, ops[..|ops| - 1], slot);
    }
  }

  lemma AtLeastOneUnit(unit: nat, n: int)
    requires n >= 1
    ensures unit * n >= unit
  {
    assert unit * n == unit + unit * (n - 1);
  }

  lemma DivOfMultiple(unit: nat, k: int)
    requires unit > 0
    ensures unit * k / unit == k && unit * k % unit == 0
  {
    var q, r := unit * k / unit, unit * k % unit;
    assert unit * (k - q) == r;
    if k > q {
      AtLeastOneUnit(unit, k - q);
    } else if q > k {
      AtLeastOneUnit(unit, q - k);
    }
  }

  lemma SameSlotSameMoment(unit: nat, start: int, a: int, b: int)
    requires unit > 0
    ensures a == b <==> start + unit * a == start + unit * b
    ensures a < b <==> start + unit * a < start + unit * b
  {
    if a < b {
      AtLeastOneUnit(unit, b - a);
      assert unit * b == unit * a + unit * (b - a);
    } else if b < a {
      AtLeastOneUnit(unit, a - b);
      assert unit * a == unit * b + unit * (a - b);
    }
  }

  /** The window stands at the latest time seen, and has moved one slot for each unit since the
      start. */
  predicate StandsRight(unit: nat, start: int, ops: seq<Op>)
    requires unit > 0
  {
    var p := PositionAfter(unit, start, ops);
    p.last == Latest(start, ops) && p.last == start + unit * p.moved
  }

  /** From there a call keeps it so exactly when it comes in step. */
  lemma MoveStandsRight(unit: nat, start: int, p: Position, at: int)
    requires unit > 0 && p.last == start + unit * p.moved
    ensures var q := Move(unit, p, at);
            q.last == (if at > p.last then at else p.last) && q.last == start + unit * q.moved
            <==> at <= p.last || (at - p.last) % unit == 0
  {
    if at > p.last {
      var steps := (at - p.last) / unit;
      assert at - p.last == unit * steps + (at - p.last) % unit;
      assert unit * (p.moved + steps) == unit * p.moved + unit * steps;
      if steps == 0 {
        assert (at - p.last) % unit == at - p.last;
      }
    }
  }

  /** The window stands right after every call exactly when every call comes in step; steps
      backward do not move it. */
  lemma {:induction false} WindowFollowsTheLatest(unit: nat, start: int, ops: seq<Op>)
    requires unit > 0
    ensures InStep(unit, start, ops) <==> forall k :: 0 <= k <= |ops| ==> StandsRight(unit, start, ops[..k])
    ensures InStep(unit, start, ops) ==> StandsRight(unit, start, ops)
  {
    assert ops[..|ops|] == ops;
    if ops == [] {
      assert StandsRight(unit, start, []);
    } else {
      var init := ops[..|ops| - 1];
      WindowFollowsTheLatest(unit, start, init);
      assert forall k :: 0 <= k <= |init| ==> init[..k] == ops[..k];
      if InStep(unit, start, init) {
        MoveStandsRight(unit, start, PositionAfter(unit, start, init), ops[|ops| - 1].at);
        assert StandsRight(unit, start, ops) <==> InStep(unit, start, ops);
      }
    }
  }

  function Capped(sum: int): i64
    requires sum >= 0
  {
    if sum > I64_MAX then I64_MAX else sum
  }

  /** A slot holds the sum of what was added at its time, capped at the largest number. */
  lemma {:induction false} SlotIsCappedSum(unit: nat, start: int, ops: seq<Op>, slot: int)
    requires unit > 0 && InStep(unit, start, ops) && NoDecrements(ops)
    ensures var sum := SumAt(start, ops, start + unit * slot); sum >= 0 && InSlot(unit, start, ops, slot) == Capped(sum)
  {
    if ops != [] {
      hide PositionAfter, Latest;
      SlotIsCappedSum(unit, start, ops[..|ops| - 1], slot);
      WindowFollowsTheLatest(unit, start, ops);
      SameSlotSameMoment(unit, start, PositionAfter(unit, start, ops).moved, slot);
      assert ops[|ops| - 1] in ops;
    }
  }

  predicate IsCappedSum(count: i64, unit: nat, start: int, ops: seq<Op>, i: nat) {
    var sum := SumAt(start, ops, Latest(start, ops) - unit * i);
    sum >= 0 && count == Capped(sum)
  }

  /** Slot i holds the capped sum of what was added i units before the latest time seen. */
  ghost predicate HoldsCappedSums(counts: seq<i64>, unit: nat, start: int, ops: seq<Op>) {
    forall i :: 0 <= i < |counts| ==> IsCappedSum(counts[i], unit, start, ops, i)
  }

  lemma WindowHoldsCappedSums(counts: seq<i64>, unit: nat, start: int, ops: seq<Op>)
    requires unit > 0 && InStep(unit, Base(start, ops), ops) && NoDecrements(ops)
    requires Agrees(counts, unit, start, ops, PositionAfter(unit, start, ops).moved)
    ensures HoldsCappedSums(counts, unit, start, ops)
  {
    hide InStep, NoDecrements, PositionAfter, Base, IsCappedSum;
    forall i | 0 <= i < |counts| ensures IsCappedSum(counts[i], unit, start, ops, i) {
      InStepIsRight(unit, start, ops, i);
    }
  }

  /** While the clock never steps back, everything is charged to the time it was added at. */
  lemma {:induction false} SteadyClockChargesItsOwnTime(start: int, ops: seq<Op>)
    requires forall i :: 0 <= i < |ops| ==> start <= ops[i].at
    requires forall i, j :: 0 <= i < j < |ops| ==> ops[i].at <= ops[j].at
    ensures Latest(start, ops) == if ops == [] then start else ops[|ops| - 1].at
  {
    if ops != [] {
      SteadyClockChargesItsOwnTime(start, ops[..|ops| - 1]);
    }
  }

  lemma {:induction false} DaysAreInStep(start: int, ops: seq<Op>)
    ensures InStep(1, start, ops)
  {
    if ops != [] {
      DaysAreInStep(start, ops[..|ops| - 1]);
    }
  }

  // ---------- the sums are right exactly in step ----------

  ghost predicate SlotIsRight(unit: nat, start: int, ops: seq<Op>, i: nat)
    requires unit > 0
  {
    IsCappedSum(InSlot(unit, start, ops, PositionAfter(unit, start, ops).moved - i), unit, start, ops, i)
  }

  /** The calls of `ops` at the same times, in whatever way each reads or adds. */
  ghost predicate SameTimes(ops: seq<Op>, others: seq<Op>) {
    |ops| == |others| && forall i :: 0 <= i < |ops| ==> ops[i].at == others[i].at
  }

  /** Whatever calls at these times add, every slot is right after every one of them. */
  ghost predicate RightWhateverIsAdded(unit: nat, start: int, ops: seq<Op>)
    requires unit > 0
  {
    forall others, k, i: nat :: SameTimes(ops, others) && NoDecrements(others) && 0 <= k <= |others| ==>
      SlotIsRight(unit, start, others[..k], i)
  }

  lemma {:induction false} TimesDecideThePosition(unit: nat, start: int, ops: seq<Op>, others: seq<Op>)
    requires unit > 0 && SameTimes(ops, others)
    ensures PositionAfter(unit, start, ops) == PositionAfter(unit, start, others) && Latest(start, ops) == Latest(start, others)
    ensures InStep(unit, start, ops) == InStep(unit, start, others)
  {
    if ops != [] {
      TimesDecideThePosition(unit, start, ops[..|ops| - 1], others[..|ops| - 1]);
    }
  }

  lemma {:induction false} InStepSoFar(unit: nat, start: int, ops: seq<Op>, k: nat)
    requires unit > 0 && InStep(unit, start, ops) && k <= |ops|
    ensures InStep(unit, start, ops[..k])
  {
    if k < |ops| {
      InStepSoFar(unit, start, ops[..|ops| - 1], k);
      assert ops[..|ops| - 1][..k] == ops[..k];
    } else {
      assert ops[..k] == ops;
    }
  }

  /** Where an empty window may as well have started: at the first call, if that is later. */
  function Base(start: int, ops: seq<Op>): (base: int)
    ensures base >= start
  {
    if ops != [] && ops[0].at > start then ops[0].at else start
  }

  /** A window that started at `start` and one that started at `base` show the same. */
  predicate SamePlace(unit: nat, start: int, base: int, p: Position, q: Position)
    requires unit > 0
  {
    && p.moved == q.moved + (base - start) / unit
    && (p.last == q.last || (p == Position(start, 0) && q == Position(base, 0) && start <= base < start + unit))
  }

  lemma MultipleAndLess(unit: nat, j: nat, d: nat)
    requires d < unit
    ensures (unit * j + d) / unit == j
  {
    var q, r := (unit * j + d) / unit, (unit * j + d) % unit;
    assert unit * (j - q) == r - d;
    if j > q {
      AtLeastOneUnit(unit, j - q);
    } else if q > j {
      AtLeastOneUnit(unit, q - j);
    }
  }

  lemma MoveKeepsPlace(unit: nat, start: int, base: int, p: Position, q: Position, at: int)
    requires unit > 0 && SamePlace(unit, start, base, p, q) && (at <= q.last || (at - q.last) % unit == 0)
    ensures SamePlace(unit, start, base, Move(unit, p, at), Move(unit, q, at))
  {
    if p.last != q.last && at > base {
      var j := (at - base) / unit;
      assert at - base == unit * j;
      if j > 0 {
        MultipleAndLess(unit, j, base - start);
      }
    } else if p.last != q.last && at > start {
      MultipleAndLess(unit, 0, at - start);
    }
  }

  lemma {:induction false} BaseKeepsPlace(unit: nat, start: int, ops: seq<Op>)
    requires unit > 0 && ops != [] && InStep(unit, Base(start, ops), ops)
    ensures Latest(start, ops) == Latest(Base(start, ops), ops)
    ensures SamePlace(unit, start, Base(start, ops), PositionAfter(unit, start, ops), PositionAfter(unit, Base(start, ops), ops))
  {
    var base := Base(start, ops);
    var init := ops[..|ops| - 1];
    if init == [] {
      if base - start < unit {
        MultipleAndLess(unit, 0, base - start);
      }
    } else {
      BaseKeepsPlace(unit, start, init);
      WindowFollowsTheLatest(unit, base, init);
      hide SamePlace, Move;
      MoveKeepsPlace(unit, start, base, PositionAfter(unit, start, init), PositionAfter(unit, base, init), ops[|ops| - 1].at);
    }
  }

  lemma {:induction false} BaseKeepsSums(unit: nat, start: int, ops: seq<Op>, slot: int, moment: int)
    requires unit > 0 && InStep(unit, Base(start, ops), ops)
    ensures var base := Base(start, ops);
            && InSlot(unit, start, ops, slot) == InSlot(unit, base, ops, slot - (base - start) / unit)
            && SumAt(start, ops, moment) == SumAt(base, ops, moment)
  {
    if ops != [] {
      var init := ops[..|ops| - 1];
      if init != [] {
        BaseKeepsSums(unit, start, init, slot, moment);
      }
      BaseKeepsPlace(unit, start, ops);
      hide PositionAfter, Latest;
    }
  }

  lemma InStepIsRight(unit: nat, start: int, ops: seq<Op>, i: nat)
    requires unit > 0 && InStep(unit, Base(start, ops), ops) && NoDecrements(ops)
    ensures SlotIsRight(unit, start, ops, i)
  {
    if ops != [] {
      var base := Base(start, ops);
      hide Base, InStep, NoDecrements, PositionAfter, Latest, SumAt, InSlot, Capped;
      var moved := PositionAfter(unit, base, ops).moved;
      var moment := Latest(base, ops) - unit * i;
      WindowFollowsTheLatest(unit, base, ops);
      SlotIsCappedSum(unit, base, ops, moved - i);
      assert base + unit * (moved - i) == moment by {
        assert unit * (moved - i) == unit * moved - unit * i;
      }
      BaseKeepsPlace(unit, start, ops);
      BaseKeepsSums(unit, start, ops, PositionAfter(unit, start, ops).moved - i, moment);
    }
  }

  /** Reads at the times of `ops`, but for call `j`, which adds one. */
  function OneAdded(ops: seq<Op>, j: int): (others: seq<Op>)
    ensures SameTimes(ops, others) && NoDecrements(others)
  {
    seq(|ops|, i requires 0 <= i < |ops| => if i == j then Inc(ops[i].at, 1) else Read(ops[i].at))
  }

  /** The one that was added is in the slot and at the moment of its call, and nothing else is. */
  lemma {:induction false} OneIsWhereItWasAdded(unit: nat, start: int, ops: seq<Op>, j: int, slot: int, moment: int)
    requires unit > 0
    ensures var others := OneAdded(ops, j);
            && InSlot(unit, start, others, slot)
               == (if 0 <= j < |ops| && PositionAfter(unit, start, ops[..j + 1]).moved == slot then 1 else 0)
            && SumAt(start, others, moment) == (if 0 <= j < |ops| && Latest(start, ops[..j + 1]) == moment then 1 else 0)
  {
    if ops != [] {
      var init := ops[..|ops| - 1];
      OneIsWhereItWasAdded(unit, start, init, j, slot, moment);
      assert OneAdded(ops, j)[..|ops| - 1] == OneAdded(init, j);
      TimesDecideThePosition(unit, start, ops, OneAdded(ops, j));
      assert ops[..|ops|] == ops;
      assert 0 <= j < |init| ==> init[..j + 1] == ops[..j + 1];
    }
  }

  /** A call out of step shows what was added last in a slot that is not its own. */
  lemma OutOfStepIsWrong(unit: nat, start: int, ops: seq<Op>) returns (others: seq<Op>, i: nat)
    requires unit > 0 && |ops| >= 2
    requires var init, at := ops[..|ops| - 1], ops[|ops| - 1].at;
             at > Latest(start, init) && (at - Latest(start, init)) % unit != 0
    ensures SameTimes(ops, others) && NoDecrements(others) && !SlotIsRight(unit, start, others, i)
  {
    var n := |ops| - 1;
    var init, at := ops[..n], ops[n].at;
    others := OneAdded(ops, n - 1);
    TimesDecideThePosition(unit, start, ops, others);
    var moved := PositionAfter(unit, start, ops).moved;
    i := moved - PositionAfter(unit, start, init).moved;
    OneIsWhereItWasAdded(unit, start, ops, n - 1, moved - i, at - unit * i);
    if Latest(start, init) == at - unit * i {
      DivOfMultiple(unit, i);
    }
  }

  lemma {:induction false} FirstOutOfStep(unit: nat, start: int, ops: seq<Op>) returns (k: nat)
    requires unit > 0 && !InStep(unit, start, ops)
    ensures k < |ops| && InStep(unit, start, ops[..k])
    ensures ops[k].at > Latest(start, ops[..k]) && (ops[k].at - Latest(start, ops[..k])) % unit != 0
  {
    var init := ops[..|ops| - 1];
    if InStep(unit, start, init) {
      k := |init|;
    } else {
      k := FirstOutOfStep(unit, start, init);
      assert init[..k] == ops[..k];
    }
  }

  lemma LatestFromBase(start: int, ops: seq<Op>, k: nat)
    requires 0 < k <= |ops|
    ensures Latest(Base(start, ops), ops[..k]) == Latest(start, ops[..k])
  {
    if k == 1 {
      assert ops[..1][..0] == [];
    } else {
      LatestFromBase(start, ops, k - 1);
      assert ops[..k][..k - 1] == ops[..k - 1];
    }
  }

  /** Whatever is added, all slots are right after all calls, exactly when every call after the
      first comes in step. */
  lemma SumsAreRightIff(unit: nat, start: int, ops: seq<Op>)
    requires unit > 0
    ensures InStep(unit, Base(start, ops), ops) <==> RightWhateverIsAdded(unit, start, ops)
  {
    var base := Base(start, ops);
    if InStep(unit, base, ops) {
      forall others, k, i: nat | SameTimes(ops, others) && NoDecrements(others) && 0 <= k <= |others|
        ensures SlotIsRight(unit, start, others[..k], i)
      {
        TimesDecideThePosition(unit, base, ops, others);
        if k > 0 {
          InStepSoFar(unit, base, others, k);
          InStepIsRight(unit, start, others[..k], i);
        }
      }
    } else {
      var k := FirstOutOfStep(unit, base, ops);
      assert k > 0;
      LatestFromBase(start, ops, k);
      var upTo := ops[..k + 1];
      assert upTo[..k] == ops[..k];
      var wrong, i := OutOfStepIsWrong(unit, start, upTo);
      var others := wrong + OneAdded(ops, -1)[k + 1..];
      assert others[..k + 1] == wrong;
      assert SameTimes(ops, others) && NoDecrements(others);
    }
  }

  /** An addition goes to the slot the window then stands at, as far as 64 bits reach, and to no other;
      a read goes nowhere. */
  lemma AdditionMeans(unit: nat, start: int, ops: seq<Op>, op: Op, slot: int)
    requires unit > 0
    ensures var was, now, here := InSlot(unit, start, ops, slot), InSlot(unit, start, ops + [op], slot),
                                  PositionAfter(unit, start, ops + [op]).moved == slot;
            match op
            case Read(_) => now == was
            case Inc(_, delta) =>
              if !here then now == was
              else if was + delta > 9223372036854775807 then now == 9223372036854775807
              else if was + delta < -9223372036854775808 then now == -9223372036854775808
              else now == was + delta
  {
    assert (ops + [op])[..|ops|] == ops;
  }

  /** With a clock that never steps back the sum of a moment is what was added at it, and a slot shows
      it up to the largest number. */
  lemma SumMeans(unit: nat, start: int, ops: seq<Op>, op: Op, moment: int)
    requires op.at >= Latest(start, ops)
    ensures SumAt(start, ops + [op], moment)
            == SumAt(start, ops, moment) + if op.Inc? && op.at == moment then op.delta else 0
    ensures forall count: i64, i: nat :: IsCappedSum(count, unit, start, ops, i) ==>
              var sum := SumAt(start, ops, Latest(start, ops) - unit * i);
              count == if sum > 9223372036854775807 then 9223372036854775807 else sum
  {
    assert (ops + [op])[..|ops|] == ops;
  }

  // ---------- the bounded window ----------

  /** The counts agree with the history: slot i of the array is what was added i slots ago. */
  ghost predicate Agrees(counts: seq<i64>, unit: nat, start: int, ops: seq<Op>, moved: int)
    requires unit > 0
  {
    forall i :: 0 <= i < |counts| ==> counts[i] == InSlot(unit, start, ops, moved - i)
  }

  method RotateRight(counts: array<i64>, k: nat)
    requires k <= counts.Length
    modifies counts
    ensures counts[..] == old(counts[counts.Length - k..]) + old(counts[..counts.Length - k])
  {
    var n := counts.Length;
    forall i | 0 <= i < n {
      counts[i] := if i < k then counts[n - k + i] else counts[i - k];
    }
  }

  /** What both counters do when the clock has moved on by `shift` slots. */
  method Slide(counts: array<i64>, shift: nat)
    modifies counts
    ensures forall i :: 0 <= i < counts.Length ==> counts[i] == if i < shift then 0 else old(counts[i - shift])
  {
    var n := counts.Length;
    if shift >= n {
      forall i | 0 <= i < n {
        counts[i] := 0;
      }
    } else {
      ghost var was := counts[..];
      RotateRight(counts, shift);
      ghost var rotated := counts[..];
      assert forall i :: shift <= i < n ==> rotated[i] == was[i - shift];
      for i := 0 to shift
        invariant forall k :: 0 <= k < i ==> counts[k] == 0
        invariant forall k :: i <= k < n ==> counts[k] == rotated[k]
      {
        counts[i] := 0;
      }
    }
  }

  lemma SlidKeepsAgreement(was: seq<i64>, now: seq<i64>, shift: nat, unit: nat, start: int, ops: seq<Op>)
    requires unit > 0 && |was| == |now|
    requires forall i :: 0 <= i < |now| ==> now[i] == if i < shift then 0 else was[i - shift]
    requires Agrees(was, unit, start, ops, PositionAfter(unit, start, ops).moved)
    ensures Agrees(now, unit, start, ops, PositionAfter(unit, start, ops).moved + shift)
  {
    var moved := PositionAfter(unit, start, ops).moved;
    forall i | 0 <= i < |now| ensures now[i] == InSlot(unit, start, ops, moved + shift - i) {
      if i < shift {
        NothingInTheFuture(unit, start, ops, moved + shift - i);
      } else {
        assert moved + shift - i == moved - (i - shift);
      }
    }
  }

  /** A call that adds nothing leaves every slot as it was. */
  lemma ReadAddsNothing(unit: nat, start: int, ops: seq<Op>, at: int, counts: seq<i64>, moved: int)
    requires unit > 0 && Agrees(counts, unit, start, ops, moved)
    ensures Agrees(counts, unit, start, ops + [Read(at)], moved)
    ensures PositionAfter(unit, start, ops + [Read(at)]) == Move(unit, PositionAfter(unit, start, ops), at)
  {
    assert (ops + [Read(at)])[..|ops|] == ops;
  }

  /** An addition changes the slot the window stands at and no other. */
  lemma IncAddsToTheFirst(unit: nat, start: int, ops: seq<Op>, at: int, delta: i64, counts: seq<i64>)
    requires unit > 0 && |counts| > 0
    requires Agrees(counts, unit, start, ops, Move(unit, PositionAfter(unit, start, ops), at).moved)
    ensures var more := ops + [Inc(at, delta)];
            PositionAfter(unit, start, more) == Move(unit, PositionAfter(unit, start, ops), at)
            && Agrees(counts[0 := Saturate(counts[0] + delta)], unit, start, more, PositionAfter(unit, start, more).moved)
  {
    var more := ops + [Inc(at, delta)];
    assert more[..|ops|] == ops;
  }

  /** Days; the clock shows a day number. */
  class DateCounter {
    const reserveDays: nat
    const counts: array<i64>
    var lastDate: int
    ghost const start: int
    ghost var ops: seq<Op>

    ghost predicate Valid()
      reads this, counts
    {
      && counts.Length == reserveDays > 0
      && PositionAfter(1, start, ops).last == lastDate
      && Agrees(counts[..], 1, start, ops, PositionAfter(1, start, ops).moved)
    }

    constructor (reserve: nat, today: int)
      ensures Valid() && fresh(counts) && ops == [] && start == today
      ensures reserveDays == if reserve == 0 then 1 else reserve
    {
      var days := if reserve == 0 then 1 else reserve;
      reserveDays := days;
      counts := new i64[days](_ => 0);
      lastDate := today;
      start := today;
      ops := [];
    }

    method Rotate(today: int)
      requires Valid()
      modifies this`lastDate, counts
      ensures lastDate == Move(1, PositionAfter(1, start, ops), today).last
      ensures Agrees(counts[..], 1, start, ops, Move(1, PositionAfter(1, start, ops), today).moved)
    {
      if today <= lastDate {
        return;
      }
      var shift := today - lastDate;
      Slide(counts, shift);
      SlidKeepsAgreement(old(counts[..]), counts[..], shift, 1, start, ops);
      lastDate := today;
    }

    method Inc(today: int, delta: i64)
      requires Valid()
      modifies this, counts
      ensures Valid() && ops == old(ops) + [Op.Inc(today, delta)]
    {
      Rotate(today);
      IncAddsToTheFirst(1, start, ops, today, delta, counts[..]);
      ghost var was := counts[..];
      counts[0] := Saturate(counts[0] + delta);
      assert counts[..] == was[0 := Saturate(was[0] + delta)];
      ops := ops + [Op.Inc(today, delta)];
    }

    /** The last days, newest first: what was added on each of them, however long ago and in
        whatever order the clock showed them. */
    method LastDays(today: int, days: nat) returns (r: seq<i64>)
      requires Valid()
      modifies this, counts
      ensures Valid() && ops == old(ops) + [Read(today)]
      ensures |r| == if days < reserveDays then days else reserveDays
      ensures NoDecrements(ops) ==> HoldsCappedSums(r, 1, start, ops)
    {
      hide Base, NoDecrements, PositionAfter, Move, Latest, SumAt, InSlot, HoldsCappedSums;
      Rotate(today);
      ReadAddsNothing(1, start, ops, today, counts[..], Move(1, PositionAfter(1, start, ops), today).moved);
      ops := ops + [Read(today)];
      var n := if days < reserveDays then days else reserveDays;
      r := counts[..n];
      if NoDecrements(ops) {
        DaysAreInStep(Base(start, ops), ops);
        WindowHoldsCappedSums(r, 1, start, ops);
      }
    }
  }

  const MINUTE := 60_000_000_000  // the clock shows nanoseconds
  const HOUR := 60 * MINUTE

  /** What a local clock shows: the time `now`, `offset` ahead of it, and the offset of the instant
      that the start of this local hour stands for. There is none if the clock shows that hour start
      twice, or never, because the offset changes. */
  datatype Reading = Reading(now: int, offset: int, hourOffset: Option<int>)

  /** The start of the hour on the local clock; without a unique one the time stays as it is. */
  function TruncateHour(t: Reading): int {
    match t.hourOffset
    case Some(o) => t.now + t.offset - (t.now + t.offset) % HOUR - o
    case None => t.now
  }

  /** A time is cut to the last start of an hour on the local clock. */
  lemma TruncationMeans(t: Reading)
    ensures t.hourOffset.None? ==> TruncateHour(t) == t.now
    ensures t.hourOffset.Some? ==>
              var local := TruncateHour(t) + t.hourOffset.value;
              local % 3_600_000_000_000 == 0 && local <= t.now + t.offset < local + 3_600_000_000_000
  {
    var local := t.now + t.offset;
    assert local - local % HOUR == HOUR * (local / HOUR);
  }

  /** Hour starts that resolve are whole hours apart exactly if their offsets are. */
  lemma HoursAreAligned(a: Reading, b: Reading)
    requires a.hourOffset.Some? && b.hourOffset.Some?
    ensures (TruncateHour(a) - TruncateHour(b)) % HOUR == 0 <==> (a.hourOffset.value - b.hourOffset.value) % HOUR == 0
  {
    var x, y := (a.now + a.offset) / HOUR, (b.now + b.offset) / HOUR;
    assert TruncateHour(a) == HOUR * x - a.hourOffset.value && TruncateHour(b) == HOUR * y - b.hourOffset.value;
    assert TruncateHour(a) - TruncateHour(b) == HOUR * (x - y) - (a.hourOffset.value - b.hourOffset.value);
  }

  /** All offsets of the reading are whole hours from `zone`. */
  predicate WholeHoursFrom(zone: int, t: Reading) {
    (t.offset - zone) % HOUR == 0 && (t.hourOffset.Some? ==> (t.hourOffset.value - zone) % HOUR == 0)
  }

  /** In a zone that shifts by whole hours a reading is taken to the start of an hour of the zone
      exactly when its hour start resolves, or it is itself one. */
  lemma TruncatedToTheHourIff(zone: int, t: Reading)
    requires WholeHoursFrom(zone, t)
    ensures (TruncateHour(t) + zone) % HOUR == 0 <==> t.hourOffset.Some? || (t.now + t.offset) % HOUR == 0
  {
    var local := t.now + t.offset;
    assert local - local % HOUR == HOUR * (local / HOUR);
  }

  /** Two additions of one, the second of which comes later and does not move the window. */
  lemma ShownTogether(unit: nat, start: int, a: int, b: int)
    requires unit > 0 && start <= a < b
    requires Move(unit, Move(unit, Position(start, 0), a), b) == Move(unit, Position(start, 0), a)
    ensures var ops := [Inc(a, 1), Inc(b, 1)];
            && InSlot(unit, start, ops, PositionAfter(unit, start, ops).moved) == 2
            && SumAt(start, ops, Latest(start, ops)) == 1
  {
    var ops := [Inc(a, 1), Inc(b, 1)];
    var one := ops[..1];
    assert one[..0] == [] && one[0] == ops[0];
    var moved := Move(unit, Position(start, 0), a).moved;
    assert PositionAfter(unit, start, one).moved == moved && PositionAfter(unit, start, ops).moved == moved;
    assert InSlot(unit, start, one, moved) == 1;
    assert Latest(start, one) == a;
    assert ops[|ops| - 1].at == b && Latest(start, ops) == b;
    assert SumAt(start, one, b) == 0;
  }

  /** A zone that moves on by half an hour between two additions: the one before is shown as if it
      had been made at the new latest time. */
  lemma HalfHourShiftFails()
    ensures var ops := [Inc(TruncateHour(Reading(0, 0, Some(0))), 1),
                        Inc(TruncateHour(Reading(30 * MINUTE, 30 * MINUTE, Some(30 * MINUTE))), 1)];
            && InSlot(HOUR, 0, ops, PositionAfter(HOUR, 0, ops).moved) == 2
            && SumAt(0, ops, Latest(0, ops)) == 1
  {
    ShownTogether(HOUR, 0, 0, 30 * MINUTE);
  }

  /** An ordinary clock that is put back by one hour at 3:00, with a counter started at midnight:
      2:37 comes twice, so its hour start does not resolve. What is added then, and what is added
      33 minutes later at the second 2:10, is shown together, as if added at the later time. */
  lemma FallBackFails()
    ensures var first := Reading(37 * MINUTE, 2 * HOUR, None);
            var second := Reading(70 * MINUTE, HOUR, None);
            var start := TruncateHour(Reading(-2 * HOUR, 2 * HOUR, Some(2 * HOUR)));
            var ops := [Inc(TruncateHour(first), 1), Inc(TruncateHour(second), 1)];
            && WholeHoursFrom(HOUR, first) && WholeHoursFrom(HOUR, second)
            && !InStep(HOUR, Base(start, ops), ops)
            && InSlot(HOUR, start, ops, PositionAfter(HOUR, start, ops).moved) == 2
            && SumAt(start, ops, Latest(start, ops)) == 1
  {
    ShownTogether(HOUR, -2 * HOUR, 37 * MINUTE, 70 * MINUTE);
    var ops := [Inc(37 * MINUTE, 1), Inc(70 * MINUTE, 1)];
    assert ops[..1] == [Inc(37 * MINUTE, 1)];
    assert Base(-2 * HOUR, ops) == 37 * MINUTE == Latest(37 * MINUTE, ops[..1]);
  }

  lemma {:induction false} WholeHoursAreInStep(start: int, ops: seq<Op>)
    requires forall op <- ops :: (op.at - start) % HOUR == 0
    ensures InStep(HOUR, start, ops) && (Latest(start, ops) - start) % HOUR == 0
  {
    if ops != [] {
      WholeHoursAreInStep(start, ops[..|ops| - 1]);
      assert ops[|ops| - 1] in ops;
    }
  }

  /** Calls at these readings, from a counter made at the first of them. */
  ghost predicate CallsAt(made: Reading, start: int, readings: seq<Reading>, ops: seq<Op>) {
    && start == TruncateHour(made)
    && |ops| == |readings| && forall i :: 0 <= i < |ops| ==> ops[i].at == TruncateHour(readings[i])
  }

  /** In a zone that shifts by whole hours, calls whose hour starts resolve all come in step. */
  lemma WholeHourShiftsAreInStep(zone: int, made: Reading, start: int, readings: seq<Reading>, ops: seq<Op>)
    requires CallsAt(made, start, readings, ops)
    requires forall t <- [made] + readings :: WholeHoursFrom(zone, t) && t.hourOffset.Some?
    ensures InStep(HOUR, start, ops) && InStep(HOUR, Base(start, ops), ops)
  {
    var all := [made] + readings;
    assert all[0] == made;
    TruncatedToTheHourIff(zone, made);
    var base := Base(start, ops);
    forall i | 0 <= i < |ops| ensures (ops[i].at - start) % HOUR == 0 {
      assert all[i + 1] == readings[i];
      TruncatedToTheHourIff(zone, readings[i]);
      assert (ops[i].at + zone) % HOUR == 0 && (start + zone) % HOUR == 0;
    }
    forall op <- ops ensures (op.at - start) % HOUR == 0 && (op.at - base) % HOUR == 0 {
      assert (base - start) % HOUR == 0;
    }
    WholeHoursAreInStep(start, ops);
    WholeHoursAreInStep(base, ops);
  }

  /** Hours; the clock is read with the zone's offsets. */
  class HourCounter {
    const reserveHours: nat
    const counts: array<i64>
    var lastHour: int
    ghost const start: int
    ghost var ops: seq<Op>

    ghost predicate Valid()
      reads this, counts
    {
      && counts.Length == reserveHours > 0
      && PositionAfter(HOUR, start, ops).last == lastHour
      && Agrees(counts[..], HOUR, start, ops, PositionAfter(HOUR, start, ops).moved)
    }

    constructor (reserve: nat, t: Reading)
      ensures Valid() && fresh(counts) && ops == [] && start == TruncateHour(t)
      ensures reserveHours == if reserve == 0 then 1 else reserve
    {
      var hours := if reserve == 0 then 1 else reserve;
      reserveHours := hours;
      counts := new i64[hours](_ => 0);
      lastHour := TruncateHour(t);
      start := TruncateHour(t);
      ops := [];
    }

    method Rotate(t: Reading)
      requires Valid()
      modifies this`lastHour, counts
      ensures var p := Move(HOUR, PositionAfter(HOUR, start, ops), TruncateHour(t));
              lastHour == p.last && Agrees(counts[..], HOUR, start, ops, p.moved)
    {
      var current := TruncateHour(t);
      if current <= lastHour {
        return;
      }
      var hours := (current - lastHour) / HOUR;
      if hours <= 0 {
        return;
      }
      Slide(counts, hours);
      SlidKeepsAgreement(old(counts[..]), counts[..], hours, HOUR, start, ops);
      lastHour := current;
    }

    method Inc(t: Reading, delta: i64)
      requires Valid()
      modifies this, counts
      ensures Valid() && ops == old(ops) + [Op.Inc(TruncateHour(t), delta)]
    {
      Rotate(t);
      IncAddsToTheFirst(HOUR, start, ops, TruncateHour(t), delta, counts[..]);
      ghost var was := counts[..];
      counts[0] := Saturate(counts[0] + delta);
      assert counts[..] == was[0 := Saturate(was[0] + delta)];
      ops := ops + [Op.Inc(TruncateHour(t), delta)];
    }

    /** The last hours, newest first. */
    method LastHours(t: Reading, hours: nat) returns (r: seq<i64>)
      requires Valid()
      modifies this, counts
      ensures Valid() && ops == old(ops) + [Read(TruncateHour(t))]
      ensures |r| == if hours < reserveHours then hours else reserveHours
      ensures NoDecrements(ops) && InStep(HOUR, Base(start, ops), ops) ==> HoldsCappedSums(r, HOUR, start, ops)
    {
      hide Base, InStep, NoDecrements, PositionAfter, Move, Latest, SumAt, InSlot, HoldsCappedSums;
      Rotate(t);
      var current := TruncateHour(t);
      ReadAddsNothing(HOUR, start, ops, current, counts[..], Move(HOUR, PositionAfter(HOUR, start, ops), current).moved);
      ops := ops + [Read(current)];
      var n := if hours < reserveHours then hours else reserveHours;
      r := counts[..n];
      if NoDecrements(ops) && InStep(HOUR, Base(start, ops), ops) {
        WindowHoldsCappedSums(r, HOUR, start, ops);
      }
    }
  }
}
