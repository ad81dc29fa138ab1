/** Building the slots of a pass, and what their states and daily capacity amount to. */
module UniqueSlots {
  import opened Domain
  import opened AvailabilitySlots
  import opened DailyCapacity

  ghost predicate ContextOk(x: Context) {
    x.slotMinutes > 0 && x.den > 0
  }

  function CutOf(x: Context): Cut {
    Cut(x.day, x.num, x.den, x.slotMinutes)
  }

  /** A tile after fixed events, then protected blocks, took their slots. */
  function BusyTile(x: Context, tile: Slot): Slot {
    Taken(Taken(tile, x.fixedEvents, FixedEvent), x.focusBlocks, ProtectedFocusBlock)
  }

  function Busy(x: Context): seq<Slot>
    requires x.slotMinutes > 0
  {
    var tiles := TileAll(x.windows, x.slotMinutes, 0);
    seq(|tiles|, i requires 0 <= i < |tiles| => BusyTile(x, tiles[i]))
  }

  function Built(x: Context): seq<Slot>
    requires x.slotMinutes > 0 && x.den > 0
  {
    seq(|Busy(x)|, i requires 0 <= i < |Busy(x)| => CutAt(CutOf(x), Busy(x), i))
  }

  /** `build_unique_slots`. */
  method BuildUniqueSlots(x: Context) returns (slots: seq<Slot>)
    requires ContextOk(x)
    ensures slots == Built(x)
  {
    slots := SplitAll(x.windows, x.slotMinutes);
    slots := ReserveIntervals(slots, x.fixedEvents, FixedEvent);
    slots := ReserveIntervals(slots, x.focusBlocks, ProtectedFocusBlock);
    assert slots == Busy(x);
    slots := ApplyDailyCapacity(CutOf(x), slots);
  }

  // ---------------------------------------------------------------- states

  ghost predicate HitsAny(s: Slot, intervals: seq<Interval>) {
    exists i :: i in intervals && Hits(s, i)
  }

  /** Each built slot is its tile with exactly one state, decided by what overlaps it. */
  ghost predicate StateDecided(x: Context, tile: Slot, s: Slot) {
    && s.id == tile.id && s.start == tile.start && s.end == tile.end
    && (s.state == FixedEvent <==> HitsAny(tile, x.fixedEvents))
    && (s.state == ProtectedFocusBlock <==> !HitsAny(tile, x.fixedEvents) && HitsAny(tile, x.focusBlocks))
  }

  lemma StatesDecided(x: Context, i: int)
    requires ContextOk(x) && 0 <= i < |Built(x)|
    ensures |Built(x)| == |TileAll(x.windows, x.slotMinutes, 0)|
    ensures StateDecided(x, TileAll(x.windows, x.slotMinutes, 0)[i], Built(x)[i])
  {
    TileAllFits(x.windows, x.slotMinutes, 0);
    var tile := TileAll(x.windows, x.slotMinutes, 0)[i];
    assert Fits(tile, x.slotMinutes);
    assert Busy(x)[i] == BusyTile(x, tile);
  }

  /** Built slots have distinct ids, last between one and `slotMinutes` minutes, and are disjoint if the windows are. */
  lemma BuiltShape(x: Context, i: int, j: int)
    requires ContextOk(x) && 0 <= i < j < |Built(x)|
    ensures Built(x)[i].id != Built(x)[j].id
    ensures 0 < Length(Built(x)[i]) <= x.slotMinutes && 0 < Length(Built(x)[j]) <= x.slotMinutes
    ensures WindowsApart(x.windows) ==> Apart(Built(x)[i], Built(x)[j])
  {
    var tiles := TileAll(x.windows, x.slotMinutes, 0);
    StatesDecided(x, i);
    StatesDecided(x, j);
    TileAllFits(x.windows, x.slotMinutes, 0);
    assert Fits(tiles[i], x.slotMinutes) && Fits(tiles[j], x.slotMinutes);
    if WindowsApart(x.windows) {
      TileAllApart(x.windows, x.slotMinutes, 0, i, j);
    }
  }

  // ---------------------------------------------------------------- capacity

  ghost predicate Cuttable(c: Cut, slots: seq<Slot>) {
    && CutOk(c) && 0 <= c.num <= c.den
    && forall i :: 0 <= i < |slots| ==> 0 < Length(slots[i]) <= c.step
  }

  function AfterCut(c: Cut, slots: seq<Slot>): seq<Slot>
    requires c.den > 0 && c.step > 0
  {
    seq(|slots|, i requires 0 <= i < |slots| => CutAt(c, slots, i))
  }

  /** What stays free on a day is what the budget paid for. */
  lemma {:induction false} KeptIsPaid(c: Cut, slots: seq<Slot>, d: nat, k: nat)
    requires CutOk(c) && k <= |slots|
    ensures RawMinutes(c, AfterCut(c, slots), d, k) == Budget(c, slots, d) - Left(c, slots, d, Budget(c, slots, d), k)
    decreases k
  {
    if k > 0 {
      KeptIsPaid(c, slots, d, k - 1);
      assert AfterCut(c, slots)[k - 1] == CutAt(c, slots, k - 1);
    }
  }

  lemma {:induction false} LeftFalls(c: Cut, slots: seq<Slot>, d: nat, budget: int, a: nat, b: nat)
    requires Cuttable(c, slots) && a <= b <= |slots|
    ensures Left(c, slots, d, budget, b) <= Left(c, slots, d, budget, a)
    ensures budget >= 0 ==> Left(c, slots, d, budget, b) >= 0
    decreases b
  {
    if a < b {
      LeftFalls(c, slots, d, budget, a, b - 1);
    } else if b > 0 {
      LeftFalls(c, slots, d, budget, 0, b - 1);
    }
  }

  lemma {:induction false} RawNonnegative(c: Cut, slots: seq<Slot>, d: nat, k: nat)
    requires Cuttable(c, slots) && k <= |slots|
    ensures RawMinutes(c, slots, d, k) >= 0
    decreases k
  {
    if k > 0 {
      RawNonnegative(c, slots, d, k - 1);
    }
  }

  ghost predicate InSlots(minutes: int, n: int, step: int) {
    minutes == n * step
  }

  /** Rounding down to whole slots never exceeds the factor, nor the raw minutes themselves. */
  lemma FloorBounds(raw: int, num: int, den: int, step: int)
    requires raw >= 0 && 0 <= num <= den && den > 0 && step > 0
    ensures 0 <= FloorToSlot(raw, num, den, step) <= raw
    ensures FloorToSlot(raw, num, den, step) * den <= raw * num < (FloorToSlot(raw, num, den, step) + step) * den
    ensures exists n :: InSlots(FloorToSlot(raw, num, den, step), n, step)
  {
    var q := raw * num / (den * step);
    var f := q * step;
    assert InSlots(f, q, step);
    Multiply(den, step);
    NonNegative(raw, num);
    DivBounds(raw * num, den * step);
    assert q * (den * step) == f * den by {
      Rearrange(q, den, step);
    }
    assert (q + 1) * (den * step) == (f + step) * den by {
      Rearrange(q + 1, den, step);
      assert (q + 1) * step == f + step;
    }
    assert f * den <= raw * num;
    LessFactor(raw, num, den);
    CancelFactor(f, raw, den);
    QuotientNonNegative(raw * num, den * step);
    NonNegative(q, step);
  }

  // ---------------------------------------------------------------- the noise guard

  const MILLION: int := 1_000_000

  /** An integer within six tenths of a million times `n / d` has the same whole millions as `n / d` has wholes. */
  lemma NearestKeepsFloor(n: int, d: int, r: int)
    requires 0 < d <= MILLION
    requires -6 * d <= 10 * (r * d - n * MILLION) <= 6 * d
    ensures r / MILLION == n / d
  {
    var q := n / d;
    DivBounds(n, d);
    Distribute(q, d);
    assert q * d <= n <= q * d + d - 1;
    if r < q * MILLION {
      AtMost(r, q * MILLION - 1, d);
      Regroup(q, d);
      assert false;
    }
    if r >= (q + 1) * MILLION {
      AtMost((q + 1) * MILLION, r, d);
      Regroup(q + 1, d);
      assert false;
    }
    QuotientIs(r, q);
  }

  lemma Distribute(q: int, d: int)
    ensures (q + 1) * d == q * d + d
  {
  }

  lemma AtMost(a: int, b: int, d: int)
    requires a <= b && d > 0
    ensures a * d <= b * d
  {
  }

  lemma Regroup(q: int, d: int)
    ensures (q * MILLION) * d == (q * d) * MILLION && (q * MILLION - 1) * d == (q * d) * MILLION - d
  {
  }

  lemma QuotientIs(r: int, q: int)
    requires q * MILLION <= r < (q + 1) * MILLION
    ensures r / MILLION == q
  {
  }

  /**
   `r` millionths lie within six tenths of a millionth of `n / d`: half of one from rounding to six decimals, and up to
   a tenth of one from computing `n / d` in floating point.
   */
  ghost predicate RoundedNear(r: int, n: int, d: int) {
    -6 * d <= 10 * (r * d - n * MILLION) <= 6 * d
  }

  /** The rounding that guards the floor makes the floating-point computation exact. */
  lemma NoiseGuardExact(raw: int, num: int, den: int, step: int, r: int)
    requires den > 0 && step > 0 && 0 < den * step <= MILLION
    requires RoundedNear(r, raw * num, den * step)
    ensures r / MILLION * step == FloorToSlot(raw, num, den, step)
  {
    NearestKeepsFloor(raw * num, den * step, r);
  }

  // ---------------------------------------------------------------- arithmetic

  lemma Multiply(a: int, b: int)
    requires a > 0 && b > 0
    ensures a * b > 0
  {
  }

  lemma NonNegative(a: int, b: int)
    requires a >= 0 && b >= 0
    ensures a * b >= 0
  {
  }

  lemma DivBounds(n: int, m: int)
    requires m > 0
    ensures (n / m) * m <= n < (n / m + 1) * m
  {
  }

  lemma QuotientNonNegative(n: int, m: int)
    requires n >= 0 && m > 0
    ensures n / m >= 0
  {
  }

  lemma Rearrange(q: int, a: int, b: int)
    ensures q * (a * b) == (q * b) * a
  {
  }

  lemma LessFactor(raw: int, num: int, den: int)
    requires raw >= 0 && num <= den
    ensures raw * num <= raw * den
  {
  }

  lemma CancelFactor(a: int, b: int, den: int)
    requires a * den <= b * den && den > 0
    ensures a <= b
  {
  }

  /**
   After the cut a day keeps at most its budget of free minutes, and more than the budget less one slot; the budget
   is the day's unreserved minutes times the factor, rounded down to whole slots.
   */
  lemma CapacityKept(c: Cut, slots: seq<Slot>, d: nat)
    requires Cuttable(c, slots)
    ensures var n := |slots|; var kept := RawMinutes(c, AfterCut(c, slots), d, n);
      Budget(c, slots, d) - c.step < kept <= Budget(c, slots, d)
    ensures Budget(c, slots, d) * c.den <= RawMinutes(c, slots, d, |slots|) * c.num
  {
    var n := |slots|;
    var budget := Budget(c, slots, d);
    RawNonnegative(c, slots, d, n);
    FloorBounds(RawMinutes(c, slots, d, n), c.num, c.den, c.step);
    KeptIsPaid(c, slots, d, n);
    LeftFalls(c, slots, d, budget, 0, n);
    if i :| 0 <= i < n && FreeOn(c, slots[i], d) && Left(c, slots, d, budget, i) < Length(slots[i]) {
      LeftFalls(c, slots, d, budget, i, n);
    } else {
      NothingCut(c, slots, d, n);
    }
  }

  lemma {:induction false} NothingCut(c: Cut, slots: seq<Slot>, d: nat, k: nat)
    requires CutOk(c) && k <= |slots|
    requires forall i :: 0 <= i < k && FreeOn(c, slots[i], d) ==>
      Left(c, slots, d, Budget(c, slots, d), i) >= Length(slots[i])
    ensures Budget(c, slots, d) - Left(c, slots, d, Budget(c, slots, d), k) == RawMinutes(c, slots, d, k)
    decreases k
  {
    if k > 0 {
      NothingCut(c, slots, d, k - 1);
    }
  }

  /** The reserve is pushed to the day's tail: past a cut slot only shorter slots are kept. */
  lemma EarliestKept(c: Cut, slots: seq<Slot>, d: nat, i: nat, j: nat)
    requires Cuttable(c, slots) && i < j < |slots|
    requires FreeOn(c, slots[i], d) && FreeOn(c, slots[j], d)
    requires AfterCut(c, slots)[i].state == Buffer && AfterCut(c, slots)[j].state == Free
    ensures Length(slots[j]) < Length(slots[i])
  {
    LeftFalls(c, slots, d, Budget(c, slots, d), i, j);
  }
}
