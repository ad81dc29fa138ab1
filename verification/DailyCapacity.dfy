/** The daily capacity cut: the earliest free minutes of each local day stay schedulable, the rest becomes reserve. */
module DailyCapacity {
  import opened Domain
  import opened AvailabilitySlots

  /** `floor_to_slot(raw * num / den, step)`, without the floating-point noise its rounding guards against. */
  function FloorToSlot(raw: int, num: int, den: int, step: int): int
    requires den > 0 && step > 0
  {
    raw * num / (den * step) * step
  }

  /** A day's cut: which local day, and how slots map to days. */
  datatype Cut = Cut(day: Instant -> nat, num: int, den: int, step: int)

  ghost predicate CutOk(c: Cut) {
    c.den > 0 && c.step > 0
  }

  predicate FreeOn(c: Cut, s: Slot, d: nat) {
    s.state.Free? && c.day(s.start) == d
  }

  /** Free minutes of day `d` among the first `k` slots. */
  function RawMinutes(c: Cut, slots: seq<Slot>, d: nat, k: nat): int
    requires k <= |slots|
  {
    if k == 0 then 0
    else RawMinutes(c, slots, d, k - 1) + (if FreeOn(c, slots[k - 1], d) then Length(slots[k - 1]) else 0)
  }

  function Budget(c: Cut, slots: seq<Slot>, d: nat): int
    requires c.den > 0 && c.step > 0
  {
    FloorToSlot(RawMinutes(c, slots, d, |slots|), c.num, c.den, c.step)
  }

  /** What is left of the day's budget after the first `k` slots: each free slot that fits is paid for. */
  function Left(c: Cut, slots: seq<Slot>, d: nat, budget: int, k: nat): int
    requires k <= |slots|
  {
    if k == 0 then budget
    else
      var left := Left(c, slots, d, budget, k - 1);
      if FreeOn(c, slots[k - 1], d) && left >= Length(slots[k - 1]) then left - Length(slots[k - 1]) else left
  }

  /** The slot at `i` after the cut: a free slot its day's remaining budget does not cover becomes reserve. */
  function CutAt(c: Cut, slots: seq<Slot>, i: nat): Slot
    requires c.den > 0 && c.step > 0 && i < |slots|
  {
    var s := slots[i];
    var d := c.day(s.start);
    if s.state.Free? && Left(c, slots, d, Budget(c, slots, d), i) < Length(s) then s.(state := Buffer) else s
  }

  // ---------------------------------------------------------------- the loops

  ghost predicate Rising(a: seq<nat>) {
    forall i, j :: 0 <= i < j < |a| ==> a[i] < a[j]
  }

  /** `a` lists, in order, the positions below `k` of day `d`. */
  ghost predicate ListsDay(c: Cut, slots: seq<Slot>, a: seq<nat>, d: nat, k: nat)
    requires k <= |slots|
  {
    Rising(a) && forall i: nat :: i in a <==> i < k && c.day(slots[i].start) == d
  }

  ghost predicate Grouped(c: Cut, slots: seq<Slot>, byDay: map<nat, seq<nat>>, k: nat)
    requires k <= |slots|
  {
    && (forall d {:trigger ListsDay(c, slots, byDay[d], d, k)} :: d in byDay ==> ListsDay(c, slots, byDay[d], d, k))
    && (forall i :: 0 <= i < k ==> c.day(slots[i].start) in byDay)
  }

  function Bucket(byDay: map<nat, seq<nat>>, d: nat): seq<nat> {
    if d in byDay then byDay[d] else []
  }

  lemma GroupStep(c: Cut, slots: seq<Slot>, byDay: map<nat, seq<nat>>, k: nat)
    requires k < |slots| && Grouped(c, slots, byDay, k)
    ensures var d := c.day(slots[k].start); Grouped(c, slots, byDay[d := Bucket(byDay, d) + [k]], k + 1)
  {
    var e := c.day(slots[k].start);
    var next := byDay[e := Bucket(byDay, e) + [k]];
    forall d | d in next
      ensures ListsDay(c, slots, next[d], d, k + 1)
    {
      if d in byDay {
        assert ListsDay(c, slots, byDay[d], d, k);
      }
      if d == e {
        NewDay(c, slots, byDay, k);
        ListsOneMore(c, slots, Bucket(byDay, e), k);
      } else {
        ListsNoMore(c, slots, byDay[d], d, k);
      }
    }
  }

  /** The bucket of a day without one lists it too. */
  lemma NewDay(c: Cut, slots: seq<Slot>, byDay: map<nat, seq<nat>>, k: nat)
    requires k < |slots| && Grouped(c, slots, byDay, k)
    ensures ListsDay(c, slots, Bucket(byDay, c.day(slots[k].start)), c.day(slots[k].start), k)
  {
    var d := c.day(slots[k].start);
    if d in byDay {
      assert ListsDay(c, slots, byDay[d], d, k);
    }
  }

  lemma ListsOneMore(c: Cut, slots: seq<Slot>, a: seq<nat>, k: nat)
    requires k < |slots| && ListsDay(c, slots, a, c.day(slots[k].start), k)
    ensures ListsDay(c, slots, a + [k], c.day(slots[k].start), k + 1)
  {
    assert forall i :: 0 <= i < |a| ==> a[i] in a;
  }

  lemma ListsNoMore(c: Cut, slots: seq<Slot>, a: seq<nat>, d: nat, k: nat)
    requires k < |slots| && ListsDay(c, slots, a, d, k) && d != c.day(slots[k].start)
    ensures ListsDay(c, slots, a, d, k + 1)
  {
  }

  /** Positions grouped by local day. */
  method GroupByDay(c: Cut, slots: seq<Slot>) returns (byDay: map<nat, seq<nat>>)
    ensures Grouped(c, slots, byDay, |slots|)
  {
    byDay := map[];
    for k := 0 to |slots|
      invariant Grouped(c, slots, byDay, k)
    {
      GroupStep(c, slots, byDay, k);
      var d := c.day(slots[k].start);
      byDay := byDay[d := Bucket(byDay, d) + [k]];
    }
  }

  /** `a` lists, in order, the positions of the free slots of day `d`. */
  ghost predicate ListsFree(c: Cut, slots: seq<Slot>, a: seq<nat>, d: nat) {
    Rising(a) && forall i: nat :: i in a <==> i < |slots| && FreeOn(c, slots[i], d)
  }

  lemma RisingMore(indexes: seq<nat>, m: nat, free: seq<nat>)
    requires Rising(indexes) && m < |indexes| && Rising(free) && forall i :: i in free ==> i in indexes[..m]
    ensures Rising(free + [indexes[m]])
  {
    forall j | 0 <= j < |free|
      ensures free[j] < indexes[m]
    {
      assert free[j] in free;
      var n :| 0 <= n < m && indexes[n] == free[j];
    }
  }

  /** The free positions of a day and their minutes. */
  method FreeIndexes(c: Cut, slots: seq<Slot>, indexes: seq<nat>, d: nat) returns (free: seq<nat>)
    requires ListsDay(c, slots, indexes, d, |slots|)
    ensures ListsFree(c, slots, free, d)
  {
    free := [];
    for m := 0 to |indexes|
      invariant Rising(free)
      invariant forall i :: i in free <==> i in indexes[..m] && i < |slots| && slots[i].state.Free?
    {
      var index := indexes[m];
      assert index in indexes;
      TakeOneMore(indexes, m);
      RisingMore(indexes, m, free);
      if slots[index].state.Free? {
        free := free + [index];
      }
    }
    TakeAll(indexes);
  }

  /** Position of the `m`-th listed slot, or the end. */
  ghost function At(free: seq<nat>, m: nat, n: nat): nat {
    if m < |free| then free[m] else n
  }

  /** Between listed positions neither the raw minutes nor the remaining budget change. */
  lemma {:induction false} NothingBetween(c: Cut, slots: seq<Slot>, d: nat, budget: int, a: nat, b: nat)
    requires a <= b <= |slots| && forall i :: a <= i < b ==> !FreeOn(c, slots[i], d)
    ensures RawMinutes(c, slots, d, a) == RawMinutes(c, slots, d, b)
    ensures Left(c, slots, d, budget, a) == Left(c, slots, d, budget, b)
    decreases b
  {
    if a < b {
      NothingBetween(c, slots, d, budget, a, b - 1);
    }
  }

  lemma BeforeFirst(c: Cut, slots: seq<Slot>, free: seq<nat>, d: nat, budget: int)
    requires ListsFree(c, slots, free, d)
    ensures At(free, 0, |slots|) <= |slots|
    ensures RawMinutes(c, slots, d, At(free, 0, |slots|)) == 0
    ensures Left(c, slots, d, budget, At(free, 0, |slots|)) == budget
  {
    assert free != [] ==> free[0] in free;
    forall i | 0 <= i < At(free, 0, |slots|)
      ensures !FreeOn(c, slots[i], d)
    {
      assert i !in free;
    }
    NothingBetween(c, slots, d, budget, 0, At(free, 0, |slots|));
  }

  lemma AfterListed(c: Cut, slots: seq<Slot>, free: seq<nat>, d: nat, budget: int, m: nat)
    requires ListsFree(c, slots, free, d) && m < |free|
    ensures free[m] < |slots| && FreeOn(c, slots[free[m]], d)
    ensures free[m] + 1 <= At(free, m + 1, |slots|) <= |slots|
    ensures RawMinutes(c, slots, d, At(free, m + 1, |slots|)) == RawMinutes(c, slots, d, free[m]) + Length(slots[free[m]])
    ensures Left(c, slots, d, budget, At(free, m + 1, |slots|)) == Left(c, slots, d, budget, free[m] + 1)
  {
    assert free[m] in free;
    assert m + 1 < |free| ==> free[m + 1] in free;
    forall i | free[m] + 1 <= i < At(free, m + 1, |slots|)
      ensures !FreeOn(c, slots[i], d)
    {
      assert i !in free;
    }
    NothingBetween(c, slots, d, budget, free[m] + 1, At(free, m + 1, |slots|));
  }

  method SumFree(c: Cut, slots: seq<Slot>, free: seq<nat>, d: nat) returns (raw: int)
    requires ListsFree(c, slots, free, d)
    ensures raw == RawMinutes(c, slots, d, |slots|)
  {
    raw := 0;
    BeforeFirst(c, slots, free, d, 0);
    for m := 0 to |free|
      invariant At(free, m, |slots|) <= |slots| && raw == RawMinutes(c, slots, d, At(free, m, |slots|))
    {
      AfterListed(c, slots, free, d, 0, m);
      raw := raw + Length(slots[free[m]]);
    }
  }

  /** The days in `days` have been cut, the others have not. */
  ghost predicate CutDone(c: Cut, slots: seq<Slot>, result: seq<Slot>, days: set<nat>)
    requires CutOk(c)
  {
    && |result| == |slots|
    && forall i {:trigger result[i]} :: 0 <= i < |slots| ==>
         result[i] == if c.day(slots[i].start) in days then CutAt(c, slots, i) else slots[i]
  }

  /** Day `d` has been cut below position `k`. */
  ghost predicate CutBelow(c: Cut, slots: seq<Slot>, result: seq<Slot>, days: set<nat>, d: nat, k: nat)
    requires CutOk(c)
  {
    && |result| == |slots|
    && forall i {:trigger result[i]} :: 0 <= i < |slots| ==>
         result[i] == if c.day(slots[i].start) in days || (c.day(slots[i].start) == d && i < k)
                      then CutAt(c, slots, i) else slots[i]
  }

  lemma CutMore(c: Cut, slots: seq<Slot>, result: seq<Slot>, days: set<nat>, d: nat, a: nat, b: nat)
    requires CutOk(c) && CutBelow(c, slots, result, days, d, a) && a <= b <= |slots|
    requires forall i :: a <= i < b ==> !FreeOn(c, slots[i], d)
    ensures CutBelow(c, slots, result, days, d, b)
  {
  }

  /** The greedy loop over the free positions of one day. */
  method CutDay(c: Cut, slots: seq<Slot>, before: seq<Slot>, free: seq<nat>, d: nat, ghost days: set<nat>)
    returns (result: seq<Slot>)
    requires CutOk(c) && CutDone(c, slots, before, days) && d !in days
    requires ListsFree(c, slots, free, d)
    ensures CutDone(c, slots, result, days + {d})
  {
    var raw := SumFree(c, slots, free, d);
    var allowed := FloorToSlot(raw, c.num, c.den, c.step);
    result := before;
    ghost var budget := allowed;
    assert budget == Budget(c, slots, d);
    BeforeFirst(c, slots, free, d, budget);
    CutMoreList(c, slots, result, days, d, free, 0);
    for m := 0 to |free|
      invariant At(free, m, |slots|) <= |slots|
      invariant allowed == Left(c, slots, d, budget, At(free, m, |slots|))
      invariant CutBelow(c, slots, result, days, d, At(free, m, |slots|))
    {
      var index := free[m];
      AfterListed(c, slots, free, d, budget, m);
      var slot := slots[index];
      ghost var was := result;
      if allowed >= Length(slot) {
        allowed := allowed - Length(slot);
      } else {
        result := result[index := slot.(state := Buffer)];
      }
      CutOne(c, slots, was, result, days, d, index);
      CutMoreAt(c, slots, result, days, d, free, m);
    }
  }

  lemma CutOne(c: Cut, slots: seq<Slot>, was: seq<Slot>, result: seq<Slot>, days: set<nat>, d: nat, index: nat)
    requires CutOk(c) && CutBelow(c, slots, was, days, d, index) && d !in days
    requires index < |slots| && FreeOn(c, slots[index], d)
    requires result == was[index := CutAt(c, slots, index)]
    ensures CutBelow(c, slots, result, days, d, index + 1)
  {
  }

  lemma CutMoreList(c: Cut, slots: seq<Slot>, result: seq<Slot>, days: set<nat>, d: nat, free: seq<nat>, m: nat)
    requires CutOk(c) && CutDone(c, slots, result, days) && ListsFree(c, slots, free, d) && m == 0
    ensures CutBelow(c, slots, result, days, d, At(free, 0, |slots|))
  {
    assert CutBelow(c, slots, result, days, d, 0);
    assert free != [] ==> free[0] in free;
    forall i | 0 <= i < At(free, 0, |slots|)
      ensures !FreeOn(c, slots[i], d)
    {
      assert i !in free;
    }
    CutMore(c, slots, result, days, d, 0, At(free, 0, |slots|));
  }

  lemma CutMoreAt(c: Cut, slots: seq<Slot>, result: seq<Slot>, days: set<nat>, d: nat, free: seq<nat>, m: nat)
    requires CutOk(c) && ListsFree(c, slots, free, d) && m < |free| && free[m] < |slots|
    requires CutBelow(c, slots, result, days, d, free[m] + 1)
    ensures CutBelow(c, slots, result, days, d, At(free, m + 1, |slots|))
  {
    assert m + 1 < |free| ==> free[m + 1] in free;
    forall i | free[m] + 1 <= i < At(free, m + 1, |slots|)
      ensures !FreeOn(c, slots[i], d)
    {
      assert i !in free;
    }
    CutMore(c, slots, result, days, d, free[m] + 1, At(free, m + 1, |slots|));
  }

  /** `_apply_daily_capacity`. */
  method ApplyDailyCapacity(c: Cut, slots: seq<Slot>) returns (result: seq<Slot>)
    requires CutOk(c)
    ensures |result| == |slots| && forall i :: 0 <= i < |slots| ==> result[i] == CutAt(c, slots, i)
  {
    var byDay := GroupByDay(c, slots);
    var days := SortedIds(byDay.Keys);
    SortedIdsIncreasing(byDay.Keys);
    result := slots;
    for k := 0 to |days|
      invariant CutDone(c, slots, result, set j | 0 <= j < k :: days[j])
    {
      var d := days[k];
      assert d in days;
      assert ListsDay(c, slots, byDay[d], d, |slots|);
      var free := FreeIndexes(c, slots, byDay[d], d);
      ghost var done := set j | 0 <= j < k :: days[j];
      result := CutDay(c, slots, result, free, d, done);
      assert (set j | 0 <= j < k + 1 :: days[j]) == done + {d};
    }
    forall i | 0 <= i < |slots|
      ensures result[i] == CutAt(c, slots, i)
    {
      assert c.day(slots[i].start) in days;
    }
  }
}
