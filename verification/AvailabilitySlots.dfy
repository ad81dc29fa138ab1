/** Availability slots: windows cut into tiles, busy time reserved, and a daily reserve cut from what is free. */
module AvailabilitySlots {
  import opened Domain

  datatype Interval = Interval(start: Instant, end: Instant)

  datatype SlotState = Free | FixedEvent | ProtectedFocusBlock | Buffer

  datatype Slot = Slot(id: nat, start: Instant, end: Instant, state: SlotState)

  /** What slots are built from. `day` is the local day of an instant; the capacity factor is `num / den`. */
  datatype Context = Context(
    windows: seq<Interval>,
    fixedEvents: seq<Interval>,
    focusBlocks: seq<Interval>,
    slotMinutes: int,
    num: int,
    den: int,
    day: Instant -> nat)

  function Length(s: Slot): int {
    s.end - s.start
  }

  predicate Hits(s: Slot, i: Interval) {
    s.start < i.end && i.start < s.end
  }

  // ---------------------------------------------------------------- tiles

  /** The tiles of `[start, end)`, at most `step` minutes each, numbered after `counter`. */
  function Tiles(start: Instant, end: Instant, step: int, counter: nat): seq<Slot>
    requires step > 0
    decreases end - start
  {
    if start >= end then []
    else
      var stop := Min(start + step, end);
      [Slot(counter + 1, start, stop, Free)] + Tiles(stop, end, step, counter + 1)
  }

  lemma JoinThree(a: seq<Slot>, b: seq<Slot>, c: seq<Slot>)
    ensures a + (b + c) == (a + b) + c
  {
  }

  /** `_split_window`. */
  method SplitWindow(window: Interval, step: int, counter: nat) returns (slots: seq<Slot>, next: nat)
    requires step > 0
    ensures slots == Tiles(window.start, window.end, step, counter)
    ensures next == counter + |slots|
  {
    slots, next := [], counter;
    var cursor := window.start;
    ghost var goal := Tiles(window.start, window.end, step, counter);
    while cursor < window.end
      invariant next == counter + |slots|
      invariant slots + Tiles(cursor, window.end, step, next) == goal
      decreases window.end - cursor
    {
      var stop := Min(cursor + step, window.end);
      next := next + 1;
      JoinThree(slots, [Slot(next, cursor, stop, Free)], Tiles(stop, window.end, step, next));
      slots := slots + [Slot(next, cursor, stop, Free)];
      cursor := stop;
    }
  }

  ghost predicate Touches(a: Slot, b: Slot) {
    a.end == b.start
  }

  ghost predicate Touching(s: seq<Slot>) {
    forall i, j :: 0 <= i && j == i + 1 < |s| ==> Touches(s[i], s[j])
  }

  function TotalLength(s: seq<Slot>): int {
    if s == [] then 0 else Length(s[0]) + TotalLength(s[1..])
  }

  /** A free slot of at least one and at most `step` minutes. */
  ghost predicate Fits(s: Slot, step: int) {
    s.state == Free && 0 < Length(s) <= step
  }

  ghost predicate AllFit(s: seq<Slot>, step: int) {
    forall i {:trigger Fits(s[i], step)} :: 0 <= i < |s| ==> Fits(s[i], step)
  }

  /** Ids follow the counter. */
  ghost predicate Numbered(s: seq<Slot>, counter: nat) {
    forall i :: 0 <= i < |s| ==> s[i].id == counter + 1 + i
  }

  /** Tiles cover the window from end to end without gap or overlap; only the last may be short. */
  ghost predicate Tiling(s: seq<Slot>, start: Instant, end: Instant, step: int, counter: nat) {
    && (if start < end then s != [] && s[0].start == start && s[|s| - 1].end == end else s == [])
    && Touching(s) && AllFit(s, step) && Numbered(s, counter)
    && (forall i :: 0 <= i < |s| - 1 ==> Length(s[i]) == step)
    && TotalLength(s) == Max(0, end - start)
  }

  lemma {:induction false} TilesTile(start: Instant, end: Instant, step: int, counter: nat)
    requires step > 0
    ensures Tiling(Tiles(start, end, step, counter), start, end, step, counter)
    decreases end - start
  {
    if start < end {
      var stop := Min(start + step, end);
      TilesTile(stop, end, step, counter + 1);
      TilingMore(Slot(counter + 1, start, stop, Free), Tiles(stop, end, step, counter + 1), end, step, counter);
    }
  }

  lemma TilingMore(first: Slot, rest: seq<Slot>, end: Instant, step: int, counter: nat)
    requires Tiling(rest, first.end, end, step, counter + 1)
    requires first.state == Free && first.id == counter + 1 && first.end == Min(first.start + step, end)
    requires first.start < end && step > 0
    ensures Tiling([first] + rest, first.start, end, step, counter)
  {
    var s := [first] + rest;
    forall i | 0 <= i < |s|
      ensures Fits(s[i], step)
    {
      if i > 0 {
        assert Fits(rest[i - 1], step);
      }
    }
    forall i, j | 0 <= i && j == i + 1 < |s|
      ensures Touches(s[i], s[j])
    {
      if i > 0 {
        assert Touches(rest[i - 1], rest[j - 1]);
      }
    }
  }

  lemma {:induction false} TouchingRises(s: seq<Slot>, step: int, i: int, j: int)
    requires Touching(s) && AllFit(s, step) && 0 <= i <= j < |s|
    ensures s[i].start <= s[j].start && s[i].end <= s[j].end && (i < j ==> s[i].end <= s[j].start)
    decreases j
  {
    if i < j {
      assert Touches(s[j - 1], s[j]) && Fits(s[j], step) && Fits(s[j - 1], step);
      TouchingRises(s, step, i, j - 1);
    }
  }

  /** Every tile lies inside its window. */
  lemma TileInside(start: Instant, end: Instant, step: int, counter: nat, i: int)
    requires step > 0 && 0 <= i < |Tiles(start, end, step, counter)|
    ensures start <= Tiles(start, end, step, counter)[i].start && Tiles(start, end, step, counter)[i].end <= end
  {
    var s := Tiles(start, end, step, counter);
    TilesTile(start, end, step, counter);
    TouchingRises(s, step, 0, i);
    TouchingRises(s, step, i, |s| - 1);
  }

  /** The tiles of all windows, in window order, under one counter. */
  function TileAll(windows: seq<Interval>, step: int, counter: nat): seq<Slot>
    requires step > 0
    decreases |windows|
  {
    if windows == [] then []
    else
      var tiles := Tiles(windows[0].start, windows[0].end, step, counter);
      tiles + TileAll(windows[1..], step, counter + |tiles|)
  }

  method SplitAll(windows: seq<Interval>, step: int) returns (slots: seq<Slot>)
    requires step > 0
    ensures slots == TileAll(windows, step, 0)
  {
    slots := [];
    var counter: nat := 0;
    for k := 0 to |windows|
      invariant slots + TileAll(windows[k..], step, counter) == TileAll(windows, step, 0)
    {
      var tiles, next := SplitWindow(windows[k], step, counter);
      assert windows[k..][0] == windows[k] && windows[k..][1..] == windows[k + 1..];
      assert slots + (tiles + TileAll(windows[k + 1..], step, next)) ==
             slots + tiles + TileAll(windows[k + 1..], step, next);
      slots, counter := slots + tiles, next;
    }
  }

  ghost predicate IntervalsApart(a: Interval, b: Interval) {
    a.end <= b.start || b.end <= a.start
  }

  ghost predicate WindowsApart(windows: seq<Interval>) {
    forall i, j :: 0 <= i < j < |windows| ==> IntervalsApart(windows[i], windows[j])
  }

  ghost predicate Apart(a: Slot, b: Slot) {
    a.end <= b.start || b.end <= a.start
  }

  lemma TilesFit(start: Instant, end: Instant, step: int, counter: nat)
    requires step > 0
    ensures AllFit(Tiles(start, end, step, counter), step) && Numbered(Tiles(start, end, step, counter), counter)
  {
    TilesTile(start, end, step, counter);
  }

  lemma {:induction false} TileAllFits(windows: seq<Interval>, step: int, counter: nat)
    requires step > 0
    ensures AllFit(TileAll(windows, step, counter), step) && Numbered(TileAll(windows, step, counter), counter)
    decreases |windows|
  {
    if windows != [] {
      var tiles := Tiles(windows[0].start, windows[0].end, step, counter);
      var rest := TileAll(windows[1..], step, counter + |tiles|);
      TilesFit(windows[0].start, windows[0].end, step, counter);
      TileAllFits(windows[1..], step, counter + |tiles|);
      FitsJoin(tiles, rest, step, counter);
      assert TileAll(windows, step, counter) == tiles + rest;
    }
  }

  lemma FitsJoin(a: seq<Slot>, b: seq<Slot>, step: int, counter: nat)
    requires AllFit(a, step) && Numbered(a, counter) && AllFit(b, step) && Numbered(b, counter + |a|)
    ensures AllFit(a + b, step) && Numbered(a + b, counter)
  {
    forall i | 0 <= i < |a + b|
      ensures Fits((a + b)[i], step)
    {
      if i < |a| {
        assert Fits(a[i], step);
      } else {
        assert Fits(b[i - |a|], step);
      }
    }
  }

  /** Every slot lies inside some window. */
  lemma {:induction false} TileAllInside(windows: seq<Interval>, step: int, counter: nat, i: int) returns (w: int)
    requires step > 0 && 0 <= i < |TileAll(windows, step, counter)|
    ensures 0 <= w < |windows|
    ensures windows[w].start <= TileAll(windows, step, counter)[i].start
    ensures TileAll(windows, step, counter)[i].end <= windows[w].end
    decreases |windows|
  {
    var tiles := Tiles(windows[0].start, windows[0].end, step, counter);
    if i < |tiles| {
      TileInside(windows[0].start, windows[0].end, step, counter, i);
      w := 0;
    } else {
      w := TileAllInside(windows[1..], step, counter + |tiles|, i - |tiles|);
      w := w + 1;
    }
  }

  lemma WindowsApartTail(windows: seq<Interval>)
    requires WindowsApart(windows) && windows != []
    ensures WindowsApart(windows[1..])
    ensures forall w :: 0 < w < |windows| ==> IntervalsApart(windows[0], windows[w])
  {
    forall i, j | 0 <= i < j < |windows[1..]|
      ensures IntervalsApart(windows[1..][i], windows[1..][j])
    {
      assert IntervalsApart(windows[i + 1], windows[j + 1]);
    }
  }

  /** Disjoint windows give disjoint slots. */
  lemma {:induction false} TileAllApart(windows: seq<Interval>, step: int, counter: nat, i: int, j: int)
    requires step > 0 && WindowsApart(windows) && 0 <= i < j < |TileAll(windows, step, counter)|
    ensures Apart(TileAll(windows, step, counter)[i], TileAll(windows, step, counter)[j])
    decreases |windows|
  {
    var tiles := Tiles(windows[0].start, windows[0].end, step, counter);
    var rest := TileAll(windows[1..], step, counter + |tiles|);
    assert TileAll(windows, step, counter) == tiles + rest;
    WindowsApartTail(windows);
    if j < |tiles| {
      TilesTile(windows[0].start, windows[0].end, step, counter);
      TouchingRises(tiles, step, i, j);
    } else if i >= |tiles| {
      TileAllApart(windows[1..], step, counter + |tiles|, i - |tiles|, j - |tiles|);
    } else {
      TileInside(windows[0].start, windows[0].end, step, counter, i);
      var w := TileAllInside(windows[1..], step, counter + |tiles|, j - |tiles|);
      assert IntervalsApart(windows[0], windows[w + 1]);
    }
  }

  // ---------------------------------------------------------------- reservations

  /** A free slot that overlaps one of the intervals takes the state. */
  function Taken(s: Slot, intervals: seq<Interval>, state: SlotState): Slot {
    if s.state.Free? && exists i | i in intervals :: Hits(s, i) then s.(state := state) else s
  }

  /** `_reserve_intervals`. */
  method ReserveIntervals(slots: seq<Slot>, intervals: seq<Interval>, state: SlotState) returns (reserved: seq<Slot>)
    ensures |reserved| == |slots|
    ensures forall i :: 0 <= i < |slots| ==> reserved[i] == Taken(slots[i], intervals, state)
  {
    if intervals == [] {
      return slots;
    }
    reserved := [];
    for k := 0 to |slots|
      invariant |reserved| == k
      invariant forall i :: 0 <= i < k ==> reserved[i] == Taken(slots[i], intervals, state)
    {
      var slot := slots[k];
      var hit := exists i | i in intervals :: Hits(slot, i);
      if hit && slot.state.Free? {
        reserved := reserved + [slot.(state := state)];
      } else {
        reserved := reserved + [slot];
      }
    }
  }
}
