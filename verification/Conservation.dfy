/** Minutes are conserved: what chunks hold is what the ledger lost from its free slots and what their tasks own. */
module Conservation {
  import opened Domain
  import opened Ledger
  import opened Placement
  import opened Ownership

  /** Minutes of the slots of `s` that are among `xs`. */
  ghost function SumIn(s: seq<LedgerSlot>, xs: seq<LedgerSlot>): int {
    if s == [] then 0 else (if s[0] in xs then Span(s[0]) else 0) + SumIn(s[1..], xs)
  }

  lemma {:induction false} SumInAbsent(s: seq<LedgerSlot>, x: LedgerSlot, xs: seq<LedgerSlot>)
    requires x !in s
    ensures SumIn(s, [x] + xs) == SumIn(s, xs)
    decreases |s|
  {
    if s != [] {
      SumInAbsent(s[1..], x, xs);
      assert s[0] in s;
    }
  }

  lemma {:induction false} SumInOne(s: seq<LedgerSlot>, x: LedgerSlot, xs: seq<LedgerSlot>)
    requires DistinctIds(s) && x in s && x !in xs
    ensures SumIn(s, [x] + xs) == Span(x) + SumIn(s, xs)
    decreases |s|
  {
    if s[0] == x {
      SumInAbsent(s[1..], x, xs);
    } else {
      SumInOne(s[1..], x, xs);
    }
  }

  lemma {:induction false} SumInNothing(s: seq<LedgerSlot>)
    ensures SumIn(s, []) == 0
    decreases |s|
  {
    if s != [] {
      SumInNothing(s[1..]);
    }
  }

  lemma {:induction false} SumInMinutes(s: seq<LedgerSlot>, xs: seq<LedgerSlot>)
    requires DistinctIds(s) && Distinct(xs) && forall x :: x in xs ==> x in s
    ensures SumIn(s, xs) == Minutes(xs)
    decreases |xs|
  {
    if xs == [] {
      SumInNothing(s);
    } else {
      assert xs == [xs[0]] + xs[1..];
      SumInMinutes(s, xs[1..]);
      SumInOne(s, xs[0], xs[1..]);
    }
  }

  /** All slots of all chunks, in order. */
  ghost function AllSlots(chunks: seq<Chunk>): seq<LedgerSlot> {
    if chunks == [] then [] else chunks[0].slots + AllSlots(chunks[1..])
  }

  function ChunkMinutes(chunks: seq<Chunk>): int {
    if chunks == [] then 0 else Minutes(chunks[0].slots) + ChunkMinutes(chunks[1..])
  }

  ghost function OfTask(chunks: seq<Chunk>, t: TaskId): seq<Chunk> {
    if chunks == [] then []
    else if chunks[0].task == t then [chunks[0]] + OfTask(chunks[1..], t)
    else OfTask(chunks[1..], t)
  }

  lemma {:induction false} AllSlotsMinutes(chunks: seq<Chunk>)
    ensures Minutes(AllSlots(chunks)) == ChunkMinutes(chunks)
    decreases |chunks|
  {
    if chunks != [] {
      AllSlotsMinutes(chunks[1..]);
      MinutesJoin(chunks[0].slots, AllSlots(chunks[1..]));
    }
  }

  lemma {:induction false} ChunkMinutesJoin(a: seq<Chunk>, b: seq<Chunk>)
    ensures ChunkMinutes(a + b) == ChunkMinutes(a) + ChunkMinutes(b)
    decreases |a|
  {
    if a == [] {
      assert a + b == b;
    } else {
      ChunkMinutesJoin(a[1..], b);
      assert (a + b)[1..] == a[1..] + b;
    }
  }

  lemma {:induction false} AllSlotsHeld(chunks: seq<Chunk>, x: LedgerSlot)
    ensures x in AllSlots(chunks) <==> Held(chunks, x)
    decreases |chunks|
  {
    if chunks != [] {
      AllSlotsHeld(chunks[1..], x);
      assert chunks == [chunks[0]] + chunks[1..];
      HeldJoin([chunks[0]], chunks[1..], x);
      assert Held([chunks[0]], x) <==> x in chunks[0].slots by {
        if x in chunks[0].slots {
          assert x in [chunks[0]][0].slots;
        }
      }
    }
  }

  ghost predicate NoChunkTwice(chunks: seq<Chunk>) {
    forall k {:trigger Distinct(chunks[k].slots)} :: 0 <= k < |chunks| ==> Distinct(chunks[k].slots)
  }

  lemma JoinOnce(a: seq<LedgerSlot>, b: seq<LedgerSlot>)
    requires Distinct(a) && Distinct(b) && forall x :: x in a ==> x !in b
    ensures Distinct(a + b)
  {
    forall i, j | 0 <= i < j < |a + b|
      ensures (a + b)[i] != (a + b)[j]
    {
      if i < |a| <= j {
        assert a[i] in a && b[j - |a|] in b;
      }
    }
  }

  lemma {:induction false} AllSlotsOnce(chunks: seq<Chunk>)
    requires Exclusive(chunks) && NoChunkTwice(chunks)
    ensures Distinct(AllSlots(chunks))
    decreases |chunks|
  {
    if chunks != [] {
      var rest := chunks[1..];
      forall k | 0 <= k < |rest|
        ensures Distinct(rest[k].slots)
      {
        assert Distinct(chunks[k + 1].slots);
      }
      AllSlotsOnce(rest);
      assert Distinct(chunks[0].slots);
      forall x | x in chunks[0].slots
        ensures x !in AllSlots(rest)
      {
        AllSlotsHeld(rest, x);
        assert forall l :: 0 <= l < |rest| ==> rest[l] == chunks[l + 1];
      }
      JoinOnce(chunks[0].slots, AllSlots(rest));
    }
  }

  /** A slot of `s0` that is not among `xs` is kept; one that is among them was free and no longer is. */
  ghost predicate Spends(xs: seq<LedgerSlot>, x: LedgerSlot, y: LedgerSlot) {
    if x in xs then x.free && !y.free && Span(y) == Span(x) else y == x
  }

  lemma {:induction false} FreeSpent(s0: seq<LedgerSlot>, s: seq<LedgerSlot>, xs: seq<LedgerSlot>)
    requires |s| == |s0| && forall i :: 0 <= i < |s| ==> Spends(xs, s0[i], s[i])
    ensures Minutes(FreeOf(s)) == Minutes(FreeOf(s0)) - SumIn(s0, xs)
    decreases |s|
  {
    if s != [] {
      FreeSpent(s0[1..], s[1..], xs);
      assert Spends(xs, s0[0], s[0]);
    }
  }

  /** Free minutes fall by exactly the minutes of the chunks handed out. */
  lemma FreeMinutesConserved(s0: seq<LedgerSlot>, s: seq<LedgerSlot>, chunks: seq<Chunk>)
    requires DistinctIds(s0) && Tracks(s0, s, chunks) && NoChunkTwice(chunks)
    ensures Minutes(FreeOf(s)) + ChunkMinutes(chunks) == Minutes(FreeOf(s0))
  {
    var xs := AllSlots(chunks);
    forall i | 0 <= i < |s|
      ensures Spends(xs, s0[i], s[i])
    {
      assert Became(chunks, s0[i], s[i]);
      AllSlotsHeld(chunks, s0[i]);
    }
    FreeSpent(s0, s, xs);
    AllSlotsFrom(s0, chunks);
    AllSlotsOnce(chunks);
    SumInMinutes(s0, xs);
    AllSlotsMinutes(chunks);
  }

  lemma AllSlotsFrom(s0: seq<LedgerSlot>, chunks: seq<Chunk>)
    requires AllAvailable(s0, chunks)
    ensures forall x :: x in AllSlots(chunks) ==> x in s0 && x.free
  {
    forall x | x in AllSlots(chunks)
      ensures x in s0 && x.free
    {
      AllSlotsHeld(chunks, x);
      var k :| 0 <= k < |chunks| && x in chunks[k].slots;
      assert Available(s0, chunks[k].slots);
    }
  }

  // ---------------------------------------------------------------- owned minutes

  lemma {:induction false} OfTaskSlots(chunks: seq<Chunk>, t: TaskId, x: LedgerSlot)
    ensures Held(OfTask(chunks, t), x) <==> exists k :: 0 <= k < |chunks| && chunks[k].task == t && x in chunks[k].slots
    decreases |chunks|
  {
    if chunks != [] {
      var rest := chunks[1..];
      OfTaskSlots(rest, t, x);
      if chunks[0].task == t {
        HeldJoin([chunks[0]], OfTask(rest, t), x);
        if x in chunks[0].slots {
          assert x in [chunks[0]][0].slots;
        }
      }
      assert forall k :: 0 <= k < |rest| ==> rest[k] == chunks[k + 1];
      if k :| 0 <= k < |chunks| && chunks[k].task == t && x in chunks[k].slots {
        if k > 0 {
          assert rest[k - 1] == chunks[k];
        }
      }
    }
  }

  lemma {:induction false} OfTaskOnce(chunks: seq<Chunk>, t: TaskId)
    requires Exclusive(chunks) && NoChunkTwice(chunks)
    ensures Distinct(AllSlots(OfTask(chunks, t)))
    decreases |chunks|
  {
    if chunks != [] {
      var rest := chunks[1..];
      forall k | 0 <= k < |rest|
        ensures Distinct(rest[k].slots)
      {
        assert Distinct(chunks[k + 1].slots);
      }
      OfTaskOnce(rest, t);
      assert Distinct(chunks[0].slots);
      forall x | x in chunks[0].slots
        ensures x !in AllSlots(OfTask(rest, t))
      {
        AllSlotsHeld(OfTask(rest, t), x);
        OfTaskSlots(rest, t, x);
        assert forall l :: 0 <= l < |rest| ==> rest[l] == chunks[l + 1];
      }
      JoinOnce(chunks[0].slots, AllSlots(OfTask(rest, t)));
    }
  }

  ghost predicate Gains(xs: seq<LedgerSlot>, t: TaskId, x: LedgerSlot, y: LedgerSlot) {
    if x in xs then x.owner != Some(t) && y.owner == Some(t) && Span(y) == Span(x)
    else (y.owner == Some(t) <==> x.owner == Some(t)) && Span(y) == Span(x)
  }

  lemma {:induction false} OwnedGained(s0: seq<LedgerSlot>, s: seq<LedgerSlot>, xs: seq<LedgerSlot>, t: TaskId)
    requires |s| == |s0| && forall i :: 0 <= i < |s| ==> Gains(xs, t, s0[i], s[i])
    ensures OwnedMinutes(s, t) == OwnedMinutes(s0, t) + SumIn(s0, xs)
    decreases |s|
  {
    if s != [] {
      OwnedGained(s0[1..], s[1..], xs, t);
      assert Gains(xs, t, s0[0], s[0]);
    }
  }

  /** Nobody owns a free slot. */
  ghost predicate FreeUnowned(s: seq<LedgerSlot>) {
    forall i :: 0 <= i < |s| && s[i].free ==> s[i].owner == None
  }

  /** A task's owned minutes grow by exactly the minutes of its chunks. */
  lemma OwnedMinutesConserved(s0: seq<LedgerSlot>, s: seq<LedgerSlot>, chunks: seq<Chunk>, t: TaskId)
    requires DistinctIds(s0) && FreeUnowned(s0) && Tracks(s0, s, chunks) && NoChunkTwice(chunks)
    ensures OwnedMinutes(s, t) == OwnedMinutes(s0, t) + ChunkMinutes(OfTask(chunks, t))
  {
    var mine := OfTask(chunks, t);
    var xs := AllSlots(mine);
    forall i | 0 <= i < |s|
      ensures Gains(xs, t, s0[i], s[i])
    {
      OwnerChanges(s0, s, chunks, t, i);
    }
    OwnedGained(s0, s, xs, t);
    forall x | x in xs
      ensures x in s0
    {
      AllSlotsHeld(mine, x);
      OfTaskSlots(chunks, t, x);
      var k :| 0 <= k < |chunks| && chunks[k].task == t && x in chunks[k].slots;
      assert Available(s0, chunks[k].slots);
    }
    OfTaskOnce(chunks, t);
    SumInMinutes(s0, xs);
    AllSlotsMinutes(mine);
  }

  lemma OwnerChanges(s0: seq<LedgerSlot>, s: seq<LedgerSlot>, chunks: seq<Chunk>, t: TaskId, i: int)
    requires FreeUnowned(s0) && Tracks(s0, s, chunks) && 0 <= i < |s|
    ensures Gains(AllSlots(OfTask(chunks, t)), t, s0[i], s[i])
  {
    var x := s0[i];
    assert Became(chunks, x, s[i]);
    AllSlotsHeld(OfTask(chunks, t), x);
    OfTaskSlots(chunks, t, x);
    if x == s[i] {
      assert !Held(chunks, x);
    } else {
      var k :| 0 <= k < |chunks| && x in chunks[k].slots && s[i] == x.(free := false, owner := Some(chunks[k].task));
      if l :| 0 <= l < |chunks| && chunks[l].task == t && x in chunks[l].slots {
        assert k == l;
      }
    }
  }
}
