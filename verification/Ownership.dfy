/** Who owns which slot: chunks are runs of free slots, no slot is handed out twice, and minutes are conserved. */
module Ownership {
  import opened Domain
  import opened Ledger
  import opened Placement

  ghost predicate DistinctIds(s: seq<LedgerSlot>) {
    forall i, j :: 0 <= i < j < |s| ==> s[i].id != s[j].id
  }

  /** Every slot lasts at least a minute. */
  ghost predicate Positive(s: seq<LedgerSlot>) {
    forall i :: 0 <= i < |s| ==> Span(s[i]) > 0
  }

  ghost predicate Held(chunks: seq<Chunk>, x: LedgerSlot) {
    exists k :: 0 <= k < |chunks| && x in chunks[k].slots
  }

  /** The slots `xs` are free slots of the ledger `s`. */
  ghost predicate Available(s: seq<LedgerSlot>, xs: seq<LedgerSlot>) {
    forall x :: x in xs ==> x in s && x.free
  }

  /** `y` is what became of slot `x`: owned by the task of a chunk that holds it, or untouched. */
  ghost predicate Became(chunks: seq<Chunk>, x: LedgerSlot, y: LedgerSlot) {
    if x == y then !Held(chunks, x)
    else
      && x.free
      && exists k :: 0 <= k < |chunks| && x in chunks[k].slots && y == x.(free := false, owner := Some(chunks[k].task))
  }

  /** No slot is in two chunks. */
  ghost predicate Exclusive(chunks: seq<Chunk>) {
    forall k, l, x :: 0 <= k < l < |chunks| && x in chunks[k].slots ==> x !in chunks[l].slots
  }

  ghost predicate AllBecame(s0: seq<LedgerSlot>, s: seq<LedgerSlot>, chunks: seq<Chunk>) {
    && |s| == |s0|
    && forall i {:trigger Became(chunks, s0[i], s[i])} :: 0 <= i < |s| ==> Became(chunks, s0[i], s[i])
  }

  ghost predicate AllAvailable(s0: seq<LedgerSlot>, chunks: seq<Chunk>) {
    forall k {:trigger Available(s0, chunks[k].slots)} :: 0 <= k < |chunks| ==> Available(s0, chunks[k].slots)
  }

  /** The ledger `s` is `s0` after handing out `chunks`, each a set of slots free in `s0`, no slot twice. */
  ghost predicate Tracks(s0: seq<LedgerSlot>, s: seq<LedgerSlot>, chunks: seq<Chunk>) {
    AllBecame(s0, s, chunks) && AllAvailable(s0, chunks) && Exclusive(chunks)
  }

  lemma NothingTracked(s: seq<LedgerSlot>)
    ensures Tracks(s, s, [])
  {
  }

  /** A slot still free is as it was and in no chunk. */
  lemma FreeIsUntouched(s0: seq<LedgerSlot>, s: seq<LedgerSlot>, chunks: seq<Chunk>, x: LedgerSlot)
    requires AllBecame(s0, s, chunks) && x in s && x.free
    ensures x in s0 && !Held(chunks, x)
  {
    var i :| 0 <= i < |s| && s[i] == x;
    assert Became(chunks, s0[i], s[i]);
  }

  lemma SameIdSameSlot(s: seq<LedgerSlot>, x: LedgerSlot, y: LedgerSlot)
    requires DistinctIds(s) && x in s && y in s && x.id == y.id
    ensures x == y
  {
    var a :| 0 <= a < |s| && s[a] == x;
    var b :| 0 <= b < |s| && s[b] == y;
  }

  lemma InIds(xs: seq<LedgerSlot>, x: LedgerSlot)
    requires x in xs
    ensures x.id in IdsOf(xs)
  {
    var i :| 0 <= i < |xs| && xs[i] == x;
    assert IdsOf(xs)[i] == x.id;
  }

  /** Ids identify slots, so claiming the ids of some slots claims those slots only. */
  lemma IdsIdentify(s: seq<LedgerSlot>, xs: seq<LedgerSlot>, x: LedgerSlot)
    requires DistinctIds(s) && x in s && forall y :: y in xs ==> y in s
    ensures x.id in IdsOf(xs) <==> x in xs
  {
    if x in xs {
      InIds(xs, x);
    }
    if x.id in IdsOf(xs) {
      var j :| 0 <= j < |xs| && xs[j].id == x.id;
      assert xs[j] in s;
      var a :| 0 <= a < |s| && s[a] == xs[j];
      var b :| 0 <= b < |s| && s[b] == x;
    }
  }

  lemma HeldMore(chunks: seq<Chunk>, c: Chunk, x: LedgerSlot)
    ensures Held(chunks + [c], x) <==> Held(chunks, x) || x in c.slots
  {
    var more := chunks + [c];
    if Held(chunks, x) {
      var k :| 0 <= k < |chunks| && x in chunks[k].slots;
      assert x in more[k].slots;
    }
    if x in c.slots {
      assert x in more[|chunks|].slots;
    }
  }

  lemma BecameMore(chunks: seq<Chunk>, c: Chunk, x: LedgerSlot, y: LedgerSlot)
    requires Became(chunks, x, y) && x !in c.slots
    ensures Became(chunks + [c], x, y)
  {
    HeldMore(chunks, c, x);
    if x != y {
      var k :| 0 <= k < |chunks| && x in chunks[k].slots && y == x.(free := false, owner := Some(chunks[k].task));
      assert (chunks + [c])[k] == chunks[k];
    }
  }

  lemma ShapeKeepsIds(s0: seq<LedgerSlot>, s: seq<LedgerSlot>, chunks: seq<Chunk>)
    requires AllBecame(s0, s, chunks) && DistinctIds(s0)
    ensures DistinctIds(s)
  {
    forall i | 0 <= i < |s|
      ensures s[i].id == s0[i].id
    {
      assert Became(chunks, s0[i], s[i]);
    }
  }

  /** Handing free slots to a task adds them as a chunk. */
  lemma AllocateTracks(s0: seq<LedgerSlot>, s: seq<LedgerSlot>, chunks: seq<Chunk>, c: Chunk)
    requires DistinctIds(s0) && Tracks(s0, s, chunks) && Available(s, c.slots)
    ensures Tracks(s0, Allocate(s, IdsOf(c.slots), c.task), chunks + [c])
  {
    var t := Allocate(s, IdsOf(c.slots), c.task);
    var more := chunks + [c];
    ShapeKeepsIds(s0, s, chunks);
    forall x | x in c.slots
      ensures x in s0 && x.free && !Held(chunks, x)
    {
      FreeIsUntouched(s0, s, chunks, x);
    }
    forall i | 0 <= i < |t|
      ensures Became(more, s0[i], t[i])
    {
      assert Became(chunks, s0[i], s[i]);
      IdsIdentify(s, c.slots, s[i]);
      if s[i] in c.slots {
        assert s[i].free && s[i] == s0[i];
        assert more[|chunks|] == c;
        HeldMore(chunks, c, s0[i]);
      } else {
        if s0[i] in s {
          SameIdSameSlot(s, s0[i], s[i]);
        }
        BecameMore(chunks, c, s0[i], s[i]);
      }
    }
    forall k | 0 <= k < |more|
      ensures Available(s0, more[k].slots)
    {
      if k < |chunks| {
        assert Available(s0, chunks[k].slots);
      } else {
        assert more[k] == c;
      }
    }
    forall k, l, x | 0 <= k < l < |more| && x in more[k].slots
      ensures x !in more[l].slots
    {
      assert Held(chunks, x);
    }
  }

  /** Handing out chunks in two steps is handing out all of them. */
  lemma TracksJoin(s0: seq<LedgerSlot>, s1: seq<LedgerSlot>, s2: seq<LedgerSlot>, a: seq<Chunk>, b: seq<Chunk>)
    requires Tracks(s0, s1, a) && Tracks(s1, s2, b)
    ensures Tracks(s0, s2, a + b)
  {
    forall l, x | 0 <= l < |b| && x in b[l].slots
      ensures x in s0 && x.free && !Held(a, x)
    {
      assert Available(s1, b[l].slots);
      FreeIsUntouched(s0, s1, a, x);
    }
    forall i | 0 <= i < |s2|
      ensures Became(a + b, s0[i], s2[i])
    {
      assert Became(a, s0[i], s1[i]) && Became(b, s1[i], s2[i]);
      BecameJoin(a, b, s0[i], s1[i], s2[i]);
    }
    forall k | 0 <= k < |a + b|
      ensures Available(s0, (a + b)[k].slots)
    {
      if k < |a| {
        assert Available(s0, a[k].slots);
      } else {
        assert (a + b)[k] == b[k - |a|];
      }
    }
    forall k, l, x | 0 <= k < l < |a + b| && x in (a + b)[k].slots
      ensures x !in (a + b)[l].slots
    {
      if k < |a| {
        assert Held(a, x);
      }
    }
  }

  lemma HeldJoin(a: seq<Chunk>, b: seq<Chunk>, x: LedgerSlot)
    ensures Held(a + b, x) <==> Held(a, x) || Held(b, x)
  {
    if Held(a, x) {
      var k :| 0 <= k < |a| && x in a[k].slots;
      assert x in (a + b)[k].slots;
    }
    if Held(b, x) {
      var k :| 0 <= k < |b| && x in b[k].slots;
      assert x in (a + b)[|a| + k].slots;
    }
    if Held(a + b, x) {
      var k :| 0 <= k < |a + b| && x in (a + b)[k].slots;
      if k < |a| {
        assert x in a[k].slots;
      } else {
        assert x in b[k - |a|].slots;
      }
    }
  }

  lemma BecameJoin(a: seq<Chunk>, b: seq<Chunk>, x: LedgerSlot, y: LedgerSlot, z: LedgerSlot)
    requires Became(a, x, y) && Became(b, y, z)
    requires Held(b, x) ==> !Held(a, x)
    ensures Became(a + b, x, z)
  {
    HeldJoin(a, b, x);
    if y != z {
      var k :| 0 <= k < |b| && y in b[k].slots && z == y.(free := false, owner := Some(b[k].task));
      assert (a + b)[|a| + k] == b[k];
    } else if x != y {
      var k :| 0 <= k < |a| && x in a[k].slots && y == x.(free := false, owner := Some(a[k].task));
      assert (a + b)[k] == a[k];
    }
  }
}
