/** Specification of meshoptimizer's vertex-fetch optimisation as functions
    over the index stream and the source vertex bytes, with the properties
    that the index rewrite, the remap table and the compacted vertex buffer
    promise. The imperative algorithm lives in module VertexFetch. */
module VertexFetchSpec {

  /** The source's `unsigned int` (index values, remap entries, the slot counter). */
  type uint32 = x: int | 0 <= x < 0x1_0000_0000

  /** `~0u`: the remap entry of a vertex that has not been copied to the destination. */
  const Unassigned: uint32 := 0xFFFF_FFFF

  predicate Distinct(s: seq<uint32>)
  {
    forall a, b :: 0 <= a < b < |s| ==> s[a] != s[b]
  }

  /** Every index of `s` names one of the first `n` vertices. */
  predicate AllBelow(s: seq<uint32>, n: nat)
  {
    forall k :: 0 <= k < |s| ==> s[k] < n
  }

  /** The distinct vertices referenced by `idx`, in the order of their first use:
      the order in which one left-to-right pass hands out output slots. */
  function FirstUseOrder(idx: seq<uint32>): (order: seq<uint32>)
    ensures forall v :: v in order <==> v in idx
    ensures Distinct(order)
    ensures |order| <= |idx|
  {
    if idx == [] then []
    else
      var last := idx[|idx| - 1];
      var prev := FirstUseOrder(idx[..|idx| - 1]);
      assert idx == idx[..|idx| - 1] + [last];
      if last in prev then prev else prev + [last]
  }

  /** The slot of `v`: the position of its first occurrence in `order`. */
  function SlotOf(order: seq<uint32>, v: uint32): (s: nat)
    requires v in order
    ensures s < |order| && order[s] == v
    ensures forall k :: 0 <= k < s ==> order[k] != v
    decreases |order|
  {
    var n := |order| - 1;
    if v in order[..n] then SlotOf(order[..n], v) else n
  }

  /** The remap-table entry of vertex `v` once the vertices of `order` have
      been handed out: its slot if it was referenced, `~0u` otherwise. */
  function RemapEntry(order: seq<uint32>, v: uint32): (r: uint32)
    requires |order| <= Unassigned as int
    ensures (r == Unassigned) <==> v !in order
    ensures r != Unassigned ==> r < |order| && order[r] == v
  {
    if v in order then SlotOf(order, v) else Unassigned
  }

  /** The byte offset `v * size` of record `v`, written as repeated addition
      so that offsets stay linear arithmetic (see OffsetIsProduct). */
  function Offset(v: nat, size: nat): nat
  {
    if v == 0 then 0 else Offset(v - 1, size) + size
  }

  /** The `size`-byte record of vertex `v` in the byte buffer `buf`. */
  function Record(buf: seq<bv8>, v: nat, size: nat): seq<bv8>
    requires Offset(v, size) + size <= |buf|
  {
    buf[Offset(v, size) .. Offset(v, size) + size]
  }

  /** Every vertex of `order` has a whole record in `buf`. */
  predicate RecordsFit(buf: seq<bv8>, order: seq<uint32>, size: nat)
  {
    forall k :: 0 <= k < |order| ==> Offset(order[k], size) + size <= |buf|
  }

  /** The records of the vertices of `order`, laid out back to back. */
  function Gather(buf: seq<bv8>, order: seq<uint32>, size: nat): (out: seq<bv8>)
    requires RecordsFit(buf, order, size)
    ensures |out| == Offset(|order|, size)
  {
    if order == [] then []
    else Gather(buf, order[..|order| - 1], size) + Record(buf, order[|order| - 1], size)
  }

  // ---------------------------------------------------------------------
  // Arithmetic on record offsets

  lemma {:induction false} OffsetIsProduct(v: nat, size: nat)
    ensures Offset(v, size) == v * size
  {
    if v > 0 {
      OffsetIsProduct(v - 1, size);
    }
  }

  /** The record of a vertex below `n` ends within the first `n` records. */
  lemma {:induction false} RecordFits(v: nat, n: nat, size: nat)
    requires v < n
    ensures Offset(v, size) + size <= Offset(n, size)
    decreases n
  {
    if v + 1 < n {
      RecordFits(v, n - 1, size);
    }
  }

  /** Indices below `vertexCount` fit a buffer of `vertexCount` records. */
  lemma AllBelowRecordsFit(buf: seq<bv8>, s: seq<uint32>, n: nat, size: nat)
    requires AllBelow(s, n) && Offset(n, size) <= |buf|
    ensures RecordsFit(buf, s, size)
  {
    forall k | 0 <= k < |s| ensures Offset(s[k], size) + size <= |buf| {
      RecordFits(s[k], n, size);
    }
  }

  lemma FirstUseOrderBelow(idx: seq<uint32>, n: nat)
    requires AllBelow(idx, n)
    ensures AllBelow(FirstUseOrder(idx), n)
  {
    var order := FirstUseOrder(idx);
    forall k | 0 <= k < |order| ensures order[k] < n {
      assert order[k] in idx;
    }
  }

  // ---------------------------------------------------------------------
  // Counting

  /** The integers in [0, n). */
  function Below(n: nat): (r: set<int>)
    ensures forall x :: x in r <==> 0 <= x < n
    ensures |r| == n
  {
    if n == 0 then {} else
      Below(n - 1) + {n - 1}
  }

  function Elements(s: seq<uint32>): set<uint32>
  {
    set x | x in s
  }

  lemma SubsetCard(a: set<int>, b: set<int>)
    requires a <= b
    ensures |a| <= |b|
  {
    assert b == a + (b - a);
  }

  /** The number of vertices emitted is the number of distinct indices. */
  lemma {:induction false} FirstUseOrderCount(idx: seq<uint32>)
    ensures |FirstUseOrder(idx)| == |Elements(idx)|
  {
    if idx != [] {
      var init, last := idx[..|idx| - 1], idx[|idx| - 1];
      FirstUseOrderCount(init);
      assert idx == init + [last];
      assert Elements(idx) == Elements(init) + {last};
      if last in FirstUseOrder(init) {
        assert Elements(idx) == Elements(init);
      } else {
        assert last !in Elements(init);
        assert FirstUseOrder(idx) == FirstUseOrder(init) + [last];
      }
    }
  }

  /** At most `n` vertices are emitted when every index is below `n`. */
  lemma FirstUseOrderBound(idx: seq<uint32>, n: nat)
    requires AllBelow(idx, n)
    ensures |FirstUseOrder(idx)| <= n
  {
    FirstUseOrderCount(idx);
    assert forall x :: x in Elements(idx) ==> x in Below(n);
    SubsetCard(Elements(idx), Below(n));
  }

  /** A vertex that is never referenced is not emitted, so fewer than `n`
      vertices are written. */
  lemma UnusedVertexShrinks(idx: seq<uint32>, n: nat, v: uint32)
    requires AllBelow(idx, n) && v < n && v !in idx
    ensures |FirstUseOrder(idx)| < n
  {
    FirstUseOrderCount(idx);
    assert forall x :: x in Elements(idx) ==> x in Below(n) - {v as int};
    assert Below(n) == (Below(n) - {v as int}) + {v as int};
    SubsetCard(Elements(idx), Below(n) - {v as int});
  }

  // ---------------------------------------------------------------------
  // First-use numbering

  /** Scanning further never renumbers: the order after a prefix of the
      stream is a prefix of the final order. */
  lemma {:induction false} FirstUseOrderPrefix(idx: seq<uint32>, j: nat)
    requires j <= |idx|
    ensures FirstUseOrder(idx[..j]) <= FirstUseOrder(idx)
    decreases |idx| - j
  {
    if j < |idx| {
      var n := |idx| - 1;
      assert idx[..n][..j] == idx[..j];
      FirstUseOrderPrefix(idx[..n], j);
    } else {
      assert idx[..j] == idx;
    }
  }

  lemma SlotOfPrefix(p: seq<uint32>, q: seq<uint32>, v: uint32)
    requires p <= q && v in p
    ensures v in q && SlotOf(q, v) == SlotOf(p, v)
  {
    assert q[SlotOf(p, v)] == v;
  }

  /** In a duplicate-free order, the slot of the vertex at position `s` is `s`. */
  lemma SlotOfDistinct(order: seq<uint32>, s: nat)
    requires Distinct(order) && s < |order|
    ensures SlotOf(order, order[s]) == s
  {
  }

  /** Dense first-use numbering: the first occurrence of a vertex gets the
      number of distinct vertices seen before it. */
  lemma FirstOccurrenceSlot(idx: seq<uint32>, i: nat)
    requires i < |idx| && idx[i] !in idx[..i]
    ensures SlotOf(FirstUseOrder(idx), idx[i]) == |FirstUseOrder(idx[..i])| == |Elements(idx[..i])|
  {
    var before := FirstUseOrder(idx[..i]);
    assert idx[..i + 1][..i] == idx[..i];
    assert FirstUseOrder(idx[..i + 1]) == before + [idx[i]];
    FirstUseOrderPrefix(idx, i + 1);
    SlotOfPrefix(before + [idx[i]], FirstUseOrder(idx), idx[i]);
    FirstUseOrderCount(idx[..i]);
  }

  /** How one new vertex at the end of the order changes the remap entries. */
  lemma RemapEntryAppend(order: seq<uint32>, x: uint32, v: uint32)
    requires |order| < Unassigned as int && x !in order
    ensures RemapEntry(order + [x], v) ==
      if v in order then RemapEntry(order, v) else if v == x then |order| else Unassigned
  {
    if v in order {
      SlotOfPrefix(order, order + [x], v);
    }
  }

  /** A remap entry, once assigned, is never reassigned later in the scan. */
  lemma RemapEntryStable(idx: seq<uint32>, j: nat, k: nat, v: uint32)
    requires j <= k <= |idx| && |FirstUseOrder(idx[..k])| <= Unassigned as int
    requires v in FirstUseOrder(idx[..j])
    ensures FirstUseOrder(idx[..j]) <= FirstUseOrder(idx[..k])
    ensures RemapEntry(FirstUseOrder(idx[..k]), v) == RemapEntry(FirstUseOrder(idx[..j]), v) != Unassigned
  {
    assert idx[..k][..j] == idx[..j];
    FirstUseOrderPrefix(idx[..k], j);
    FirstUseOrderPrefix(idx, k);
    SlotOfPrefix(FirstUseOrder(idx[..j]), FirstUseOrder(idx[..k]), v);
  }

  /** The assigned remap entries are exactly the referenced vertices, and
      there are as many of them as there are output slots. */
  lemma AssignedEntries(idx: seq<uint32>, n: nat)
    requires AllBelow(idx, n) && n <= Unassigned as int
    ensures |FirstUseOrder(idx)| <= n
    ensures (set v: uint32 | v < n && RemapEntry(FirstUseOrder(idx), v) != Unassigned) == Elements(idx)
    ensures |set v: uint32 | v < n && RemapEntry(FirstUseOrder(idx), v) != Unassigned| == |FirstUseOrder(idx)|
  {
    FirstUseOrderBound(idx, n);
    FirstUseOrderCount(idx);
  }

  /** The remap table restricted to its assigned entries is a bijection onto
      the output slots [0, count). */
  lemma RemapOntoSlots(idx: seq<uint32>, s: nat)
    requires |FirstUseOrder(idx)| <= Unassigned as int && s < |FirstUseOrder(idx)|
    ensures RemapEntry(FirstUseOrder(idx), FirstUseOrder(idx)[s]) == s
  {
    SlotOfDistinct(FirstUseOrder(idx), s);
  }

  // ---------------------------------------------------------------------
  // Content of the compacted vertex buffer

  lemma {:induction false} GatherRecord(buf: seq<bv8>, order: seq<uint32>, size: nat, s: nat)
    requires RecordsFit(buf, order, size) && s < |order|
    ensures Offset(s, size) + size <= |Gather(buf, order, size)|
    ensures Record(Gather(buf, order, size), s, size) == Record(buf, order[s], size)
  {
    var n := |order| - 1;
    var init := order[..n];
    assert RecordsFit(buf, init, size);
    RecordFits(s, |order|, size);
    if s < n {
      GatherRecord(buf, init, size, s);
      RecordFits(s, n, size);
    }
  }

  /** Content preservation: the output record behind a rewritten index is the
      source record behind the original index. */
  lemma ContentPreserved(buf: seq<bv8>, idx: seq<uint32>, size: nat, i: nat)
    requires RecordsFit(buf, idx, size) && i < |idx|
    ensures RecordsFit(buf, FirstUseOrder(idx), size)
    ensures Offset(SlotOf(FirstUseOrder(idx), idx[i]), size) + size <= |Gather(buf, FirstUseOrder(idx), size)|
    ensures Record(Gather(buf, FirstUseOrder(idx), size), SlotOf(FirstUseOrder(idx), idx[i]), size)
         == Record(buf, idx[i], size)
  {
    var order := FirstUseOrder(idx);
    forall k | 0 <= k < |order| ensures Offset(order[k], size) + size <= |buf| {
      assert order[k] in idx;
      var j :| 0 <= j < |idx| && idx[j] == order[k];
    }
    GatherRecord(buf, order, size, SlotOf(order, idx[i]));
  }

  /** A stream whose first uses already run 0, 1, 2, ... leaves the vertex
      buffer as it is and numbers every vertex by itself. */
  lemma {:induction false} IdentityTraversal(buf: seq<bv8>, order: seq<uint32>, size: nat)
    requires forall k :: 0 <= k < |order| ==> order[k] == k
    requires Offset(|order|, size) <= |buf|
    ensures RecordsFit(buf, order, size)
    ensures Gather(buf, order, size) == buf[..Offset(|order|, size)]
    ensures forall v :: v in order ==> SlotOf(order, v) == v
  {
    forall k | 0 <= k < |order| ensures Offset(order[k], size) + size <= |buf| {
      RecordFits(k, |order|, size);
    }
    if order != [] {
      var n := |order| - 1;
      IdentityTraversal(buf, order[..n], size);
      assert buf[..Offset(n, size)] + buf[Offset(n, size) .. Offset(n, size) + size] == buf[..Offset(|order|, size)];
    }
    forall v | v in order ensures SlotOf(order, v) == v {
      var s := SlotOf(order, v);
      assert order[s] == s;
    }
  }

  /** Indices [2, 0, 2, 1] over three vertices A, B, C: the vertices are
      emitted in the order C A B, the remap table is [1, 2, 0] and the
      rewritten indices are [0, 1, 0, 2], so three vertices are output. */
  lemma CompactionExample()
    ensures FirstUseOrder([2, 0, 2, 1]) == [2, 0, 1]
    ensures [RemapEntry([2, 0, 1], 0), RemapEntry([2, 0, 1], 1), RemapEntry([2, 0, 1], 2)] == [1, 2, 0]
    ensures [RemapEntry([2, 0, 1], 2), RemapEntry([2, 0, 1], 0),
             RemapEntry([2, 0, 1], 2), RemapEntry([2, 0, 1], 1)] == [0, 1, 0, 2]
  {
    var idx: seq<uint32> := [2, 0, 2, 1];
    assert idx[..3] == [2, 0, 2] && idx[..3][..2] == [2, 0] && idx[..3][..2][..1] == [2];
    var order: seq<uint32> := [2, 0, 1];
    assert order[..2] == [2, 0] && order[..2][..1] == [2];
  }

  /** The same example at the byte level, with 2-byte records: the output
      buffer holds C, A and B. */
  lemma CompactionExampleBytes()
    ensures Gather([0xA0, 0xA1, 0xB0, 0xB1, 0xC0, 0xC1], [2, 0, 1], 2)
         == [0xC0, 0xC1, 0xA0, 0xA1, 0xB0, 0xB1]
  {
    var buf: seq<bv8> := [0xA0, 0xA1, 0xB0, 0xB1, 0xC0, 0xC1];
    var order: seq<uint32> := [2, 0, 1];
    assert Offset(1, 2) == 2 && Offset(2, 2) == 4;
    assert order[..2] == [2, 0] && order[..2][..1] == [2];
    assert Gather(buf, [2], 2) == buf[4..6] == [0xC0, 0xC1];
    assert Gather(buf, [2, 0], 2) == [0xC0, 0xC1] + buf[0..2];
    assert buf[0..2] == [0xA0, 0xA1] && buf[2..4] == [0xB0, 0xB1];
  }
}
