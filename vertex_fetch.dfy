/** meshoptimizer's `meshopt_optimizeVertexFetch`, in the variant that also
    hands back the vertex remap table: one left-to-right pass over a triangle
    index buffer that copies each vertex, at its first use, to the next free
    slot of the destination buffer and rewrites every index to that slot.
    Vertex buffers are byte arrays of `vertexSize`-byte records. */
module VertexFetch {
  import opened VertexFetchSpec

  /** `memcpy(dst + dstOffset, src + srcOffset, n)` for non-overlapping buffers. */
  method Memcpy(dst: array<bv8>, dstOffset: nat, src: array<bv8>, srcOffset: nat, n: nat)
    requires dst != src
    requires dstOffset + n <= dst.Length && srcOffset + n <= src.Length
    modifies dst
    ensures dst[..dstOffset] == old(dst[..dstOffset])
    ensures dst[dstOffset..dstOffset + n] == src[srcOffset..srcOffset + n]
    ensures dst[dstOffset + n..] == old(dst[dstOffset + n..])
  {
    forall k | 0 <= k < n {
      dst[dstOffset + k] := src[srcOffset + k];
    }
    assert dst[dstOffset..dstOffset + n] == src[srcOffset..srcOffset + n];
  }

  /** The first `i` indices have been rewritten to their vertices' slots in `order`. */
  ghost predicate Rewritten(idx: seq<uint32>, i: nat, order: seq<uint32>, indices: seq<uint32>)
    requires i <= |idx| && |order| <= Unassigned as int
  {
    i <= |indices| && forall k :: 0 <= k < i ==> indices[k] == RemapEntry(order, idx[k]) != Unassigned
  }

  /** The first `vertexCount` remap entries are those of `order`. */
  ghost predicate RemapAgrees(order: seq<uint32>, remap: seq<uint32>, vertexCount: nat)
    requires |order| <= Unassigned as int
  {
    vertexCount <= |remap| && forall v: uint32 :: v < vertexCount ==> remap[v] == RemapEntry(order, v)
  }

  /** The index and remap buffers after the first `i` indices of `idx` have
      been visited and the vertices of `order` handed out. */
  ghost predicate Visited(idx: seq<uint32>, i: nat, order: seq<uint32>,
                          indices: seq<uint32>, remap: seq<uint32>, vertexCount: nat)
  {
    && i <= |idx| == |indices|
    && AllBelow(idx, vertexCount) && vertexCount <= Unassigned as int && vertexCount <= |remap|
    && order == FirstUseOrder(idx[..i]) && |order| <= vertexCount
    && indices[i..] == idx[i..]
    && Rewritten(idx, i, order, indices)
    && RemapAgrees(order, remap, vertexCount)
  }

  /** The destination bytes once the records of `order` have been written. */
  ghost predicate Emitted(destination: seq<bv8>, initial: seq<bv8>, source: seq<bv8>,
                          order: seq<uint32>, size: nat)
  {
    && |destination| == |initial| && Offset(|order|, size) <= |destination|
    && RecordsFit(source, order, size)
    && destination[..Offset(|order|, size)] == Gather(source, order, size)
    && destination[Offset(|order|, size)..] == initial[Offset(|order|, size)..]
  }

  lemma RewriteNew(idx: seq<uint32>, i: nat, order: seq<uint32>, indices: seq<uint32>)
    requires i < |idx| == |indices| && |order| < Unassigned as int && idx[i] !in order
    requires Rewritten(idx, i, order, indices)
    ensures Rewritten(idx, i + 1, order + [idx[i]], indices[i := |order|])
  {
    forall k | 0 <= k < i + 1
      ensures indices[i := |order|][k] == RemapEntry(order + [idx[i]], idx[k]) != Unassigned
    {
      RemapEntryAppend(order, idx[i], idx[k]);
    }
  }

  lemma RemapNew(order: seq<uint32>, remap: seq<uint32>, vertexCount: nat, x: uint32)
    requires x < vertexCount <= |remap| && |order| < Unassigned as int && x !in order
    requires RemapAgrees(order, remap, vertexCount)
    ensures RemapAgrees(order + [x], remap[x := |order|], vertexCount)
  {
    forall v: uint32 | v < vertexCount ensures remap[x := |order|][v] == RemapEntry(order + [x], v) {
      RemapEntryAppend(order, x, v);
    }
  }

  /** The order after one more index: its vertex is appended if it is new. */
  lemma FirstUseOrderStep(idx: seq<uint32>, i: nat)
    requires i < |idx|
    ensures FirstUseOrder(idx[..i + 1]) ==
      if idx[i] in FirstUseOrder(idx[..i]) then FirstUseOrder(idx[..i])
      else FirstUseOrder(idx[..i]) + [idx[i]]
  {
    assert idx[..i + 1][..i] == idx[..i];
  }

  /** Visiting an index whose vertex is new appends it to the order. */
  lemma VisitNew(idx: seq<uint32>, i: nat, order: seq<uint32>,
                 indices: seq<uint32>, remap: seq<uint32>, vertexCount: nat)
    requires Visited(idx, i, order, indices, remap, vertexCount) && i < |idx|
    requires remap[idx[i]] == Unassigned
    ensures |order| < vertexCount && idx[i] !in order
    ensures Visited(idx, i + 1, order + [idx[i]], indices[i := |order|],
                    remap[idx[i] := |order|], vertexCount)
  {
    var x := idx[i];
    assert x !in order;
    FirstUseOrderStep(idx, i);
    assert AllBelow(idx[..i + 1], vertexCount);
    FirstUseOrderBound(idx[..i + 1], vertexCount);
    RewriteNew(idx, i, order, indices);
    RemapNew(order, remap, vertexCount, x);
    TailAfterWrite(indices, idx, i, |order|);
  }

  lemma RewriteSeen(idx: seq<uint32>, i: nat, order: seq<uint32>, indices: seq<uint32>, r: uint32)
    requires i < |idx| == |indices| && |order| <= Unassigned as int
    requires Rewritten(idx, i, order, indices)
    requires r == RemapEntry(order, idx[i]) != Unassigned
    ensures Rewritten(idx, i + 1, order, indices[i := r])
  {
  }

  /** Writing entry `i` keeps the untouched tail past it equal to the input's. */
  lemma TailAfterWrite(indices: seq<uint32>, idx: seq<uint32>, i: nat, r: uint32)
    requires i < |indices| == |idx| && indices[i..] == idx[i..]
    ensures indices[i := r][i + 1..] == idx[i + 1..]
  {
    assert indices[i := r][i + 1..] == indices[i..][1..];
    assert idx[i + 1..] == idx[i..][1..];
  }

  /** Visiting an index whose vertex already has a slot leaves the order as it is. */
  lemma VisitSeen(idx: seq<uint32>, i: nat, order: seq<uint32>,
                  indices: seq<uint32>, remap: seq<uint32>, vertexCount: nat)
    requires Visited(idx, i, order, indices, remap, vertexCount) && i < |idx|
    requires remap[idx[i]] != Unassigned
    ensures Visited(idx, i + 1, order, indices[i := remap[idx[i]]], remap, vertexCount)
  {
    FirstUseOrderStep(idx, i);
    RewriteSeen(idx, i, order, indices, remap[idx[i]]);
    TailAfterWrite(indices, idx, i, remap[idx[i]]);
  }

  /** Overwriting `rec.Length` bytes at `d` right after a prefix extends the prefix. */
  lemma Splice(before: seq<bv8>, after: seq<bv8>, initial: seq<bv8>, prefix: seq<bv8>,
               rec: seq<bv8>, d: nat)
    requires |before| == |after| == |initial| && d + |rec| <= |after|
    requires before[..d] == prefix && before[d..] == initial[d..]
    requires after[..d] == before[..d] && after[d..d + |rec|] == rec
    requires after[d + |rec|..] == before[d + |rec|..]
    ensures after[..d + |rec|] == prefix + rec
    ensures after[d + |rec|..] == initial[d + |rec|..]
  {
    assert after[..d + |rec|] == after[..d] + after[d..d + |rec|];
    assert before[d + |rec|..] == before[d..][|rec|..];
    assert initial[d + |rec|..] == initial[d..][|rec|..];
  }

  /** Gathering one more vertex appends its record. */
  lemma GatherSnoc(source: seq<bv8>, order: seq<uint32>, x: uint32, size: nat)
    requires RecordsFit(source, order, size) && Offset(x, size) + size <= |source|
    ensures RecordsFit(source, order + [x], size)
    ensures Offset(|order| + 1, size) == Offset(|order|, size) + size
    ensures Gather(source, order + [x], size) == Gather(source, order, size) + Record(source, x, size)
  {
    assert (order + [x])[..|order|] == order;
  }

  /** Copying the record of a new vertex to the next free slot. */
  lemma EmitRecord(before: seq<bv8>, after: seq<bv8>, initial: seq<bv8>, source: seq<bv8>,
                   order: seq<uint32>, x: uint32, size: nat)
    requires Emitted(before, initial, source, order, size)
    requires Offset(x, size) + size <= |source| && Offset(|order|, size) + size <= |before| == |after|
    requires after[..Offset(|order|, size)] == before[..Offset(|order|, size)]
    requires after[Offset(|order|, size)..Offset(|order|, size) + size] == Record(source, x, size)
    requires after[Offset(|order|, size) + size..] == before[Offset(|order|, size) + size..]
    ensures Emitted(after, initial, source, order + [x], size)
  {
    GatherSnoc(source, order, x, size);
    Splice(before, after, initial, Gather(source, order, size), Record(source, x, size), Offset(|order|, size));
  }

  /** `std::vector<char>::assign` of the first `n` bytes of `buffer`: a fresh copy. */
  method Snapshot(buffer: array<bv8>, n: nat) returns (copy: array<bv8>)
    requires n <= buffer.Length
    ensures fresh(copy) && copy[..] == buffer[..n]
  {
    copy := new bv8[n];
    forall k | 0 <= k < n {
      copy[k] := buffer[k];
    }
  }

  /** After the whole stream has been visited, every index holds its vertex's
      remap entry, which is a slot below the number of vertices handed out. */
  lemma VisitedAll(idx: seq<uint32>, order: seq<uint32>, indices: seq<uint32>, remap: seq<uint32>,
                   vertexCount: nat)
    requires Visited(idx, |idx|, order, indices, remap, vertexCount)
    ensures order == FirstUseOrder(idx)
    ensures forall i :: 0 <= i < |indices| ==> indices[i] == remap[idx[i]] < |order|
  {
    assert idx[..|idx|] == idx;
    forall i | 0 <= i < |indices| ensures indices[i] == remap[idx[i]] < |order| {
      assert idx[i] in order;
    }
  }

  lemma SliceOfPrefix(a: seq<bv8>, n: nat, lo: nat, hi: nat)
    requires lo <= hi <= n <= |a|
    ensures a[..n][lo..hi] == a[lo..hi]
  {
  }

  /** Copies the record of vertex `index` from `from` to slot `next` of
      `destination`, the slot after the records already emitted. */
  method CopyRecord(destination: array<bv8>, from: array<bv8>, vertexCount: nat, vertexSize: nat,
                    index: uint32, next: uint32, ghost order: seq<uint32>,
                    ghost source: seq<bv8>, ghost initial: seq<bv8>)
    requires Emitted(destination[..], initial, source, order, vertexSize)
    requires next as int == |order| < vertexCount && index as int < vertexCount
    requires from != destination && Offset(vertexCount, vertexSize) <= from.Length
    requires Offset(vertexCount, vertexSize) <= destination.Length
    requires from[..Offset(vertexCount, vertexSize)] == source
    modifies destination
    ensures Emitted(destination[..], initial, source, order + [index], vertexSize)
  {
    RecordFits(next as int, vertexCount, vertexSize);
    RecordFits(index as int, vertexCount, vertexSize);
    ghost var before := destination[..];
    var at := Offset(index as int, vertexSize);
    Memcpy(destination, Offset(next as int, vertexSize), from, at, vertexSize);
    SliceOfPrefix(from[..], Offset(vertexCount, vertexSize), at, at + vertexSize);
    EmitRecord(before, destination[..], initial, source, order, index, vertexSize);
  }

  /** One turn of the scan: visits `indices[i]`, copying its vertex's record
      from `from` to the next free slot of `destination` if it has none yet,
      and rewrites the index to the vertex's slot. */
  method VisitIndex(destination: array<bv8>, indices: array<uint32>, from: array<bv8>,
                    vertexCount: nat, vertexSize: nat, vertexRemap: array<uint32>, i: nat, next: uint32,
                    ghost idx: seq<uint32>, ghost order: seq<uint32>, ghost source: seq<bv8>, ghost initial: seq<bv8>)
    returns (next': uint32, ghost order': seq<uint32>)
    requires i < |idx|
    requires Visited(idx, i, order, indices[..], vertexRemap[..], vertexCount)
    requires Emitted(destination[..], initial, source, order, vertexSize)
    requires next as int == |order|
    requires from != destination && Offset(vertexCount, vertexSize) <= from.Length
    requires Offset(vertexCount, vertexSize) <= destination.Length
    requires from[..Offset(vertexCount, vertexSize)] == source
    requires indices != vertexRemap
    requires destination as object != indices && destination as object != vertexRemap
    modifies destination, indices, vertexRemap
    ensures Visited(idx, i + 1, order', indices[..], vertexRemap[..], vertexCount)
    ensures Emitted(destination[..], initial, source, order', vertexSize)
    ensures next' as int == |order'|
    ensures vertexRemap[vertexCount..] == old(vertexRemap[vertexCount..])
  {
    ghost var indices0, remap0 := indices[..], vertexRemap[..];
    var index := indices[i];
    assert index == idx[i];
    next', order' := next, order;
    if vertexRemap[index] == Unassigned {
      // add vertex
      VisitNew(idx, i, order, indices0, remap0, vertexCount);
      CopyRecord(destination, from, vertexCount, vertexSize, index, next, order, source, initial);
      vertexRemap[index] := next;
      assert vertexRemap[..] == remap0[index := next];
      next' := next + 1;
      order' := order + [index];
    } else {
      VisitSeen(idx, i, order, indices0, remap0, vertexCount);
    }
    // modify indices in place
    indices[i] := vertexRemap[index];
    assert indices[..] == indices0[i := vertexRemap[index]];
  }

  /** The main loop: visits every index in turn, copying records from `from`. */
  method Scan(destination: array<bv8>, indices: array<uint32>, from: array<bv8>,
              vertexCount: nat, vertexSize: nat, vertexRemap: array<uint32>,
              ghost idx: seq<uint32>, ghost source: seq<bv8>, ghost initial: seq<bv8>)
    returns (next: uint32, ghost order: seq<uint32>)
    requires Visited(idx, 0, [], indices[..], vertexRemap[..], vertexCount)
    requires Emitted(destination[..], initial, source, [], vertexSize)
    requires from != destination && from as object != indices && from as object != vertexRemap
    requires Offset(vertexCount, vertexSize) <= from.Length
    requires Offset(vertexCount, vertexSize) <= destination.Length
    requires from[..Offset(vertexCount, vertexSize)] == source
    requires indices != vertexRemap
    requires destination as object != indices && destination as object != vertexRemap
    modifies destination, indices, vertexRemap
    ensures Visited(idx, |idx|, order, indices[..], vertexRemap[..], vertexCount)
    ensures Emitted(destination[..], initial, source, order, vertexSize)
    ensures next as int == |order|
    ensures vertexRemap[vertexCount..] == old(vertexRemap[vertexCount..])
  {
    next, order := 0, [];
    var i := 0;
    while i < indices.Length
      invariant i <= indices.Length
      invariant Visited(idx, i, order, indices[..], vertexRemap[..], vertexCount)
      invariant Emitted(destination[..], initial, source, order, vertexSize)
      invariant next as int == |order|
      invariant from[..Offset(vertexCount, vertexSize)] == source
      invariant vertexRemap[vertexCount..] == old(vertexRemap[vertexCount..])
    {
      next, order := VisitIndex(destination, indices, from, vertexCount, vertexSize, vertexRemap,
                                i, next, idx, order, source, initial);
      i := i + 1;
    }
  }

  /** Reorders the first-used vertices of `vertices` into `destination`,
      rewrites `indices` in place and fills `vertexRemap`; returns the number
      of vertices written. `destination` may be `vertices` itself. */
  method OptimizeVertexFetch(destination: array<bv8>, indices: array<uint32>, vertices: array<bv8>,
                             vertexCount: nat, vertexSize: nat, vertexRemap: array<uint32>)
    returns (count: uint32)
    requires indices.Length % 3 == 0
    requires 0 < vertexSize <= 256
    requires vertexCount <= Unassigned as int
    requires Offset(vertexCount, vertexSize) <= vertices.Length
    requires Offset(vertexCount, vertexSize) <= destination.Length
    requires vertexCount <= vertexRemap.Length
    // the index buffer, the remap table and the vertex buffers are separate storage
    requires indices != vertexRemap
    requires destination as object != indices && destination as object != vertexRemap
    requires vertices as object != indices && vertices as object != vertexRemap
    requires forall i :: 0 <= i < indices.Length ==> indices[i] < vertexCount
    requires forall v :: 0 <= v < vertexCount ==> vertexRemap[v] == Unassigned
    modifies destination, indices, vertexRemap
    // the number of vertices written is the number of distinct indices
    ensures count as int == |FirstUseOrder(old(indices[..]))| <= vertexCount
    // every index is rewritten to its vertex's remap entry, a slot below count
    ensures forall i :: 0 <= i < indices.Length ==>
              indices[i] == vertexRemap[old(indices[i])] < count
    ensures forall v :: 0 <= v < vertexCount ==>
              vertexRemap[v] == RemapEntry(FirstUseOrder(old(indices[..])), v)
    ensures vertexRemap[vertexCount..] == old(vertexRemap[vertexCount..])
    // the output records are the referenced source records in first-use order,
    // and nothing past them is written, whether or not the buffers alias
    ensures Offset(count as int, vertexSize) <= destination.Length
    ensures RecordsFit(old(vertices[..Offset(vertexCount, vertexSize)]), FirstUseOrder(old(indices[..])), vertexSize)
    ensures destination[..Offset(count as int, vertexSize)]
         == Gather(old(vertices[..Offset(vertexCount, vertexSize)]), FirstUseOrder(old(indices[..])), vertexSize)
    ensures destination[Offset(count as int, vertexSize)..] == old(destination[Offset(count as int, vertexSize)..])
    ensures vertices != destination ==> vertices[..] == old(vertices[..])
    // content preservation: behind every rewritten index lies the original vertex's record
    ensures RecordsPreserved(destination[..], old(vertices[..Offset(vertexCount, vertexSize)]),
                             old(indices[..]), indices[..], vertexSize)
  {
    ghost var idx := indices[..];
    ghost var source := vertices[..Offset(vertexCount, vertexSize)];
    ghost var initial := destination[..];

    // support in-place optimization
    var from := vertices;
    if destination == vertices {
      from := Snapshot(vertices, Offset(vertexCount, vertexSize));
      assert from[..Offset(vertexCount, vertexSize)] == from[..];
    }

    var next: uint32;
    ghost var order: seq<uint32>;
    next, order := Scan(destination, indices, from, vertexCount, vertexSize, vertexRemap, idx, source, initial);
    VisitedAll(idx, order, indices[..], vertexRemap[..], vertexCount);
    ContentAfterScan(destination[..], initial, source, idx, order, indices[..], vertexRemap[..],
                     vertexCount, vertexSize);
    count := next;
  }

  /** Behind rewritten index `i`, `destination` holds the `size`-byte record
      that `source` holds behind the original index. */
  ghost predicate RecordPreservedAt(destination: seq<bv8>, source: seq<bv8>, idx: seq<uint32>,
                                    rewritten: seq<uint32>, size: nat, i: nat)
  {
    i < |idx| && i < |rewritten| &&
    Offset(rewritten[i], size) + size <= |destination| &&
    Offset(idx[i], size) + size <= |source| &&
    Record(destination, rewritten[i], size) == Record(source, idx[i], size)
  }

  /** Behind every rewritten index lies the record of the original index. */
  ghost predicate RecordsPreserved(destination: seq<bv8>, source: seq<bv8>, idx: seq<uint32>,
                                   rewritten: seq<uint32>, size: nat)
  {
    |rewritten| == |idx| &&
    forall i :: 0 <= i < |idx| ==> RecordPreservedAt(destination, source, idx, rewritten, size, i)
  }

  /** Once the scan has visited every index, each rewritten index leads to
      the record its original index led to. */
  lemma ContentAfterScan(destination: seq<bv8>, initial: seq<bv8>, source: seq<bv8>, idx: seq<uint32>,
                         order: seq<uint32>, indices: seq<uint32>, remap: seq<uint32>,
                         vertexCount: nat, size: nat)
    requires Visited(idx, |idx|, order, indices, remap, vertexCount)
    requires Emitted(destination, initial, source, order, size)
    requires Offset(vertexCount, size) <= |source|
    ensures RecordsPreserved(destination, source, idx, indices, size)
  {
    VisitedAll(idx, order, indices, remap, vertexCount);
    assert forall i :: 0 <= i < |idx| ==> indices[i] == RemapEntry(order, idx[i]);
    OutputRecordsMatch(destination, source, idx, indices, vertexCount, size);
  }

  /** Content preservation: in buffers left as OptimizeVertexFetch promises,
      the record a compacted buffer holds behind a rewritten index is the
      source record behind the original index. */
  lemma OutputRecordsMatch(destination: seq<bv8>, source: seq<bv8>, idx: seq<uint32>,
                           rewritten: seq<uint32>, vertexCount: nat, size: nat)
    requires AllBelow(idx, vertexCount) && vertexCount <= Unassigned as int
    requires |FirstUseOrder(idx)| <= vertexCount
    requires Offset(vertexCount, size) <= |source| && |rewritten| == |idx|
    requires forall i :: 0 <= i < |idx| ==> rewritten[i] == RemapEntry(FirstUseOrder(idx), idx[i])
    requires Offset(|FirstUseOrder(idx)|, size) <= |destination|
    requires RecordsFit(source, FirstUseOrder(idx), size)
    requires destination[..Offset(|FirstUseOrder(idx)|, size)] == Gather(source, FirstUseOrder(idx), size)
    ensures RecordsPreserved(destination, source, idx, rewritten, size)
  {
    AllBelowRecordsFit(source, idx, vertexCount, size);
    forall i | 0 <= i < |idx|
      ensures RecordPreservedAt(destination, source, idx, rewritten, size, i)
    {
      RewrittenRecord(destination, source, idx, rewritten, i, size);
    }
  }

  /** The record behind one index rewritten to its remap entry. */
  lemma RewrittenRecord(destination: seq<bv8>, source: seq<bv8>, idx: seq<uint32>, rewritten: seq<uint32>,
                        i: nat, size: nat)
    requires i < |idx| == |rewritten| && |FirstUseOrder(idx)| <= Unassigned as int
    requires rewritten[i] == RemapEntry(FirstUseOrder(idx), idx[i])
    requires RecordsFit(source, idx, size)
    requires Offset(|FirstUseOrder(idx)|, size) <= |destination|
    requires RecordsFit(source, FirstUseOrder(idx), size)
    requires destination[..Offset(|FirstUseOrder(idx)|, size)] == Gather(source, FirstUseOrder(idx), size)
    ensures RecordPreservedAt(destination, source, idx, rewritten, size, i)
  {
    var order := FirstUseOrder(idx);
    assert idx[i] in order;
    RecordAtSlot(destination, source, order, rewritten[i] as int, size);
  }

  /** A buffer that begins with the gathered records of `order` holds the
      record of `order[s]` at slot `s`. */
  lemma RecordAtSlot(destination: seq<bv8>, source: seq<bv8>, order: seq<uint32>, s: nat, size: nat)
    requires RecordsFit(source, order, size) && s < |order|
    requires Offset(|order|, size) <= |destination|
    requires destination[..Offset(|order|, size)] == Gather(source, order, size)
    ensures Offset(s, size) + size <= |destination|
    ensures Record(destination, s, size) == Record(source, order[s], size)
  {
    GatherRecord(source, order, size, s);
    RecordFits(s, |order|, size);
    RecordOfPrefix(destination, Offset(|order|, size), s, size);
  }

  /** A record that lies within the first `n` bytes reads the same from that prefix. */
  lemma RecordOfPrefix(buf: seq<bv8>, n: nat, v: nat, size: nat)
    requires Offset(v, size) + size <= n <= |buf|
    ensures Record(buf, v, size) == Record(buf[..n], v, size)
  {
  }

  /** What one call leaves behind: the vertex count, the written prefix of the
      destination, the rewritten indices and the remap table. */
  datatype Outcome = Outcome(count: uint32, vertices: seq<bv8>, indices: seq<uint32>, remap: seq<uint32>)

  /** The outcome as a function of the inputs alone: the first-use order
      decides the count, the compacted records, the indices and the table. */
  ghost function ExpectedOutcome(bytes: seq<bv8>, idx: seq<uint32>, vertexCount: nat, vertexSize: nat): Outcome
    requires vertexCount <= Unassigned as int && Offset(vertexCount, vertexSize) <= |bytes|
    requires AllBelow(idx, vertexCount)
  {
    var order := FirstUseOrder(idx);
    FirstUseOrderBound(idx, vertexCount);
    FirstUseOrderBelow(idx, vertexCount);
    AllBelowRecordsFit(bytes, order, vertexCount, vertexSize);
    Outcome(|order|, Gather(bytes, order, vertexSize),
            seq(|idx|, i requires 0 <= i < |idx| => RemapEntry(order, idx[i])),
            seq(vertexCount, v requires 0 <= v < vertexCount => RemapEntry(order, v)))
  }

  /** Buffers that meet OptimizeVertexFetch's postconditions hold the expected outcome. */
  lemma OutcomeIsExpected(bytes: seq<bv8>, idx: seq<uint32>, vertexCount: nat, vertexSize: nat,
                          count: uint32, written: seq<bv8>, indices: seq<uint32>, remap: seq<uint32>)
    requires vertexCount <= Unassigned as int && Offset(vertexCount, vertexSize) == |bytes|
    requires AllBelow(idx, vertexCount)
    requires count as int == |FirstUseOrder(idx)|
    requires RecordsFit(bytes, FirstUseOrder(idx), vertexSize)
    requires written == Gather(bytes, FirstUseOrder(idx), vertexSize)
    requires |indices| == |idx| && |remap| == vertexCount
    requires forall i :: 0 <= i < |idx| ==> indices[i] == remap[idx[i]]
    requires forall v :: 0 <= v < vertexCount ==> remap[v] == RemapEntry(FirstUseOrder(idx), v)
    ensures Outcome(count, written, indices, remap) == ExpectedOutcome(bytes, idx, vertexCount, vertexSize)
  {
    var expected := ExpectedOutcome(bytes, idx, vertexCount, vertexSize);
    assert indices == expected.indices;
    assert remap == expected.remap;
  }

  /** A fresh array holding `s`. */
  method ArrayOf<T(0)>(s: seq<T>) returns (a: array<T>)
    ensures fresh(a) && a[..] == s
  {
    a := new T[|s|];
    forall k | 0 <= k < |s| {
      a[k] := s[k];
    }
  }

  /** Runs the optimiser on fresh buffers holding `bytes` and `idx`, with an
      all-unassigned remap table, either in place or into a separate
      destination, and reports what it leaves behind. */
  method RunOnFreshBuffers(bytes: seq<bv8>, idx: seq<uint32>, vertexCount: nat, vertexSize: nat, inPlace: bool)
    returns (outcome: Outcome)
    requires |idx| % 3 == 0 && 0 < vertexSize <= 256
    requires vertexCount <= Unassigned as int && |bytes| == Offset(vertexCount, vertexSize)
    requires AllBelow(idx, vertexCount)
    ensures outcome == ExpectedOutcome(bytes, idx, vertexCount, vertexSize)
  {
    var vertices := ArrayOf(bytes);
    var destination := vertices;
    if !inPlace {
      destination := new bv8[|bytes|];
    }
    var indices := ArrayOf(idx);
    var remap := new uint32[vertexCount](_ => Unassigned);
    var count := OptimizeVertexFetch(destination, indices, vertices, vertexCount, vertexSize, remap);
    outcome := Outcome(count, destination[..Offset(count as int, vertexSize)], indices[..], remap[..]);
    assert bytes[..Offset(vertexCount, vertexSize)] == bytes;
    OutcomeIsExpected(bytes, idx, vertexCount, vertexSize, count, outcome.vertices, outcome.indices, outcome.remap);
  }

  /** In-place safety: optimising a buffer in place leaves exactly what
      optimising a copy of it into separate storage does. */
  method InPlaceAgreesWithCopy(bytes: seq<bv8>, idx: seq<uint32>, vertexCount: nat, vertexSize: nat)
    returns (inPlace: Outcome, copied: Outcome)
    requires |idx| % 3 == 0 && 0 < vertexSize <= 256
    requires vertexCount <= Unassigned as int && |bytes| == Offset(vertexCount, vertexSize)
    requires AllBelow(idx, vertexCount)
    ensures inPlace == copied
    ensures inPlace.count as int == |FirstUseOrder(idx)|
  {
    inPlace := RunOnFreshBuffers(bytes, idx, vertexCount, vertexSize, true);
    copied := RunOnFreshBuffers(bytes, idx, vertexCount, vertexSize, false);
  }
}
