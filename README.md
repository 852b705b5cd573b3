# Vertex-fetch optimisation and per-zoom simplification parameters

This project models two pieces of a terrain-tile generator (quantized-mesh
tiles for Cesium) in Dafny and proves their properties.

- **`meshopt_optimizeVertexFetch`** (meshoptimizer, in the variant that also
  hands back the vertex remap table). It makes one left-to-right pass over a
  triangle index buffer. The first time a vertex index is seen, the vertex's
  `vertex_size`-byte record is copied to the next free slot of the
  destination vertex buffer, and the slot is stored in the caller's remap
  table. Every index is rewritten in place to its vertex's slot. The call
  returns the number of vertices written. When the destination is the source
  buffer itself, the source is first copied to a temporary buffer.
  - Module `VertexFetchSpec` (`vertex_fetch_spec.dfy`) is the specification.
    The first-use order of the index stream (`FirstUseOrder`), the slot of a
    vertex (`SlotOf`), the remap entry (`RemapEntry`, with `~0u` as
    `Unassigned`) and the compacted buffer (`Gather`) are functions. The
    lemmas about them cover counting, dense numbering, stability and content
    preservation.
  - Module `VertexFetch` (`vertex_fetch.dfy`) is the algorithm over arrays.
    Vertex buffers are `array<bv8>`, and the index buffer and remap table are
    `array<uint32>`. The source's single loop is split into methods:
    - `Scan` is the `for` loop;
    - `VisitIndex` is one turn of the loop;
    - `CopyRecord` is the `memcpy` of a new vertex;
    - `Snapshot` is the in-place copy.
    Each method is proved against the specification functions.
- **`TinCreationSimplificationPointSetHierarchy`** (module `TinCreation`,
  `point_set_hierarchy.dfy`). This is the hierarchical point-set
  simplification strategy. The model covers its zoom-dependent parameters:
  - two per-zoom threshold series, the maximum cluster size and the maximum
    surface variance;
  - the two current values that `setParamsForZoomConcreteStrategy` refreshes
    from the series.

  The class is a Dafny `class` with the same four fields, plus two that
  record what is forwarded to the base class. Its two constructors and
  `SetParamsForZoom` assign them. The C++ `double` is an
  opaque type parameter `F`, and `unsigned int` is `uint32`.

The per-zoom lookup `standardHandlingOfThresholdPerZoom` is declared in
`tin_creation_utils.h`, which is not part of this model. `ThresholdForZoom`
states an **assumed** contract for it:
- the series is non-empty;
- entry `zoom` is returned when it exists;
- otherwise the last entry is returned ("clamp to last").

Every property of the hierarchy class that involves the lookup rests on this
assumption.

## Model

| member | source | states |
|---|---|---|
| `VertexFetch.OptimizeVertexFetch` | 3rdParty/meshoptimizer/vfetchoptimizer.cpp:12-52 | Under the asserted preconditions (`index_count % 3 == 0`, `0 < vertex_size <= 256`, every index `< vertex_count`) and a remap table pre-filled with `~0u`, the following hold. The returned count is the number of distinct vertices in the original index buffer, in first-use order, and is at most `vertex_count`. Every index becomes `vertex_remap[old index]`, which is below the count. Each remap entry is its vertex's first-use slot, or `~0u` if the vertex was never referenced. Remap entries past `vertex_count` are untouched. The first `count * vertex_size` destination bytes are the source records in first-use order, and the bytes after them are unchanged. A separate source buffer is not modified. Content preservation: for every position `i`, the destination record at the rewritten index equals the original source record at the original index. |
| `VertexFetch.Scan` | 3rdParty/meshoptimizer/vfetchoptimizer.cpp:29-48 | The loop, starting from slot 0: after all indices are visited, the index and remap buffers are those of the full first-use order. The destination holds the gathered records, and the slot counter equals the number of vertices emitted. |
| `VertexFetch.VisitIndex` | 3rdParty/meshoptimizer/vfetchoptimizer.cpp:33-47 | One turn of the loop keeps the scan invariant. The index prefix is rewritten, the remap table matches the order of first use so far, and the destination holds that order's records. The counter grows exactly when the vertex is new. |
| `VertexFetch.CopyRecord` | 3rdParty/meshoptimizer/vfetchoptimizer.cpp:41 | The `memcpy` puts vertex `index`'s record at slot `next`, right after the records already emitted, and leaves every other destination byte as it was. |
| `VertexFetch.Memcpy` | 3rdParty/meshoptimizer/vfetchoptimizer.cpp:41 | Copies `n` bytes between distinct buffers. The target range equals the source range, and the bytes before and after it are unchanged. |
| `VertexFetch.Snapshot` | 3rdParty/meshoptimizer/vfetchoptimizer.cpp:18-24 | The in-place temporary is a fresh buffer holding the first `vertex_count * vertex_size` source bytes. |
| `VertexFetch.VisitNew` | 3rdParty/meshoptimizer/vfetchoptimizer.cpp:38-47 | An index whose remap entry is `~0u` names a vertex not yet in the order, and fewer than `vertex_count` vertices have been emitted. Appending it, giving it slot `next`, and rewriting the index to `next` keeps the scan invariant. |
| `VertexFetch.VisitSeen` | 3rdParty/meshoptimizer/vfetchoptimizer.cpp:36-47 | An index whose remap entry is already set leaves the order unchanged. Rewriting the index to that entry keeps the scan invariant. |
| `VertexFetch.RewriteNew` | 3rdParty/meshoptimizer/vfetchoptimizer.cpp:43-47 | After a new vertex is appended, the rewritten index prefix still holds every index's remap entry, and the new index gets the new slot. |
| `VertexFetch.RemapNew` | 3rdParty/meshoptimizer/vfetchoptimizer.cpp:43 | Writing the new slot into the remap entry of a new vertex keeps the table equal to the remap entries of the extended order. |
| `VertexFetch.RewriteSeen` | 3rdParty/meshoptimizer/vfetchoptimizer.cpp:47 | Rewriting an index whose vertex already has a slot to that slot extends the rewritten prefix by one. |
| `VertexFetch.FirstUseOrderStep` | 3rdParty/meshoptimizer/vfetchoptimizer.cpp:38-44 | Visiting one more index appends its vertex to the first-use order exactly when the vertex is not already in it. |
| `VertexFetch.EmitRecord` | 3rdParty/meshoptimizer/vfetchoptimizer.cpp:41-43 | Writing a new vertex's record at the next slot turns a destination holding the gathered records of `order` into one holding those of `order + [x]`. The untouched bytes stay as they were. |
| `VertexFetch.GatherSnoc` | 3rdParty/meshoptimizer/vfetchoptimizer.cpp:41 | Gathering one more vertex appends its record and moves the next slot's offset on by one record. |
| `VertexFetch.VisitedAll` | 3rdParty/meshoptimizer/vfetchoptimizer.cpp:47-52 | Once every index is visited, the order is the first-use order of the whole buffer. Every index holds its vertex's remap entry, which is below the number of vertices emitted. |
| `VertexFetch.OutputRecordsMatch` | 3rdParty/meshoptimizer/vfetchoptimizer.cpp:41-47 | Content preservation over buffers: when every index is rewritten to its remap entry and the destination starts with the gathered records, then for every `i` the record the destination holds at the rewritten index equals the source record at the original index. |
| `VertexFetch.ContentAfterScan` | 3rdParty/meshoptimizer/vfetchoptimizer.cpp:29-52 | The state the finished loop leaves (every index visited, the first-use records emitted) already has content preservation for every position. |
| `VertexFetch.RewrittenRecord` | 3rdParty/meshoptimizer/vfetchoptimizer.cpp:41-47 | For one position `i`, the rewritten index is a slot inside the written records, and the record there is the source record of the original index. |
| `VertexFetch.RecordAtSlot` | 3rdParty/meshoptimizer/vfetchoptimizer.cpp:41 | A destination that starts with the gathered records holds, at every slot `s` below the count, the record of the `s`-th vertex of the order. |
| `VertexFetch.OutcomeIsExpected` | 3rdParty/meshoptimizer/vfetchoptimizer.cpp:12-52 | Any count, written bytes, indices and remap table that meet the optimiser's postconditions form exactly the outcome computed from the input bytes and indices. |
| `VertexFetch.RunOnFreshBuffers` | 3rdParty/meshoptimizer/vfetchoptimizer.cpp:18-52 | Run on fresh buffers, in place or into a separate destination, the optimiser leaves an outcome that is a function of the input bytes and indices alone. The outcome is the count, the written records, the rewritten indices and the whole remap table. |
| `VertexFetch.InPlaceAgreesWithCopy` | 3rdParty/meshoptimizer/vfetchoptimizer.cpp:18-24 | In-place safety: optimising a buffer in place leaves the same count, records, indices and remap table as optimising a copy into separate storage. |
| `VertexFetchSpec.FirstUseOrder` | 3rdParty/meshoptimizer/vfetchoptimizer.cpp:31-44 | The vertices emitted are exactly the vertices referenced, each once, and there are no more of them than indices. |
| `VertexFetchSpec.SlotOf` | 3rdParty/meshoptimizer/vfetchoptimizer.cpp:43 | A vertex's slot is the position of its first occurrence in the order. |
| `VertexFetchSpec.RemapEntry` | 3rdParty/meshoptimizer/vfetchoptimizer.cpp:36-43 | An entry is `~0u` exactly when the vertex is not referenced. Otherwise it is a slot below the number emitted that holds that vertex. |
| `VertexFetchSpec.Gather` | 3rdParty/meshoptimizer/vfetchoptimizer.cpp:41 | The compacted buffer has exactly `count * vertex_size` bytes. |
| `VertexFetchSpec.OffsetIsProduct` | 3rdParty/meshoptimizer/vfetchoptimizer.cpp:41 | The record offset used throughout is `index * vertex_size`. |
| `VertexFetchSpec.RecordFits` | 3rdParty/meshoptimizer/vfetchoptimizer.cpp:22 | The record of any vertex below `vertex_count` lies within the first `vertex_count * vertex_size` bytes, the span the in-place copy takes. |
| `VertexFetchSpec.AllBelowRecordsFit` | 3rdParty/meshoptimizer/vfetchoptimizer.cpp:34 | If every index is below `vertex_count`, each referenced record lies inside the vertex buffer. |
| `VertexFetchSpec.FirstUseOrderBelow` | 3rdParty/meshoptimizer/vfetchoptimizer.cpp:34 | The emitted vertices are all below `vertex_count`. |
| `VertexFetchSpec.Below` | 3rdParty/meshoptimizer/vfetchoptimizer.cpp:34 | The vertex numbers below `vertex_count` form a set of exactly `vertex_count` elements. |
| `VertexFetchSpec.SubsetCard` | 3rdParty/meshoptimizer/vfetchoptimizer.cpp:50 | A subset has no more elements than its superset; this is the counting step behind `next_vertex <= vertex_count`. |
| `VertexFetchSpec.FirstUseOrderCount` | 3rdParty/meshoptimizer/vfetchoptimizer.cpp:38-52 | The number of vertices emitted equals the number of distinct indices. |
| `VertexFetchSpec.FirstUseOrderBound` | 3rdParty/meshoptimizer/vfetchoptimizer.cpp:50 | `next_vertex <= vertex_count` whenever every index is below `vertex_count`. |
| `VertexFetchSpec.UnusedVertexShrinks` | 3rdParty/meshoptimizer/vfetchoptimizer.cpp:38-52 | If some vertex below `vertex_count` is never referenced, strictly fewer than `vertex_count` vertices are written. |
| `VertexFetchSpec.FirstUseOrderPrefix` | 3rdParty/meshoptimizer/vfetchoptimizer.cpp:31-44 | Scanning further only appends to the order; no vertex is renumbered. |
| `VertexFetchSpec.SlotOfPrefix` | 3rdParty/meshoptimizer/vfetchoptimizer.cpp:43 | A vertex's slot in an order is its slot in every extension of that order. |
| `VertexFetchSpec.SlotOfDistinct` | 3rdParty/meshoptimizer/vfetchoptimizer.cpp:43 | In a duplicate-free order, the vertex at position `s` has slot `s`. |
| `VertexFetchSpec.FirstOccurrenceSlot` | 3rdParty/meshoptimizer/vfetchoptimizer.cpp:38-43 | Dense numbering: at the first occurrence of a vertex at position `i`, its slot equals the number of distinct vertices seen before `i`. |
| `VertexFetchSpec.RemapEntryAppend` | 3rdParty/meshoptimizer/vfetchoptimizer.cpp:38-44 | Emitting one new vertex gives it the next slot. It leaves every other entry, assigned or `~0u`, as it was. |
| `VertexFetchSpec.RemapEntryStable` | 3rdParty/meshoptimizer/vfetchoptimizer.cpp:36-44 | An entry is written at most once: once assigned after a prefix of the stream, it keeps its value for every longer prefix. |
| `VertexFetchSpec.AssignedEntries` | 3rdParty/meshoptimizer/vfetchoptimizer.cpp:36-52 | The vertices with an assigned entry are exactly the referenced ones, and there are as many as the returned count. |
| `VertexFetchSpec.RemapOntoSlots` | 3rdParty/meshoptimizer/vfetchoptimizer.cpp:43-52 | Every slot below the count is the remap entry of the vertex emitted there, so the assigned entries cover `[0, count)`. |
| `VertexFetchSpec.GatherRecord` | 3rdParty/meshoptimizer/vfetchoptimizer.cpp:41 | Slot `s` of the compacted buffer holds the record of the `s`-th vertex of the order. |
| `VertexFetchSpec.ContentPreserved` | 3rdParty/meshoptimizer/vfetchoptimizer.cpp:41-47 | The compacted record at an index's slot is the source record of that index's vertex. |
| `VertexFetchSpec.IdentityTraversal` | 3rdParty/meshoptimizer/vfetchoptimizer.cpp:38-47 | A stream whose first uses run 0, 1, 2, … leaves the vertex bytes as they are and maps every vertex to itself. |
| `VertexFetchSpec.CompactionExample` | 3rdParty/meshoptimizer/vfetchoptimizer.cpp:31-48 | Indices `[2, 0, 2, 1]` emit vertices `2, 0, 1`, fill the remap table with `[1, 2, 0]` and are rewritten to `[0, 1, 0, 2]`. |
| `VertexFetchSpec.CompactionExampleBytes` | 3rdParty/meshoptimizer/vfetchoptimizer.cpp:41 | The same example on bytes, with records A, B, C: the destination receives C, A, B. |
| `TinCreation.ThresholdForZoom` | src/tin_creation/tin_creation_simplification_point_set_hierarchy.h:87-88 | Assumed contract of `standardHandlingOfThresholdPerZoom`: the value for a zoom is always one of the series' entries. |
| `TinCreation.WalkToZoom` | src/tin_creation/tin_creation_simplification_point_set_hierarchy.h:87-88 | A reference reading of the lookup, which walks down the series one zoom at a time, always lands on an entry of the series. |
| `TinCreation.ThresholdIsWalk` | src/tin_creation/tin_creation_simplification_point_set_hierarchy.h:87-88 | The direct lookup and the walk agree for every series and zoom. |
| `TinCreation.ClampToLast` | src/tin_creation/tin_creation_simplification_point_set_hierarchy.h:87-88 | Any zoom at or beyond the series' length resolves to the last defined entry. |
| `TinCreation.SingletonIsConstant` | src/tin_creation/tin_creation_simplification_point_set_hierarchy.h:57-59 | A one-element series, as the scalar constructor builds, gives its value at every zoom. |
| `TinCreation.ExtendKeepsDefinedZooms` | src/tin_creation/tin_creation_simplification_point_set_hierarchy.h:87-88 | Adding entries for finer zooms does not change the value of any zoom the series already defined. |
| `TinCreation.SimplificationPointSetHierarchy.Scalar` | src/tin_creation/tin_creation_simplification_point_set_hierarchy.h:48-60 | Each scalar is stored as a one-element series. The border settings and the minimum feature polyline size are recorded as forwarded. The object ends configured for zoom 0, with current values equal to the arguments. |
| `TinCreation.SimplificationPointSetHierarchy.PerZoom` | src/tin_creation/tin_creation_simplification_point_set_hierarchy.h:70-82 | The series are stored unchanged, and the border series and minimum size are recorded as forwarded. The object ends configured for zoom 0, with current values equal to the series' first entries. |
| `TinCreation.SimplificationPointSetHierarchy.SetParamsForZoom` | src/tin_creation/tin_creation_simplification_point_set_hierarchy.h:86-89 | Both current values are refreshed from the same zoom index, so neither is left stale. The per-zoom series are unchanged, and the object stays valid. |
| `TinCreation.SetParamsForZoomTwice` | src/tin_creation/tin_creation_simplification_point_set_hierarchy.h:86-89 | Setting up the same zoom twice leaves the same current values both times (idempotence). |
| `TinCreation.ScalarAtAnyZoom` | src/tin_creation/tin_creation_simplification_point_set_hierarchy.h:57-59 | An object built from scalars reports its constructor arguments at whatever zoom it is then set up for. |

## Left out

- `standardHandlingOfThresholdPerZoom`: its body is in `tin_creation_utils.h`, which is not part of this model. `ThresholdForZoom` is an assumed clamp-to-last contract, not a model of the code, and it assumes a non-empty series. `PerZoom` therefore requires non-empty series. The C++ constructor does not check this, and what the helper does with an empty vector is not known.
- `simplify` (declared at tin_creation_simplification_point_set_hierarchy.h:84): its body and CGAL's hierarchical clustering are not part of this model.
- The base class `TinCreationSimplificationPointSet`: border-polyline preservation is not part of this model. Its constructor parameters are only recorded as forwarded (the `border` and `minFeaturePolylineSize` fields).
- Floating point: `double` parameters are opaque values of a type parameter and are only stored and compared.
- `src/dev-tests/wlop_simplification.cpp`: a command-line program built from option parsing, file I/O, timers and CGAL calls, with no logic of its own.
- The `Concurrency_tag` / TBB selection: concurrency is not modelled.
- `assert` aborts: the asserts at vfetchoptimizer.cpp:14, 15 and 34 become preconditions of `OptimizeVertexFetch`, and the assert at line 50 becomes its postcondition.
- The pre-filled remap table: vfetchoptimizer.cpp:26-27 is commented out, so the caller must fill the first `vertex_count` entries with `~0u`. This is a precondition.
- There is no all-or-nothing behaviour: the code aborts on a failed assert and has no rollback, so none is modelled.
- `OptimizeVertexFetch`: requires room in the destination for `vertex_count` records, although the code writes only the `count` records it emits (and the bytes after them are proved unchanged). `index_count` is taken to be the length of the index array.
- `OptimizeVertexFetch`: `vertex_count` is limited to `0xFFFFFFFF` (the `unsigned int` range of `next_vertex` and of the remap entries). It also must not exceed the remap table's length.
- `OptimizeVertexFetch`: buffers are Dafny arrays, which are either the same array or disjoint. Partially overlapping C buffers are not expressible. The index buffer and the remap table must be different arrays from each other and from the vertex buffers.
- `OptimizeVertexFetch`: the byte offset `index * vertex_size` is computed by `Offset` as repeated addition. `OffsetIsProduct` proves it equals the product. `size_t` overflow of the product is not modelled.
- The remap table is written through an `unsigned int&` at line 36. In the model this is an array element written at index `index`.
