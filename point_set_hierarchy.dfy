/** The zoom-dependent parameters of the hierarchical point-set simplification
    strategy: two per-zoom threshold series (maximum cluster size, maximum
    surface variance) and the two "current" values that are refreshed from
    them whenever the strategy is set up for a zoom level. */
module TinCreation {
  /** The C++ `unsigned int`. */
  type uint32 = x: int | 0 <= x < 0x1_0000_0000

  /** The per-zoom threshold lookup shared by the simplification strategies.
      Its C++ body is not part of this model; the contract used here is an
      ASSUMPTION: the series is non-empty, entry `zoom` is returned when it
      exists and the last entry is returned beyond the end of the series. */
  function ThresholdForZoom<T>(series: seq<T>, zoom: nat): (r: T)
    requires |series| > 0
    ensures r in series
  {
    if zoom < |series| then series[zoom] else series[|series| - 1]
  }

  /** An independent reading of the clamp-to-last rule: walk down the series
      one zoom level at a time, staying on the last entry once it is reached. */
  function WalkToZoom<T>(series: seq<T>, zoom: nat): (r: T)
    requires |series| > 0
    ensures r in series
  {
    if zoom == 0 || |series| == 1 then series[0]
    else WalkToZoom(series[1..], zoom - 1)
  }

  /** The direct lookup and the step-by-step walk agree on every series and zoom. */
  lemma {:induction false} ThresholdIsWalk<T>(series: seq<T>, zoom: nat)
    requires |series| > 0
    ensures ThresholdForZoom(series, zoom) == WalkToZoom(series, zoom)
  {
    if zoom == 0 || |series| == 1 {
    } else {
      ThresholdIsWalk(series[1..], zoom - 1);
    }
  }

  /** Clamp-to-last: any zoom at or beyond the length of the series resolves
      to the value of the last defined zoom level. */
  lemma {:induction false} ClampToLast<T>(series: seq<T>, zoom: nat)
    requires |series| > 0
    requires zoom >= |series|
    ensures ThresholdForZoom(series, zoom) == ThresholdForZoom(series, |series| - 1)
    ensures WalkToZoom(series, zoom) == series[|series| - 1]
  {
    ThresholdIsWalk(series, zoom);
  }

  /** A one-element series (what the scalar constructor builds) applies its
      value to every zoom level. */
  lemma {:induction false} SingletonIsConstant<T>(value: T, zoom: nat)
    ensures WalkToZoom([value], zoom) == value
    ensures ThresholdForZoom([value], zoom) == value
  {
    ThresholdIsWalk([value], zoom);
  }

  /** Appending entries for finer zoom levels does not change the value of any
      zoom level the series already defined. */
  lemma {:induction false} ExtendKeepsDefinedZooms<T>(series: seq<T>, more: seq<T>, zoom: nat)
    requires |series| > 0
    requires zoom < |series|
    ensures WalkToZoom(series + more, zoom) == series[zoom]
  {
    ThresholdIsWalk(series + more, zoom);
  }

  /** The border-simplification settings handed on to the base strategy: a
      scalar pair or a pair of per-zoom series. */
  datatype BorderSettings<F> =
    | ScalarBorder(maxDistance: F, maxLength: F)
    | PerZoomBorder(maxDistancePerZoom: seq<F>, maxLengthPerZoom: seq<F>)

  /** `TinCreationSimplificationPointSetHierarchy`; `F` stands for the C++
      `double`, whose values this model only stores and compares. */
  class SimplificationPointSetHierarchy<F(==,0)> {
    /** Recorded as forwarded to the base class, which is not part of this model. */
    var border: BorderSettings<F>
    var minFeaturePolylineSize: uint32

    var maxClusterSize: uint32
    var maxSurfaceVariance: F
    var maxClusterSizePerZoom: seq<uint32>
    var maxSurfaceVariancePerZoom: seq<F>

    /** Both series can be resolved at every zoom level. */
    predicate Valid()
      reads this
    {
      |maxClusterSizePerZoom| > 0 && |maxSurfaceVariancePerZoom| > 0
    }

    /** The current values are those of `zoom`, both taken from the same zoom index. */
    predicate ConfiguredFor(zoom: nat)
      reads this
      requires Valid()
    {
      maxClusterSize == ThresholdForZoom(maxClusterSizePerZoom, zoom)
      && maxSurfaceVariance == ThresholdForZoom(maxSurfaceVariancePerZoom, zoom)
    }

    /** Scalar constructor: each threshold becomes a one-element series, then
        the strategy is set up for zoom 0. */
    constructor Scalar(borderMaxDistance: F, borderMaxLength: F, minFeaturePolylineSize: uint32,
                       maxClusterSize: uint32, maxSurfaceVariance: F)
      ensures Valid() && ConfiguredFor(0)
      ensures border == ScalarBorder(borderMaxDistance, borderMaxLength)
      ensures this.minFeaturePolylineSize == minFeaturePolylineSize
      ensures maxClusterSizePerZoom == [maxClusterSize]
      ensures maxSurfaceVariancePerZoom == [maxSurfaceVariance]
      ensures this.maxClusterSize == maxClusterSize
      ensures this.maxSurfaceVariance == maxSurfaceVariance
    {
      border := ScalarBorder(borderMaxDistance, borderMaxLength);
      this.minFeaturePolylineSize := minFeaturePolylineSize;
      maxClusterSizePerZoom := [maxClusterSize];
      maxSurfaceVariancePerZoom := [maxSurfaceVariance];
      new;
      SetParamsForZoom(0);
    }

    /** Per-zoom constructor: the series are stored as given, then the strategy
        is set up for zoom 0. The series must be non-empty for the lookup. */
    constructor PerZoom(borderMaxDistancePerZoom: seq<F>, borderMaxLengthPerZoom: seq<F>,
                        minFeaturePolylineSize: uint32,
                        maxClusterSizePerZoom: seq<uint32>, maxSurfaceVariancePerZoom: seq<F>)
      requires |maxClusterSizePerZoom| > 0 && |maxSurfaceVariancePerZoom| > 0
      ensures Valid() && ConfiguredFor(0)
      ensures border == PerZoomBorder(borderMaxDistancePerZoom, borderMaxLengthPerZoom)
      ensures this.minFeaturePolylineSize == minFeaturePolylineSize
      ensures this.maxClusterSizePerZoom == maxClusterSizePerZoom
      ensures this.maxSurfaceVariancePerZoom == maxSurfaceVariancePerZoom
      ensures maxClusterSize == maxClusterSizePerZoom[0]
      ensures maxSurfaceVariance == maxSurfaceVariancePerZoom[0]
    {
      border := PerZoomBorder(borderMaxDistancePerZoom, borderMaxLengthPerZoom);
      this.minFeaturePolylineSize := minFeaturePolylineSize;
      this.maxClusterSizePerZoom := maxClusterSizePerZoom;
      this.maxSurfaceVariancePerZoom := maxSurfaceVariancePerZoom;
      new;
      SetParamsForZoom(0);
    }

    /** `setParamsForZoomConcreteStrategy`: refresh both current values from
        the same zoom index; nothing else changes. */
    method SetParamsForZoom(zoom: nat)
      requires Valid()
      modifies this`maxClusterSize, this`maxSurfaceVariance
      ensures Valid() && ConfiguredFor(zoom)
      ensures maxClusterSizePerZoom == old(maxClusterSizePerZoom)
      ensures maxSurfaceVariancePerZoom == old(maxSurfaceVariancePerZoom)
    {
      maxClusterSize := ThresholdForZoom(maxClusterSizePerZoom, zoom);
      maxSurfaceVariance := ThresholdForZoom(maxSurfaceVariancePerZoom, zoom);
    }
  }

  /** Setting up the same zoom twice in a row leaves the current values where
      the first call put them. */
  method SetParamsForZoomTwice<F(==,0)>(h: SimplificationPointSetHierarchy<F>, zoom: nat)
    returns (first: (uint32, F), second: (uint32, F))
    requires h.Valid()
    modifies h
    ensures first == second
    ensures h.Valid() && h.ConfiguredFor(zoom)
  {
    h.SetParamsForZoom(zoom);
    first := (h.maxClusterSize, h.maxSurfaceVariance);
    h.SetParamsForZoom(zoom);
    second := (h.maxClusterSize, h.maxSurfaceVariance);
  }

  /** A strategy built from scalars keeps its constructor arguments at every
      zoom level it is later set up for. */
  method ScalarAtAnyZoom<F(==,0)>(maxClusterSize: uint32, maxSurfaceVariance: F, zoom: nat,
                               borderMaxDistance: F, borderMaxLength: F, minFeaturePolylineSize: uint32)
    returns (h: SimplificationPointSetHierarchy<F>)
    ensures h.maxClusterSize == maxClusterSize
    ensures h.maxSurfaceVariance == maxSurfaceVariance
  {
    h := new SimplificationPointSetHierarchy.Scalar(borderMaxDistance, borderMaxLength,
                                                    minFeaturePolylineSize, maxClusterSize, maxSurfaceVariance);
    h.SetParamsForZoom(zoom);
    SingletonIsConstant(maxClusterSize, zoom);
    SingletonIsConstant(maxSurfaceVariance, zoom);
  }
}
