/**
 Layer geometry of the tree: eight horizontal bands between heights -0.5 and
 1.25, seven cylinders with a bulging profile and a cone on top, a star apex
 0.28 above the last band edge. All arithmetic is exact; the program computes
 it in IEEE doubles.
 */
module Geometry {
  import opened RealArith

  const LayerCount: nat := 8
  const LayerGap: real := 0.04
  const Bottom: real := -0.5
  const Top: real := 1.25
  /** Height of the star above the top edge of the layer grid. */
  const StarLift: real := 0.28

  function Abs(x: real): real { if x < 0.0 then -x else x }

  /** The k-th of n evenly spaced values from start to stop (numpy's linspace). */
  function Linspace(start: real, stop: real, n: nat, k: nat): (v: real)
    requires k < n
    ensures k == 0 ==> v == start
    ensures n > 1 && k == n - 1 ==> v == stop
    ensures start <= stop ==> start <= v <= stop
    ensures stop <= start ==> stop <= v <= start
  {
    if n == 1 then start
    else
      var t := (k as real) / ((n - 1) as real);
      UnitRatio(k, n - 1, t);
      Lerp(start, stop, t);
      start + t * (stop - start)
  }

  /** k / m lies in [0, 1] for k <= m. */
  lemma UnitRatio(k: nat, m: nat, t: real)
    requires 0 < m && k <= m && t == (k as real) / (m as real)
    ensures 0.0 <= t <= 1.0
  {
    assert t * (m as real) == k as real;
  }

  /** Edge k of the layer grid, k = 0 .. 8: linspace(-0.5, 1.25, 9). */
  function LayerEdge(k: nat): real
    requires k <= LayerCount
  {
    Linspace(Bottom, Top, LayerCount + 1, k)
  }

  /** The grid edges are evenly spaced by 1.75 / 8 and run from -0.5 to 1.25. */
  lemma LayerEdges(i: nat, j: nat)
    requires i < j <= LayerCount
    ensures LayerEdge(0) == Bottom && LayerEdge(LayerCount) == Top
    ensures LayerEdge(i) == Bottom + (i as real) * 0.21875
    ensures LayerEdge(j) - LayerEdge(i) >= 0.21875
  {
  }

  /** Height of the star apex. */
  function StarHeight(): (h: real)
    ensures h == Top + StarLift
  {
    LayerEdge(LayerCount) + StarLift
  }

  /** The three point groups laid out per layer; each narrows the layer slice differently. */
  datatype Part = Foliage | Ornament | Ribbon

  datatype Band = Band(lo: real, hi: real) {
    function Centre(): real { (lo + hi) / 2.0 }
    function Width(): real { hi - lo }
  }

  /** The vertical band in which `part` is placed in layer i. */
  function LayerBand(part: Part, i: nat): (b: Band)
    requires i < LayerCount
    ensures LayerEdge(i) < b.lo < b.hi
    ensures i < LayerCount - 1 ==> b.hi < LayerEdge(i + 1)
    ensures i == LayerCount - 1 ==> b.hi <= StarHeight() - 0.02
  {
    LayerEdges(i, i + 1);
    var lo := LayerEdge(i);
    var hi := LayerEdge(i + 1);
    var top := i == LayerCount - 1;
    match part
    case Foliage =>
      if top then Band(lo + LayerGap * 0.3, StarHeight() - 0.02)
      else Band(lo + LayerGap, hi - LayerGap)
    case Ornament =>
      if top then Band(lo + LayerGap * 0.3 + 0.01, StarHeight() - 0.02 - 0.01)
      else Band(lo + LayerGap + 0.01, hi - LayerGap - 0.01)
    case Ribbon =>
      if top then Band(lo + LayerGap * 0.3, hi - 0.01)
      else Band(lo + LayerGap, hi - LayerGap)
  }

  /** Consecutive layers never overlap: every band of layer i lies strictly below every band of layer i + 1. */
  lemma BandsStack(p: Part, q: Part, i: nat)
    requires i + 1 < LayerCount
    ensures LayerBand(p, i).hi < LayerBand(q, i + 1).lo
  {
  }

  /** Layer shapes: the top layer is a cone, the others are cylinders. */
  datatype Shape = Cylinder | Cone

  function LayerShape(i: nat): Shape {
    if i == LayerCount - 1 then Cone else Cylinder
  }

  /** Largest radius of a cylinder layer: 1.6 * (1 - i / 7 * 0.8). */
  function CylinderRadius(i: nat): real {
    1.6 * (1.0 - (i as real) / ((LayerCount - 1) as real) * 0.8)
  }

  /** Largest radius of layer i; the cone starts at 0.7 of the radius of the layer below. */
  function MaxRadius(i: nat): real {
    if i == LayerCount - 1 then CylinderRadius(i - 1) * 0.7 else CylinderRadius(i)
  }

  /** Cylinder radii are positive up to the top and strictly shrink with the layer index. */
  lemma CylinderRadiusShrinks(i: nat, j: nat)
    requires i < j < LayerCount
    ensures 0.0 < CylinderRadius(j) < CylinderRadius(i) <= 1.6
  {
  }

  /** The largest radius of every layer, cone included, is positive and the tree
      tapers strictly from bottom to top. */
  lemma MaxRadiusShrinks(i: nat, j: nat)
    requires i < j < LayerCount
    ensures 0.0 < MaxRadius(j) < MaxRadius(i) <= 1.6
  {
    if j == LayerCount - 1 {
      CylinderRadiusShrinks(j - 1, j);
      if i < j - 1 {
        CylinderRadiusShrinks(i, j - 1);
      }
    } else {
      CylinderRadiusShrinks(i, j);
    }
  }

  /** Relative height of h within band b, 0 when the band is degenerate. */
  function RelHeight(h: real, b: Band): (t: real)
    ensures b.lo < b.hi && b.lo <= h <= b.hi ==> 0.0 <= t <= 1.0
    ensures b.lo < b.hi ==> t * b.Width() == h - b.lo
  {
    if b.Width() > 0.0 then (h - b.lo) / b.Width() else 0.0
  }

  /** Distance of h from the band centre, as a fraction of the half-width. */
  function CentreDistance(h: real, b: Band): (d: real)
    ensures d >= 0.0
    ensures b.lo < b.hi && b.lo <= h <= b.hi ==> d <= 1.0
  {
    if b.Width() > 0.0 then
      HalfWidthRatio(Abs(h - b.Centre()), b.Width());
      Abs(h - b.Centre()) / b.Width() * 2.0
    else 0.0
  }

  lemma HalfWidthRatio(x: real, w: real)
    requires 0.0 <= x && 0.0 < w
    ensures 0.0 <= x / w * 2.0
    ensures x <= w / 2.0 ==> x / w * 2.0 <= 1.0
  {
    var q := x / w;
    assert q * w == x;
  }

  /** Surface radius of a layer of the given shape at height h. */
  function BaseRadius(shape: Shape, maxRadius: real, b: Band, h: real): real {
    match shape
    case Cone => maxRadius * (1.0 - RelHeight(h, b))
    case Cylinder =>
      var d := CentreDistance(h, b);
      maxRadius * (1.0 - d * d * 0.3)
  }

  /** Inside its band a cone's radius lies in [0, max] and a cylinder's in
      [0.7 max, max]: the bulge never pinches a cylinder below 70% of its width. */
  lemma BaseRadiusBounds(shape: Shape, maxRadius: real, b: Band, h: real)
    requires maxRadius >= 0.0 && b.lo < b.hi && b.lo <= h <= b.hi
    ensures 0.0 <= BaseRadius(shape, maxRadius, b, h) <= maxRadius
    ensures shape == Cylinder ==> 0.7 * maxRadius <= BaseRadius(shape, maxRadius, b, h)
  {
    match shape
    case Cone =>
      ScaleComplement(maxRadius, RelHeight(h, b), BaseRadius(shape, maxRadius, b, h));
    case Cylinder =>
      BulgeFactor(maxRadius, CentreDistance(h, b), BaseRadius(shape, maxRadius, b, h));
  }

  /** Surface radius of the given part of layer i at height h: ornaments sit at
      0.98 of the surface, the ribbon floats 0.08 outside it. */
  function PartRadius(part: Part, i: nat, h: real): (r: real)
    requires i < LayerCount
  {
    var base := BaseRadius(LayerShape(i), MaxRadius(i), LayerBand(part, i), h);
    match part
    case Foliage => base
    case Ornament => base * 0.98
    case Ribbon => base + 0.08
  }

  /** Within its band, an ornament sits just inside the surface and the ribbon
      just outside it, and neither strays beyond 0.08 past the layer's largest radius. */
  lemma PartRadiusBounds(part: Part, i: nat, h: real)
    requires i < LayerCount
    requires LayerBand(part, i).lo <= h <= LayerBand(part, i).hi
    ensures var base := BaseRadius(LayerShape(i), MaxRadius(i), LayerBand(part, i), h);
            && 0.0 <= base <= MaxRadius(i)
            && (part == Ornament ==> 0.0 <= PartRadius(part, i, h) <= base)
            && (part == Ribbon ==> base < PartRadius(part, i, h) <= MaxRadius(i) + 0.08)
  {
    if i > 0 { MaxRadiusShrinks(0, i); } else { CylinderRadiusShrinks(0, 1); }
    BaseRadiusBounds(LayerShape(i), MaxRadius(i), LayerBand(part, i), h);
  }
}
