/**
 The scene builder: the static particle table of the tree (trunk, foliage,
 ornaments, optional ribbon, transition sparkle, star apex and halo) and its
 conversion to rows of nine numbers.

 Every random draw and every cosine/sine pair comes from a `Sampler`, so the
 builder is a pure function of the style and the sampler. numpy's
 `uniform(lo, hi)` is `lo + (hi - lo) * u` for a unit draw `u` in [0, 1), and
 that is how draws are turned into values here.
 */
module Scene {
  import Styles
  import G = Geometry
  import opened RealArith

  type Colour = Styles.Colour

  /** One point of the tree before colour resolution. Only the star apex carries the marker. */
  datatype Particle = Particle(x: real, y: real, z: real, colour: Colour, size: real, alpha: real, starMarker: bool)

  /** One row of the particle table: position, RGB, opacity, size and the star flag (1.0 or 0.0). */
  datatype Row = Row(x: real, y: real, z: real, red: real, green: real, blue: real,
                     alpha: real, size: real, marker: real)

  /** The point groups of the scene, in the order they are appended. */
  datatype Group = Trunk | Leaves | Ornaments | Ribbon | Transition {
    predicate Layered() { this == Leaves || this == Ornaments || this == Ribbon }
  }

  /** The draws one point consumes. `height`, `spread`, `size` and `coin` are unit
      draws; `root` is the square root of the group's radius draw; `cos`/`sin` the
      cosine and sine of its angle; `pick` the index of a colour choice. */
  datatype Draw = Draw(height: real, spread: real, root: real, cos: real, sin: real,
                       size: real, coin: real, pick: nat)

  /** The source of randomness and trigonometry: a draw for point k of layer i of a group. */
  type Sampler = (Group, nat, nat) -> Draw

  const TrunkCount: nat := 2500
  const TotalLeaves: nat := 8000
  const TotalOrnaments: nat := 600
  const TotalRibbon: nat := 1200
  const TransitionCount: nat := 50

  /** Python's int() of a float: truncation toward zero. */
  function Trunc(x: real): (n: int)
    ensures x >= 0.0 ==> 0 <= n && n as real <= x < n as real + 1.0
  {
    if x >= 0.0 then x.Floor else -((-x).Floor)
  }

  /** numpy's uniform(lo, hi) for the unit draw u. */
  function Uniform(lo: real, hi: real, u: real): (v: real)
    ensures lo < hi && 0.0 <= u < 1.0 ==> lo <= v < hi
  {
    lo + Scale(hi - lo, u)
  }

  /** A width scaled by a unit draw. */
  function Scale(w: real, u: real): (r: real)
    ensures 0.0 < w && 0.0 <= u < 1.0 ==> 0.0 <= r < w
  {
    MulBelow(w, u);
    w * u
  }

  /** random.choice for the drawn index. */
  function Pick(colours: seq<Colour>, k: nat): (c: Colour)
    requires |colours| > 0
    ensures c in colours
  {
    colours[k % |colours|]
  }

  /** Lower end of the interval whose square root scales a radius. */
  function RootFloor(g: Group, i: nat): real {
    if g == Leaves && i == G.LayerCount - 1 then 0.05 else 0.1
  }

  /** What the program's random sources and trigonometric functions guarantee of a draw. */
  predicate ValidDraw(g: Group, i: nat, d: Draw) {
    && 0.0 <= d.height < 1.0 && 0.0 <= d.spread < 1.0
    && 0.0 <= d.size < 1.0 && 0.0 <= d.coin < 1.0
    && d.cos * d.cos + d.sin * d.sin == 1.0
    && ((g == Leaves || g == Transition) ==>
          0.0 <= d.root && d.root * d.root == Uniform(RootFloor(g, i), 1.0, d.spread))
  }

  ghost predicate ValidSampler(rng: Sampler) {
    forall g, i, k :: ValidDraw(g, i, rng(g, i, k))
  }

  /** Points per layer of a layered group. */
  function PerLayer(g: Group, i: nat): (n: nat)
    requires g.Layered()
    ensures g == Leaves ==> n == if i == G.LayerCount - 1 then 1200 else 1000
    ensures g == Ornaments ==> n == 75
    ensures g == Ribbon ==> n == 150
  {
    match g
    case Leaves =>
      if i == G.LayerCount - 1 then
        assert (TotalLeaves / G.LayerCount) as real * 1.2 == 1200.0;
        Trunc((TotalLeaves / G.LayerCount) as real * 1.2)
      else TotalLeaves / G.LayerCount
    case Ornaments => TotalOrnaments / G.LayerCount
    case Ribbon => TotalRibbon / G.LayerCount
  }

  /** Squared distance of a particle from the vertical axis. */
  function AxisDistance2(p: Particle): real { p.x * p.x + p.z * p.z }

  /** An unmarked particle at height h and radius r in the direction the draw supplies. */
  function Place(r: real, h: real, d: Draw, colour: Colour, size: real, alpha: real): (p: Particle)
    ensures p.y == h && !p.starMarker
    ensures d.cos * d.cos + d.sin * d.sin == 1.0 ==> AxisDistance2(p) == r * r
  {
    var p := Particle(r * d.cos, h, r * d.sin, colour, size, alpha, false);
    if d.cos * d.cos + d.sin * d.sin == 1.0 then
      OnCircle(p.x, p.z, r, d.cos, d.sin);
      p
    else p
  }

  function TrunkPoint(style: Styles.Style, d: Draw): Particle {
    var h := Uniform(-0.8, -0.2, d.height);
    var r := Uniform(0.0, 0.28, d.spread);
    Place(r, h, d, style.trunkColour, 18.0, 1.0)
  }

  /** Height of a foliage point of layer i, uniform in the layer's foliage band. */
  function LeafHeight(i: nat, d: Draw): real
    requires i < G.LayerCount
  {
    var b := G.LayerBand(G.Foliage, i);
    Uniform(b.lo, b.hi, d.height)
  }

  /** Radius of a foliage point: the surface radius scaled by the square root of a draw. */
  function LeafRadius(i: nat, d: Draw): real
    requires i < G.LayerCount
  {
    G.PartRadius(G.Foliage, i, LeafHeight(i, d)) * d.root
  }

  /** Colour of a foliage point; in the top 15% of the cone the star colour is
      chosen with a probability rising linearly to 0.3 at the tip. */
  function LeafColour(style: Styles.Style, i: nat, d: Draw): (c: Colour)
    requires Styles.WellFormed(style) && i < G.LayerCount
    ensures c == style.starColour || c in style.treeColours
    ensures G.LayerShape(i) == G.Cylinder ==> c in style.treeColours
  {
    var t := G.RelHeight(LeafHeight(i, d), G.LayerBand(G.Foliage, i));
    if G.LayerShape(i) == G.Cone && t > 0.85 && d.coin < (t - 0.85) / 0.15 * 0.3
    then style.starColour
    else Pick(style.treeColours, d.pick)
  }

  /** A foliage point of layer i. */
  function LeafPoint(style: Styles.Style, i: nat, d: Draw): Particle
    requires Styles.WellFormed(style) && i < G.LayerCount
  {
    Place(LeafRadius(i, d), LeafHeight(i, d), d, LeafColour(style, i, d), Uniform(5.0, 15.0, d.size), 0.9)
  }

  function OrnamentPoint(style: Styles.Style, i: nat, d: Draw): Particle
    requires Styles.WellFormed(style) && i < G.LayerCount
  {
    var b := G.LayerBand(G.Ornament, i);
    var h := Uniform(b.lo, b.hi, d.height);
    var r := G.PartRadius(G.Ornament, i, h);
    Place(r, h, d, Pick(style.ornamentColours, d.pick), Uniform(22.0, 45.0, d.size), 1.0)
  }

  /** Point k of the ribbon spiral of layer i; heights run down the band evenly.
      The sampler supplies the cosine and sine of the sweep angle. */
  function RibbonPoint(style: Styles.Style, i: nat, k: nat, d: Draw): Particle
    requires i < G.LayerCount && k < PerLayer(Ribbon, i)
  {
    var b := G.LayerBand(G.Ribbon, i);
    var h := G.Linspace(b.hi, b.lo, PerLayer(Ribbon, i), k);
    var r := G.PartRadius(G.Ribbon, i, h);
    Place(r, h, d, style.ribbonColour, 8.0 * style.ribbonWidth, 0.6)
  }

  /** Band of the sparkle bridging the cone tip and the star. */
  function TransitionBand(): (b: G.Band)
    ensures b.lo < b.hi < G.StarHeight()
  {
    G.Band(G.StarHeight() - 0.02, G.StarHeight() - 0.005)
  }

  function TransitionHeight(d: Draw): real {
    Uniform(TransitionBand().lo, TransitionBand().hi, d.height)
  }

  /** Radius of a sparkle point: 0.02 at the cone tip, shrinking to 0 at the star,
      scaled by the square root of a draw. */
  function TransitionRadius(d: Draw): real {
    0.02 * ((1.0 - G.RelHeight(TransitionHeight(d), TransitionBand())) * d.root)
  }

  /** A sparkle point; it takes the star colour with a probability equal to its relative height. */
  function TransitionPoint(style: Styles.Style, d: Draw): (p: Particle)
    requires Styles.WellFormed(style)
    ensures p.colour == style.starColour || p.colour in style.treeColours
  {
    var t := G.RelHeight(TransitionHeight(d), TransitionBand());
    var colour := if d.coin < t then style.starColour else Pick(style.treeColours, d.pick);
    Place(TransitionRadius(d), TransitionHeight(d), d, colour, Uniform(3.0, 8.0, d.size), 0.7 + t * 0.3)
  }

  /** The star apex: the one marked particle. */
  function Apex(style: Styles.Style): Particle {
    Particle(0.0, G.StarHeight(), 0.0, style.starColour, 500.0, 1.0, true)
  }

  /** The apex followed by its three glow halos at the same position. */
  function StarPoints(style: Styles.Style): (ps: seq<Particle>)
    ensures |ps| == 4
    ensures forall k :: 0 <= k < |ps| ==>
      && ps[k].x == 0.0 && ps[k].y == G.StarHeight() && ps[k].z == 0.0
      && ps[k].colour == style.starColour
      && (ps[k].starMarker <==> k == 0)
  {
    [Apex(style)]
    + [Particle(0.0, G.StarHeight(), 0.0, style.starColour, 800.0, 0.2, false),
       Particle(0.0, G.StarHeight(), 0.0, style.starColour, 500.0, 0.3, false),
       Particle(0.0, G.StarHeight(), 0.0, style.starColour, 300.0, 0.4, false)]
  }

  function LayeredPoint(g: Group, style: Styles.Style, i: nat, k: nat, d: Draw): Particle
    requires g.Layered() && Styles.WellFormed(style) && i < G.LayerCount && k < PerLayer(g, i)
  {
    match g
    case Leaves => LeafPoint(style, i, d)
    case Ornaments => OrnamentPoint(style, i, d)
    case Ribbon => RibbonPoint(style, i, k, d)
  }

  function LayerPoints(g: Group, style: Styles.Style, rng: Sampler, i: nat): seq<Particle>
    requires g.Layered() && Styles.WellFormed(style) && i < G.LayerCount
  {
    seq(PerLayer(g, i), k requires 0 <= k < PerLayer(g, i) => LayeredPoint(g, style, i, k, rng(g, i, k)))
  }

  /** The points of group g in layers `from` up to the top, bottom layer first. */
  function Layers(g: Group, style: Styles.Style, rng: Sampler, from: nat): seq<Particle>
    requires g.Layered() && Styles.WellFormed(style)
    decreases G.LayerCount - from
  {
    if from >= G.LayerCount then []
    else LayerPoints(g, style, rng, from) + Layers(g, style, rng, from + 1)
  }

  function TrunkPoints(style: Styles.Style, rng: Sampler): seq<Particle> {
    seq(TrunkCount, k requires 0 <= k < TrunkCount => TrunkPoint(style, rng(Trunk, 0, k)))
  }

  function TransitionPoints(style: Styles.Style, rng: Sampler): seq<Particle>
    requires Styles.WellFormed(style)
  {
    seq(TransitionCount, k requires 0 <= k < TransitionCount => TransitionPoint(style, rng(Transition, 0, k)))
  }

  /** Every particle but the star group, in the order the builder appends them. */
  function Body(style: Styles.Style, rng: Sampler): seq<Particle>
    requires Styles.WellFormed(style)
  {
    TrunkPoints(style, rng)
    + Layers(Leaves, style, rng, 0)
    + Layers(Ornaments, style, rng, 0)
    + (if style.hasRibbon then Layers(Ribbon, style, rng, 0) else [])
    + TransitionPoints(style, rng)
  }

  /** The whole static scene. */
  function BuildScene(style: Styles.Style, rng: Sampler): seq<Particle>
    requires Styles.WellFormed(style)
  {
    Body(style, rng) + StarPoints(style)
  }

  /** Resolves colours and encodes the star marker as 1.0 / 0.0. */
  function ProcessData(ps: seq<Particle>, rgba: Colour -> Styles.Rgba): (rows: seq<Row>)
    ensures |rows| == |ps|
    ensures forall k :: 0 <= k < |ps| ==>
      && rows[k].x == ps[k].x && rows[k].y == ps[k].y && rows[k].z == ps[k].z
      && rows[k].alpha == ps[k].alpha && rows[k].size == ps[k].size
      && rows[k].red == rgba(ps[k].colour).r && rows[k].green == rgba(ps[k].colour).g
      && rows[k].blue == rgba(ps[k].colour).b
      && (rows[k].marker == 1.0 <==> ps[k].starMarker)
      && (rows[k].marker == 0.0 <==> !ps[k].starMarker)
  {
    var rows := seq(|ps|, k requires 0 <= k < |ps| => ToRow(ps[k], rgba(ps[k].colour)));
    assert forall k :: 0 <= k < |ps| ==> rows[k] == ToRow(ps[k], rgba(ps[k].colour));
    rows
  }

  /** One row of the table: the particle's position, opacity and size, the
      given RGB, and the flag 1.0 for the marked particle, 0.0 for any other. */
  function ToRow(p: Particle, c: Styles.Rgba): (r: Row)
    ensures r.marker == 1.0 <==> p.starMarker
    ensures r.marker == 0.0 <==> !p.starMarker
  {
    Row(p.x, p.y, p.z, c.r, c.g, c.b, p.alpha, p.size, if p.starMarker then 1.0 else 0.0)
  }

  // ---------------------------------------------------------------- counts

  /** Sum of the per-layer counts of g over layers `from` up to the top. */
  function LayerTotal(g: Group, from: nat): nat
    requires g.Layered()
    decreases G.LayerCount - from
  {
    if from >= G.LayerCount then 0 else PerLayer(g, from) + LayerTotal(g, from + 1)
  }

  /** Closed form of the layer total: every layer below the top holds as many
      points as the bottom one. */
  lemma {:induction false} LayerTotalClosed(g: Group, from: nat)
    requires g.Layered() && from < G.LayerCount
    ensures LayerTotal(g, from) == (G.LayerCount - 1 - from) * PerLayer(g, 0) + PerLayer(g, G.LayerCount - 1)
    decreases G.LayerCount - from
  {
    if from < G.LayerCount - 1 {
      LayerTotalClosed(g, from + 1);
    }
  }

  lemma {:induction false} LayersSize(g: Group, style: Styles.Style, rng: Sampler, from: nat)
    requires g.Layered() && Styles.WellFormed(style)
    ensures |Layers(g, style, rng, from)| == LayerTotal(g, from)
    decreases G.LayerCount - from
  {
    if from < G.LayerCount {
      LayersSize(g, style, rng, from + 1);
    }
  }

  /** Group sizes: 1000 leaves in each cylinder and int(1000 * 1.2) = 1200 in the
      cone, 75 ornaments and 150 ribbon points per layer. */
  lemma GroupSizes(style: Styles.Style, rng: Sampler)
    requires Styles.WellFormed(style)
    ensures |TrunkPoints(style, rng)| == 2500
    ensures |Layers(Leaves, style, rng, 0)| == 7 * 1000 + 1200 == 8200
    ensures |Layers(Ornaments, style, rng, 0)| == 8 * 75 == 600
    ensures |Layers(Ribbon, style, rng, 0)| == 8 * 150 == 1200
    ensures |TransitionPoints(style, rng)| == 50
    ensures |StarPoints(style)| == 1 + 3
  {
    assert PerLayer(Leaves, G.LayerCount - 1) == 1200 by {
      assert (TotalLeaves / G.LayerCount) as real * 1.2 == 1200.0;
    }
    LayerTotalClosed(Leaves, 0);
    LayerTotalClosed(Ornaments, 0);
    LayerTotalClosed(Ribbon, 0);
    LayersSize(Leaves, style, rng, 0);
    LayersSize(Ornaments, style, rng, 0);
    LayersSize(Ribbon, style, rng, 0);
  }

  /** The scene holds 12554 particles with a ribbon and 11354 without, whatever the colours. */
  lemma SceneSize(style: Styles.Style, rng: Sampler)
    requires Styles.WellFormed(style)
    ensures |BuildScene(style, rng)| == if style.hasRibbon then 12554 else 11354
  {
    GroupSizes(style, rng);
  }

  // ---------------------------------------------------------- star marker

  predicate Unmarked(ps: seq<Particle>) {
    forall k :: 0 <= k < |ps| ==> !ps[k].starMarker
  }

  lemma {:induction false} LayersUnmarked(g: Group, style: Styles.Style, rng: Sampler, from: nat)
    requires g.Layered() && Styles.WellFormed(style)
    ensures Unmarked(Layers(g, style, rng, from))
    decreases G.LayerCount - from
  {
    if from < G.LayerCount {
      LayersUnmarked(g, style, rng, from + 1);
      var head := LayerPoints(g, style, rng, from);
      forall k | 0 <= k < |head|
        ensures !head[k].starMarker
      {
        assert head[k] == LayeredPoint(g, style, from, k, rng(g, from, k));
      }
    }
  }

  lemma UnmarkedConcat(a: seq<Particle>, b: seq<Particle>)
    requires Unmarked(a) && Unmarked(b)
    ensures Unmarked(a + b)
  {
  }

  /** No particle outside the star group carries the marker. */
  lemma BodyUnmarked(style: Styles.Style, rng: Sampler)
    requires Styles.WellFormed(style)
    ensures Unmarked(Body(style, rng))
  {
    var trunk := TrunkPoints(style, rng);
    forall k | 0 <= k < |trunk|
      ensures !trunk[k].starMarker
    {
      assert trunk[k] == TrunkPoint(style, rng(Trunk, 0, k));
    }
    var sparkle := TransitionPoints(style, rng);
    forall k | 0 <= k < |sparkle|
      ensures !sparkle[k].starMarker
    {
      assert sparkle[k] == TransitionPoint(style, rng(Transition, 0, k));
    }
    LayersUnmarked(Leaves, style, rng, 0);
    LayersUnmarked(Ornaments, style, rng, 0);
    LayersUnmarked(Ribbon, style, rng, 0);
    var ribbon := if style.hasRibbon then Layers(Ribbon, style, rng, 0) else [];
    UnmarkedConcat(trunk, Layers(Leaves, style, rng, 0));
    UnmarkedConcat(trunk + Layers(Leaves, style, rng, 0), Layers(Ornaments, style, rng, 0));
    UnmarkedConcat(trunk + Layers(Leaves, style, rng, 0) + Layers(Ornaments, style, rng, 0), ribbon);
    UnmarkedConcat(trunk + Layers(Leaves, style, rng, 0) + Layers(Ornaments, style, rng, 0) + ribbon, sparkle);
  }

  /** The apex is the only marked particle of the scene: it sits fourth from the end,
      on the axis at the star height. */
  lemma OneStarParticle(style: Styles.Style, rng: Sampler)
    requires Styles.WellFormed(style)
    ensures var s := BuildScene(style, rng);
            && |s| >= 4 && s[|s| - 4] == Apex(style)
            && s[|s| - 4].x == 0.0 && s[|s| - 4].y == G.StarHeight() && s[|s| - 4].z == 0.0
            && forall k :: 0 <= k < |s| ==> (s[k].starMarker <==> k == |s| - 4)
  {
    var body := Body(style, rng);
    BodyUnmarked(style, rng);
    var s := BuildScene(style, rng);
    var stars := StarPoints(style);
    assert s == body + stars;
    forall k | 0 <= k < |s|
      ensures s[k].starMarker <==> k == |s| - 4
    {
      if k < |body| {
        assert s[k] == body[k];
      } else {
        assert s[k] == stars[k - |body|];
      }
    }
  }

  /** After colour resolution exactly one row carries the flag 1.0, the apex at
      (0, star height, 0); every other row carries 0.0. */
  lemma OneStarRow(style: Styles.Style, rng: Sampler, rgba: Colour -> Styles.Rgba)
    requires Styles.WellFormed(style)
    ensures var rows := ProcessData(BuildScene(style, rng), rgba);
            var m := |rows| - 4;
            && |rows| >= 4
            && rows[m].x == 0.0 && rows[m].y == G.StarHeight() && rows[m].z == 0.0
            && forall k :: 0 <= k < |rows| ==> rows[k].marker == (if k == m then 1.0 else 0.0)
  {
    OneStarParticle(style, rng);
  }

  // ----------------------------------------------------------- placement

  /** Trunk points fill the cylinder of radius 0.28 between heights -0.8 and -0.2. */
  lemma TrunkPlacement(style: Styles.Style, d: Draw)
    requires ValidDraw(Trunk, 0, d)
    ensures var p := TrunkPoint(style, d);
            -0.8 <= p.y < -0.2 && AxisDistance2(p) <= 0.28 * 0.28
  {
    SquareMono(Uniform(0.0, 0.28, d.spread), 0.28);
  }

  /** Foliage lies in its layer's band, no farther from the axis than the layer's surface. */
  lemma LeafPlacement(style: Styles.Style, i: nat, d: Draw)
    requires Styles.WellFormed(style) && i < G.LayerCount && ValidDraw(Leaves, i, d)
    ensures var b := G.LayerBand(G.Foliage, i);
            var p := LeafPoint(style, i, d);
            var h := LeafHeight(i, d);
            && p.y == h && b.lo <= h < b.hi
            && AxisDistance2(p) <= G.PartRadius(G.Foliage, i, h) * G.PartRadius(G.Foliage, i, h)
            && AxisDistance2(p) <= G.MaxRadius(i) * G.MaxRadius(i)
  {
    LeafPosition(i, d, LeafColour(style, i, d), Uniform(5.0, 15.0, d.size), 0.9);
  }

  /** The position part of a foliage point, whatever its colour, size and opacity. */
  lemma LeafPosition(i: nat, d: Draw, colour: Colour, size: real, alpha: real)
    requires i < G.LayerCount && ValidDraw(Leaves, i, d)
    ensures var b := G.LayerBand(G.Foliage, i);
            var h := LeafHeight(i, d);
            var base := G.PartRadius(G.Foliage, i, h);
            var p := Place(LeafRadius(i, d), h, d, colour, size, alpha);
            && b.lo <= h < b.hi
            && AxisDistance2(p) <= base * base <= G.MaxRadius(i) * G.MaxRadius(i)
  {
    var h := LeafHeight(i, d);
    RootBound(Leaves, i, d);
    var base := G.PartRadius(G.Foliage, i, h);
    G.PartRadiusBounds(G.Foliage, i, h);
    ShrinkSquare(LeafRadius(i, d), base, d.root, G.MaxRadius(i));
  }

  /** The square root of a radius draw lies in [0, 1]. */
  lemma RootBound(g: Group, i: nat, d: Draw)
    requires g == Leaves || g == Transition
    requires ValidDraw(g, i, d)
    ensures 0.0 <= d.root && d.root * d.root <= 1.0
  {
    assert RootFloor(g, i) < 1.0;
  }

  /** Ornaments sit on a circle at 0.98 of the surface radius inside their band. */
  lemma OrnamentPlacement(style: Styles.Style, i: nat, d: Draw)
    requires Styles.WellFormed(style) && i < G.LayerCount && ValidDraw(Ornaments, i, d)
    ensures var p := OrnamentPoint(style, i, d);
            var b := G.LayerBand(G.Ornament, i);
            && b.lo <= p.y < b.hi
            && AxisDistance2(p) == G.PartRadius(G.Ornament, i, p.y) * G.PartRadius(G.Ornament, i, p.y)
            && AxisDistance2(p) <= G.MaxRadius(i) * G.MaxRadius(i)
  {
    var p := OrnamentPoint(style, i, d);
    G.PartRadiusBounds(G.Ornament, i, p.y);
    SquareMono(G.PartRadius(G.Ornament, i, p.y), G.MaxRadius(i));
  }

  /** Ribbon points sit on a circle 0.08 outside the surface, inside their band. */
  lemma RibbonPlacement(style: Styles.Style, i: nat, k: nat, d: Draw)
    requires i < G.LayerCount && k < PerLayer(Ribbon, i) && ValidDraw(Ribbon, i, d)
    ensures var p := RibbonPoint(style, i, k, d);
            var b := G.LayerBand(G.Ribbon, i);
            && b.lo <= p.y <= b.hi
            && AxisDistance2(p) == G.PartRadius(G.Ribbon, i, p.y) * G.PartRadius(G.Ribbon, i, p.y)
            && AxisDistance2(p) <= (G.MaxRadius(i) + 0.08) * (G.MaxRadius(i) + 0.08)
  {
    var p := RibbonPoint(style, i, k, d);
    G.PartRadiusBounds(G.Ribbon, i, p.y);
    SquareMono(G.PartRadius(G.Ribbon, i, p.y), G.MaxRadius(i) + 0.08);
  }

  /** The sparkle lies just below the star, within 0.02 of the axis, and grows more opaque toward it. */
  lemma TransitionPlacement(style: Styles.Style, d: Draw)
    requires Styles.WellFormed(style) && ValidDraw(Transition, 0, d)
    ensures var p := TransitionPoint(style, d);
            && G.StarHeight() - 0.02 <= p.y < G.StarHeight() - 0.005
            && AxisDistance2(p) <= 0.02 * 0.02
            && 0.7 <= p.alpha <= 1.0
  {
    var t := G.RelHeight(TransitionHeight(d), TransitionBand());
    RootUnit(d.root);
    ScaleDown(1.0 - t, d.root);
    ShrinkSquare(TransitionRadius(d), 0.02, (1.0 - t) * d.root, 0.02);
  }

  // --------------------------------------------------------------- reach

  /** Farthest any particle gets from the axis: the widest layer (1.6) plus the
      ribbon's offset (0.08). */
  const Reach: real := 1.6 + 0.08

  predicate WithinReach(ps: seq<Particle>) {
    forall k :: 0 <= k < |ps| ==> AxisDistance2(ps[k]) <= Reach * Reach
  }

  lemma LayeredWithinReach(g: Group, style: Styles.Style, i: nat, k: nat, d: Draw)
    requires g.Layered() && Styles.WellFormed(style) && i < G.LayerCount && k < PerLayer(g, i)
    requires ValidDraw(g, i, d)
    ensures AxisDistance2(LayeredPoint(g, style, i, k, d)) <= Reach * Reach
  {
    match g
    case Leaves => LeafWithinReach(style, i, d);
    case Ornaments => OrnamentWithinReach(style, i, d);
    case Ribbon => RibbonWithinReach(style, i, k, d);
  }

  /** No layer is wider than the bottom one, 1.6. */
  lemma WidestLayer(i: nat)
    requires i < G.LayerCount
    ensures 0.0 < G.MaxRadius(i) <= 1.6
  {
    if i > 0 { G.MaxRadiusShrinks(0, i); } else { G.CylinderRadiusShrinks(0, 1); }
  }

  lemma LeafWithinReach(style: Styles.Style, i: nat, d: Draw)
    requires Styles.WellFormed(style) && i < G.LayerCount && ValidDraw(Leaves, i, d)
    ensures AxisDistance2(LeafPoint(style, i, d)) <= Reach * Reach
  {
    WidestLayer(i);
    LeafPlacement(style, i, d);
    SquareMono(G.MaxRadius(i), Reach);
  }

  lemma OrnamentWithinReach(style: Styles.Style, i: nat, d: Draw)
    requires Styles.WellFormed(style) && i < G.LayerCount && ValidDraw(Ornaments, i, d)
    ensures AxisDistance2(OrnamentPoint(style, i, d)) <= Reach * Reach
  {
    WidestLayer(i);
    OrnamentPlacement(style, i, d);
    SquareMono(G.MaxRadius(i), Reach);
  }

  lemma RibbonWithinReach(style: Styles.Style, i: nat, k: nat, d: Draw)
    requires i < G.LayerCount && k < PerLayer(Ribbon, i) && ValidDraw(Ribbon, i, d)
    ensures AxisDistance2(RibbonPoint(style, i, k, d)) <= Reach * Reach
  {
    WidestLayer(i);
    RibbonPlacement(style, i, k, d);
    SquareMono(G.MaxRadius(i) + 0.08, Reach);
  }

  lemma {:induction false} LayersWithinReach(g: Group, style: Styles.Style, rng: Sampler, from: nat)
    requires g.Layered() && Styles.WellFormed(style) && ValidSampler(rng)
    ensures WithinReach(Layers(g, style, rng, from))
    decreases G.LayerCount - from
  {
    if from < G.LayerCount {
      LayersWithinReach(g, style, rng, from + 1);
      var head := LayerPoints(g, style, rng, from);
      forall k | 0 <= k < |head|
        ensures AxisDistance2(head[k]) <= Reach * Reach
      {
        assert head[k] == LayeredPoint(g, style, from, k, rng(g, from, k));
        LayeredWithinReach(g, style, from, k, rng(g, from, k));
      }
    }
  }

  /** Every particle of the scene, whatever the draws, lies within 1.68 of the vertical axis. */
  lemma SceneWithinReach(style: Styles.Style, rng: Sampler)
    requires Styles.WellFormed(style) && ValidSampler(rng)
    ensures WithinReach(BuildScene(style, rng))
  {
    BodyWithinReach(style, rng);
    var star := StarPoints(style);
    assert WithinReach(star) by {
      forall k | 0 <= k < |star|
        ensures AxisDistance2(star[k]) <= Reach * Reach
      {
        assert star[k].x == 0.0 && star[k].z == 0.0;
      }
    }
    ReachConcat(Body(style, rng), star);
  }

  lemma BodyWithinReach(style: Styles.Style, rng: Sampler)
    requires Styles.WellFormed(style) && ValidSampler(rng)
    ensures WithinReach(Body(style, rng))
  {
    TrunkWithinReach(style, rng);
    SparkleWithinReach(style, rng);
    LayersWithinReach(Leaves, style, rng, 0);
    LayersWithinReach(Ornaments, style, rng, 0);
    LayersWithinReach(Ribbon, style, rng, 0);
    assert WithinReach(if style.hasRibbon then Layers(Ribbon, style, rng, 0) else []);
    ReachConcat5(TrunkPoints(style, rng), Layers(Leaves, style, rng, 0), Layers(Ornaments, style, rng, 0),
                 if style.hasRibbon then Layers(Ribbon, style, rng, 0) else [], TransitionPoints(style, rng));
  }

  lemma TrunkWithinReach(style: Styles.Style, rng: Sampler)
    requires ValidSampler(rng)
    ensures WithinReach(TrunkPoints(style, rng))
  {
    var trunk := TrunkPoints(style, rng);
    forall k | 0 <= k < |trunk|
      ensures AxisDistance2(trunk[k]) <= Reach * Reach
    {
      assert trunk[k] == TrunkPoint(style, rng(Trunk, 0, k));
      TrunkPlacement(style, rng(Trunk, 0, k));
    }
  }

  lemma SparkleWithinReach(style: Styles.Style, rng: Sampler)
    requires Styles.WellFormed(style) && ValidSampler(rng)
    ensures WithinReach(TransitionPoints(style, rng))
  {
    var sparkle := TransitionPoints(style, rng);
    forall k | 0 <= k < |sparkle|
      ensures AxisDistance2(sparkle[k]) <= Reach * Reach
    {
      assert sparkle[k] == TransitionPoint(style, rng(Transition, 0, k));
      TransitionPlacement(style, rng(Transition, 0, k));
    }
  }

  lemma ReachConcat(a: seq<Particle>, b: seq<Particle>)
    requires WithinReach(a) && WithinReach(b)
    ensures WithinReach(a + b)
  {
    forall k | 0 <= k < |a + b|
      ensures AxisDistance2((a + b)[k]) <= Reach * Reach
    {
      if k < |a| { assert (a + b)[k] == a[k]; } else { assert (a + b)[k] == b[k - |a|]; }
    }
  }

  lemma ReachConcat5(a: seq<Particle>, b: seq<Particle>, c: seq<Particle>, d: seq<Particle>, e: seq<Particle>)
    requires WithinReach(a) && WithinReach(b) && WithinReach(c) && WithinReach(d) && WithinReach(e)
    ensures WithinReach(a + b + c + d + e)
  {
    ReachConcat(a, b);
    ReachConcat(a + b, c);
    ReachConcat(a + b + c, d);
    ReachConcat(a + b + c + d, e);
  }
}
