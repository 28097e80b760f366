/**
 The falling snow: 500 flakes scattered in a box around the tree, each with
 its own fall speed. Every frame a flake drops by its speed and, once below
 -1.2, reappears at 1.6. Its horizontal position never changes.
 */
module Snow {
  import Styles
  import Scene

  const FlakeCount: nat := 500
  /** A flake that falls below this height wraps around. */
  const Floor: real := -1.2
  /** The height a wrapped flake restarts from. */
  const Ceiling: real := 1.6

  datatype Flake = Flake(x: real, y: real, z: real, vy: real, colour: Styles.Colour, size: real, alpha: real)

  /** The unit draws one flake consumes. */
  datatype SnowDraw = SnowDraw(x: real, y: real, z: real, vy: real, size: real, alpha: real)

  predicate ValidSnowDraw(d: SnowDraw) {
    && 0.0 <= d.x < 1.0 && 0.0 <= d.y < 1.0 && 0.0 <= d.z < 1.0
    && 0.0 <= d.vy < 1.0 && 0.0 <= d.size < 1.0 && 0.0 <= d.alpha < 1.0
  }

  /** A fresh flake: position in the box [-2.5, 2.5) x [-1.0, 1.5) x [-2.5, 2.5),
      fall speed in [0.02, 0.05), the palette's snow colour. */
  function InitFlake(style: Styles.Style, d: SnowDraw): (f: Flake)
    ensures f.colour == style.snowColour
    ensures ValidSnowDraw(d) ==>
      && -2.5 <= f.x < 2.5 && -1.0 <= f.y < 1.5 && -2.5 <= f.z < 2.5
      && 0.02 <= f.vy < 0.05 && 4.0 <= f.size < 9.0 && 0.4 <= f.alpha < 0.8
  {
    Flake(Scene.Uniform(-2.5, 2.5, d.x), Scene.Uniform(-1.0, 1.5, d.y), Scene.Uniform(-2.5, 2.5, d.z),
          Scene.Uniform(0.02, 0.05, d.vy), style.snowColour,
          Scene.Uniform(4.0, 9.0, d.size), Scene.Uniform(0.4, 0.8, d.alpha))
  }

  /** The initial snow field, one flake per draw index. */
  function InitSnow(style: Styles.Style, draws: nat -> SnowDraw): (flakes: seq<Flake>)
    ensures |flakes| == FlakeCount
    ensures forall k :: 0 <= k < |flakes| ==> flakes[k].colour == style.snowColour
  {
    var flakes := seq(FlakeCount, k requires 0 <= k < FlakeCount => InitFlake(style, draws(k)));
    assert forall k :: 0 <= k < |flakes| ==> flakes[k] == InitFlake(style, draws(k));
    flakes
  }

  /** The range invariant of a flake: between the floor and the restart height, falling. */
  predicate InRange(f: Flake) {
    Floor <= f.y <= Ceiling && f.vy > 0.0
  }

  predicate AllInRange(flakes: seq<Flake>) {
    forall k :: 0 <= k < |flakes| ==> InRange(flakes[k])
  }

  /** One frame of a flake: fall by its speed, wrap to the top below the floor. */
  function Step(f: Flake): (g: Flake)
    ensures g == f.(y := g.y)
    ensures f.y - f.vy >= Floor ==> g.y == f.y - f.vy
    ensures f.y - f.vy < Floor ==> g.y == Ceiling
    ensures Floor <= g.y
    ensures f.vy > 0.0 ==> g.y < f.y || g.y == Ceiling
    ensures InRange(f) ==> InRange(g)
  {
    var y := f.y - f.vy;
    f.(y := if y < Floor then Ceiling else y)
  }

  /** One frame of the whole field. */
  function Advance(flakes: seq<Flake>): (next: seq<Flake>)
    ensures |next| == |flakes|
    ensures forall k :: 0 <= k < |flakes| ==> next[k] == Step(flakes[k])
  {
    seq(|flakes|, k requires 0 <= k < |flakes| => Step(flakes[k]))
  }

  /** The field after n frames. */
  function SnowAfter(flakes: seq<Flake>, n: nat): (later: seq<Flake>)
    ensures |later| == |flakes|
  {
    if n == 0 then flakes else Advance(SnowAfter(flakes, n - 1))
  }

  /** A field that starts in range stays in range on every frame, and no flake
      moves horizontally or changes speed, colour, size or opacity. */
  lemma {:induction false} SnowStaysInRange(flakes: seq<Flake>, n: nat)
    requires AllInRange(flakes)
    ensures var later := SnowAfter(flakes, n);
            && |later| == |flakes| && AllInRange(later)
            && forall k :: 0 <= k < |flakes| ==> later[k] == flakes[k].(y := later[k].y)
  {
    if n > 0 {
      SnowStaysInRange(flakes, n - 1);
    }
  }

  /** The initial field holds 500 flakes with heights in [-1.0, 1.5) and speeds in
      [0.02, 0.05), so it satisfies the range invariant. */
  lemma InitSnowInRange(style: Styles.Style, draws: nat -> SnowDraw)
    requires forall k :: ValidSnowDraw(draws(k))
    ensures var flakes := InitSnow(style, draws);
            && |flakes| == FlakeCount
            && (forall k :: 0 <= k < |flakes| ==>
                  && -1.0 <= flakes[k].y < 1.5 && 0.02 <= flakes[k].vy < 0.05
                  && -2.5 <= flakes[k].x < 2.5 && -2.5 <= flakes[k].z < 2.5)
            && AllInRange(flakes)
  {
    var flakes := InitSnow(style, draws);
    forall k | 0 <= k < |flakes|
      ensures -1.0 <= flakes[k].y < 1.5 && 0.02 <= flakes[k].vy < 0.05
      ensures -2.5 <= flakes[k].x < 2.5 && -2.5 <= flakes[k].z < 2.5
    {
      assert flakes[k] == InitFlake(style, draws(k));
      assert ValidSnowDraw(draws(k));
    }
  }

  /** On every frame of the animation each flake's height lies in [-1.2, 1.6]. */
  lemma SnowHeightsBounded(style: Styles.Style, draws: nat -> SnowDraw, n: nat)
    requires forall k :: ValidSnowDraw(draws(k))
    ensures var flakes := SnowAfter(InitSnow(style, draws), n);
            |flakes| == FlakeCount && forall k :: 0 <= k < |flakes| ==> Floor <= flakes[k].y <= Ceiling
  {
    InitSnowInRange(style, draws);
    SnowStaysInRange(InitSnow(style, draws), n);
  }

  /** A flake at -1.19 falling 0.02 would reach -1.21, below the floor, so it wraps to 1.6 in the same frame. */
  lemma WrapExample(f: Flake)
    requires f.y == -1.19 && f.vy == 0.02
    ensures Step(f).y == 1.6
  {
  }
}
