/**
 One animation frame: the camera orbits the vertical axis, tree rows and the
 visible snow are projected, all rows are depth-sorted back to front
 (painter's algorithm) and split into the ordinary layer and the star layer,
 which is drawn last.

 The cosine and sine of the frame angle (frame * 0.08) are supplied as a
 `Rotation`; no trigonometry is modelled.
 */
module Frame {
  import Styles
  import Scene
  import Snow
  import opened RealArith

  type Row = Scene.Row

  /** Distance of the camera from the axis along the depth direction. */
  const CameraDistance: real := 2.4
  /** Factor turning a depth-scaled point size into a marker area (1000 * 0.002). */
  const SizeScale: real := 1000.0 * 0.002

  datatype Option<T> = None | Some(value: T)

  /** Cosine and sine of the camera angle of a frame. */
  datatype Rotation = Rotation(cos: real, sin: real)

  /** The angle of frame n, in radians. */
  function FrameAngle(n: nat): real {
    n as real * 0.08
  }

  /** Rotation by angle 0, the first frame's: cos 0 = 1, sin 0 = 0. */
  const Unrotated: Rotation := Rotation(1.0, 0.0)

  function RotX(x: real, z: real, rot: Rotation): real { x * rot.cos - z * rot.sin }
  function RotZ(x: real, z: real, rot: Rotation): real { x * rot.sin + z * rot.cos }

  /** At frame 0 rotated coordinates equal the model coordinates exactly. */
  lemma UnrotatedIsIdentity(x: real, z: real)
    ensures FrameAngle(0) == 0.0
    ensures RotX(x, z, Unrotated) == x && RotZ(x, z, Unrotated) == z
  {
  }

  /** A rotation is rigid: it keeps every point's distance from the vertical axis. */
  lemma RotationKeepsAxisDistance(x: real, z: real, rot: Rotation)
    requires rot.cos * rot.cos + rot.sin * rot.sin == 1.0
    ensures var (xr, zr) := (RotX(x, z, rot), RotZ(x, z, rot));
            xr * xr + zr * zr == x * x + z * z
  {
    var c, s := rot.cos, rot.sin;
    assert (x * c - z * s) * (x * c - z * s) + (x * s + z * c) * (x * s + z * c)
        == (x * x + z * z) * (c * c + s * s);
  }

  /** Perspective factor of a point at rotated depth zr. */
  function DepthFactor(zr: real): (f: real)
    requires zr != CameraDistance
    ensures f * (CameraDistance - zr) == 1.0
  {
    1.0 / (CameraDistance - zr)
  }

  /** The factor the program tests is positive exactly for points in front of the camera. */
  lemma DepthFactorSign(zr: real)
    requires zr != CameraDistance
    ensures DepthFactor(zr) > 0.0 <==> zr < CameraDistance
  {
    var w := CameraDistance - zr;
    var d := DepthFactor(zr);
    assert d * w == 1.0;
    if w < 0.0 {
      OppositeSigns(d, w);
    }
  }

  lemma OppositeSigns(d: real, w: real)
    requires w < 0.0
    ensures d >= 0.0 ==> d * w <= 0.0
  {
    if d >= 0.0 {
      assert d * (-w) >= 0.0;
    }
  }

  /** A table can be projected when no row sits exactly at the camera's depth. */
  predicate Projectable(rows: seq<Row>, rot: Rotation) {
    forall k :: 0 <= k < |rows| ==> RotZ(rows[k].x, rows[k].z, rot) != CameraDistance
  }

  predicate SnowProjectable(flakes: seq<Snow.Flake>, rot: Rotation) {
    forall k :: 0 <= k < |flakes| ==> RotZ(flakes[k].x, flakes[k].z, rot) != CameraDistance
  }

  /** A point within the tree's reach of the axis is in front of the camera at every angle. */
  lemma InFrontOfCamera(x: real, z: real, rot: Rotation)
    requires rot.cos * rot.cos + rot.sin * rot.sin == 1.0
    requires x * x + z * z <= Scene.Reach * Scene.Reach
    ensures RotZ(x, z, rot) < CameraDistance
  {
    RotationKeepsAxisDistance(x, z, rot);
    var xr, zr := RotX(x, z, rot), RotZ(x, z, rot);
    assert zr * zr <= Scene.Reach * Scene.Reach by {
      assert xr * xr >= 0.0;
    }
    if zr >= CameraDistance {
      SquareMono(CameraDistance, zr);
    }
  }

  /** Every row is in front of the camera, with a positive depth factor. */
  predicate AllInFront(rows: seq<Row>, rot: Rotation)
    requires Projectable(rows, rot)
  {
    forall k :: 0 <= k < |rows| ==>
      RotZ(rows[k].x, rows[k].z, rot) < CameraDistance && DepthFactor(RotZ(rows[k].x, rows[k].z, rot)) > 0.0
  }

  /** Rows within the tree's reach of the axis all have a positive depth factor. */
  lemma RowsInFront(rows: seq<Row>, rot: Rotation)
    requires rot.cos * rot.cos + rot.sin * rot.sin == 1.0
    requires forall k :: 0 <= k < |rows| ==> rows[k].x * rows[k].x + rows[k].z * rows[k].z <= Scene.Reach * Scene.Reach
    ensures Projectable(rows, rot) && AllInFront(rows, rot)
  {
    forall k | 0 <= k < |rows|
      ensures RotZ(rows[k].x, rows[k].z, rot) < CameraDistance
    {
      InFrontOfCamera(rows[k].x, rows[k].z, rot);
    }
    forall k | 0 <= k < |rows|
      ensures DepthFactor(RotZ(rows[k].x, rows[k].z, rot)) > 0.0
    {
      DepthFactorSign(RotZ(rows[k].x, rows[k].z, rot));
    }
  }

  lemma ProcessedInFront(ps: seq<Scene.Particle>, rgba: Styles.Colour -> Styles.Rgba, rot: Rotation)
    requires Scene.WithinReach(ps)
    requires rot.cos * rot.cos + rot.sin * rot.sin == 1.0
    ensures var rows := Scene.ProcessData(ps, rgba);
            Projectable(rows, rot) && AllInFront(rows, rot)
  {
    var rows := Scene.ProcessData(ps, rgba);
    forall k | 0 <= k < |rows|
      ensures rows[k].x * rows[k].x + rows[k].z * rows[k].z <= Scene.Reach * Scene.Reach
    {
      assert rows[k].x == ps[k].x && rows[k].z == ps[k].z;
      assert Scene.AxisDistance2(ps[k]) <= Scene.Reach * Scene.Reach;
    }
    RowsInFront(rows, rot);
  }

  /** The tree never reaches the camera: for any valid draws and any angle every
      tree row has a positive depth factor, so no row is culled and no division fails. */
  lemma TreeInFront(style: Styles.Style, rng: Scene.Sampler, rgba: Styles.Colour -> Styles.Rgba, rot: Rotation)
    requires Styles.WellFormed(style) && Scene.ValidSampler(rng)
    requires rot.cos * rot.cos + rot.sin * rot.sin == 1.0
    ensures var tree := Scene.ProcessData(Scene.BuildScene(style, rng), rgba);
            Projectable(tree, rot) && AllInFront(tree, rot)
  {
    Scene.SceneWithinReach(style, rng);
    ProcessedInFront(Scene.BuildScene(style, rng), rgba, rot);
  }

  /** A tree row on screen: projected x and y, rotated depth, colour, scaled size, star flag. */
  function ProjectRow(p: Row, rot: Rotation): (q: Row)
    requires RotZ(p.x, p.z, rot) != CameraDistance
    ensures q.z == RotZ(p.x, p.z, rot)
    ensures q.red == p.red && q.green == p.green && q.blue == p.blue && q.alpha == p.alpha
    ensures q.marker == p.marker
  {
    var zr := RotZ(p.x, p.z, rot);
    var depth := DepthFactor(zr);
    Scene.Row(RotX(p.x, p.z, rot) * depth, p.y * depth, zr, p.red, p.green, p.blue, p.alpha,
              p.size * depth * SizeScale, p.marker)
  }

  /** The tree rows of a frame, in table order. */
  function RenderTree(rows: seq<Row>, rot: Rotation): (out: seq<Row>)
    requires Projectable(rows, rot)
    ensures |out| == |rows|
    ensures forall k :: 0 <= k < |rows| ==> out[k] == ProjectRow(rows[k], rot)
  {
    seq(|rows|, k requires 0 <= k < |rows| => ProjectRow(rows[k], rot))
  }

  /** A flake on screen, or None when it is behind the camera. */
  function SnowRow(f: Snow.Flake, rot: Rotation, rgba: Styles.Colour -> Styles.Rgba): (o: Option<Row>)
    requires RotZ(f.x, f.z, rot) != CameraDistance
    ensures o.Some? <==> RotZ(f.x, f.z, rot) < CameraDistance
    ensures o.Some? ==> var d := DepthFactor(RotZ(f.x, f.z, rot));
            && o.value.z == RotZ(f.x, f.z, rot) && o.value.marker == 0.0
            && o.value.x == RotX(f.x, f.z, rot) * d && o.value.y == f.y * d
            && o.value.alpha == f.alpha && o.value.size == f.size * d * SizeScale
            && o.value.red == rgba(f.colour).r && o.value.green == rgba(f.colour).g
            && o.value.blue == rgba(f.colour).b
  {
    var zr := RotZ(f.x, f.z, rot);
    var depth := DepthFactor(zr);
    DepthFactorSign(zr);
    var c := rgba(f.colour);
    if depth > 0.0 then
      Some(Scene.Row(RotX(f.x, f.z, rot) * depth, f.y * depth, zr, c.r, c.g, c.b, f.alpha,
                     f.size * depth * SizeScale, 0.0))
    else None
  }

  /** The visible snow rows of a frame, in flake order. */
  function SnowRows(flakes: seq<Snow.Flake>, rot: Rotation, rgba: Styles.Colour -> Styles.Rgba): (out: seq<Row>)
    requires SnowProjectable(flakes, rot)
    ensures |out| <= |flakes|
    ensures forall k :: 0 <= k < |out| ==> out[k].marker == 0.0
  {
    if |flakes| == 0 then []
    else
      var rest := SnowRows(flakes[1..], rot, rgba);
      match SnowRow(flakes[0], rot, rgba)
      case Some(r) => [r] + rest
      case None => rest
  }

  /** Culling keeps flake order: the rows of two runs of flakes are the rows of each, concatenated. */
  lemma {:induction false} SnowRowsConcat(a: seq<Snow.Flake>, b: seq<Snow.Flake>, rot: Rotation,
                                          rgba: Styles.Colour -> Styles.Rgba)
    requires SnowProjectable(a, rot) && SnowProjectable(b, rot)
    ensures SnowProjectable(a + b, rot)
    ensures SnowRows(a + b, rot, rgba) == SnowRows(a, rot, rgba) + SnowRows(b, rot, rgba)
    decreases |a|
  {
    if |a| > 0 {
      assert (a + b)[0] == a[0];
      assert (a + b)[1..] == a[1..] + b;
      SnowRowsConcat(a[1..], b, rot, rgba);
    } else {
      assert a + b == b;
    }
  }

  /** A flake is drawn when it is in front of the camera. */
  predicate Visible(f: Snow.Flake, rot: Rotation) {
    RotZ(f.x, f.z, rot) < CameraDistance
  }

  /** The indices of the visible flakes from index i on. */
  function VisibleFrom(flakes: seq<Snow.Flake>, rot: Rotation, i: nat): set<nat> {
    set k: nat | i <= k < |flakes| && Visible(flakes[k], rot)
  }

  /** Culling drops exactly the flakes behind the camera: there is one row per
      visible flake, and when every flake is visible none is lost. */
  lemma SnowRowsCount(flakes: seq<Snow.Flake>, rot: Rotation, rgba: Styles.Colour -> Styles.Rgba)
    requires SnowProjectable(flakes, rot)
    ensures |SnowRows(flakes, rot, rgba)| == |VisibleFrom(flakes, rot, 0)|
    ensures (forall k :: 0 <= k < |flakes| ==> Visible(flakes[k], rot))
            ==> |SnowRows(flakes, rot, rgba)| == |flakes|
  {
    SnowRowsCountFrom(flakes, rot, rgba, 0);
    assert flakes[0..] == flakes;
    if forall k :: 0 <= k < |flakes| ==> Visible(flakes[k], rot) {
      AllIndices(flakes, rot, 0);
    }
  }

  lemma {:induction false} SnowRowsCountFrom(flakes: seq<Snow.Flake>, rot: Rotation,
                                             rgba: Styles.Colour -> Styles.Rgba, i: nat)
    requires i <= |flakes| && SnowProjectable(flakes, rot)
    ensures SnowProjectable(flakes[i..], rot)
    ensures |SnowRows(flakes[i..], rot, rgba)| == |VisibleFrom(flakes, rot, i)|
    decreases |flakes| - i
  {
    if i == |flakes| {
      assert VisibleFrom(flakes, rot, i) == {};
    } else {
      SnowRowsCountFrom(flakes, rot, rgba, i + 1);
      assert flakes[i..][1..] == flakes[i + 1..];
      assert flakes[i..][0] == flakes[i];
      if Visible(flakes[i], rot) {
        assert VisibleFrom(flakes, rot, i) == VisibleFrom(flakes, rot, i + 1) + {i};
      } else {
        assert VisibleFrom(flakes, rot, i) == VisibleFrom(flakes, rot, i + 1);
      }
    }
  }

  lemma {:induction false} AllIndices(flakes: seq<Snow.Flake>, rot: Rotation, i: nat)
    requires i <= |flakes|
    requires forall k :: 0 <= k < |flakes| ==> Visible(flakes[k], rot)
    ensures |VisibleFrom(flakes, rot, i)| == |flakes| - i
    decreases |flakes| - i
  {
    if i == |flakes| {
      assert VisibleFrom(flakes, rot, i) == {};
    } else {
      AllIndices(flakes, rot, i + 1);
      assert VisibleFrom(flakes, rot, i) == VisibleFrom(flakes, rot, i + 1) + {i};
    }
  }

  // ---------------------------------------------------------------- depth sort

  /** Rows in painter's order: rotated depth (column 2) never decreases. */
  predicate DepthSorted(s: seq<Row>) {
    forall i, j :: 0 <= i < j < |s| ==> s[i].z <= s[j].z
  }

  /** `sorted` is a back-to-front ordering of `rows`. The order among rows of
      equal depth is left open, as an unstable sort leaves it. */
  predicate IsDepthSorting(rows: seq<Row>, sorted: seq<Row>) {
    multiset(sorted) == multiset(rows) && DepthSorted(sorted)
  }

  /** Inserts r into a depth-sorted sequence, before the first row that is not shallower. */
  function InsertByDepth(s: seq<Row>, r: Row): (t: seq<Row>)
    requires DepthSorted(s)
    ensures DepthSorted(t)
    ensures multiset(t) == multiset(s) + multiset{r}
    ensures t[0] == if |s| == 0 || r.z <= s[0].z then r else s[0]
    decreases |s|
  {
    if |s| == 0 then [r]
    else if r.z <= s[0].z then [r] + s
    else
      var rest := InsertByDepth(s[1..], r);
      assert s == [s[0]] + s[1..];
      assert |s| > 1 ==> s[0].z <= s[1].z;
      [s[0]] + rest
  }

  /** The depth sort of a frame's rows (numpy's argsort on column 2). */
  method DepthSort(rows: seq<Row>) returns (sorted: seq<Row>)
    ensures IsDepthSorting(rows, sorted)
  {
    sorted := [];
    var i := 0;
    while i < |rows|
      invariant i <= |rows|
      invariant DepthSorted(sorted)
      invariant multiset(sorted) == multiset(rows[..i])
    {
      assert rows[..i + 1] == rows[..i] + [rows[i]];
      sorted := InsertByDepth(sorted, rows[i]);
      i := i + 1;
    }
    assert rows[..i] == rows;
  }

  // ------------------------------------------------------------ star partition

  /** The program's star test on the flag column. */
  predicate IsStar(r: Row) { r.marker > 0.5 }

  /** The rows whose star test equals `star`, in their original order. */
  function Filter(s: seq<Row>, star: bool): (t: seq<Row>)
    ensures |t| <= |s|
    ensures forall k :: 0 <= k < |t| ==> IsStar(t[k]) == star
  {
    if |s| == 0 then []
    else (if IsStar(s[0]) == star then [s[0]] else []) + Filter(s[1..], star)
  }

  /** Filtering is order preserving: it distributes over concatenation. */
  lemma {:induction false} FilterConcat(a: seq<Row>, b: seq<Row>, star: bool)
    ensures Filter(a + b, star) == Filter(a, star) + Filter(b, star)
    decreases |a|
  {
    if |a| > 0 {
      assert (a + b)[0] == a[0];
      assert (a + b)[1..] == a[1..] + b;
      FilterConcat(a[1..], b, star);
    } else {
      assert a + b == b;
    }
  }

  /** Filtering keeps exactly the matching copies of every row. */
  lemma {:induction false} FilterMultiset(s: seq<Row>, star: bool, r: Row)
    ensures multiset(Filter(s, star))[r] == if IsStar(r) == star then multiset(s)[r] else 0
    decreases |s|
  {
    if |s| > 0 {
      FilterMultiset(s[1..], star, r);
      assert s == [s[0]] + s[1..];
    }
  }

  /** Every row lands in exactly one of the two layers. */
  lemma Partition(s: seq<Row>)
    ensures multiset(Filter(s, false)) + multiset(Filter(s, true)) == multiset(s)
  {
    forall r ensures (multiset(Filter(s, false)) + multiset(Filter(s, true)))[r] == multiset(s)[r] {
      FilterMultiset(s, false, r);
      FilterMultiset(s, true, r);
    }
  }

  /** Permuting the input permutes each layer. */
  lemma FilterPermutation(a: seq<Row>, b: seq<Row>, star: bool)
    requires multiset(a) == multiset(b)
    ensures multiset(Filter(a, star)) == multiset(Filter(b, star))
  {
    forall r ensures multiset(Filter(a, star))[r] == multiset(Filter(b, star))[r] {
      FilterMultiset(a, star, r);
      FilterMultiset(b, star, r);
    }
  }

  /** Every row of s is at least as deep as lo. */
  predicate NotShallower(lo: real, s: seq<Row>) {
    forall k :: 0 <= k < |s| ==> lo <= s[k].z
  }

  lemma {:induction false} FilterNotShallower(lo: real, s: seq<Row>, star: bool)
    requires NotShallower(lo, s)
    ensures NotShallower(lo, Filter(s, star))
    decreases |s|
  {
    if |s| > 0 {
      FilterNotShallower(lo, s[1..], star);
    }
  }

  /** Each layer of a depth-sorted sequence is itself depth-sorted. */
  lemma {:induction false} FilterSorted(s: seq<Row>, star: bool)
    requires DepthSorted(s)
    ensures DepthSorted(Filter(s, star))
    decreases |s|
  {
    if |s| > 0 {
      FilterSorted(s[1..], star);
      FilterNotShallower(s[0].z, s[1..], star);
    }
  }

  lemma {:induction false} FilterNone(s: seq<Row>)
    requires forall k :: 0 <= k < |s| ==> !IsStar(s[k])
    ensures Filter(s, true) == []
    decreases |s|
  {
    if |s| > 0 {
      FilterNone(s[1..]);
    }
  }

  /** A sequence whose only star row is at index m has that row as its whole star layer. */
  lemma FilterSingleStar(s: seq<Row>, m: nat)
    requires m < |s|
    requires forall k :: 0 <= k < |s| ==> (IsStar(s[k]) <==> k == m)
    ensures Filter(s, true) == [s[m]]
  {
    var pre, post := s[..m], s[m + 1..];
    assert s == pre + [s[m]] + post;
    assert forall k :: 0 <= k < |pre| ==> pre[k] == s[k];
    assert forall k :: 0 <= k < |post| ==> post[k] == s[m + 1 + k];
    FilterNone(pre);
    FilterNone(post);
    assert Filter([s[m]], true) == [s[m]];
    FilterConcat(pre, [s[m]], true);
    FilterConcat(pre + [s[m]], post, true);
  }

  /** Draw order: the ordinary layer (zorder 1) and then the star layer (zorder 100). */
  function DrawOrder(sorted: seq<Row>): (order: seq<Row>)
    ensures multiset(order) == multiset(sorted)
    ensures forall i, j :: 0 <= i < j < |order| && IsStar(order[i]) ==> IsStar(order[j])
  {
    Partition(sorted);
    Filter(sorted, false) + Filter(sorted, true)
  }

  // ------------------------------------------------------------------- a frame

  /** The rows a frame sorts: every tree row, then the visible snow. */
  function FrameRows(tree: seq<Row>, flakes: seq<Snow.Flake>, rot: Rotation,
                     rgba: Styles.Colour -> Styles.Rgba): seq<Row>
    requires Projectable(tree, rot) && SnowProjectable(flakes, rot)
  {
    RenderTree(tree, rot) + SnowRows(flakes, rot, rgba)
  }

  /** One frame: advance the snow, project, sort by depth, split off the star layer. */
  method RenderFrame(tree: seq<Row>, flakes: seq<Snow.Flake>, rot: Rotation, rgba: Styles.Colour -> Styles.Rgba)
    returns (next: seq<Snow.Flake>, sorted: seq<Row>, normal: seq<Row>, star: seq<Row>)
    requires Projectable(tree, rot) && SnowProjectable(flakes, rot)
    ensures next == Snow.Advance(flakes)
    ensures SnowProjectable(next, rot)
    ensures IsDepthSorting(FrameRows(tree, next, rot, rgba), sorted)
    ensures normal == Filter(sorted, false) && star == Filter(sorted, true)
    ensures DepthSorted(normal) && DepthSorted(star)
    ensures multiset(normal) + multiset(star) == multiset(FrameRows(tree, next, rot, rgba))
    ensures |sorted| == |tree| + |VisibleFrom(next, rot, 0)|
  {
    next := Snow.Advance(flakes);
    var all := FrameRows(tree, next, rot, rgba);
    sorted := DepthSort(all);
    normal := Filter(sorted, false);
    star := Filter(sorted, true);
    FilterSorted(sorted, false);
    FilterSorted(sorted, true);
    Partition(sorted);
    SnowRowsCount(next, rot, rgba);
    assert |sorted| == |multiset(sorted)| == |all|;
  }

  /** When the tree's only star row is at index m and the snow has none, the star
      layer of the unsorted frame is that row, projected. */
  lemma FrameStarLayer(tree: seq<Row>, flakes: seq<Snow.Flake>, rot: Rotation,
                       rgba: Styles.Colour -> Styles.Rgba, m: nat)
    requires Projectable(tree, rot) && SnowProjectable(flakes, rot)
    requires m < |tree| && forall k :: 0 <= k < |tree| ==> (IsStar(tree[k]) <==> k == m)
    ensures Filter(FrameRows(tree, flakes, rot, rgba), true) == [ProjectRow(tree[m], rot)]
  {
    var projected := RenderTree(tree, rot);
    var snow := SnowRows(flakes, rot, rgba);
    FilterSingleStar(projected, m);
    FilterNone(snow);
    FilterConcat(projected, snow, true);
  }

  /** A single star row stays a single star row under any depth sorting. */
  lemma SortedStarLayer(all: seq<Row>, sorted: seq<Row>, x: Row)
    requires IsDepthSorting(all, sorted)
    requires Filter(all, true) == [x]
    ensures Filter(sorted, true) == [x]
  {
    FilterPermutation(sorted, all, true);
    var stars := Filter(sorted, true);
    assert multiset(stars) == multiset{x};
    assert |stars| == 1;
    assert stars[0] in multiset(stars);
  }

  /** With a single star row, the draw order ends with it and nothing before it is a star. */
  lemma DrawnLast(sorted: seq<Row>, x: Row)
    requires Filter(sorted, true) == [x]
    ensures var order := DrawOrder(sorted);
            && |order| == |sorted| && order[|order| - 1] == x
            && forall k :: 0 <= k < |order| - 1 ==> !IsStar(order[k])
  {
    var order := DrawOrder(sorted);
    assert |multiset(order)| == |multiset(sorted)|;
    assert order == Filter(sorted, false) + [x];
  }

  /** For the built scene, whatever the sampler, colours, snow and camera angle, and
      however ties in depth are broken, the star layer of a frame is exactly one
      row, the projected apex, which sits on the axis and is the last row drawn. */
  lemma StarDrawnOnceAndLast(style: Styles.Style, rng: Scene.Sampler, rgba: Styles.Colour -> Styles.Rgba,
                             flakes: seq<Snow.Flake>, rot: Rotation, sorted: seq<Row>)
    requires Styles.WellFormed(style)
    requires Projectable(Scene.ProcessData(Scene.BuildScene(style, rng), rgba), rot)
    requires SnowProjectable(flakes, rot)
    requires IsDepthSorting(FrameRows(Scene.ProcessData(Scene.BuildScene(style, rng), rgba), flakes, rot, rgba), sorted)
    ensures var tree := Scene.ProcessData(Scene.BuildScene(style, rng), rgba);
            var apex := ProjectRow(tree[|tree| - 4], rot);
            var order := DrawOrder(sorted);
            && Filter(sorted, true) == [apex]
            && apex.x == 0.0 && apex.z == 0.0 && apex.marker == 1.0
            && |order| == |sorted| && order[|order| - 1] == apex
            && forall k :: 0 <= k < |order| - 1 ==> !IsStar(order[k])
  {
    var tree := Scene.ProcessData(Scene.BuildScene(style, rng), rgba);
    Scene.OneStarRow(style, rng, rgba);
    var m := |tree| - 4;
    var apex := ProjectRow(tree[m], rot);
    FrameStarLayer(tree, flakes, rot, rgba, m);
    SortedStarLayer(FrameRows(tree, flakes, rot, rgba), sorted, apex);
    DrawnLast(sorted, apex);
  }
}
