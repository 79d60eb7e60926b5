/** The per-frame perception step (`perception_step` in code/perception.py,
    steps 3 to 7, and the navigation points of step 8).

    The rover state owns two three-channel grids that the step updates in
    place: the vision overlay shown to the operator, overwritten with the
    three class masks, and the world map, whose cells count how often each
    class was seen there. */
module Perception {
  import opened Imaging
  import opened RoverFrame
  import opened WorldTransform

  /** Rover-frame pixels per world-map cell. */
  const Scale := 10.0

  /** The cells `(y, x)` that the paired index lists name, each once. */
  function HitSet(ys: seq<int>, xs: seq<int>): set<(int, int)>
    requires |ys| == |xs|
  {
    if ys == [] then {}
    else HitSet(ys[..|ys| - 1], xs[..|xs| - 1]) + {(ys[|ys| - 1], xs[|xs| - 1])}
  }

  /** A cell is hit exactly when some index pair names it. */
  lemma {:induction false} HitSetMembers(ys: seq<int>, xs: seq<int>, y: int, x: int)
    requires |ys| == |xs|
    ensures (y, x) in HitSet(ys, xs) <==> exists i :: 0 <= i < |ys| && ys[i] == y && xs[i] == x
  {
    if ys != [] {
      var n := |ys| - 1;
      HitSetMembers(ys[..n], xs[..n], y, x);
      if (y, x) in HitSet(ys[..n], xs[..n]) {
        var i :| 0 <= i < n && ys[..n][i] == y && xs[..n][i] == x;
        assert ys[i] == y && xs[i] == x;
      }
      if exists i :: 0 <= i < |ys| && ys[i] == y && xs[i] == x {
        var i :| 0 <= i < |ys| && ys[i] == y && xs[i] == x;
        if i < n {
          assert ys[..n][i] == y && xs[..n][i] == x;
        }
      }
    }
  }

  /** The hits of two batches of points taken together are the hits of each. */
  lemma {:induction false} HitSetConcat(ys1: seq<int>, xs1: seq<int>, ys2: seq<int>, xs2: seq<int>)
    requires |ys1| == |xs1| && |ys2| == |xs2|
    ensures HitSet(ys1 + ys2, xs1 + xs2) == HitSet(ys1, xs1) + HitSet(ys2, xs2)
    decreases |ys2|
  {
    if ys2 == [] {
      assert ys1 + ys2 == ys1 && xs1 + xs2 == xs1;
    } else {
      var n := |ys2| - 1;
      HitSetConcat(ys1, xs1, ys2[..n], xs2[..n]);
      assert (ys1 + ys2)[..|ys1| + n] == ys1 + ys2[..n];
      assert (xs1 + xs2)[..|xs1| + n] == xs1 + xs2[..n];
    }
  }

  /** Naming a cell twice in one update hits it no more than naming it once:
      listing every point a second time leaves the hit cells as they are. */
  lemma RepeatedPointsHitOnce(ys: seq<int>, xs: seq<int>)
    requires |ys| == |xs|
    ensures HitSet(ys + ys, xs + xs) == HitSet(ys, xs)
  {
    HitSetConcat(ys, xs, ys, xs);
  }

  /** The thresholds of the class shown in overlay channel `k`: navigable
      terrain, rock samples, obstacles. */
  function OverlayClass(k: int): (band: (Rgb, Rgb))
    requires 0 <= k < 3
  {
    if k == 0 then (NavigableLow, NavigableHigh)
    else if k == 1 then (RockLow, RockHigh)
    else (ObstacleLow, ObstacleHigh)
  }

  /** The thresholds of the class counted in world-map channel `k`:
      obstacles, rock samples, navigable terrain. */
  function MapClass(k: int): (band: (Rgb, Rgb))
    requires 0 <= k < 3
  {
    if k == 0 then (ObstacleLow, ObstacleHigh)
    else if k == 1 then (RockLow, RockHigh)
    else (NavigableLow, NavigableHigh)
  }

  /** Every overlay value is 0 or 255, and at most one channel of a pixel
      is lit, since no pixel belongs to two classes. */
  lemma {:induction false} OverlayPixelIsExclusive(warped: Image, r: nat, c: nat)
    requires r < |warped| && c < |warped[r]|
    ensures forall k :: 0 <= k < 3 ==>
      var v := ColorThresh(warped, OverlayClass(k).0, OverlayClass(k).1)[r][c] * 255;
      v == 0 || v == 255
    ensures ColorThresh(warped, OverlayClass(0).0, OverlayClass(0).1)[r][c]
          + ColorThresh(warped, OverlayClass(1).0, OverlayClass(1).1)[r][c]
          + ColorThresh(warped, OverlayClass(2).0, OverlayClass(2).1)[r][c] <= 1
  {
    MasksAreDisjoint(warped, r, c);
    forall k | 0 <= k < 3
      ensures var v := ColorThresh(warped, OverlayClass(k).0, OverlayClass(k).1)[r][c] * 255; v == 0 || v == 255
    {
      var m := ColorThresh(warped, OverlayClass(k).0, OverlayClass(k).1);
      assert m[r][c] == 0 || m[r][c] == 1;
    }
  }

  /** The world cells `(y, x)` that the pixels of one class land in. */
  function ClassHits(warped: Image, band: (Rgb, Rgb), xpos: real, ypos: real, rot: Rotation,
                     worldSize: int): set<(int, int)>
    requires worldSize >= 1
  {
    var (xs, ys) := RoverCoords(ColorThresh(warped, band.0, band.1));
    var (wx, wy) := PixToWorld(xs, ys, xpos, ypos, rot, worldSize, Scale);
    HitSet(wy, wx)
  }

  /** Every cell that a class hits lies inside the map. */
  lemma {:induction false} ClassHitsInsideMap(warped: Image, band: (Rgb, Rgb), xpos: real, ypos: real,
                                              rot: Rotation, worldSize: int, y: int, x: int)
    requires worldSize >= 1
    requires (y, x) in ClassHits(warped, band, xpos, ypos, rot, worldSize)
    ensures 0 <= y < worldSize && 0 <= x < worldSize
  {
    var (xs, ys) := RoverCoords(ColorThresh(warped, band.0, band.1));
    var (wx, wy) := PixToWorld(xs, ys, xpos, ypos, rot, worldSize, Scale);
    HitSetMembers(wy, wx, y, x);
  }

  /** The part of the externally owned rover state that the step touches. */
  class RoverState {
    /** `Rover.worldmap`: per-cell evidence counts, indexed `[y, x, channel]`. */
    const worldmap: array3<int>
    /** `Rover.vision_image`: the class masks, indexed `[row, col, channel]`. */
    const visionImage: array3<int>
    /** `Rover.pos`. */
    var xpos: real
    var ypos: real
    /** The rover-frame navigable points, from which `Rover.nav_dists` and
        `Rover.nav_angles` are computed. */
    var navXs: seq<real>
    var navYs: seq<real>

    ghost predicate Valid()
      reads worldmap
    {
      && worldmap != visionImage
      && worldmap.Length0 == worldmap.Length1 >= 1
      && worldmap.Length2 == 3 && visionImage.Length2 == 3
      && forall y, x, k :: 0 <= y < worldmap.Length0 && 0 <= x < worldmap.Length1 && 0 <= k < 3 ==>
           worldmap[y, x, k] >= 0
    }

    /** A rover at `(xpos, ypos)` with an empty `worldSize`-square map and a
        blank `height` by `width` overlay. */
    constructor (worldSize: nat, height: nat, width: nat, xpos: real, ypos: real)
      requires worldSize >= 1
      ensures Valid() && fresh(worldmap) && fresh(visionImage)
      ensures worldmap.Length0 == worldSize
      ensures visionImage.Length0 == height && visionImage.Length1 == width
      ensures this.xpos == xpos && this.ypos == ypos && navXs == [] && navYs == []
    {
      worldmap := new int[worldSize, worldSize, 3]((y, x, k) => 0);
      visionImage := new int[height, width, 3]((r, c, k) => 0);
      this.xpos, this.ypos := xpos, ypos;
      navXs, navYs := [], [];
    }

    /** `Rover.worldmap[ys, xs, ch] += 1` with numpy's fancy indexing: all
        selected cells are read first, then each is written back plus one,
        so a cell named several times still gains exactly one. Every other
        cell and channel keeps its count. */
    method Accumulate(ys: seq<int>, xs: seq<int>, ch: int)
      requires Valid()
      requires |ys| == |xs| && 0 <= ch < 3
      requires forall i :: 0 <= i < |ys| ==> 0 <= ys[i] < worldmap.Length0 && 0 <= xs[i] < worldmap.Length1
      modifies worldmap
      ensures Valid()
      ensures forall y, x, k :: 0 <= y < worldmap.Length0 && 0 <= x < worldmap.Length1 && 0 <= k < 3 ==>
        worldmap[y, x, k] == old(worldmap[y, x, k]) + (if k == ch && (y, x) in HitSet(ys, xs) then 1 else 0)
    {
      var before: seq<int> := [];
      for i := 0 to |ys|
        invariant unchanged(worldmap)
        invariant |before| == i
        invariant forall j :: 0 <= j < i ==> before[j] == old(worldmap[ys[j], xs[j], ch])
      {
        before := before + [worldmap[ys[i], xs[i], ch]];
      }
      assert ys[..0] == [] && xs[..0] == [];
      assert HitSet(ys[..0], xs[..0]) == {};
      for i := 0 to |ys|
        invariant forall y, x, k :: 0 <= y < worldmap.Length0 && 0 <= x < worldmap.Length1 && 0 <= k < 3 ==>
          worldmap[y, x, k] == old(worldmap[y, x, k]) + (if k == ch && (y, x) in HitSet(ys[..i], xs[..i]) then 1 else 0)
      {
        assert ys[..i + 1][..i] == ys[..i] && xs[..i + 1][..i] == xs[..i];
        worldmap[ys[i], xs[i], ch] := before[i] + 1;
      }
      assert ys[..|ys|] == ys && xs[..|xs|] == xs;
    }

    /** `Rover.vision_image[:,:,ch] = mask * 255`: channel `ch` becomes the
        mask scaled by 255; the other channels keep their values. */
    method ShowMask(ch: int, mask: Mask)
      requires Valid()
      requires 0 <= ch < 3 && IsGrid(mask, visionImage.Length0, visionImage.Length1)
      modifies visionImage
      ensures Valid()
      ensures forall r, c, k :: 0 <= r < visionImage.Length0 && 0 <= c < visionImage.Length1 && 0 <= k < 3 ==>
        visionImage[r, c, k] == if k == ch then mask[r][c] * 255 else old(visionImage[r, c, k])
    {
      for r := 0 to visionImage.Length0
        invariant forall r', c, k :: 0 <= r' < visionImage.Length0 && 0 <= c < visionImage.Length1 && 0 <= k < 3 ==>
          visionImage[r', c, k] == if k == ch && r' < r then mask[r'][c] * 255 else old(visionImage[r', c, k])
      {
        for c := 0 to visionImage.Length1
          invariant forall r', c', k :: 0 <= r' < visionImage.Length0 && 0 <= c' < visionImage.Length1 && 0 <= k < 3 ==>
            visionImage[r', c', k] ==
              if k == ch && (r' < r || (r' == r && c' < c)) then mask[r'][c'] * 255 else old(visionImage[r', c', k])
        {
          visionImage[r, c, ch] := mask[r][c] * 255;
        }
      }
    }

    /** Steps 3 to 7 of `perception_step` on the already rectified image, with
        `rot` holding `cos` and `sin` of the rover's yaw: the three class masks
        go to the overlay, every world cell a class lands in gains one in that
        class's channel, and the navigable points are kept for navigation. */
    method PerceptionStep(warped: Image, rot: Rotation)
      requires Valid()
      requires IsGrid(warped, visionImage.Length0, visionImage.Length1)
      modifies this, worldmap, visionImage
      ensures Valid()
      ensures xpos == old(xpos) && ypos == old(ypos)
      ensures forall r, c, k :: 0 <= r < visionImage.Length0 && 0 <= c < visionImage.Length1 && 0 <= k < 3 ==>
        visionImage[r, c, k] == ColorThresh(warped, OverlayClass(k).0, OverlayClass(k).1)[r][c] * 255
      ensures forall y, x, k :: 0 <= y < worldmap.Length0 && 0 <= x < worldmap.Length1 && 0 <= k < 3 ==>
        worldmap[y, x, k] == old(worldmap[y, x, k]) +
          (if (y, x) in ClassHits(warped, MapClass(k), xpos, ypos, rot, worldmap.Length0) then 1 else 0)
      ensures (navXs, navYs) == RoverCoords(ColorThresh(warped, NavigableLow, NavigableHigh))
    {
      var h, w := visionImage.Length0, visionImage.Length1;
      // 3) Segment the three classes.
      var navigable := ColorThresh(warped, NavigableLow, NavigableHigh);
      var obstacle := ColorThresh(warped, ObstacleLow, ObstacleHigh);
      var rock := ColorThresh(warped, RockLow, RockHigh);
      ColorThreshShape(warped, NavigableLow, NavigableHigh, h, w);
      ColorThreshShape(warped, ObstacleLow, ObstacleHigh, h, w);
      ColorThreshShape(warped, RockLow, RockHigh, h, w);
      // 4) Show them in the overlay.
      ShowMask(0, navigable);
      ShowMask(1, rock);
      ShowMask(2, obstacle);
      // 5) Rover-frame coordinates.
      var (naviXpix, naviYpix) := RoverCoords(navigable);
      var (obsXpix, obsYpix) := RoverCoords(obstacle);
      var (rockXpix, rockYpix) := RoverCoords(rock);
      // 6) World coordinates.
      var worldSize := worldmap.Length0;
      var (navXw, navYw) := PixToWorld(naviXpix, naviYpix, xpos, ypos, rot, worldSize, Scale);
      var (obsXw, obsYw) := PixToWorld(obsXpix, obsYpix, xpos, ypos, rot, worldSize, Scale);
      var (rockXw, rockYw) := PixToWorld(rockXpix, rockYpix, xpos, ypos, rot, worldSize, Scale);
      // 7) Count the evidence.
      Accumulate(obsYw, obsXw, 0);
      Accumulate(rockYw, rockXw, 1);
      Accumulate(navYw, navXw, 2);
      // 8) The navigable points feed the polar navigation signal.
      navXs, navYs := naviXpix, naviYpix;
    }
  }
}
