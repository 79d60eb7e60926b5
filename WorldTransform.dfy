/** From rover-frame points to world-map cells (`rotate_pix`, `translate_pix`,
    `pix_to_world` and `pix_to_world_float` in code/perception.py).

    The rotation by the rover's yaw needs `cos` and `sin` of a floating-point
    angle; the model takes that pair as an input (`Rotation`) and is exact
    from there on. `np.int_` on a float truncates toward zero and `np.clip`
    clamps into `[0, world_size - 1]`. */
module WorldTransform {

  /** `cos(yaw)` and `sin(yaw)` of the rover's heading. */
  datatype Rotation = Rotation(cos: real, sin: real)

  /** A pair that really is a cosine and a sine of one angle. */
  predicate IsRotation(rot: Rotation) {
    rot.cos * rot.cos + rot.sin * rot.sin == 1.0
  }

  /** Heading 0 (`yaw = 0`): vehicle-forward is world `+x`. */
  const Yaw0 := Rotation(1.0, 0.0)
  /** Heading 90 degrees, taking `cos` and `sin` at their exact values. */
  const Yaw90 := Rotation(0.0, 1.0)

  /** The rotation by the opposite angle. */
  function Inverse(rot: Rotation): Rotation {
    Rotation(rot.cos, -rot.sin)
  }

  function RotateX(rot: Rotation, x: real, y: real): real {
    x * rot.cos - y * rot.sin
  }

  function RotateY(rot: Rotation, x: real, y: real): real {
    x * rot.sin + y * rot.cos
  }

  /** `rotate_pix`, given `cos(yaw)` and `sin(yaw)`. */
  function RotatePix(xs: seq<real>, ys: seq<real>, rot: Rotation): (p: (seq<real>, seq<real>))
    requires |xs| == |ys|
    ensures |p.0| == |p.1| == |xs|
  {
    (seq(|xs|, i requires 0 <= i < |xs| => RotateX(rot, xs[i], ys[i])),
     seq(|xs|, i requires 0 <= i < |xs| => RotateY(rot, xs[i], ys[i])))
  }

  /** At yaw 0 the rotation leaves every point where it is. */
  lemma RotateAtYaw0(xs: seq<real>, ys: seq<real>)
    requires |xs| == |ys|
    ensures RotatePix(xs, ys, Yaw0) == (xs, ys)
  {
    var (xr, yr) := RotatePix(xs, ys, Yaw0);
    assert forall i :: 0 <= i < |xs| ==> xr[i] == xs[i] && yr[i] == ys[i];
    assert xr == xs && yr == ys;
  }

  /** The rotation turns counter-clockwise: at 90 degrees a point 25 to the
      left of the rover ends up 25 behind it. */
  lemma QuarterTurnOfLeftPoint()
    ensures RotatePix([0.0], [25.0], Yaw90) == ([-25.0], [0.0])
  {
    var (xr, yr) := RotatePix([0.0], [25.0], Yaw90);
    assert xr[0] == RotateX(Yaw90, 0.0, 25.0) == -25.0;
    assert yr[0] == RotateY(Yaw90, 0.0, 25.0) == 0.0;
    assert xr == [-25.0] && yr == [0.0];
  }

  /** A rotation keeps every point's distance from the rover. */
  lemma RotationPreservesDistance(rot: Rotation, x: real, y: real)
    requires IsRotation(rot)
    ensures var x', y' := RotateX(rot, x, y), RotateY(rot, x, y);
      x' * x' + y' * y' == x * x + y * y
  {
  }

  /** Rotating by the opposite angle undoes a rotation. */
  lemma RotationInverse(rot: Rotation, x: real, y: real)
    requires IsRotation(rot)
    ensures var x', y' := RotateX(rot, x, y), RotateY(rot, x, y);
      RotateX(Inverse(rot), x', y') == x && RotateY(Inverse(rot), x', y') == y
  {
  }

  /** One coordinate of `translate_pix`: scale down, then shift by the rover's
      position. */
  function Translate(v: real, pos: real, scale: real): real
    requires scale != 0.0
  {
    v / scale + pos
  }

  /** `translate_pix`. */
  function TranslatePix(xs: seq<real>, ys: seq<real>, xpos: real, ypos: real, scale: real): (p: (seq<real>, seq<real>))
    requires scale != 0.0
    ensures |p.0| == |xs| && |p.1| == |ys|
  {
    (seq(|xs|, i requires 0 <= i < |xs| => Translate(xs[i], xpos, scale)),
     seq(|ys|, i requires 0 <= i < |ys| => Translate(ys[i], ypos, scale)))
  }

  /** Subtracting the position and multiplying by the scale recovers the
      rotated point: `translate_pix` loses nothing. */
  lemma TranslatePixInverse(xs: seq<real>, ys: seq<real>, xpos: real, ypos: real, scale: real)
    requires scale != 0.0
    ensures var (tx, ty) := TranslatePix(xs, ys, xpos, ypos, scale);
      (forall i :: 0 <= i < |xs| ==> (tx[i] - xpos) * scale == xs[i]) &&
      (forall i :: 0 <= i < |ys| ==> (ty[i] - ypos) * scale == ys[i])
  {
  }

  /** `np.int_` on a float: the integer part, rounding toward zero. */
  function Trunc(v: real): (t: int)
    ensures 0.0 <= v ==> 0 <= t && t as real <= v < t as real + 1.0
    ensures v < 0.0 ==> t <= 0 && t as real - 1.0 < v <= t as real
  {
    if v >= 0.0 then v.Floor else -((-v).Floor)
  }

  /** Truncation is odd: `Trunc(-v) == -Trunc(v)`, unlike the floor. */
  lemma TruncIsOdd(v: real)
    ensures Trunc(-v) == -Trunc(v)
  {
  }

  /** `np.clip(v, lo, hi)` for `lo <= hi`. */
  function Clip(v: int, lo: int, hi: int): (c: int)
    requires lo <= hi
    ensures lo <= c <= hi
    ensures lo <= v <= hi ==> c == v
    ensures v < lo ==> c == lo
    ensures hi < v ==> c == hi
  {
    if v < lo then lo else if v > hi then hi else v
  }

  /** One translated coordinate turned into a map index: truncated, then
      clamped into `[0, worldSize - 1]`. */
  function WorldIndex(v: real, worldSize: int): (w: int)
    requires worldSize >= 1
    ensures 0 <= w < worldSize
    ensures 0.0 <= v < worldSize as real ==> w == v.Floor
    ensures v < 0.0 ==> w == 0
    ensures worldSize as real <= v ==> w == worldSize - 1
  {
    Clip(Trunc(v), 0, worldSize - 1)
  }

  /** Clamping an index that is already inside the map changes nothing. */
  lemma WorldIndexIdempotent(v: real, worldSize: int)
    requires worldSize >= 1
    ensures WorldIndex(WorldIndex(v, worldSize) as real, worldSize) == WorldIndex(v, worldSize)
  {
  }

  /** `pix_to_world`: rotate, translate, then truncate and clip both axes. */
  function PixToWorld(xs: seq<real>, ys: seq<real>, xpos: real, ypos: real, rot: Rotation,
                      worldSize: int, scale: real): (p: (seq<int>, seq<int>))
    requires |xs| == |ys| && worldSize >= 1 && scale != 0.0
    ensures |p.0| == |p.1| == |xs|
    ensures forall i :: 0 <= i < |xs| ==> 0 <= p.0[i] < worldSize && 0 <= p.1[i] < worldSize
  {
    var (xr, yr) := RotatePix(xs, ys, rot);
    var (xt, yt) := TranslatePix(xr, yr, xpos, ypos, scale);
    (seq(|xs|, i requires 0 <= i < |xs| => WorldIndex(xt[i], worldSize)),
     seq(|xs|, i requires 0 <= i < |xs| => WorldIndex(yt[i], worldSize)))
  }

  /** Point `i` of `pix_to_world`, read against its rotated and translated
      position `(tx, ty)`: the whole-cell part when that lies inside the map,
      the near edge when it lies below, the far edge when at or beyond the
      map's size. */
  lemma PixToWorldAt(xs: seq<real>, ys: seq<real>, xpos: real, ypos: real, rot: Rotation,
                     worldSize: int, scale: real, i: nat)
    requires |xs| == |ys| && worldSize >= 1 && scale != 0.0 && i < |xs|
    ensures var (wx, wy) := PixToWorld(xs, ys, xpos, ypos, rot, worldSize, scale);
      var tx := RotateX(rot, xs[i], ys[i]) / scale + xpos;
      var ty := RotateY(rot, xs[i], ys[i]) / scale + ypos;
      (0.0 <= tx < worldSize as real ==> wx[i] == tx.Floor) &&
      (tx < 0.0 ==> wx[i] == 0) &&
      (worldSize as real <= tx ==> wx[i] == worldSize - 1) &&
      (0.0 <= ty < worldSize as real ==> wy[i] == ty.Floor) &&
      (ty < 0.0 ==> wy[i] == 0) &&
      (worldSize as real <= ty ==> wy[i] == worldSize - 1)
  {
  }

  /** At yaw 0 the transform is translate, truncate and clip: point `i` lands
      in cell `(WorldIndex(x/scale + xpos), WorldIndex(y/scale + ypos))`. */
  lemma PixToWorldAtYaw0(xs: seq<real>, ys: seq<real>, xpos: real, ypos: real, worldSize: int, scale: real)
    requires |xs| == |ys| && worldSize >= 1 && scale != 0.0
    ensures var (wx, wy) := PixToWorld(xs, ys, xpos, ypos, Yaw0, worldSize, scale);
      forall i :: 0 <= i < |xs| ==>
        wx[i] == WorldIndex(xs[i] / scale + xpos, worldSize) && wy[i] == WorldIndex(ys[i] / scale + ypos, worldSize)
  {
    RotateAtYaw0(xs, ys);
  }

  /** At yaw 0, position (0, 0) and scale 1 the transform only truncates and
      clips the rover-frame coordinates. */
  lemma PixToWorldIdentityPose(xs: seq<real>, ys: seq<real>, worldSize: int)
    requires |xs| == |ys| && worldSize >= 1
    ensures var (wx, wy) := PixToWorld(xs, ys, 0.0, 0.0, Yaw0, worldSize, 1.0);
      forall i :: 0 <= i < |xs| ==>
        wx[i] == Clip(Trunc(xs[i]), 0, worldSize - 1) && wy[i] == Clip(Trunc(ys[i]), 0, worldSize - 1)
  {
  }

  /** Rover at (10, 10) heading 0 with scale 10 on a 20-cell map: a point 50
      ahead lands in cell (15, 10); a point 500 ahead is clipped to 19. */
  lemma PixToWorldExample()
    ensures PixToWorld([50.0, 500.0], [0.0, 0.0], 10.0, 10.0, Yaw0, 20, 10.0) == ([15, 19], [10, 10])
  {
    var (wx, wy) := PixToWorld([50.0, 500.0], [0.0, 0.0], 10.0, 10.0, Yaw0, 20, 10.0);
    assert RotateX(Yaw0, 50.0, 0.0) / 10.0 + 10.0 == 15.0;
    assert RotateX(Yaw0, 500.0, 0.0) / 10.0 + 10.0 == 60.0;
    assert RotateY(Yaw0, 50.0, 0.0) / 10.0 + 10.0 == 10.0;
    assert RotateY(Yaw0, 500.0, 0.0) / 10.0 + 10.0 == 10.0;
    assert wx[0] == WorldIndex(15.0, 20) == 15;
    assert wx[1] == WorldIndex(60.0, 20) == 19;
    assert wy[0] == WorldIndex(10.0, 20) == 10 && wy[1] == 10;
    assert wx == [15, 19] && wy == [10, 10];
  }

  /** Dividing a whole number by `prec` and multiplying back is exact. */
  lemma QuantizedStep(n: int, prec: real)
    requires prec != 0.0
    ensures (n as real / prec * prec).Floor == n
  {
  }

  /** One coordinate of `pix_to_world_float`: quantized to steps of
      `1/prec`, with the clip applied to the quantized value before dividing
      back by `prec`. */
  function WorldCoordFine(v: real, worldSize: int, prec: real): real
    requires worldSize >= 1 && prec != 0.0
  {
    WorldIndex(v * prec, worldSize) as real / prec
  }

  /** `w` is `k / prec` for a whole number `k` inside `[0, worldSize - 1]`. */
  predicate OnFineGrid(w: real, worldSize: int, prec: real)
    requires prec != 0.0
  {
    var k := (w * prec).Floor;
    0 <= k < worldSize && w == k as real / prec
  }

  /** A fine coordinate lies on the fine grid, inside the map. */
  lemma WorldCoordFineOnGrid(v: real, worldSize: int, prec: real)
    requires worldSize >= 1 && prec != 0.0
    ensures OnFineGrid(WorldCoordFine(v, worldSize, prec), worldSize, prec)
  {
    var n := WorldIndex(v * prec, worldSize);
    QuantizedStep(n, prec);
    var k := (WorldCoordFine(v, worldSize, prec) * prec).Floor;
    assert k == n;
  }

  /** `pix_to_world_float`, for the single point it can be applied to (the
      final conversion with `np.float` accepts only a one-element result). */
  function PixToWorldFloat(x: real, y: real, xpos: real, ypos: real, rot: Rotation,
                           worldSize: int, scale: real, prec: real): (p: (real, real))
    requires worldSize >= 1 && scale != 0.0 && prec != 0.0
  {
    (WorldCoordFine(Translate(RotateX(rot, x, y), xpos, scale), worldSize, prec),
     WorldCoordFine(Translate(RotateY(rot, x, y), ypos, scale), worldSize, prec))
  }

  /** Each coordinate of `pix_to_world_float` is `k / prec` for a whole number
      `k` inside `[0, worldSize - 1]`: it lies on the fine grid, and the grid
      point is within the map. */
  lemma {:induction false} PixToWorldFloatOnGrid(x: real, y: real, xpos: real, ypos: real, rot: Rotation,
                                                 worldSize: int, scale: real, prec: real)
    requires worldSize >= 1 && scale != 0.0 && prec != 0.0
    ensures var p := PixToWorldFloat(x, y, xpos, ypos, rot, worldSize, scale, prec);
      OnFineGrid(p.0, worldSize, prec) && OnFineGrid(p.1, worldSize, prec)
  {
    var tx := Translate(RotateX(rot, x, y), xpos, scale);
    var ty := Translate(RotateY(rot, x, y), ypos, scale);
    WorldCoordFineOnGrid(tx, worldSize, prec);
    WorldCoordFineOnGrid(ty, worldSize, prec);
  }

  /** With precision 1 the fine-grained transform agrees with `pix_to_world`. */
  lemma PixToWorldFloatAtUnitPrecision(x: real, y: real, xpos: real, ypos: real, rot: Rotation,
                                       worldSize: int, scale: real)
    requires worldSize >= 1 && scale != 0.0
    ensures var (wx, wy) := PixToWorld([x], [y], xpos, ypos, rot, worldSize, scale);
      PixToWorldFloat(x, y, xpos, ypos, rot, worldSize, scale, 1.0) == (wx[0] as real, wy[0] as real)
  {
  }
}
