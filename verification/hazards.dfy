/** The hazard field: boxes (hit them and lose a point) and spheres (touch them
    and gain one), placed along the tube and drifting across its cross-section. */
module Hazards {
  import opened Numbers
  import opened Vectors
  import opened Seqs

  /** One box or sphere. `u` is the position along the tube's centre line (0..1),
      `(ox, oy)` the offset within the cross-section, `(vx, vy)` its drift
      velocity. For a box `size` is the edge length; for a sphere it is the radius. */
  datatype Hazard = Hazard(
    size: real,
    u: real,
    ox: real,
    oy: real,
    vx: real,
    vy: real,
    movable: bool,
    disintegrated: bool,
    pos: Vec3)

  /** The two obstacle lists the game keeps. */
  datatype Field = Field(boxes: seq<Hazard>, spheres: seq<Hazard>)

  /** Where the tube puts a point: centre-line parameter `u` and cross-section
      offsets `(ox, oy)` along the frame's normal and binormal. */
  type Placement = (real, real, real) -> Vec3

  /** The random draws one spawned obstacle consumes, in the order the game
      draws them. The direction of the offset comes as its cosine and sine;
      spheres draw no size and ignore `size`. */
  datatype ObstacleDraw = ObstacleDraw(
    size: real,
    along: real,
    radial: real,
    cosA: real,
    sinA: real,
    vx: real,
    vy: real)

  predicate ValidDraw(d: ObstacleDraw) {
    UnitDraw(d.size) && UnitDraw(d.along) && UnitDraw(d.radial)
    && Sq(d.cosA) + Sq(d.sinA) == 1.0
    && UnitDraw(d.vx) && UnitDraw(d.vy)
  }

  const TubeRadius: real := 0.5
  /** The spawn radius bound (`maxR` in spawnObstacles). */
  const SpawnMaxR: real := TubeRadius * 0.9
  /** The drift bound (`maxR` in updateMovers). */
  const MoverMaxR: real := TubeRadius * 0.95
  const SphereRadius: real := 0.02

  /** `THREE.MathUtils.randFloatSpread(range)`. */
  function RandFloatSpread(range: real, d: real): real { range * (0.5 - d) }

  /** The stratified position of item `i` of `count`: one stratum of the
      remaining tube per item, jittered by the draw. */
  function StratifiedU(startU: real, i: int, count: int, d: real): real {
    startU + ((i as real + d) / Max(1.0, count as real)) * (1.0 - startU)
  }

  /** The lower edge of stratum `i` of `count`. */
  function StratumLo(startU: real, i: int, count: int): real {
    startU + (i as real / Max(1.0, count as real)) * (1.0 - startU)
  }

  function SpawnBox(d: ObstacleDraw, i: int, count: int, startU: real, place: Placement): (h: Hazard)
    ensures h.movable && !h.disintegrated
    ensures h.u == StratifiedU(startU, i, count, d.along)
  {
    var size := d.size * (0.1 - 0.01) + 0.01;
    var u := StratifiedU(startU, i, count, d.along);
    var r := RandFloat(0.05, SpawnMaxR * 0.9, d.radial);
    var ox := d.cosA * r;
    var oy := d.sinA * r;
    Hazard(size, u, ox, oy, RandFloatSpread(0.4, d.vx), RandFloatSpread(0.4, d.vy), true, false, place(u, ox, oy))
  }

  function SpawnSphere(d: ObstacleDraw, i: int, count: int, startU: real, place: Placement): (h: Hazard)
    ensures h.movable && !h.disintegrated && h.size == SphereRadius
    ensures h.u == StratifiedU(startU, i, count, d.along)
  {
    var u := StratifiedU(startU, i, count, d.along);
    var r := RandFloat(0.05, SpawnMaxR * 0.9, d.radial);
    var ox := d.cosA * r;
    var oy := d.sinA * r;
    Hazard(SphereRadius, u, ox, oy, RandFloatSpread(0.4, d.vx), RandFloatSpread(0.4, d.vy), true, false, place(u, ox, oy))
  }

  /** The boxes one spawnObstacles call creates, in order. */
  function SpawnedBoxes(count: int, startU: real, draw: nat -> ObstacleDraw, place: Placement): (r: seq<Hazard>)
    ensures |r| == MaxInt(0, count)
    ensures forall i :: 0 <= i < |r| ==> r[i] == SpawnBox(draw(i), i, count, startU, place)
  {
    seq(MaxInt(0, count), i requires 0 <= i < MaxInt(0, count) => SpawnBox(draw(i), i, count, startU, place))
  }

  /** The spheres one spawnObstacles call creates, in order. */
  function SpawnedSpheres(count: int, startU: real, draw: nat -> ObstacleDraw, place: Placement): (r: seq<Hazard>)
    ensures |r| == MaxInt(0, count)
    ensures forall i :: 0 <= i < |r| ==> r[i] == SpawnSphere(draw(i), i, count, startU, place)
  {
    seq(MaxInt(0, count), i requires 0 <= i < MaxInt(0, count) => SpawnSphere(draw(i), i, count, startU, place))
  }

  /** `spawnObstacles(boxCount, sphereCount, startU)`: appends `boxCount` boxes
      and `sphereCount` spheres (none for a count below 1). The `i`-th box of
      this call uses draw `boxDraw(i)`, likewise for spheres. */
  function SpawnObstacles(f: Field, boxCount: int, sphereCount: int, startU: real,
                          boxDraw: nat -> ObstacleDraw, sphereDraw: nat -> ObstacleDraw,
                          place: Placement): (r: Field)
    ensures |r.boxes| == |f.boxes| + MaxInt(0, boxCount)
    ensures |r.spheres| == |f.spheres| + MaxInt(0, sphereCount)
    ensures r.boxes[..|f.boxes|] == f.boxes && r.spheres[..|f.spheres|] == f.spheres
    ensures forall i :: |f.boxes| <= i < |r.boxes| ==> r.boxes[i].movable && !r.boxes[i].disintegrated
    ensures forall i :: |f.spheres| <= i < |r.spheres| ==>
              r.spheres[i].movable && !r.spheres[i].disintegrated && r.spheres[i].size == SphereRadius
    ensures forall i :: |f.boxes| <= i < |r.boxes| ==>
              r.boxes[i] == SpawnBox(boxDraw(i - |f.boxes|), i - |f.boxes|, boxCount, startU, place)
    ensures forall i :: |f.spheres| <= i < |r.spheres| ==>
              r.spheres[i] == SpawnSphere(sphereDraw(i - |f.spheres|), i - |f.spheres|, sphereCount, startU, place)
  {
    var newBoxes := SpawnedBoxes(boxCount, startU, boxDraw, place);
    var newSpheres := SpawnedSpheres(sphereCount, startU, sphereDraw, place);
    var boxes := f.boxes + newBoxes;
    assert forall i :: |f.boxes| <= i < |boxes| ==> boxes[i] == newBoxes[i - |f.boxes|];
    var spheres := f.spheres + newSpheres;
    assert forall i :: |f.spheres| <= i < |spheres| ==> spheres[i] == newSpheres[i - |f.spheres|];
    Field(boxes, spheres)
  }

  /** `ensureObstacleDensity(minBoxes, minSpheres, startU)`: tops each list up to its minimum. */
  function EnsureObstacleDensity(f: Field, minBoxes: int, minSpheres: int, startU: real,
                                 boxDraw: nat -> ObstacleDraw, sphereDraw: nat -> ObstacleDraw,
                                 place: Placement): (r: Field)
    ensures |r.boxes| >= minBoxes && |r.spheres| >= minSpheres
    ensures |r.boxes| == MaxInt(|f.boxes|, minBoxes) && |r.spheres| == MaxInt(|f.spheres|, minSpheres)
    ensures r.boxes[..|f.boxes|] == f.boxes && r.spheres[..|f.spheres|] == f.spheres
  {
    var needBoxes := MaxInt(0, minBoxes - |f.boxes|);
    var needSpheres := MaxInt(0, minSpheres - |f.spheres|);
    if needBoxes > 0 || needSpheres > 0 then
      SpawnObstacles(f, needBoxes, needSpheres, startU, boxDraw, sphereDraw, place)
    else
      f
  }

  /** `clearObstacles` on the two lists. */
  function ClearField(f: Field): (r: Field)
    ensures |r.boxes| == 0 && |r.spheres| == 0
  {
    Field([], [])
  }

  /** The stratum an item falls in: with `count` items spread over `[startU, 1)`,
      item `i` lies in `[StratumLo(i), StratumLo(i + 1))`, hence in `[startU, 1)`. */
  lemma SpawnedInStratum(startU: real, i: nat, count: nat, d: real)
    requires 0.0 <= startU < 1.0 && i < count && UnitDraw(d)
    ensures StratumLo(startU, i, count) <= StratifiedU(startU, i, count, d) < StratumLo(startU, i + 1, count)
    ensures startU <= StratifiedU(startU, i, count, d) < 1.0
  {
    var n := count as real;
    assert Max(1.0, n) == n;
    assert (i + 1) as real == i as real + 1.0;
    StratumBounds(startU, n, i as real, d);
  }

  /** Where a spawn puts its obstacles: the `k`-th new box of `N` lies in its
      own stratum of `[startU, 1)`, and so does the `k`-th new sphere of `M`. */
  lemma SpawnObstaclesInStratum(f: Field, boxCount: int, sphereCount: int, startU: real,
                                boxDraw: nat -> ObstacleDraw, sphereDraw: nat -> ObstacleDraw,
                                place: Placement)
    requires 0.0 <= startU < 1.0
    requires forall k: nat :: UnitDraw(boxDraw(k).along)
    requires forall k: nat :: UnitDraw(sphereDraw(k).along)
    ensures var r := SpawnObstacles(f, boxCount, sphereCount, startU, boxDraw, sphereDraw, place);
            forall i :: |f.boxes| <= i < |r.boxes| ==>
              StratumLo(startU, i - |f.boxes|, boxCount) <= r.boxes[i].u < StratumLo(startU, i - |f.boxes| + 1, boxCount)
    ensures var r := SpawnObstacles(f, boxCount, sphereCount, startU, boxDraw, sphereDraw, place);
            forall i :: |f.spheres| <= i < |r.spheres| ==>
              StratumLo(startU, i - |f.spheres|, sphereCount) <= r.spheres[i].u < StratumLo(startU, i - |f.spheres| + 1, sphereCount)
    ensures AddedAfter(f, SpawnObstacles(f, boxCount, sphereCount, startU, boxDraw, sphereDraw, place), startU)
  {
    var r := SpawnObstacles(f, boxCount, sphereCount, startU, boxDraw, sphereDraw, place);
    NewBoxesInStratum(f.boxes, r.boxes, boxCount, startU, boxDraw, place);
    NewSpheresInStratum(f.spheres, r.spheres, sphereCount, startU, sphereDraw, place);
    assert AddedAfter(f, r, startU);
  }

  /** A field whose obstacles after the earlier ones all lie in `[startU, 1)`. */
  predicate AddedAfter(before: Field, f: Field, startU: real) {
    (forall i :: |before.boxes| <= i < |f.boxes| ==> startU <= f.boxes[i].u < 1.0)
    && (forall i :: |before.spheres| <= i < |f.spheres| ==> startU <= f.spheres[i].u < 1.0)
  }

  /** The boxes a spawn appends lie in their strata. */
  lemma NewBoxesInStratum(before: seq<Hazard>, r: seq<Hazard>, count: int, startU: real,
                          draw: nat -> ObstacleDraw, place: Placement)
    requires 0.0 <= startU < 1.0
    requires forall k: nat :: UnitDraw(draw(k).along)
    requires forall i :: |before| <= i < |r| ==> r[i] == SpawnBox(draw(i - |before|), i - |before|, count, startU, place)
    requires |r| <= |before| + MaxInt(0, count)
    ensures forall i :: |before| <= i < |r| ==>
              StratumLo(startU, i - |before|, count) <= r[i].u < StratumLo(startU, i - |before| + 1, count)
    ensures forall i :: |before| <= i < |r| ==> startU <= r[i].u < 1.0
  {
    forall i | |before| <= i < |r|
      ensures StratumLo(startU, i - |before|, count) <= r[i].u < StratumLo(startU, i - |before| + 1, count)
      ensures startU <= r[i].u < 1.0
    {
      var k := i - |before|;
      assert r[i].u == StratifiedU(startU, k, count, draw(k).along);
      SpawnedInStratum(startU, k, count, draw(k).along);
    }
  }

  /** The spheres a spawn appends lie in their strata. */
  lemma NewSpheresInStratum(before: seq<Hazard>, r: seq<Hazard>, count: int, startU: real,
                            draw: nat -> ObstacleDraw, place: Placement)
    requires 0.0 <= startU < 1.0
    requires forall k: nat :: UnitDraw(draw(k).along)
    requires forall i :: |before| <= i < |r| ==> r[i] == SpawnSphere(draw(i - |before|), i - |before|, count, startU, place)
    requires |r| <= |before| + MaxInt(0, count)
    ensures forall i :: |before| <= i < |r| ==>
              StratumLo(startU, i - |before|, count) <= r[i].u < StratumLo(startU, i - |before| + 1, count)
    ensures forall i :: |before| <= i < |r| ==> startU <= r[i].u < 1.0
  {
    forall i | |before| <= i < |r|
      ensures StratumLo(startU, i - |before|, count) <= r[i].u < StratumLo(startU, i - |before| + 1, count)
      ensures startU <= r[i].u < 1.0
    {
      var k := i - |before|;
      assert r[i].u == StratifiedU(startU, k, count, draw(k).along);
      SpawnedInStratum(startU, k, count, draw(k).along);
    }
  }

  /** The stratum bounds over abstract reals: `n` strata of the remaining
      `1 - startU` of the tube. */
  lemma StratumBounds(startU: real, n: real, i: real, d: real)
    requires 0.0 <= startU < 1.0 && 0.0 <= i && i + 1.0 <= n && 0.0 <= d < 1.0
    ensures startU <= startU + (i / n) * (1.0 - startU)
    ensures startU + (i / n) * (1.0 - startU) <= startU + ((i + d) / n) * (1.0 - startU)
    ensures startU + ((i + d) / n) * (1.0 - startU) < startU + ((i + 1.0) / n) * (1.0 - startU)
    ensures startU + ((i + 1.0) / n) * (1.0 - startU) <= 1.0
  {
    var w := 1.0 - startU;
    StratumFractions(i, d, n);
    MulLe(0.0, i / n, w);
    MulLe(i / n, (i + d) / n, w);
    MulLt((i + d) / n, (i + 1.0) / n, w);
    MulLe((i + 1.0) / n, 1.0, w);
  }

  /** Item `i` of `n` with jitter `d` sits at fraction `(i + d)/n` of the remaining tube. */
  lemma StratumFractions(i: real, d: real, n: real)
    requires 0.0 <= i && i + 1.0 <= n && 0.0 <= d < 1.0
    ensures 0.0 <= i / n <= (i + d) / n < (i + 1.0) / n <= 1.0
  {
    DivMonotone(0.0, i, n);
    DivMonotone(i, i + d, n);
    DivStrict(i + d, i + 1.0, n);
    DivMonotone(i + 1.0, n, n);
  }

  lemma DivMonotone(a: real, b: real, n: real)
    requires 0.0 < n && a <= b
    ensures a / n <= b / n
  {
  }

  lemma DivStrict(a: real, b: real, n: real)
    requires 0.0 < n && a < b
    ensures a / n < b / n
  {
  }

  /** A freshly spawned obstacle sits strictly inside the drift bound: its
      offset has length `r` in `[0.05, 0.405)`. */
  lemma SpawnedInsideTube(d: ObstacleDraw, i: int, count: int, startU: real, place: Placement)
    requires ValidDraw(d)
    ensures var h := SpawnBox(d, i, count, startU, place);
            Sq(h.ox) + Sq(h.oy) < Sq(SpawnMaxR * 0.9) && 0.01 <= h.size < 0.1
    ensures var h := SpawnSphere(d, i, count, startU, place);
            Sq(h.ox) + Sq(h.oy) < Sq(SpawnMaxR * 0.9)
  {
    var r := RandFloat(0.05, SpawnMaxR * 0.9, d.radial);
    assert 0.05 <= r < SpawnMaxR * 0.9;
    OffsetLength(d.cosA, d.sinA, r);
    SquareStrict(r, SpawnMaxR * 0.9);
  }

  lemma OffsetLength(c: real, s: real, r: real)
    requires Sq(c) + Sq(s) == 1.0
    ensures Sq(c * r) + Sq(s * r) == Sq(r)
  {
    SqMul(c, r);
    SqMul(s, r);
  }

  // ---------------------------------------------------------------- movers

  /** Cross-section drift state of one hazard. */
  datatype Drift = Drift(ox: real, oy: real, vx: real, vy: real)

  /** The boundary response of updateMovers: past `MoverMaxR` the velocity is
      mirrored about the outward normal and the offset pulled back onto the bound. */
  function Bounce(d: Drift, rNow: real): Drift {
    if rNow > MoverMaxR then
      var nx := d.ox / OrReal(rNow, 1.0);
      var ny := d.oy / OrReal(rNow, 1.0);
      var dot := d.vx * nx + d.vy * ny;
      var k := MoverMaxR / OrReal(rNow, 1.0);
      Drift(d.ox * k, d.oy * k, d.vx - 2.0 * dot * nx, d.vy - 2.0 * dot * ny)
    else
      d
  }

  /** The drift of one step, before the boundary response. */
  function Drifted(h: Hazard, dt: real, speedScale: real): Drift {
    Drift(h.ox + h.vx * dt * speedScale, h.oy + h.vy * dt * speedScale, h.vx, h.vy)
  }

  /** Writes a drift state back into the hazard and re-places it in the tube. */
  function Settle(h: Hazard, d: Drift, place: Placement): Hazard {
    var u := Clamp(h.u, 0.0, 1.0);
    h.(ox := d.ox, oy := d.oy, vx := d.vx, vy := d.vy, pos := place(u, d.ox, d.oy))
  }

  /** One hazard's step of updateMovers (`Math.hypot` is `sqrt` of the squared offset). */
  function MoveHazard(h: Hazard, dt: real, speedScale: real, sqrt: real -> real, place: Placement): Hazard {
    if !h.movable then h
    else
      var moved := Drifted(h, dt, speedScale);
      Settle(h, Bounce(moved, sqrt(Sq(moved.ox) + Sq(moved.oy))), place)
  }

  function Mover(dt: real, speedScale: real, sqrt: real -> real, place: Placement): Hazard -> Hazard {
    h => MoveHazard(h, dt, speedScale, sqrt, place)
  }

  /** `updateMovers(dt)`: a no-op unless movers are enabled or the stage is 3 or
      later; otherwise every movable box and sphere drifts. */
  function UpdateMovers(f: Field, dt: real, moversEnabled: bool, stage: int, movementSpeedScale: real,
                        sqrt: real -> real, place: Placement): (r: Field)
    ensures !(moversEnabled || stage >= 3) ==> r == f
    ensures |r.boxes| == |f.boxes| && |r.spheres| == |f.spheres|
    ensures forall i :: 0 <= i < |f.boxes| && !f.boxes[i].movable ==> r.boxes[i] == f.boxes[i]
    ensures forall i :: 0 <= i < |f.spheres| && !f.spheres[i].movable ==> r.spheres[i] == f.spheres[i]
    ensures forall i :: 0 <= i < |f.boxes| ==>
              r.boxes[i].u == f.boxes[i].u && r.boxes[i].size == f.boxes[i].size
              && r.boxes[i].movable == f.boxes[i].movable && r.boxes[i].disintegrated == f.boxes[i].disintegrated
    ensures forall i :: 0 <= i < |f.spheres| ==>
              r.spheres[i].u == f.spheres[i].u && r.spheres[i].size == f.spheres[i].size
              && r.spheres[i].movable == f.spheres[i].movable
  {
    if !(moversEnabled || stage >= 3) then f
    else
      var k := OrReal(movementSpeedScale, 1.0);
      Field(Map(f.boxes, Mover(dt, k, sqrt, place)), Map(f.spheres, Mover(dt, k, sqrt, place)))
  }

  /** After a step every movable hazard is within `MoverMaxR` of the centre line. */
  lemma MoveStaysInTube(h: Hazard, dt: real, speedScale: real, sqrt: real -> real, place: Placement)
    requires IsSqrt(sqrt) && h.movable
    ensures var r := MoveHazard(h, dt, speedScale, sqrt, place);
            Sq(r.ox) + Sq(r.oy) <= Sq(MoverMaxR)
  {
    var moved := Drifted(h, dt, speedScale);
    BounceBounded(moved, sqrt);
  }

  /** Whatever the drift, the boundary response leaves the offset within the bound. */
  lemma BounceBounded(d: Drift, sqrt: real -> real)
    requires IsSqrt(sqrt)
    ensures var b := Bounce(d, sqrt(Sq(d.ox) + Sq(d.oy)));
            Sq(b.ox) + Sq(b.oy) <= Sq(MoverMaxR)
  {
    var lenSq := Sq(d.ox) + Sq(d.oy);
    SquareNonNegative(d.ox);
    SquareNonNegative(d.oy);
    var rNow := sqrt(lenSq);
    assert 0.0 <= rNow && Sq(rNow) == lenSq;
    if rNow > MoverMaxR {
      BounceOntoBound(d.ox, d.oy, d.vx, d.vy, rNow);
    } else {
      SqrtAtMost(sqrt, lenSq, MoverMaxR);
    }
  }

  lemma BounceOntoBound(ox: real, oy: real, vx: real, vy: real, rNow: real)
    requires rNow > MoverMaxR && Sq(rNow) == Sq(ox) + Sq(oy)
    ensures var d := Bounce(Drift(ox, oy, vx, vy), rNow);
            Sq(d.ox) + Sq(d.oy) == Sq(MoverMaxR)
  {
    var k := MoverMaxR / rNow;
    assert OrReal(rNow, 1.0) == rNow;
    calc {
      Sq(ox * k) + Sq(oy * k);
      { SqMul(ox, k); SqMul(oy, k); }
      (Sq(ox) + Sq(oy)) * Sq(k);
      Sq(rNow) * Sq(k);
      { SqDiv(MoverMaxR, rNow); }
      Sq(MoverMaxR);
    }
  }

  /** The unit outward normal at the offset where the bounce happens. */
  lemma BounceNormal(ox: real, oy: real, rNow: real)
    requires rNow > MoverMaxR && Sq(rNow) == Sq(ox) + Sq(oy)
    ensures Sq(ox / rNow) + Sq(oy / rNow) == 1.0
  {
    var a, b, r2 := Sq(ox / rNow), Sq(oy / rNow), Sq(rNow);
    SqDiv(ox, rNow);
    SqDiv(oy, rNow);
    SquarePositive(rNow);
    calc {
      (a + b) * r2;
      a * r2 + b * r2;
      Sq(ox) + Sq(oy);
      r2;
      1.0 * r2;
    }
    CancelFactor(a + b, 1.0, r2);
  }

  lemma CancelFactor(x: real, y: real, k: real)
    requires k != 0.0 && x * k == y * k
    ensures x == y
  {
  }

  /** A bounce is elastic: the speed `|(vx, vy)|` is kept and the velocity's
      outward component changes sign. */
  lemma BounceIsElastic(ox: real, oy: real, vx: real, vy: real, rNow: real)
    requires rNow > MoverMaxR && Sq(rNow) == Sq(ox) + Sq(oy)
    ensures var d := Bounce(Drift(ox, oy, vx, vy), rNow);
            Sq(d.vx) + Sq(d.vy) == Sq(vx) + Sq(vy)
            && d.vx * (ox / rNow) + d.vy * (oy / rNow) == -(vx * (ox / rNow) + vy * (oy / rNow))
  {
    var nx, ny := ox / rNow, oy / rNow;
    var dot := vx * nx + vy * ny;
    assert OrReal(rNow, 1.0) == rNow;
    var d := Bounce(Drift(ox, oy, vx, vy), rNow);
    assert d.vx == vx - 2.0 * dot * nx && d.vy == vy - 2.0 * dot * ny;
    BounceNormal(ox, oy, rNow);
    ReflectKeepsLength(vx, vy, nx, ny);
    ReflectFlipsNormal(vx, vy, nx, ny);
  }

  lemma ReflectKeepsLength(vx: real, vy: real, nx: real, ny: real)
    requires Sq(nx) + Sq(ny) == 1.0
    ensures var dot := vx * nx + vy * ny;
            Sq(vx - 2.0 * dot * nx) + Sq(vy - 2.0 * dot * ny) == Sq(vx) + Sq(vy)
  {
    var dot := vx * nx + vy * ny;
    var px, py := vx * nx, vy * ny;
    ReflectCoord(vx, nx, dot);
    ReflectCoord(vy, ny, dot);
    assert 4.0 * dot * px + 4.0 * dot * py == 4.0 * Sq(dot);
    assert 4.0 * Sq(dot) * Sq(nx) + 4.0 * Sq(dot) * Sq(ny) == 4.0 * Sq(dot) * (Sq(nx) + Sq(ny));
  }

  /** One coordinate of a reflection, expanded. */
  lemma ReflectCoord(v: real, n: real, k: real)
    ensures Sq(v - 2.0 * k * n) == Sq(v) - 4.0 * k * (v * n) + 4.0 * Sq(k) * Sq(n)
  {
  }

  lemma ReflectFlipsNormal(vx: real, vy: real, nx: real, ny: real)
    requires Sq(nx) + Sq(ny) == 1.0
    ensures var dot := vx * nx + vy * ny;
            (vx - 2.0 * dot * nx) * nx + (vy - 2.0 * dot * ny) * ny == -dot
  {
    var dot := vx * nx + vy * ny;
    calc {
      (vx - 2.0 * dot * nx) * nx + (vy - 2.0 * dot * ny) * ny;
      dot - 2.0 * dot * (Sq(nx) + Sq(ny));
      dot - 2.0 * dot * 1.0;
    }
  }

  /** Inside the bound a step only moves the offset: the velocity is kept. */
  lemma DriftWithoutBounce(h: Hazard, dt: real, speedScale: real, sqrt: real -> real, place: Placement)
    requires IsSqrt(sqrt) && h.movable
    requires Sq(h.ox + h.vx * dt * speedScale) + Sq(h.oy + h.vy * dt * speedScale) <= Sq(MoverMaxR)
    ensures var r := MoveHazard(h, dt, speedScale, sqrt, place);
            r.vx == h.vx && r.vy == h.vy
            && r.ox == h.ox + h.vx * dt * speedScale && r.oy == h.oy + h.vy * dt * speedScale
  {
    var moved := Drifted(h, dt, speedScale);
    var lenSq := Sq(moved.ox) + Sq(moved.oy);
    SquareNonNegative(moved.ox);
    SquareNonNegative(moved.oy);
    SqrtAtMost(sqrt, lenSq, MoverMaxR);
    assert Bounce(moved, sqrt(lenSq)) == moved;
  }

  /** The whole field stays inside the drift bound once movers have run. */
  lemma MoversStayInTube(f: Field, dt: real, moversEnabled: bool, stage: int, scale: real,
                         sqrt: real -> real, place: Placement)
    requires IsSqrt(sqrt) && (moversEnabled || stage >= 3)
    ensures var r := UpdateMovers(f, dt, moversEnabled, stage, scale, sqrt, place);
            (forall i :: 0 <= i < |r.boxes| && r.boxes[i].movable ==> Sq(r.boxes[i].ox) + Sq(r.boxes[i].oy) <= Sq(MoverMaxR))
            && (forall i :: 0 <= i < |r.spheres| && r.spheres[i].movable ==> Sq(r.spheres[i].ox) + Sq(r.spheres[i].oy) <= Sq(MoverMaxR))
  {
    var k := OrReal(scale, 1.0);
    var r := UpdateMovers(f, dt, moversEnabled, stage, scale, sqrt, place);
    forall i | 0 <= i < |r.boxes| && r.boxes[i].movable
      ensures Sq(r.boxes[i].ox) + Sq(r.boxes[i].oy) <= Sq(MoverMaxR)
    {
      MoveStaysInTube(f.boxes[i], dt, k, sqrt, place);
    }
    forall i | 0 <= i < |r.spheres| && r.spheres[i].movable
      ensures Sq(r.spheres[i].ox) + Sq(r.spheres[i].oy) <= Sq(MoverMaxR)
    {
      MoveStaysInTube(f.spheres[i], dt, k, sqrt, place);
    }
  }
}
