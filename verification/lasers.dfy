/** The laser system of the stage-aware game: lasers spawned in a fan, moved
    forward every frame until they expire, and matched against the boxes. */
module Lasers {
  import opened Numbers
  import opened Vectors
  import opened Seqs
  import opened Slab
  import opened Hazards

  const MaxDistance: real := 3.0
  const Speed: real := 6.0
  const Duration: real := 0.4
  /** How far ahead of its origin a new laser's mesh is centred. */
  const SpawnOffset: real := 0.1
  const DefaultBoxSize: real := 0.05

  /** A laser: where it was fired from, its unit direction, where its mesh is
      now, how far it has moved and how long it has lived. */
  datatype Laser = Laser(start: Vec3, dir: Vec3, pos: Vec3, traveled: real, life: real)

  /** `spawn(origin, direction, color, amount)`: appends `amount` identical
      lasers (none when `amount` is not positive). */
  function Spawn(lasers: seq<Laser>, origin: Vec3, direction: Vec3, amount: int, sqrt: real -> real): (r: seq<Laser>)
    requires IsSqrt(sqrt)
    ensures |r| == |lasers| + MaxInt(amount, 0)
    ensures r[..|lasers|] == lasers
    ensures forall i :: |lasers| <= i < |r| ==>
              r[i].start == origin && r[i].dir == Normalize(sqrt, direction)
              && r[i].traveled == 0.0 && r[i].life == 0.0
  {
    var dir := Normalize(sqrt, direction);
    var fired := Laser(origin, dir, Add(origin, Scale(dir, SpawnOffset)), 0.0, 0.0);
    lasers + seq(MaxInt(amount, 0), _ => fired)
  }

  /** One frame of `update(dt)` for one laser. Its partner property is
      `AdvanceOnTrack`: a step keeps a laser on its track. */
  function Advance(l: Laser, dt: real): (r: Laser)
    ensures r.start == l.start && r.dir == l.dir
    ensures r.traveled == l.traveled + Speed * dt && r.life == l.life + dt
    ensures r.pos == Add(l.pos, Scale(l.dir, Speed * dt))
  {
    var step := Speed * dt;
    Laser(l.start, l.dir, Add(l.pos, Scale(l.dir, step)), l.traveled + step, l.life + dt)
  }

  /** The per-laser step of one frame. */
  function Advancer(dt: real): Laser -> Laser { l => Advance(l, dt) }

  /** A laser is disposed of once it has gone its distance or lived its time. */
  predicate Alive(l: Laser) { !(l.traveled >= MaxDistance || l.life >= Duration) }

  /** `update(dt)`: a backwards loop that advances every laser and disposes of
      the expired ones, keeping the others in order. */
  method Update(lasers: seq<Laser>, dt: real) returns (r: seq<Laser>)
    ensures r == Filter(Map(lasers, Advancer(dt)), Alive)
    ensures forall l :: l in r ==> Alive(l)
  {
    r := PruneSweep(lasers, Advancer(dt), Alive);
  }

  /** A laser in flight: its mesh sits `0.1 + traveled` along its direction
      from its origin, and it has moved at the laser speed all its life. */
  predicate OnTrack(l: Laser) {
    l.pos == Add(l.start, Scale(l.dir, SpawnOffset + l.traveled)) && l.traveled == Speed * l.life
  }

  /** Spawned lasers start on track, with a unit direction when the aim is not zero. */
  lemma SpawnOnTrack(lasers: seq<Laser>, origin: Vec3, direction: Vec3, amount: int, sqrt: real -> real)
    requires IsSqrt(sqrt)
    ensures var r := Spawn(lasers, origin, direction, amount, sqrt);
            forall i :: |lasers| <= i < |r| ==>
              OnTrack(r[i]) && (direction != Vec3(0.0, 0.0, 0.0) ==> LenSq(r[i].dir) == 1.0)
  {
    if direction != Vec3(0.0, 0.0, 0.0) {
      NormalizeUnit(sqrt, direction);
    }
  }

  /** Advancing keeps a laser on track. */
  lemma AdvanceOnTrack(l: Laser, dt: real)
    requires OnTrack(l)
    ensures OnTrack(Advance(l, dt))
  {
    var step := Speed * dt;
    var k := SpawnOffset + l.traveled;
    ScaleAdd(l.start, l.dir, k, step);
  }

  lemma ScaleAdd(s: Vec3, d: Vec3, a: real, b: real)
    ensures Add(Add(s, Scale(d, a)), Scale(d, b)) == Add(s, Scale(d, a + b))
  {
  }

  /** Every laser left after an update is on track, when all were before. */
  lemma UpdateOnTrack(lasers: seq<Laser>, dt: real)
    requires forall l :: l in lasers ==> OnTrack(l)
    ensures forall l :: l in Filter(Map(lasers, Advancer(dt)), Alive) ==> OnTrack(l)
  {
    var u := Map(lasers, Advancer(dt));
    forall l | l in u
      ensures OnTrack(l)
    {
      var i :| 0 <= i < |u| && u[i] == l;
      AdvanceOnTrack(lasers[i], dt);
    }
  }

  /** For a laser on track the distance limit never decides: it moves 6 units
      a second, so its 0.4 seconds run out after 2.4 units, before the 3.0 limit. */
  lemma LifetimeDecides(l: Laser)
    requires OnTrack(l)
    ensures Alive(l) <==> l.life < Duration
  {
  }

  // --------------------------------------------------------------- hit test

  /** Half the edge of a box, with the default size for a size of zero. */
  function HalfEdge(h: Hazard): real { OrReal(h.size, DefaultBoxSize) * 0.5 }

  /** A laser hits a box: the segment from its origin to its mesh meets the
      box's cube; a box already disintegrating is never hit. */
  predicate HitsBox(l: Laser, h: Hazard) {
    !h.disintegrated
    && SegmentHitsBox(l.start, l.pos, AddScalar(h.pos, -HalfEdge(h)), AddScalar(h.pos, HalfEdge(h)))
  }

  /** The pair `(laser i, box b)` is the one `findHitBox` reports: lasers in
      order, and for each laser the boxes from the last one down. */
  predicate FirstHit(lasers: seq<Laser>, boxes: seq<Hazard>, i: nat, b: nat) {
    i < |lasers| && b < |boxes| && HitsBox(lasers[i], boxes[b])
    && (forall j, c :: 0 <= j < i && 0 <= c < |boxes| ==> !HitsBox(lasers[j], boxes[c]))
    && (forall c :: b < c < |boxes| ==> !HitsBox(lasers[i], boxes[c]))
  }

  /** `findHitBox(boxes)`: the first laser that hits some box, with the last such box. */
  method FindHitBox(lasers: seq<Laser>, boxes: seq<Hazard>) returns (r: Option<(nat, nat)>)
    ensures r.Some? ==> FirstHit(lasers, boxes, r.value.0, r.value.1)
    ensures r.None? <==> forall j, c :: 0 <= j < |lasers| && 0 <= c < |boxes| ==> !HitsBox(lasers[j], boxes[c])
  {
    var i := 0;
    while i < |lasers|
      invariant 0 <= i <= |lasers|
      invariant forall j, c :: 0 <= j < i && 0 <= c < |boxes| ==> !HitsBox(lasers[j], boxes[c])
    {
      var b := |boxes|;
      while b > 0
        invariant 0 <= b <= |boxes|
        invariant forall c :: b <= c < |boxes| ==> !HitsBox(lasers[i], boxes[c])
      {
        b := b - 1;
        if HitsBox(lasers[i], boxes[b]) {
          return Some((i, b));
        }
      }
      i := i + 1;
    }
    return None;
  }

  /** A hit means what it says: some point of the laser's segment lies in the
      box's cube, for a box of non-negative size. */
  lemma HitsBoxMeaning(l: Laser, h: Hazard)
    requires !h.disintegrated && h.size >= 0.0
    ensures HitsBox(l, h)
        <==> exists t :: 0.0 <= t <= 1.0
               && InBox(Lerp(l.start, l.pos, t), AddScalar(h.pos, -HalfEdge(h)), AddScalar(h.pos, HalfEdge(h)))
  {
    SegmentHitsBoxMeaning(l.start, l.pos, AddScalar(h.pos, -HalfEdge(h)), AddScalar(h.pos, HalfEdge(h)));
  }

  /** The laser's segment starts on a face plane of the box along an axis it
      does not move on: the one case where the written test computes a NaN. */
  predicate OnFaceParallel(l: Laser, h: Hazard) {
    var lo := AddScalar(h.pos, -HalfEdge(h));
    var hi := AddScalar(h.pos, HalfEdge(h));
    (l.pos.x == l.start.x && (l.start.x == lo.x || l.start.x == hi.x))
    || (l.pos.y == l.start.y && (l.start.y == lo.y || l.start.y == hi.y))
    || (l.pos.z == l.start.z && (l.start.z == lo.z || l.start.z == hi.z))
  }

  /** Away from that case the hit test is the program's `_segmentAabbIntersect`. */
  lemma HitsBoxAgrees(l: Laser, h: Hazard)
    requires h.size >= 0.0 && !OnFaceParallel(l, h)
    ensures HitsBox(l, h)
        <==> !h.disintegrated
             && SegmentHitsBoxAsWritten(l.start, l.pos, AddScalar(h.pos, -HalfEdge(h)), AddScalar(h.pos, HalfEdge(h)))
  {
    AsWrittenAgrees(l.start, l.pos, AddScalar(h.pos, -HalfEdge(h)), AddScalar(h.pos, HalfEdge(h)));
  }

  /** Where they differ: a laser from (0,0,5) whose mesh is at (1,0,5), against
      a live box of size 2 at (0,1,0). The program's test reports a hit, so
      `findHitBox` returns it and the box is destroyed; the model's does not. */
  lemma NaNLaserHit()
    ensures var l := Laser(Vec3(0.0, 0.0, 5.0), Vec3(1.0, 0.0, 0.0), Vec3(1.0, 0.0, 5.0), 0.9, 0.15);
            var h := Hazard(2.0, 0.0, 0.0, 0.0, 0.0, 0.0, false, false, Vec3(0.0, 1.0, 0.0));
            SegmentHitsBoxAsWritten(l.start, l.pos, AddScalar(h.pos, -HalfEdge(h)), AddScalar(h.pos, HalfEdge(h)))
            && !HitsBox(l, h)
  {
    var p0 := Vec3(0.0, 0.0, 5.0);
    var p1 := Vec3(1.0, 0.0, 5.0);
    var lo := Vec3(-1.0, 0.0, -1.0);
    var hi := Vec3(1.0, 2.0, 1.0);
    PoisonedY(p0, p1, lo, hi);
    forall t | 0.0 <= t <= 1.0
      ensures !InBox(Lerp(p0, p1, t), lo, hi)
    {
      LerpCoord(p0, p1, t, 2);
    }
    SegmentHitsBoxMeaning(p0, p1, lo, hi);
  }
}
