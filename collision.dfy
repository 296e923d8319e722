/** The four collision tests the simulation applies to a candidate position. */
module Collision {
  import opened World

  /** Half-width of the band around x = 20 in which the fence is tested. */
  const BandLow: real := 19.5
  const BandHigh: real := 20.5

  /** Half-width of the square tolerance box around the target. */
  const TargetTolerance: real := 0.5

  /** Height below which the ball counts as touching the ground. */
  const GroundLevel: real := 0.1

  predicate InBand(p: Vec)
  {
    BandLow <= p.x <= BandHigh
  }

  /** The vertical extent of a segment covers height y (endpoints included). */
  predicate Covers(seg: Segment, y: real)
  {
    seg.start.y <= y <= seg.end.y
  }

  /** Reference definition of a fence hit: inside the band and covered by
      some segment of the fence. */
  predicate HitsFence(fence: seq<Segment>, p: Vec)
  {
    InBand(p) && exists i :: 0 <= i < |fence| && Covers(fence[i], p.y)
  }

  /** The fence test as the game performs it: a scan over the segments that
      returns as soon as one covers the height. */
  method CheckFenceCollision(fence: seq<Segment>, p: Vec) returns (hit: bool)
    ensures hit <==> HitsFence(fence, p)
  {
    if p.x >= BandLow && p.x <= BandHigh {
      var i := 0;
      while i < |fence|
        invariant 0 <= i <= |fence|
        invariant forall j :: 0 <= j < i ==> !Covers(fence[j], p.y)
      {
        if p.y >= fence[i].start.y && p.y <= fence[i].end.y {
          return true;
        }
        i := i + 1;
      }
    }
    return false;
  }

  /** Out of bounds, with the world's edges counted as inside. */
  predicate IsOutOfBounds(p: Vec): (out: bool)
    ensures out <==> !InWorld(p)
  {
    p.x < 0.0 || p.x > 30.0 || p.y < 0.0 || p.y > 20.0
  }

  function Abs(r: real): (a: real)
    ensures 0.0 <= a && (a == r || a == -r)
  {
    if r < 0.0 then -r else r
  }

  /** A target hit: strictly inside the square box of half-width 0.5. */
  predicate HitsTarget(p: Vec): (hit: bool)
    ensures hit <==> (Target.x - TargetTolerance < p.x < Target.x + TargetTolerance &&
                      Target.y - TargetTolerance < p.y < Target.y + TargetTolerance)
  {
    Abs(p.x - Target.x) < TargetTolerance && Abs(p.y - Target.y) < TargetTolerance
  }

  predicate HitsGround(p: Vec)
  {
    p.y <= GroundLevel
  }

  /** Inside the world the ground test is the band 0 <= y <= 0.1; a point
      of it in the target box lies in (29.5, 30] x [0, 0.1], so the strip of
      ground that counts as a win is the last half unit before the edge. */
  lemma GroundBand(p: Vec)
    requires InWorld(p)
    ensures HitsGround(p) <==> 0.0 <= p.y <= GroundLevel
    ensures HitsGround(p) && HitsTarget(p) ==> 29.5 < p.x <= 30.0 && 0.0 <= p.y <= 0.1
    ensures HitsGround(p) && !HitsTarget(p) ==> p.x <= 29.5
  {
  }

  /** With the game's own fence the fence test is the band minus the gap:
      heights 0..13 and 16..20 are covered, the window (13, 16) is open. */
  lemma ReferenceFence(p: Vec)
    ensures HitsFence(Fence, p) <==>
            InBand(p) && (0.0 <= p.y <= 13.0 || 16.0 <= p.y <= 20.0)
  {
    if InBand(p) && 0.0 <= p.y <= 13.0 {
      assert Covers(Fence[0], p.y);
    }
    if InBand(p) && 16.0 <= p.y <= 20.0 {
      assert Covers(Fence[1], p.y);
    }
  }

  /** A point in the gap passes, a point on the lower segment does not. */
  lemma FenceScenarios()
    ensures !HitsFence(Fence, Vec(20.0, 14.0))
    ensures HitsFence(Fence, Vec(20.0, 10.0))
  {
    ReferenceFence(Vec(20.0, 14.0));
    ReferenceFence(Vec(20.0, 10.0));
  }

  /** The bounds are inclusive; the target box is strict. */
  lemma EdgeScenarios()
    ensures !IsOutOfBounds(Vec(0.0, 5.0)) && IsOutOfBounds(Vec(-0.1, 5.0))
    ensures HitsTarget(Vec(30.0, 0.0)) && !HitsTarget(Vec(30.6, 0.0))
    ensures HitsGround(Vec(12.0, 0.1)) && !HitsGround(Vec(12.0, 0.11))
  {
  }

  /** The target box and the fence band are far apart: no in-world point
      hits both, and an in-world target hit lies in (29.5, 30] x [0, 0.5). */
  lemma TargetBoxInWorld(fence: seq<Segment>, p: Vec)
    requires HitsTarget(p) && InWorld(p)
    ensures !HitsFence(fence, p)
    ensures 29.5 < p.x <= 30.0 && 0.0 <= p.y < 0.5
  {
  }
}
