/** The game's state machine: launch, reset and the per-frame tick that moves
    the ball, records its trail and decides whether the shot is won or lost. */
module Simulation {
  import opened World
  import opened Collision
  import opened Physics

  /** Simulated seconds per animation frame. */
  const Dt: real := 0.025

  /** The trail keeps at most this many past positions. */
  const MaxTrail: nat := 50

  datatype Status = Ready | Playing | Won | Lost

  /** What one candidate position means for the shot. */
  datatype Outcome = FenceLoss | BoundsLoss | GroundLoss | TargetWin | Continue

  /** Everything the game keeps between frames. */
  datatype GameState = GameState(status: Status, pos: Vec, vel: Vec, time: real, trail: seq<Vec>)

  /** The collision tests in the game's order; the first that applies wins.
      Touching the ground inside the target box is a win, not a loss. */
  function Classify(p: Vec): (o: Outcome)
    ensures o == FenceLoss <==> HitsFence(Fence, p)
    ensures o == BoundsLoss <==> !HitsFence(Fence, p) && IsOutOfBounds(p)
    ensures o == GroundLoss <==> !HitsFence(Fence, p) && InWorld(p) && HitsGround(p) && !HitsTarget(p)
    ensures o == TargetWin <==> !HitsFence(Fence, p) && InWorld(p) && HitsTarget(p)
    ensures o == Continue <==> !HitsFence(Fence, p) && InWorld(p) && !HitsGround(p) && !HitsTarget(p)
  {
    if HitsFence(Fence, p) then FenceLoss
    else if IsOutOfBounds(p) then BoundsLoss
    else if HitsGround(p) && !HitsTarget(p) then GroundLoss
    else if HitsTarget(p) then TargetWin
    else Continue
  }

  function Verdict(o: Outcome): Status
  {
    match o
    case TargetWin => Won
    case Continue => Playing
    case _ => Lost
  }

  /** Where the ball would be after this frame, moved with the velocity it had
      before gravity is applied. */
  function Candidate(s: GameState): Vec
  {
    Step(Motion(s.pos, s.vel), Dt).pos
  }

  /** Append p to the trail and drop the oldest entry when it grows past the
      limit. The result is a suffix of the trail with p appended: the
      surviving entries keep their order and p is the newest. */
  function PushTrail(t: seq<Vec>, p: Vec): (r: seq<Vec>)
    ensures |t| <= MaxTrail ==> |r| <= MaxTrail
    ensures |r| == if |t| < MaxTrail then |t| + 1 else |t|
    ensures r == (t + [p])[|t| + 1 - |r|..]
    ensures r[|r| - 1] == p
  {
    var grown := t + [p];
    if |grown| > MaxTrail then grown[1..] else grown
  }

  /** One animation frame. Nothing happens unless the shot is in flight. The
      pre-frame position goes into the trail when the sampler fires; the
      candidate becomes the new position only when play continues, so a
      terminal frame leaves the stored position where it was. */
  function TickState(s: GameState, sample: bool): GameState
  {
    if s.status != Playing then s
    else
      var next := Step(Motion(s.pos, s.vel), Dt);
      var trail := if sample then PushTrail(s.trail, s.pos) else s.trail;
      var o := Classify(next.pos);
      GameState(Verdict(o), if o == Continue then next.pos else s.pos,
                next.vel, s.time + Dt, trail)
  }

  /** The position the renderer is given on the frame that ends the shot;
      None on every other frame. */
  function TickFinalPos(s: GameState): Option<Vec>
  {
    if s.status == Playing && Classify(Candidate(s)) != Continue then Some(Candidate(s)) else None
  }

  /** Pressing Go: ignored while a shot is in flight, otherwise a fresh shot
      from the start point (also after a win or a loss). */
  function Launched(s: GameState, power: real, c: real, sn: real): GameState
  {
    if s.status == Playing then s
    else GameState(Playing, Start, LaunchVelocity(power, c, sn), 0.0, [])
  }

  /** Pressing Reset: back to Ready at the start point with an empty trail;
      the velocity and the clock keep their values. */
  function ResetState(s: GameState): GameState
  {
    GameState(Ready, Start, s.vel, s.time, [])
  }

  /** A position the ball may rest at between frames: inside the world and
      not inside the fence. */
  predicate Safe(p: Vec)
  {
    InWorld(p) && !HitsFence(Fence, p)
  }

  /** What holds of every reachable state: the trail is bounded and only
      holds safe positions, the stored position is safe, and a Ready game
      sits at the start with no trail. */
  predicate Consistent(s: GameState)
  {
    && |s.trail| <= MaxTrail
    && Safe(s.pos)
    && (forall i :: 0 <= i < |s.trail| ==> Safe(s.trail[i]))
    && (s.status == Ready ==> s.pos == Start && s.trail == [])
  }

  /** Several frames in a row, with one sampler decision per frame. */
  function Run(s: GameState, samples: seq<bool>): GameState
    decreases |samples|
  {
    if samples == [] then s else Run(TickState(s, samples[0]), samples[1..])
  }

  // ---- properties of a single frame ----

  /** The fields of a frame in flight, one by one. */
  lemma TickParts(s: GameState, sample: bool)
    requires s.status == Playing
    ensures var t, o := TickState(s, sample), Classify(Candidate(s));
            t.status == Verdict(o) &&
            t.pos == (if o == Continue then Candidate(s) else s.pos) &&
            t.vel == Step(Motion(s.pos, s.vel), Dt).vel &&
            t.time == s.time + Dt &&
            t.trail == (if sample then PushTrail(s.trail, s.pos) else s.trail)
  {
  }

  /** Outside of flight a frame changes nothing. */
  lemma TickIdle(s: GameState, sample: bool)
    requires s.status != Playing
    ensures TickState(s, sample) == s
  {
  }

  /** In flight: the clock advances by exactly 0.025, the horizontal velocity
      is kept, the vertical velocity loses exactly 0.025, and the position
      either becomes pos + vel * 0.025 (old velocity) or stays put. */
  lemma TickKinematics(s: GameState, sample: bool)
    requires s.status == Playing
    ensures Candidate(s) == Vec(s.pos.x + s.vel.x * 0.025, s.pos.y + s.vel.y * 0.025)
    ensures TickState(s, sample).time == s.time + 0.025
    ensures TickState(s, sample).vel == Vec(s.vel.x, s.vel.y - 0.025)
    ensures TickState(s, sample).pos == if Classify(Candidate(s)) == Continue then Candidate(s) else s.pos
  {
  }

  /** The trail is sampled from the position before the frame, not from the
      candidate, and otherwise left alone. */
  lemma TickTrail(s: GameState, sample: bool)
    requires s.status == Playing
    ensures sample ==> TickState(s, sample).trail == PushTrail(s.trail, s.pos)
    ensures !sample ==> TickState(s, sample).trail == s.trail
  {
  }

  /** A frame ends the shot exactly when the candidate is not Continue; a won
      frame had its candidate inside the world, clear of the fence and inside
      the target box, which puts it in (29.5, 30] x [0, 0.5). The stored
      position is then the pre-frame one, while the renderer gets the
      candidate. */
  lemma TickOutcome(s: GameState, sample: bool)
    requires s.status == Playing
    ensures TickState(s, sample).status == Playing <==> Classify(Candidate(s)) == Continue
    ensures TickState(s, sample).status != Playing ==>
              TickState(s, sample).pos == s.pos && TickFinalPos(s) == Some(Candidate(s))
    ensures TickState(s, sample).status == Won ==>
              var p := Candidate(s);
              InWorld(p) && !HitsFence(Fence, p) && HitsTarget(p) &&
              29.5 < p.x <= 30.0 && 0.0 <= p.y < 0.5
  {
    var p := Candidate(s);
    if Classify(p) == TargetWin {
      TargetBoxInWorld(Fence, p);
    }
  }

  // ---- invariants of the transitions ----

  lemma TickConsistent(s: GameState, sample: bool)
    requires Consistent(s)
    ensures Consistent(TickState(s, sample))
  {
    if s.status == Playing && sample {
      var t := PushTrail(s.trail, s.pos);
      var off := |s.trail| + 1 - |t|;
      forall i | 0 <= i < |t|
        ensures Safe(t[i])
      {
        assert t[i] == (s.trail + [s.pos])[off + i];
      }
    }
  }

  lemma LaunchConsistent(s: GameState, power: real, c: real, sn: real)
    requires Consistent(s)
    ensures Consistent(Launched(s, power, c, sn))
    ensures s.status == Playing ==> Launched(s, power, c, sn) == s
    ensures s.status != Playing ==>
              Launched(s, power, c, sn) == GameState(Playing, Start, Vec(power * c, power * sn), 0.0, [])
  {
  }

  lemma ResetConsistent(s: GameState)
    ensures Consistent(ResetState(s))
    ensures ResetState(s).status == Ready && ResetState(s).pos == Start && ResetState(s).trail == []
    ensures ResetState(s).vel == s.vel && ResetState(s).time == s.time
  {
  }

  // ---- several frames ----

  /** Won and Lost are final: no number of frames leaves them. */
  lemma {:induction false} RunTerminal(s: GameState, samples: seq<bool>)
    requires s.status == Won || s.status == Lost
    ensures Run(s, samples) == s
    decreases |samples|
  {
    if samples != [] {
      RunTerminal(TickState(s, samples[0]), samples[1..]);
    }
  }

  lemma {:induction false} RunConsistent(s: GameState, samples: seq<bool>)
    requires Consistent(s)
    ensures Consistent(Run(s, samples))
    decreases |samples|
  {
    if samples != [] {
      TickConsistent(s, samples[0]);
      RunConsistent(TickState(s, samples[0]), samples[1..]);
    }
  }

  /** While the shot stays in flight, n frames move the ball exactly as n
      steps of the integrator with step 0.025, and the clock advances by
      n * 0.025. */
  lemma {:induction false} RunInFlight(s: GameState, samples: seq<bool>)
    requires s.status == Playing && Run(s, samples).status == Playing
    ensures Motion(Run(s, samples).pos, Run(s, samples).vel) == Fly(Motion(s.pos, s.vel), Dt, |samples|)
    ensures Run(s, samples).time == s.time + (|samples| as real) * Dt
    decreases |samples|
  {
    if samples != [] {
      var t := TickState(s, samples[0]);
      if t.status != Playing {
        RunTerminal(t, samples[1..]);
        assert false;
      }
      RunInFlight(t, samples[1..]);
      FlyFront(Motion(s.pos, s.vel), Dt, |samples| - 1);
    }
  }

  /** Where the game's integrator puts a ball that left the start point
      with velocity v, n frames later:
      (n * 0.025 * vx, n * 0.025 * vy - 0.025^2 * n(n-1)/2). */
  function FlightPoint(v: Vec, n: nat): Vec
  {
    var k := n as real;
    Vec(k * Dt * v.x, k * Dt * v.y - Dt * Dt * k * (k - 1.0) / 2.0)
  }

  lemma FlyFromStart(v: Vec, n: nat)
    ensures Fly(Motion(Start, v), Dt, n).pos == FlightPoint(v, n)
  {
    FlyClosedForm(Motion(Start, v), Dt, n);
    TriangleFormula(n);
  }

  /** After a launch with power p at an angle with cosine c and sine s, a ball
      still in flight after n frames is at FlightPoint((p * c, p * s), n). */
  lemma LaunchTrajectory(s: GameState, power: real, c: real, sn: real, samples: seq<bool>)
    requires s.status != Playing
    requires Run(Launched(s, power, c, sn), samples).status == Playing
    ensures Run(Launched(s, power, c, sn), samples).pos == FlightPoint(Vec(power * c, power * sn), |samples|)
  {
    var l := Launched(s, power, c, sn);
    RunInFlight(l, samples);
    FlyFromStart(LaunchVelocity(power, c, sn), |samples|);
  }

  /** The game object: its fields are the variables the page updates in
      place between frames. */
  class Game {
    var status: Status
    var pos: Vec
    var vel: Vec
    var time: real
    var trail: seq<Vec>

    function Snapshot(): GameState
      reads this
    {
      GameState(status, pos, vel, time, trail)
    }

    ghost predicate Valid()
      reads this
    {
      Consistent(Snapshot())
    }

    /** The state when the page loads. */
    constructor ()
      ensures Valid()
      ensures Snapshot() == GameState(Ready, Start, Vec(0.0, 0.0), 0.0, [])
    {
      status := Ready;
      pos := Start;
      vel := Vec(0.0, 0.0);
      time := 0.0;
      trail := [];
    }

    /** The Go button, with c and s the cosine and sine of the angle. */
    method Launch(power: real, c: real, s: real)
      requires Valid()
      modifies this
      ensures Valid()
      ensures Snapshot() == Launched(old(Snapshot()), power, c, s)
    {
      if status != Playing {
        pos := Start;
        trail := [];
        vel := Vec(power * c, power * s);
        time := 0.0;
        status := Playing;
      }
      LaunchConsistent(old(Snapshot()), power, c, s);
    }

    /** The Reset button. */
    method Reset()
      requires Valid()
      modifies this
      ensures Valid()
      ensures Snapshot() == ResetState(old(Snapshot()))
    {
      pos := Start;
      trail := [];
      status := Ready;
    }

    /** One animation frame; finalPos is the position handed to the renderer
        on the frame that ends the shot. */
    method Tick(sample: bool) returns (finalPos: Option<Vec>)
      requires Valid()
      modifies this
      ensures Valid()
      ensures Snapshot() == TickState(old(Snapshot()), sample)
      ensures finalPos == TickFinalPos(old(Snapshot()))
    {
      ghost var s0 := Snapshot();
      ghost var t := TickState(s0, sample);
      TickConsistent(s0, sample);
      finalPos := None;
      if status != Playing {
        return;
      }
      ghost var o := Classify(Candidate(s0));
      TickParts(s0, sample);
      time := time + Dt;
      var next := Step(Motion(pos, vel), Dt);
      var newPos := next.pos;
      vel := next.vel;
      if sample {
        trail := trail + [pos];
        if |trail| > MaxTrail {
          trail := trail[1..];
        }
      }
      assert newPos == Candidate(s0);
      assert trail == t.trail && vel == t.vel && time == t.time;
      var fenceHit := CheckFenceCollision(Fence, newPos);
      if fenceHit {
        assert o == FenceLoss;
        status := Lost;
        finalPos := Some(newPos);
        return;
      }
      if IsOutOfBounds(newPos) {
        assert o == BoundsLoss;
        status := Lost;
        finalPos := Some(newPos);
        return;
      }
      if HitsGround(newPos) && !HitsTarget(newPos) {
        assert o == GroundLoss;
        status := Lost;
        finalPos := Some(newPos);
        return;
      }
      if HitsTarget(newPos) {
        assert o == TargetWin;
        status := Won;
        finalPos := Some(newPos);
        return;
      }
      assert o == Continue;
      pos := newPos;
    }
  }
}
