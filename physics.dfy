/** The integrator shared by the simulation tick and the trajectory preview:
    the position advances with the velocity from before the step, then gravity
    is applied to the vertical velocity. */
module Physics {
  import opened World

  /** Constant downward acceleration in world units per second squared. */
  const Gravity: real := -1.0

  /** Position and velocity of the ball. */
  datatype Motion = Motion(pos: Vec, vel: Vec)

  /** One explicit step of length d. */
  function Step(m: Motion, d: real): Motion
  {
    Motion(Vec(m.pos.x + m.vel.x * d, m.pos.y + m.vel.y * d),
           Vec(m.vel.x, m.vel.y + Gravity * d))
  }

  /** The motion after n steps of length d. */
  function Fly(m: Motion, d: real, n: nat): Motion
  {
    if n == 0 then m else Step(Fly(m, d, n - 1), d)
  }

  lemma FlyUnfold(m: Motion, d: real, n: nat)
    ensures Fly(m, d, n + 1) == Step(Fly(m, d, n), d)
  {
  }

  /** The initial velocity of a launch with the given power, where c and s are
      the cosine and sine of the launch angle. */
  function LaunchVelocity(power: real, c: real, s: real): Vec
  {
    Vec(power * c, power * s)
  }

  /** Taking the first step and then n more is the same as n + 1 steps. */
  lemma {:induction false} FlyFront(m: Motion, d: real, n: nat)
    ensures Fly(Step(m, d), d, n) == Fly(m, d, n + 1)
  {
    if n > 0 {
      FlyFront(m, d, n - 1);
    }
  }

  /** 0 + 1 + ... + (n - 1), as a real. */
  function Triangle(n: nat): real
  {
    if n == 0 then 0.0 else Triangle(n - 1) + (n - 1) as real
  }

  lemma {:induction false} TriangleFormula(n: nat)
    ensures Triangle(n) == (n as real) * (n as real - 1.0) / 2.0
  {
    if n > 0 {
      TriangleFormula(n - 1);
    }
  }

  /** The algebra of one step of the closed form. */
  lemma StepAlgebra(p0: real, v0: real, g: real, d: real, k: real, t: real)
    ensures (p0 + k * d * v0 + g * d * d * t) + (v0 + g * d * k) * d
         == p0 + (k + 1.0) * d * v0 + g * d * d * (t + k)
  {
  }

  /** Closed form of n steps: the horizontal motion is uniform, and the
      vertical position lags the exact parabola because each step uses the
      velocity from before gravity is applied, giving the factor n(n-1)/2
      (Triangle) instead of n^2/2. */
  lemma {:induction false} FlyClosedForm(m: Motion, d: real, n: nat)
    ensures Fly(m, d, n).vel == Vec(m.vel.x, m.vel.y + Gravity * d * (n as real))
    ensures Fly(m, d, n).pos ==
            Vec(m.pos.x + (n as real) * d * m.vel.x,
                m.pos.y + (n as real) * d * m.vel.y + Gravity * d * d * Triangle(n))
  {
    if n > 0 {
      FlyClosedForm(m, d, n - 1);
      var k := (n - 1) as real;
      assert (n as real) == k + 1.0;
      StepAlgebra(m.pos.y, m.vel.y, Gravity, d, k, Triangle(n - 1));
      StepAlgebra(m.pos.x, m.vel.x, 0.0, d, k, 0.0);
    }
  }
}
