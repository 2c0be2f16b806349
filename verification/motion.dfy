/**
 The motion half of the bouncing-ball update step: an Euler move of the
 ball by its velocity, followed by a per-axis reflection that negates a
 velocity component whenever the moved coordinate is at or beyond an edge
 of the 800 x 600 logical area.

 Coordinates are `real` and `+=` is exact addition: the f32 rounding is
 abstracted away. The one-step contracts are stated in terms of the
 post-step coordinate; the lemmas about many steps (in flight, contained,
 oscillating) rely on the addition being exact.
 */
module Motion {

  /** Far bound of the x axis (the near bound is 0). */
  const Width: real := 800.0

  /** Far bound of the y axis (the near bound is 0). */
  const Height: real := 600.0

  function Abs(r: real): (a: real)
    ensures a >= 0.0
    ensures a == r || a == -r
  {
    if r < 0.0 then -r else r
  }

  /** The reflection test: a coordinate at or past either edge of `[0, bound]`. */
  predicate AtOrPastEdge(p: real, bound: real) {
    p <= 0.0 || p >= bound
  }

  /** One coordinate and its velocity component. */
  datatype Axis = Axis(pos: real, vel: real)

  /**
   One axis of the update: move by the velocity, then multiply the velocity
   by -1 when the moved coordinate is at or past an edge.
   */
  function AxisStep(a: Axis, bound: real): (r: Axis)
    // the Euler move: the coordinate changes by exactly the pre-step velocity
    ensures r.pos - a.pos == a.vel
    // only the sign of the velocity may change
    ensures Abs(r.vel) == Abs(a.vel)
    ensures AtOrPastEdge(r.pos, bound) ==> r.vel == -a.vel
    ensures !AtOrPastEdge(r.pos, bound) ==> r.vel == a.vel
    // a moving ball has its velocity changed exactly when it reflects
    ensures a.vel != 0.0 ==> (r.vel != a.vel <==> AtOrPastEdge(r.pos, bound))
  {
    var p := a.pos + a.vel;
    if p <= 0.0 || p >= bound then Axis(p, a.vel * -1.0) else Axis(p, a.vel)
  }

  /** The ball: position and velocity, as the four fields of the game state. */
  datatype Ball = Ball(x: real, dx: real, y: real, dy: real) {
    function XAxis(): Axis { Axis(x, dx) }
    function YAxis(): Axis { Axis(y, dy) }
  }

  /** The ball part of one update: each axis stepped against its own bound. */
  function Move(b: Ball): (r: Ball)
    ensures r.XAxis() == AxisStep(b.XAxis(), Width)
    ensures r.YAxis() == AxisStep(b.YAxis(), Height)
  {
    var x := AxisStep(b.XAxis(), Width);
    var y := AxisStep(b.YAxis(), Height);
    Ball(x.pos, x.vel, y.pos, y.vel)
  }

  /** `n` consecutive ball moves. */
  function MoveN(b: Ball, n: nat): Ball
    decreases n
  {
    if n == 0 then b else MoveN(Move(b), n - 1)
  }

  /** `n` consecutive steps of one axis. */
  function AxisStepN(a: Axis, bound: real, n: nat): Axis
    decreases n
  {
    if n == 0 then a else AxisStepN(AxisStep(a, bound), bound, n - 1)
  }

  /**
   The x axis of a moved ball depends on x and dx alone, and the y axis on
   y and dy alone.
   */
  lemma MoveAxesIndependent(b1: Ball, b2: Ball)
    ensures b1.XAxis() == b2.XAxis() ==> Move(b1).XAxis() == Move(b2).XAxis()
    ensures b1.YAxis() == b2.YAxis() ==> Move(b1).YAxis() == Move(b2).YAxis()
  {
  }

  /** Iterating the ball step is iterating each axis on its own. */
  lemma {:induction false} MoveNByAxis(b: Ball, n: nat)
    ensures MoveN(b, n).XAxis() == AxisStepN(b.XAxis(), Width, n)
    ensures MoveN(b, n).YAxis() == AxisStepN(b.YAxis(), Height, n)
    decreases n
  {
    if n > 0 {
      MoveNByAxis(Move(b), n - 1);
    }
  }

  /**
   Where an axis can be while it bounces inside `[0, bound]` with speed `s`:
   strictly inside; or at or below 0 with velocity `+s`, less than one step
   out; or at or above `bound` with velocity `-s`, less than one step out.
   */
  predicate InFlight(a: Axis, bound: real) {
    || (0.0 < a.pos < bound)
    || (0.0 < a.vel && -a.vel < a.pos <= 0.0)
    || (a.vel < 0.0 && bound <= a.pos < bound - a.vel)
  }

  /** An axis in flight never strays more than one step past an edge. */
  lemma InFlightBounds(a: Axis, bound: real)
    requires 0.0 < bound
    requires InFlight(a, bound)
    ensures -Abs(a.vel) < a.pos < bound + Abs(a.vel)
  {
  }

  /**
   While the speed is below the bound, one step keeps an axis in flight,
   and an axis found past an edge is strictly inside again after the step
   (with exact addition the ball does not stick to an edge).
   */
  lemma AxisStepKeepsInFlight(a: Axis, bound: real)
    requires InFlight(a, bound)
    requires Abs(a.vel) < bound
    ensures InFlight(AxisStep(a, bound), bound)
    ensures AtOrPastEdge(a.pos, bound) ==> 0.0 < AxisStep(a, bound).pos < bound
  {
  }

  lemma {:induction false} AxisStepNKeepsInFlight(a: Axis, bound: real, n: nat)
    requires InFlight(a, bound)
    requires Abs(a.vel) < bound
    ensures InFlight(AxisStepN(a, bound, n), bound)
    ensures Abs(AxisStepN(a, bound, n).vel) == Abs(a.vel)
    decreases n
  {
    if n > 0 {
      AxisStepKeepsInFlight(a, bound);
      AxisStepNKeepsInFlight(AxisStep(a, bound), bound, n - 1);
    }
  }

  /** Both axes in flight with speeds below their bounds. */
  predicate Contained(b: Ball) {
    && InFlight(b.XAxis(), Width) && Abs(b.dx) < Width
    && InFlight(b.YAxis(), Height) && Abs(b.dy) < Height
  }

  /**
   A contained ball stays contained for any number of updates: its speeds
   never change and its position never leaves the area widened by one step
   on every side.
   */
  lemma {:induction false} MoveNKeepsContained(b: Ball, n: nat)
    requires Contained(b)
    ensures Contained(MoveN(b, n))
    ensures Abs(MoveN(b, n).dx) == Abs(b.dx) && Abs(MoveN(b, n).dy) == Abs(b.dy)
    ensures -Abs(b.dx) < MoveN(b, n).x < Width + Abs(b.dx)
    ensures -Abs(b.dy) < MoveN(b, n).y < Height + Abs(b.dy)
  {
    MoveNByAxis(b, n);
    AxisStepNKeepsInFlight(b.XAxis(), Width, n);
    AxisStepNKeepsInFlight(b.YAxis(), Height, n);
    InFlightBounds(MoveN(b, n).XAxis(), Width);
    InFlightBounds(MoveN(b, n).YAxis(), Height);
  }

  /**
   The reflection is re-applied on every step, not only when an edge is
   crossed: an axis already at or past an edge whose step keeps it there
   flips back and forth and returns to its exact state every two steps.
   */
  lemma StuckAxisOscillates(a: Axis, bound: real)
    requires || (a.pos <= 0.0 && a.pos + a.vel <= 0.0)
             || (a.pos >= bound && a.pos + a.vel >= bound)
    ensures AtOrPastEdge(AxisStep(a, bound).pos, bound)
    ensures AxisStep(AxisStep(a, bound), bound) == a
  {
  }
}
