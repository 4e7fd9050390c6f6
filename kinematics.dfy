/**
 * One axis of a particle's integration step: the reflection against the two
 * walls of the axis, and the clamp that follows it. Positions and velocities
 * are exact reals; the walls are 0 and a non-negative bound (the world's width
 * for x, its height for y).
 */
module Kinematics {

  /** The factor a reflected velocity is scaled by. */
  const Damping: real := 0.85

  /** A wall position: the world's extents are never negative. */
  type Extent = r: real | 0.0 <= r

  /** Which wall, if any, a tentative move crosses. */
  datatype Side = Free | Lower | Upper

  /** The position and velocity after the reflection branch, and the branch taken. */
  datatype Move = Move(pos: real, vel: real, side: Side)

  function Abs(r: real): real {
    if r < 0.0 then -r else r
  }

  /**
   * The three-way branch of one axis: beyond the upper bound, below zero, or
   * free. A reflection mirrors the overshoot about the wall, reverses the
   * velocity and damps it.
   */
  function Bounce(pos: real, vel: real, bound: real): (m: Move)
    ensures m.side == Upper <==> pos + vel > bound
    ensures m.side == Lower <==> pos + vel <= bound && pos + vel < 0.0
    ensures m.side == Free ==> m.pos == pos + vel && m.vel == vel
    ensures m.side == Upper ==> m.pos - bound == bound - (pos + vel)
    ensures m.side == Lower ==> m.pos == 0.0 - (pos + vel)
    ensures m.side != Free ==> m.vel == -Damping * vel
    ensures m.side != Free ==> Abs(m.vel) == Damping * Abs(vel) && m.vel * vel <= 0.0
  {
    if pos + vel > bound then
      Move(bound + ((bound - pos) - vel), -vel * Damping, Upper)
    else if pos + vel < 0.0 then
      Move(-pos - vel, -vel * Damping, Lower)
    else
      Move(pos + vel, vel, Free)
  }

  /** The safety clamp after the branch: first against the bound, then against zero. */
  function Clamp(pos: real, bound: Extent): (r: real)
    ensures 0.0 <= r <= bound
    ensures 0.0 <= pos <= bound ==> r == pos
    ensures pos > bound ==> r == bound
    ensures pos < 0.0 ==> r == 0.0
  {
    var upper := if pos > bound then bound else pos;
    if upper < 0.0 then 0.0 else upper
  }
}
