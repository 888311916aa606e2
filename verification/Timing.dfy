/** Termination arithmetic for loops that sleep until a deadline. */
module Timing {

  lemma NoZeroDivisor(z: real, p: real)
    requires p > 0.0 && z * p == 0.0
    ensures z == 0.0
  {
  }

  lemma FloorDrops(x: real, p: real)
    requires 0.0 < p < x
    ensures ((x - p) / p).Floor < (x / p).Floor
  {
    var q, r := x / p, (x - p) / p;
    assert q * p == x && r * p == x - p;
    assert (r + 1.0 - q) * p == 0.0;
    NoZeroDivisor(r + 1.0 - q, p);
  }

  /** How many pauses of length p fit before the deadline, rounded up. */
  function PollsLeft(now: real, deadline: real, p: real): nat
    requires p > 0.0
  {
    if deadline > now then ((deadline - now) / p).Floor + 2 else 0
  }

  /** A pause that begins before the deadline brings it nearer. */
  lemma PauseDrops(now: real, deadline: real, p: real)
    requires p > 0.0 && now < deadline
    ensures PollsLeft(now + p, deadline, p) < PollsLeft(now, deadline, p)
  {
    if deadline - now > p {
      FloorDrops(deadline - now, p);
      assert deadline - (now + p) == deadline - now - p;
    }
  }
}
