/** Asteroids that move by their velocity inside optional bounds, with ids
    issued from a shared counter. The creation timestamp is left out. */
module Asteroids {
  import opened Wrappers
  import opened Vectors

  datatype Asteroid = Asteroid(
    id: nat,
    radius: int,
    position: Vector,
    velocity: Vector,
    minBound: Option<real>,
    maxBound: Option<real>)

  /** Python truthiness of an optional bound: None and 0 are both false. */
  predicate Truthy(b: Option<real>) {
    b.Some? && b.value != 0.0
  }

  predicate AnyBelow(v: Vector, m: real) {
    v.x < m || v.y < m || v.z < m
  }

  predicate AnyAbove(v: Vector, m: real) {
    v.x > m || v.y > m || v.z > m
  }

  /** `move` as written: the lower bound is only consulted when it is
      truthy, and so is the upper bound; a step that would cross a consulted
      bound is not taken at all. */
  function MoveAsWritten(a: Asteroid): (r: Asteroid)
    ensures r.position == a.position || r.position == Add(a.position, a.velocity)
    ensures r == a.(position := r.position)
  {
    var next := Add(a.position, a.velocity);
    if Truthy(a.minBound) && AnyBelow(next, a.minBound.value) then a
    else if Truthy(a.maxBound) && AnyAbove(next, a.maxBound.value) then a
    else a.(position := next)
  }

  /** Every coordinate lies within both bounds. */
  predicate Inside(a: Asteroid) {
    && a.minBound.Some? && a.maxBound.Some?
    && !AnyBelow(a.position, a.minBound.value) && !AnyAbove(a.position, a.maxBound.value)
  }

  /** A random asteroid's bounds are 0 and 100, so its lower bound is never
      consulted: one at the origin moving along -x leaves the box. */
  lemma MoveAsWrittenLeavesBounds()
    ensures var a := Asteroid(1, 1, Vector(0.0, 0.0, 0.0), Vector(-1.0, 0.0, 0.0), Some(0.0), Some(100.0));
            Inside(a) && !Inside(MoveAsWritten(a)) && MoveAsWritten(a).position == Vector(-1.0, 0.0, 0.0)
  {
    var a := Asteroid(1, 1, Vector(0.0, 0.0, 0.0), Vector(-1.0, 0.0, 0.0), Some(0.0), Some(100.0));
    var next := Add(a.position, a.velocity);
    assert next == Vector(-1.0, 0.0, 0.0);
    assert !Truthy(a.minBound) && !AnyAbove(next, 100.0);
    assert MoveAsWritten(a) == a.(position := next);
  }

  /** The step stays within every bound that is given, 0 included. */
  predicate StepAllowed(a: Asteroid) {
    var next := Add(a.position, a.velocity);
    && (a.minBound.Some? ==> !AnyBelow(next, a.minBound.value))
    && (a.maxBound.Some? ==> !AnyAbove(next, a.maxBound.value))
  }

  /** `move` with each bound consulted whenever it is given: the step is
      taken iff it stays within the bounds, and nothing else changes. */
  function Move(a: Asteroid): (r: Asteroid)
    ensures StepAllowed(a) ==> r == a.(position := Add(a.position, a.velocity))
    ensures !StepAllowed(a) ==> r == a
  {
    var next := Add(a.position, a.velocity);
    if a.minBound.Some? && AnyBelow(next, a.minBound.value) then a
    else if a.maxBound.Some? && AnyAbove(next, a.maxBound.value) then a
    else a.(position := next)
  }

  /** The two readings agree whenever neither bound is 0. */
  lemma MoveAgreesWithoutZeroBounds(a: Asteroid)
    requires a.minBound != Some(0.0) && a.maxBound != Some(0.0)
    ensures MoveAsWritten(a) == Move(a)
  {
  }

  /** The corrected move keeps an asteroid that starts inside its bounds
      inside them. */
  lemma MoveKeepsInside(a: Asteroid)
    requires Inside(a)
    ensures Inside(Move(a))
  {
  }

  /** `n` successive moves. */
  function MoveN(a: Asteroid, n: nat): (r: Asteroid)
    ensures r.id == a.id && r.radius == a.radius && r.velocity == a.velocity
    ensures r.minBound == a.minBound && r.maxBound == a.maxBound
    decreases n
  {
    if n == 0 then a else MoveN(Move(a), n - 1)
  }

  /** Inside after any number of moves. */
  lemma {:induction false} MoveNKeepsInside(a: Asteroid, n: nat)
    requires Inside(a)
    ensures Inside(MoveN(a, n))
    decreases n
  {
    if n > 0 {
      MoveKeepsInside(a);
      MoveNKeepsInside(Move(a), n - 1);
    }
  }

  /** `generate_random_asteroid` with the random draws as parameters: the
      radius, velocity and position ranges it draws from, and bounds 0 and
      100. */
  function RandomAsteroid(id: nat, radius: int, position: Vector, velocity: Vector): (r: Asteroid)
    requires 1 <= radius <= 4
    requires !AnyBelow(velocity, -5.0) && !AnyAbove(velocity, 5.0)
    requires !AnyBelow(position, 0.0) && !AnyAbove(position, 100.0)
    ensures Inside(r) && r.id == id
  {
    Asteroid(id, radius, position, velocity, Some(0.0), Some(100.0))
  }

  // ----- Ids -----

  /** `_generate_unique_id`: the counter's value is the id, and the counter
      moves on by one. */
  function NextId(counter: nat): (r: (nat, nat))
    ensures r.1 > r.0 && r.0 == counter
  {
    (counter, counter + 1)
  }

  /** The ids of `n` asteroids created one after another from the class's
      initial counter of 1. */
  method CreateIds(n: nat) returns (ids: seq<nat>)
    ensures |ids| == n
    ensures forall i :: 0 <= i < n ==> ids[i] == i + 1
    ensures forall i, j :: 0 <= i < j < n ==> ids[i] < ids[j]
  {
    ids := [];
    var counter: nat := 1;
    while |ids| < n
      invariant |ids| <= n && counter == |ids| + 1
      invariant forall i :: 0 <= i < |ids| ==> ids[i] == i + 1
    {
      var (id, next) := NextId(counter);
      ids := ids + [id];
      counter := next;
    }
  }
}
