/**
 * The consumer's view of an animated value (rwcommon's Animated<T>): a current
 * value, a target and a fixed duration. How the current value approaches the
 * target is decided by the interpolation engine and is not modelled; what is
 * modelled is which operation may change which part.
 */
module Animation {

  datatype Animated<V(==)> = Animated(current: V, target: V, duration: nat)
  {
    /** The animation has reached its target. */
    predicate Complete()
    {
      current == target
    }

    /** `set_target`: only the target changes. */
    function SetTarget(t: V): (a: Animated<V>)
      ensures a.target == t
      ensures a.current == current && a.duration == duration
    {
      this.(target := t)
    }

    /** `update`: the interpolation engine moves the current value to `next`. */
    function Step(next: V): (a: Animated<V>)
      ensures a.current == next
      ensures a.target == target && a.duration == duration
    {
      this.(current := next)
    }
  }

  /** `Animated::new(initial, duration)`: at rest on its initial value. */
  function New<V(==)>(initial: V, duration: nat): (a: Animated<V>)
    ensures a.current == initial && a.target == initial && a.duration == duration
    ensures a.Complete()
  {
    Animated(initial, initial, duration)
  }
}
