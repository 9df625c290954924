/** The two feet.  The viewer keeps most of its scene state in pairs keyed
    by 'left' and 'right' (`Record<'left' | 'right', T>`); `Sides` is that
    pair. */
module Feet {
  datatype Side = Left | Right

  const BothSides: seq<Side> := [Left, Right]

  /** The key the side is stored under. */
  function Key(s: Side): string {
    match s
    case Left => "left"
    case Right => "right"
  }

  function Other(s: Side): Side {
    match s
    case Left => Right
    case Right => Left
  }

  datatype Sides<T> = Sides(left: T, right: T) {
    function Get(s: Side): T {
      match s
      case Left => left
      case Right => right
    }

    /** The pair with one side replaced. */
    function Set(s: Side, v: T): (r: Sides<T>)
      ensures r.Get(s) == v && r.Get(Other(s)) == Get(Other(s))
    {
      match s
      case Left => Sides(v, right)
      case Right => Sides(left, v)
    }
  }

  /** The same value on both sides. */
  function Both<T>(v: T): Sides<T> {
    Sides(v, v)
  }
}
