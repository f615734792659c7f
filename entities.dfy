/** The game's entities as plain values: the C structs `rect`, `receptacle`,
    `cannon`, `reflectors` and `rail`, the results of `rand()` used to place a
    brick, and the trigonometric functions the geometry needs. */
module Entities {

  /** Sizes of the fixed global arrays. */
  const BrickCount := 15
  const BasketCount := 2
  const MirrorCount := 3
  const LaserSlots := 10

  /** The catch line drawn across the bottom of the field, and the top of the field. */
  const CatchLine: real := -36.0
  const FieldTop: real := 40.0

  /** Brick and basket colour codes. */
  const Black := 0
  const Red := 1
  const Green := 2

  datatype Option<T> = None | Some(value: T)

  /** A falling brick (`rect`): its rectangle, the vertical offset it has fallen
      since it was created, its colour code and its alive flag. */
  datatype Brick = Brick(x1: real, x2: real, y1: real, y2: real, translation: real, c: int, alive: bool)

  /** A basket (`receptacle`): its horizontal extent, the offset it has been moved by
      and its colour code. */
  datatype Basket = Basket(x1: real, x2: real, translate: real, c: int)

  /** One of the two cannon bodies: pivot, vertical offset and aim angle in radians. */
  datatype Cannon = Cannon(x: real, y: real, translate: real, rotate: real)

  /** A mirror (`reflectors`): its end points, its angle `m` and the intercept `c`
      of its line. */
  datatype Mirror = Mirror(x1: real, x2: real, y1: real, y2: real, m: real, c: real)

  /** A laser leg (`rail`): start and end point, firing angle `m` and the
      intercept `c` of its line. */
  datatype Segment = Segment(x1: real, x2: real, y1: real, y2: real, m: real, c: real)

  /** The three `rand()` results `createRectangle` draws, in call order. */
  datatype Roll = Roll(x: nat, dy: nat, c: nat)

  /** The trigonometric functions of the C library, supplied by the caller. */
  datatype Trig = Trig(tan: real -> real, sin: real -> real, cos: real -> real)

  /** The invariant every brick keeps from its creation on: a colour, an x
      position on the integer grid `createRectangle` draws from, its fixed size,
      a spawn height at or above 42 and the alive flag. */
  predicate WellFormed(b: Brick)
  {
    && 0 <= b.c <= 2
    && -20.0 <= b.x1 <= 29.0
    && b.x2 == b.x1 + 1.5
    && b.y2 == b.y1 + 2.5
    && b.y1 - b.translation >= 42.0
    && b.alive
  }

  /** `b` is a brick freshly created from the random draws `roll`, at some height
      on or above the spawn line. */
  predicate SpawnedFrom(b: Brick, roll: Roll)
  {
    && b.x1 == (roll.x % 50 - 20) as real
    && b.c == roll.c % 3
    && b.x2 == b.x1 + 1.5
    && b.y1 >= 42.0
    && b.y2 == b.y1 + 2.5
    && b.translation == 0.0
    && b.alive
  }

  /** The brick `createRectangle` builds from `roll` once the spawn offset has
      become `offset`. */
  function NewBrick(roll: Roll, offset: int): (b: Brick)
    ensures b.y1 == 42.0 + offset as real
    ensures offset >= 0 ==> SpawnedFrom(b, roll) && WellFormed(b)
  {
    var x := roll.x % 50 - 20;
    Brick(x as real, x as real + 1.5, 42.0 + offset as real, 44.5 + offset as real, 0.0, roll.c % 3, true)
  }

  /** A brick after one frame of falling by `speed`. */
  function Fallen(b: Brick, speed: real): (r: Brick)
    ensures r.y2 - r.y1 == b.y2 - b.y1
    ensures r.y1 - r.translation == b.y1 - b.translation
    ensures r.y1 == b.y1 - speed
    ensures r.x1 == b.x1 && r.x2 == b.x2 && r.c == b.c && r.alive == b.alive
    ensures WellFormed(b) ==> WellFormed(r)
  {
    b.(y1 := b.y1 - speed, y2 := b.y2 - speed, translation := b.translation - speed)
  }

  /** A basket moved sideways by `d`. */
  function Shifted(k: Basket, d: real): (r: Basket)
    ensures r.x2 - r.x1 == k.x2 - k.x1
    ensures r.x1 - r.translate == k.x1 - k.translate
    ensures r.x1 == k.x1 + d && r.c == k.c
  {
    k.(x1 := k.x1 + d, x2 := k.x2 + d, translate := k.translate + d)
  }

  /** A cannon body moved vertically by `d`. */
  function Raised(g: Cannon, d: real): (r: Cannon)
    ensures r.y - r.translate == g.y - g.translate
    ensures r.y == g.y + d && r.x == g.x && r.rotate == g.rotate
  {
    g.(y := g.y + d, translate := g.translate + d)
  }

  /** A laser leg from (x1, y1) at angle `m`: to the given end point, or, when
      there is none, 100 units along the angle so that it has a concrete far end.
      This is `createLaser` with the end point passed as an option; see
      `LegAsWritten` for the form the source uses. */
  function Leg(x1: real, y1: real, end: Option<(real, real)>, m: real, c: real, trig: Trig): (s: Segment)
    ensures s.x1 == x1 && s.y1 == y1 && s.m == m && s.c == c
    ensures end.Some? ==> s.x2 == end.value.0 && s.y2 == end.value.1
    ensures end.None? ==> s.x2 == x1 + 100.0 * trig.cos(m) && s.y2 == y1 + 100.0 * trig.sin(m)
  {
    match end
    case Some(p) => Segment(x1, p.0, y1, p.1, m, c)
    case None => Segment(x1, x1 + 100.0 * trig.cos(m), y1, y1 + 100.0 * trig.sin(m), m, c)
  }

  /** `createLaser` as the source writes it: an end point of exactly (0, 0)
      stands for "no end point". */
  function LegAsWritten(x1: real, y1: real, x2: real, y2: real, m: real, c: real, trig: Trig): Segment
  {
    if x2 == 0.0 && y2 == 0.0 then Leg(x1, y1, None, m, c, trig)
    else Leg(x1, y1, Some((x2, y2)), m, c, trig)
  }

  /** Away from the origin the sentinel form and the option form build the same leg,
      and a leg with no end point is built alike by both. */
  lemma LegAsWrittenAgrees(x1: real, y1: real, x2: real, y2: real, m: real, c: real, trig: Trig)
    ensures (x2, y2) != (0.0, 0.0) ==> LegAsWritten(x1, y1, x2, y2, m, c, trig) == Leg(x1, y1, Some((x2, y2)), m, c, trig)
    ensures LegAsWritten(x1, y1, 0.0, 0.0, m, c, trig) == Leg(x1, y1, None, m, c, trig)
  {
  }

  /** The leg the unrotated cannon fires at height 0 starts at (-31, 0) on the
      line y = 0; a brick edge at x = 0 on that line is struck at exactly (0, 0).
      Clipping the leg there with the sentinel form does not clip it: it runs
      on to x = 69, past the strike point. */
  lemma OriginStrikeIsNotClipped(trig: Trig)
    requires trig.cos(0.0) == 1.0 && trig.sin(0.0) == 0.0
    ensures LegAsWritten(-31.0, 0.0, 0.0, 0.0, 0.0, 0.0, trig).x2 == 69.0
    ensures Leg(-31.0, 0.0, Some((0.0, 0.0)), 0.0, 0.0, trig).x2 == 0.0
  {
  }
}
