/** The structs-and-enums exercise: `Rectangle` arithmetic, the `Coin` enum and
    `plus_one` over `Option<i32>`. Rust's `u32`/`i32` arithmetic panics on overflow
    (in a debug build), so the operations that multiply or add require the result
    to fit. */
module RustyRepo {
  import opened Wrappers
  import opened Primitives

  // ---------------------------------------------------------------------------
  // Rectangle

  /** Rust's `Rectangle`. */
  datatype Rectangle = Rectangle(width: u32, height: u32)

  /** `width * height` does not overflow a `u32`. */
  predicate AreaFits(r: Rectangle) {
    r.width as int * r.height as int <= U32_MAX
  }

  /** Rust's `Rectangle::area`. */
  function Area(r: Rectangle): (a: u32)
    requires AreaFits(r)
    ensures a as int == r.width as int * r.height as int
    ensures a == 0 <==> r.width == 0 || r.height == 0
  {
    r.width * r.height
  }

  /** Rust's `Rectangle::can_hold`: strictly wider and strictly taller. */
  function CanHold(r: Rectangle, other: Rectangle): (b: bool)
    ensures b <==> r.width > other.width && r.height > other.height
  {
    r.width > other.width && r.height > other.height
  }

  /** `can_hold` is a strict partial order: no rectangle holds itself, two rectangles
      never hold each other, and holding is transitive. */
  lemma CanHoldStrictOrder(a: Rectangle, b: Rectangle, c: Rectangle)
    ensures !CanHold(a, a)
    ensures CanHold(a, b) ==> !CanHold(b, a)
    ensures CanHold(a, b) && CanHold(b, c) ==> CanHold(a, c)
  {
  }

  /** A rectangle that holds another has a strictly larger area. */
  lemma CanHoldLargerArea(r: Rectangle, other: Rectangle)
    requires AreaFits(r) && AreaFits(other)
    requires CanHold(r, other)
    ensures Area(r) > Area(other)
  {
    ProductGrows(r.width as int, r.height as int, other.width as int, other.height as int);
  }

  /** Strictly larger non-negative factors give a strictly larger product. */
  lemma ProductGrows(w: int, h: int, ow: int, oh: int)
    requires 0 <= ow < w && 0 <= oh < h
    ensures ow * oh < w * h
  {
    assert (w - ow) * oh >= 0;
    assert w * (h - oh) > 0;
    assert w * oh - ow * oh == (w - ow) * oh;
    assert w * h - w * oh == w * (h - oh);
  }

  /** Rust's `Rectangle::square`. */
  function Square(size: u32): (r: Rectangle)
    ensures r.width == size && r.height == size
  {
    Rectangle(size, size)
  }

  /** Squares hold one another exactly as their sides compare. */
  lemma SquareCanHold(s: u32, t: u32)
    ensures CanHold(Square(s), Square(t)) <==> s > t
  {
  }

  /** Rust's `Rectangle::double`: both sides twice as long. */
  function Double(r: Rectangle): (d: Rectangle)
    requires 2 * r.width as int <= U32_MAX && 2 * r.height as int <= U32_MAX
    ensures d.width as int == 2 * r.width as int && d.height as int == 2 * r.height as int
  {
    Rectangle(r.width * 2, r.height * 2)
  }

  /** Doubling both sides quadruples the area. */
  lemma DoubleArea(r: Rectangle)
    requires 4 * (r.width as int * r.height as int) <= U32_MAX
    requires 2 * r.width as int <= U32_MAX && 2 * r.height as int <= U32_MAX
    ensures AreaFits(Double(r))
    ensures Area(Double(r)) as int == 4 * Area(r) as int
  {
    var w, h := r.width as int, r.height as int;
    assert (2 * w) * (2 * h) == 4 * (w * h);
  }

  /** A doubled rectangle holds the original exactly when the original is not degenerate. */
  lemma DoubleCanHold(r: Rectangle)
    requires 2 * r.width as int <= U32_MAX && 2 * r.height as int <= U32_MAX
    ensures CanHold(Double(r), r) <==> r.width > 0 && r.height > 0
  {
  }

  // ---------------------------------------------------------------------------
  // Coins

  /** Rust's `UsState`. */
  datatype UsState =
    AK | AL | AR | AS | AZ | CA | CO | CT | DC | DE | FL | GA | GU | HI | IA | ID | IL | IN | KS
    | KY | LA | MA | MD | ME | MI | MN | MO | MP | MS | MT | NC | ND | NE | NH | NJ | NM | NV | NY
    | OH | OK | OR | PA | PR | RI | SC | SD | TN | TX | UM | UT | VA | VI | VT | WA | WI | WV | WY

  /** Rust's `Coin` (the source spells the five-cent coin `Nickle`). */
  datatype Coin = Penny | Nickle | Dime | Quarter(state: UsState)

  /** Rust's `value_in_cents` (the message printed for a quarter is not modelled). */
  function ValueInCents(coin: Coin): (cents: u32)
    ensures coin.Penny? ==> cents == 1
    ensures coin.Nickle? ==> cents == 5
    ensures coin.Dime? ==> cents == 10
    ensures cents == 25 <==> coin.Quarter?
  {
    match coin
    case Penny => 1
    case Nickle => 5
    case Dime => 10
    case Quarter(_) => 25
  }

  /** A quarter is worth the same whatever its state, and the coins are ordered by value. */
  lemma ValueInCentsOrder(s: UsState, t: UsState)
    ensures ValueInCents(Quarter(s)) == ValueInCents(Quarter(t))
    ensures ValueInCents(Penny) < ValueInCents(Nickle) < ValueInCents(Dime) < ValueInCents(Quarter(s))
  {
  }

  /** Rust's `count_nonquarter_coins`: 0 for a quarter, 1 for any other coin. */
  function CountNonquarterCoins(coin: Coin): (n: u32)
    ensures n <= 1
    ensures n == 0 <==> coin.Quarter?
  {
    var count: u32 := 0;
    if coin.Quarter? then count else count + 1
  }

  /** A coin counts as a non-quarter exactly when it is worth less than a quarter. */
  lemma CountNonquarterMatchesValue(coin: Coin)
    ensures CountNonquarterCoins(coin) == 1 <==> ValueInCents(coin) < 25
  {
  }

  // ---------------------------------------------------------------------------
  // plus_one

  /** Rust's `plus_one`: adds one inside a `Some`, leaves `None` alone. */
  function PlusOne(x: Option<i32>): (r: Option<i32>)
    requires x.Some? ==> x.value as int < I32_MAX
    ensures r.Some? <==> x.Some?
    ensures r.Some? ==> r.value as int == x.value as int + 1
  {
    match x
    case None => None
    case Some(i) => Some(i + 1)
  }

  /** Distinct inputs give distinct outputs. */
  lemma PlusOneInjective(x: Option<i32>, y: Option<i32>)
    requires x.Some? ==> x.value as int < I32_MAX
    requires y.Some? ==> y.value as int < I32_MAX
    ensures PlusOne(x) == PlusOne(y) ==> x == y
  {
  }
}
