/** Types and number conversions shared by the handset, the server and the estimators. */
module Common {

  datatype Option<+T> = None | Some(value: T)

  /** The 3G radio states, in increasing order of power. */
  datatype MobileState = IDLE | FACH | DCH

  /** The position of a state in the source's enumeration, and so in its arrays. */
  function Index(s: MobileState): nat {
    match s
    case IDLE => 0
    case FACH => 1
    case DCH => 2
  }

  /** One number per traffic direction; the source's arrays index them DOWN = 0, UP = 1. */
  datatype Dirs = Dirs(down: int, up: int) {
    function Sum(): int { down + up }

    function Minus(other: Dirs): Dirs { Dirs(down - other.down, up - other.up) }

    predicate AtMost(other: Dirs) { down <= other.down && up <= other.up }
  }

  const UNSET := Dirs(-1, -1)
  const ZERO := Dirs(0, 0)

  /** One value per radio state. */
  datatype PerState<T> = PerState(idle: T, fach: T, dch: T) {
    function Get(s: MobileState): T {
      match s
      case IDLE => idle
      case FACH => fach
      case DCH => dch
    }

    function Set(s: MobileState, v: T): PerState<T> {
      match s
      case IDLE => this.(idle := v)
      case FACH => this.(fach := v)
      case DCH => this.(dch := v)
    }
  }

  /** Times are whole microseconds. */
  const SECOND: int := 1_000_000

  /** Whole seconds in microseconds. */
  function Us(seconds: int): int { seconds * 1_000_000 }

  function Secs(us: int): real { us as real / 1000000.0 }

  /** Conversion from double to int: the fraction is dropped, towards zero. */
  function Trunc(x: real): int {
    if x >= 0.0 then x.Floor else -((-x).Floor)
  }

  function Ceil(x: real): int { -((-x).Floor) }

  function Min(x: real, y: real): real { if x <= y then x else y }

  function Max(x: real, y: real): real { if x >= y then x else y }

  function NonNegative(x: int): int { if x >= 0 then x else 0 }

  lemma TruncMonotone(x: real, y: real)
    requires x <= y
    ensures Trunc(x) <= Trunc(y)
  {
    if x >= 0.0 {
      assert x.Floor as real <= y;
    } else if y < 0.0 {
      assert (-y).Floor as real <= -x;
    }
  }

  lemma CeilBounds(x: real)
    ensures x <= Ceil(x) as real < x + 1.0
  {
  }

  lemma CeilMonotone(x: real, y: real)
    requires x <= y
    ensures Ceil(x) <= Ceil(y)
  {
    assert (-y).Floor as real <= -x;
  }

  /** Amount `s` at rate `p`. */
  function Scaled(p: real, s: real): real { p * s }

  lemma ScaledAddsUp(p: real, x: real, y: real)
    ensures Scaled(p, x + y) == Scaled(p, x) + Scaled(p, y)
    ensures Scaled(p, x - y) == Scaled(p, x) - Scaled(p, y)
  {
  }

  lemma ScaledMonotone(p: real, s: real, s': real)
    requires 0.0 <= p && s <= s'
    ensures Scaled(p, s) <= Scaled(p, s')
  {
    ProductSigns(p, s' - s);
    assert p * s' == p * s + p * (s' - s);
  }

  /** Non-negative products grow with either factor. */
  lemma ProductMonotone(a: real, b: real, x: real, y: real)
    requires 0.0 <= a <= b && 0.0 <= x <= y
    ensures 0.0 <= a * x <= b * y
  {
    assert a * x <= a * y;
    assert a * y <= b * y;
  }

  lemma IntProductMonotone(a: int, b: int, x: int, y: int)
    requires 0 <= a <= b && 0 <= x <= y
    ensures 0 <= a * x <= b * y
  {
    assert a * x <= a * y;
    assert a * y <= b * y;
  }

  lemma CancelFactor(x: real, y: real, c: real)
    requires c > 0.0 && x * c <= y * c
    ensures x <= y
  {
    assert (y - x) * c >= 0.0;
  }

  lemma CancelFactorStrictly(x: real, y: real, c: real)
    requires c > 0.0 && x * c < y * c
    ensures x < y
  {
    if x >= y {
      ProductSigns(x - y, c);
    }
  }

  lemma QuotientTimes(a: real, s: real)
    requires s > 0.0
    ensures (a / s) * s == a
  {
  }

  lemma AtLeastQuotient(a: real, s: real, r: real)
    requires s > 0.0 && a / s <= r
    ensures a <= r * s
  {
    QuotientTimes(a, s);
    ScaledMonotone(s, a / s, r);
  }

  lemma BelowQuotient(a: real, s: real, q: real)
    requires s > 0.0 && q < a / s
    ensures q * s < a
  {
    QuotientTimes(a, s);
    StrictProduct(q, a / s, s);
  }

  lemma OneLess(r: real, s: real)
    ensures (r - 1.0) * s == r * s - s
  {
  }

  lemma BelowNextQuotient(a: real, s: real, r: real)
    requires s > 0.0 && r < a / s + 1.0
    ensures r * s < a + s
  {
    BelowQuotient(a, s, r - 1.0);
    OneLess(r, s);
  }

  /** A quotient rounded up to `r`, multiplied back. */
  lemma RoundedQuotient(a: real, s: real, r: real)
    requires s > 0.0 && a / s <= r < a / s + 1.0
    ensures a <= Scaled(r, s) < a + s
  {
    AtLeastQuotient(a, s, r);
    BelowNextQuotient(a, s, r);
  }

  lemma StrictProduct(x: real, y: real, s: real)
    requires x < y && 0.0 < s
    ensures x * s < y * s
  {
  }

  lemma ScaledStrict(p: real, s: real, s': real)
    requires 0.0 < p && s < s'
    ensures Scaled(p, s) < Scaled(p, s')
  {
    StrictProduct(s, s', p);
  }

  /** `average` times `whole` is `total`, up to one truncation. */
  predicate TruncatedAverage(average: int, whole: real, total: real) {
    Scaled(whole, average as real) <= total < Scaled(whole, average as real + 1.0)
  }

  lemma FloorTimesWhole(x: real, whole: real)
    requires 0.0 <= x && 0.0 < whole
    ensures TruncatedAverage(Trunc(x), whole, Scaled(whole, x))
  {
    ScaledMonotone(whole, Trunc(x) as real, x);
    ScaledStrict(whole, x, Trunc(x) as real + 1.0);
  }

  lemma SameFactor(x: real, y: real, c: real)
    requires c > 0.0 && x * c == y * c
    ensures x == y
  {
    CancelFactor(x, y, c);
    CancelFactor(y, x, c);
  }

  lemma ProductSigns(x: real, y: real)
    requires 0.0 <= x && 0.0 <= y
    ensures 0.0 <= x * y
    ensures 0.0 < x && 0.0 < y ==> 0.0 < x * y
  {
  }

  lemma QuotientMonotone(a: real, b: real, c: real, d: real)
    requires 0.0 <= a <= b && 0.0 < c <= d
    ensures 0.0 <= a / d <= b / c
  {
    var x, y := a / d, b / c;
    assert x * d == a && y * c == b;
    assert x >= 0.0;
    ProductMonotone(x, x, c, d);
    assert x * c <= x * d == a <= b == y * c;
    CancelFactor(x, y, c);
  }
}
