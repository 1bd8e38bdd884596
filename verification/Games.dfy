/** What the five games share: the scale points are given on, the outcome of a move, and values derived
    from a session's seed. */
module Games {
  import opened Wrappers

  const MAX_POINTS := 10_000

  datatype Error = InvalidMove | DeadlinePassed | AlreadyDone

  /** What a move came to; the response may have to be held back until an instant. */
  datatype Outcome = Outcome(correct: bool, done: bool, holdUntil: Option<int>)

  // ---------------------------------------------------------------------------------------- the scale

  /** Linear, worst earning nothing and best everything, in either direction. */
  function Scale(raw: real, worst: real, best: real): real {
    if worst == best then 0.0 else 10_000.0 * (raw - worst) / (best - worst)
  }

  function Clamped(points: real): int {
    if points < 0.0 then 0 else if points > 10_000.0 then MAX_POINTS else points.Floor
  }

  function PointsOn(raw: real, worst: real, best: real): int {
    Clamped(Scale(raw, worst, best))
  }

  lemma ScaleMoves(r: real, s: real, d: real)
    requires r <= s && d != 0.0
    ensures d > 0.0 ==> 10_000.0 * r / d <= 10_000.0 * s / d
    ensures d < 0.0 ==> 10_000.0 * s / d <= 10_000.0 * r / d
  {
    var x, y := 10_000.0 * r / d, 10_000.0 * s / d;
    assert x * d == 10_000.0 * r && y * d == 10_000.0 * s;
    if d > 0.0 && y < x {
      assert y * d < x * d;
    }
    if d < 0.0 && x < y {
      assert y * d < x * d;
    }
  }

  /** Points stay on the scale, the worst and the best raw score earn its ends, and a raw score that is
      better, whichever way that is, never earns less. */
  lemma PointsFollowRaw(r: real, s: real, worst: real, best: real)
    requires worst < best ==> r <= s
    requires best < worst ==> s <= r
    ensures 0 <= PointsOn(r, worst, best) <= PointsOn(s, worst, best) <= MAX_POINTS
    ensures PointsOn(worst, worst, best) == 0
    ensures worst != best ==> PointsOn(best, worst, best) == MAX_POINTS
  {
    if worst < best {
      ScaleMoves(r - worst, s - worst, best - worst);
    } else if best < worst {
      ScaleMoves(s - worst, r - worst, best - worst);
    }
    if worst != best {
      var d := best - worst;
      assert 10_000.0 * d / d == 10_000.0;
    }
  }

  /** In between, points go up in equal steps, part points being cut off: as many of the ten thousand as the raw
      score has come of the way from worst to best. */
  lemma PointsAreLinear(raw: real, worst: real, best: real, way: real, all: real, p: real)
    requires worst < raw < best || best < raw < worst
    requires way == raw - worst && all == best - worst && p == PointsOn(raw, worst, best) as real
    ensures all > 0.0 ==> p * all <= 10_000.0 * way < p * all + all
    ensures all < 0.0 ==> p * all + all < 10_000.0 * way <= p * all
  {
    var x := Scaled(raw, worst, best, way, all);
    PartCutOff(x, p, all, 10_000.0 * way, x - p);
  }

  lemma Scaled(raw: real, worst: real, best: real, way: real, all: real) returns (x: real)
    requires worst < raw < best || best < raw < worst
    requires way == raw - worst && all == best - worst
    ensures x * all == 10_000.0 * way
    ensures PointsOn(raw, worst, best) as real <= x < PointsOn(raw, worst, best) as real + 1.0
  {
    x := 10_000.0 * way / all;
    Quotient(10_000.0 * way, all, x);
    OnTheWay(x, way, all);
    FloorIsPoints(raw, worst, best, x);
  }

  lemma Quotient(a: real, b: real, x: real)
    requires b != 0.0 && x == a / b
    ensures x * b == a
  {
  }

  lemma FloorIsPoints(raw: real, worst: real, best: real, x: real)
    requires worst != best && x == 10_000.0 * (raw - worst) / (best - worst) && 0.0 < x < 10_000.0
    ensures PointsOn(raw, worst, best) as real <= x < PointsOn(raw, worst, best) as real + 1.0
  {
  }

  lemma PartCutOff(x: real, p: real, all: real, product: real, part: real)
    requires p <= x < p + 1.0 && all != 0.0 && x * all == product && part == x - p
    ensures all > 0.0 ==> p * all <= product < p * all + all
    ensures all < 0.0 ==> p * all + all < product <= p * all
  {
    PartOf(part, all);
    Distributed(x, p, all, part);
    Apart(part * all, x * all, p * all, all, product);
  }

  lemma Apart(part: real, whole: real, cut: real, all: real, product: real)
    requires part == whole - cut && whole == product
    ensures all > 0.0 && 0.0 <= part < all ==> cut <= product < cut + all
    ensures all < 0.0 && all < part <= 0.0 ==> cut + all < product <= cut
  {
  }

  lemma PartOf(d: real, all: real)
    requires 0.0 <= d < 1.0 && all != 0.0
    ensures all > 0.0 ==> 0.0 <= d * all < all
    ensures all < 0.0 ==> all < d * all <= 0.0
  {
    var rest := 1.0 - d;
    assert rest * all == all - d * all;
  }

  lemma Distributed(x: real, y: real, z: real, d: real)
    requires d == x - y
    ensures d * z == x * z - y * z
  {
  }

  lemma OnTheWay(x: real, way: real, all: real)
    requires x * all == 10_000.0 * way && (0.0 < way < all || all < way < 0.0)
    ensures 0.0 < x < 10_000.0
  {
    if x <= 0.0 {
      if all > 0.0 {
        Multiplied(x, 0.0, all);
      } else {
        Multiplied(x, 0.0, -all);
      }
    }
    if x >= 10_000.0 {
      if all > 0.0 {
        Multiplied(10_000.0, x, all);
      } else {
        Multiplied(10_000.0, x, -all);
      }
    }
  }

  lemma Multiplied(x: real, y: real, z: real)
    requires x <= y && z > 0.0
    ensures x * z <= y * z
  {
  }

  // ---------------------------------------------------------------------------------- derived values

  /** The hash of a seed, a label and an index: any function at all. */
  type Derive = (int, string, int) -> nat

  /** A value in [0, n). */
  function DeriveIntn(derive: Derive, seed: int, name: string, index: int, n: int): (r: int)
    ensures n > 0 ==> 0 <= r < n
    ensures n <= 0 ==> r == 0
  {
    if n <= 0 then 0 else derive(seed, name, index) % n
  }

  /** A value in [low, high]. */
  function DeriveRange(derive: Derive, seed: int, name: string, index: int, low: int, high: int): (r: int)
    ensures low <= high ==> low <= r <= high
    ensures high < low ==> r == low
  {
    if high <= low then low else low + DeriveIntn(derive, seed, name, index, high - low + 1)
  }

  lemma SmallRemainder(i: int, n: int)
    requires 0 <= i < n
    ensures i % n == i
  {
  }

  /** Every value of a range can be drawn: by the hash that gives the place it has there. */
  lemma EveryValueIsDrawn(derive: Derive, seed: int, name: string, index: int, low: int, high: int, r: int)
    requires low <= r <= high && derive(seed, name, index) == r - low
    ensures DeriveRange(derive, seed, name, index, low, high) == r
  {
    SmallRemainder(r - low, high - low + 1);
  }
}
