/**
 * Conversion of coordinates between the Overworld and the Nether, which the
 * game relates by a factor of 8.  Python's `/` always yields a float, so a
 * coordinate component is either an int or a float; floats are modelled as
 * exact reals, which is exact for game-range integers divided by 8.
 */
module CoordinateConverter {

  /** A coordinate component: a Python int or a Python float. */
  datatype Number = Int(i: int) | Float(f: real)
  {
    /** The numeric value of the component. */
    function Value(): real
    {
      match this
      case Int(i) => i as real
      case Float(f) => f
    }
  }

  /** A coordinate tuple; its length is 3, or 2 after `NetherToOverworld`. */
  type Coordinates = seq<Number>

  /** `n / 8`: Python true division, always a float. */
  function Div8(n: Number): (r: Number)
    ensures r.Float? && r.Value() * 8.0 == n.Value()
  {
    Float(n.Value() / 8.0)
  }

  /** `n * 8`: an int stays an int, a float stays a float. */
  function Mul8(n: Number): (r: Number)
    ensures r.Int? == n.Int? && r.Value() == n.Value() * 8.0
  {
    match n
    case Int(i) => Int(i * 8)
    case Float(f) => Float(f * 8.0)
  }

  /** `overworldToNether`: the x component divided by 8, the y fixed to 128,
      and, as written, the third component taken from the input's y
      (index 1), not its z. */
  function OverworldToNether(c: Coordinates): (r: Coordinates)
    requires |c| >= 2
    ensures |r| == 3
    ensures r[1] == Int(128)
    ensures r[0].Float? && r[0].Value() * 8.0 == c[0].Value()
    ensures r[2].Float? && r[2].Value() * 8.0 == c[1].Value()
  {
    [Div8(c[0]), Int(128), Div8(c[1])]
  }

  /** `netherToOverworld`: a PAIR, the first two components times 8. */
  function NetherToOverworld(c: Coordinates): (r: Coordinates)
    requires |c| >= 2
    ensures |r| == 2
    ensures r[0].Value() == c[0].Value() * 8.0 && r[1].Value() == c[1].Value() * 8.0
  {
    [Mul8(c[0]), Mul8(c[1])]
  }

  /** Python's `int()` on a float: truncation toward zero. */
  function Trunc(r: real): (n: int)
    ensures r >= 0.0 ==> n as real <= r < n as real + 1.0
    ensures r < 0.0 ==> n as real - 1.0 < r <= n as real
  {
    if r >= 0.0 then r.Floor else -((-r).Floor)
  }

  /** Integer division by 8 rounded toward zero, as C or Java write `x / 8`. */
  function TruncDiv8(x: int): int
  {
    if x >= 0 then x / 8 else -((-x) / 8)
  }

  /** The x component comes back unchanged from the round trip. */
  lemma XRoundTrip(c: Coordinates)
    requires |c| >= 2
    ensures NetherToOverworld(OverworldToNether(c))[0].Value() == c[0].Value()
  {
  }

  /** The round trip keeps only two components, and the second is always 1024
      (the constant 128 of the Nether conversion scaled back by 8). */
  lemma RoundTripShape(c: Coordinates)
    requires |c| >= 2
    ensures |NetherToOverworld(OverworldToNether(c))| == 2
    ensures NetherToOverworld(OverworldToNether(c))[1] == Int(1024)
  {
  }

  /** `(800, 63, -800)` becomes `(100.0, 128, 7.875)`: the third component is 63 / 8. */
  lemma OverworldToNetherExample()
    ensures OverworldToNether([Int(800), Int(63), Int(-800)]) == [Float(100.0), Int(128), Float(7.875)]
  {
  }

  /** `int()` of a whole number divided by 8 is that number divided by 8 rounded
      toward zero. */
  lemma TruncOfDiv8(x: int)
    ensures Trunc(x as real / 8.0) == TruncDiv8(x)
  {
    var q := (if x >= 0 then x else -x) / 8;
    var m := (if x >= 0 then x else -x) % 8;
    assert (if x >= 0 then x else -x) == 8 * q + m;
    if x >= 0 {
      assert x as real / 8.0 == q as real + m as real / 8.0;
      assert q as real <= x as real / 8.0 < q as real + 1.0;
    } else {
      assert -(x as real / 8.0) == q as real + m as real / 8.0;
      assert q as real <= -(x as real / 8.0) < q as real + 1.0;
    }
  }
}
