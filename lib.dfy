/**
 * Geometry and colour helpers of the renderer (lib.py): 2D/3D vectors over
 * reals, 8-bit-style RGB colours with hex conversion, the index <-> position
 * conversions used to address pixels and voxels, the `rand` amplitude helper
 * and the [0,1] range normalisation.
 *
 * Python floats are modelled as mathematical reals; `int(x)` on a float is
 * truncation toward zero (`Trunc`), and `//`, `%` and `divmod` on integers are
 * Python's floored operations (`FloorDiv`, `FloorMod`).
 */
module Lib {

  /** Exceptions the Python code raises instead of returning. */
  datatype PyError =
    | ZeroDivision      // ZeroDivisionError
    | IndexOutOfRange   // IndexError
    | NoneAttribute     // AttributeError on None
    | BadLiteral        // ValueError from int(s, 16)
    | NotInList         // ValueError from list.remove

  datatype Option<+T> = None | Some(value: T)

  /** A value, or the exception that was raised instead. */
  datatype Outcome<+T> = Ok(value: T) | Raise(error: PyError)

  // ---------------------------------------------------------------------
  // Numbers

  /** True when the real is an integer value. */
  predicate IsIntegral(x: real) {
    x == x.Floor as real
  }

  /** Python's `int(x)` on a float: truncation toward zero. */
  function Trunc(x: real): (n: int)
    ensures 0.0 <= x ==> 0 <= n && n as real <= x < n as real + 1.0
    ensures x < 0.0 ==> n <= 0 && n as real - 1.0 < x <= n as real
  {
    if x >= 0.0 then x.Floor else -((-x).Floor)
  }

  lemma TruncOfInt(n: int)
    ensures Trunc(n as real) == n
  {
  }

  lemma TruncOfIntegral(x: real)
    ensures IsIntegral(x) ==> Trunc(x) as real == x
  {
    TruncOfInt(x.Floor);
  }

  /** A map without keys is the empty map. */
  lemma EmptyMap<K, V>(m: map<K, V>)
    ensures (forall k :: k !in m) ==> m == map[]
  {
    if forall k :: k !in m {
      var e: map<K, V> := map[];
      assert forall k :: k in m <==> k in e;
    }
  }

  /** A non-empty set of integers has a member to pick. */
  lemma SetMember(s: set<int>)
    ensures s != {} ==> exists x :: x in s
  {
    if forall x :: x !in s {
      assert forall x :: x in s <==> x in {};
    }
  }

  function MaxR(a: real, b: real): real { if a >= b then a else b }
  function MinR(a: real, b: real): real { if a <= b then a else b }
  function AbsR(a: real): real { if a < 0.0 then -a else a }
  function MinI(a: int, b: int): int { if a <= b then a else b }

  function MaxI(a: int, b: int): int { if a >= b then a else b }

  /** Python's list indexing: a negative index counts from the end. */
  function PyIndex(i: int, n: nat): (r: Option<nat>)
    ensures r.Some? <==> -(n as int) <= i < n
    ensures r.Some? ==> r.value < n && r.value as int == (if i < 0 then i + n else i)
  {
    if 0 <= i < n then Some(i) else if -(n as int) <= i < 0 then Some(i + n) else None
  }

  /** Python's `a // b` on integers (floor of the true quotient). */
  function FloorDiv(a: int, b: int): (q: int)
    requires b != 0
    ensures b > 0 ==> q * b <= a < q * b + b
    ensures b < 0 ==> q * b >= a > q * b + b
  {
    if b > 0 then a / b else (-a) / (-b)
  }

  /** Python's `a % b` on integers: the remainder takes the sign of `b`. */
  function FloorMod(a: int, b: int): (r: int)
    requires b != 0
    ensures a == FloorDiv(a, b) * b + r
    ensures b > 0 ==> 0 <= r < b
    ensures b < 0 ==> b < r <= 0
  {
    a - FloorDiv(a, b) * b
  }

  /** `math.ceil(a / b)` for integers. */
  function CeilDiv(a: int, b: int): (q: int)
    requires b > 0
    ensures (q - 1) * b < a <= q * b
  {
    -FloorDiv(-a, b)
  }

  // Small facts of non-linear arithmetic, kept separate so each proof stays cheap.

  lemma IntMulNonneg(a: int, b: int)
    requires a >= 0 && b >= 0
    ensures a * b >= 0
  {
  }

  lemma IntMulReal(a: int, b: int)
    ensures (a * b) as real == a as real * b as real
  {
  }

  lemma MulNonneg(a: real, b: real)
    requires a >= 0.0 && b >= 0.0
    ensures a * b >= 0.0
  {
  }

  lemma MulPos(a: real, b: real)
    requires a > 0.0 && b > 0.0
    ensures a * b > 0.0
  {
  }

  lemma {:induction false} IntMulAtLeast(d: int, b: int)
    requires b > 0
    ensures d >= 1 ==> d * b >= b
    ensures d <= -1 ==> d * b <= -b
  {
    if d >= 1 {
      IntMulNonneg(d - 1, b);
    } else if d <= -1 {
      IntMulNonneg(-d - 1, b);
    }
  }

  /** Division by a positive real keeps the sign and the comparison with 1. */
  lemma {:induction false} DivPositive(a: real, m: real)
    requires m > 0.0
    ensures (a / m) * m == a
    ensures a > 0.0 ==> a / m > 0.0
    ensures a < 0.0 ==> a / m < 0.0
    ensures a == 0.0 ==> a / m == 0.0
    ensures a <= m ==> a / m <= 1.0
    ensures a >= m ==> a / m >= 1.0
    ensures a == m ==> a / m == 1.0
    ensures a == -m ==> a / m == -1.0
    ensures -m <= a ==> -1.0 <= a / m
  {
    var t := a / m;
    assert t * m == a;
    if t > 0.0 { MulPos(t, m); }
    if t < 0.0 { MulPos(-t, m); }
    if t > 1.0 { MulPos(t - 1.0, m); assert (t - 1.0) * m == t * m - m; }
    if t < 1.0 { MulPos(1.0 - t, m); assert (1.0 - t) * m == m - t * m; }
    if t < -1.0 { MulPos(-1.0 - t, m); assert (-1.0 - t) * m == -m - t * m; }
    if t > -1.0 { MulPos(t + 1.0, m); assert (t + 1.0) * m == t * m + m; }
  }

  /** Multiplying by a non-negative factor keeps the order. */
  lemma RealMulMonotone(a: real, b: real, c: real)
    requires c >= 0.0
    ensures a <= b ==> a * c <= b * c
  {
    if a <= b {
      MulNonneg(b - a, c);
    }
  }

  lemma MulMonotone(a: int, b: int, c: int)
    requires c >= 0
    ensures a <= b ==> a * c <= b * c
  {
    if a <= b {
      IntMulNonneg(b - a, c);
    }
  }

  /** `(-0.5 + x / n) * 2`: the screen direction of pixel `x` out of `n`. */
  function ScreenDir(x: int, n: int): (d: real)
    requires n != 0
    ensures 0 <= x < n ==> -1.0 <= d < 1.0
    ensures n > 0 && x == 0 ==> d == -1.0
  {
    ScreenDirBounds(x, n);
    (-0.5 + x as real / n as real) * 2.0
  }

  lemma ScreenDirBounds(x: int, n: int)
    requires n != 0
    ensures 0 <= x < n ==> 0.0 <= x as real / n as real < 1.0
  {
    if 0 <= x < n {
      DivPositive(x as real, n as real);
    }
  }

  /** A quotient and remainder that satisfy the division identity are the floored ones. */
  lemma {:induction false} DivModUnique(a: int, b: int, q: int, r: int)
    requires b > 0 && 0 <= r < b && a == q * b + r
    ensures FloorDiv(a, b) == q && FloorMod(a, b) == r
  {
    var q' := FloorDiv(a, b);
    var r' := FloorMod(a, b);
    assert a == q' * b + r';
    IntMulAtLeast(q - q', b);
    assert (q - q') * b == q * b - q' * b;
  }

  /** Python's float `%` with divisor 360: the result lies in [0, 360). */
  function Mod360(a: real): (r: real)
    ensures 0.0 <= r < 360.0
    ensures IsIntegral((a - r) / 360.0)
  {
    var k := (a / 360.0).Floor;
    a - 360.0 * k as real
  }

  /** Python's built-in `round` on a float: round half to even. */
  function RoundHalfEven(x: real): (n: int)
    ensures AbsR(x - n as real) <= 0.5
    ensures AbsR(x - n as real) == 0.5 ==> n % 2 == 0
  {
    var f := x.Floor;
    var d := x - f as real;
    if d < 0.5 then f
    else if d > 0.5 then f + 1
    else if f % 2 == 0 then f
    else f + 1
  }

  /** `c` lies between `a` and `b`, in whichever order they come. */
  predicate BetweenR(c: real, a: real, b: real) {
    (a <= c <= b) || (b <= c <= a)
  }

  /** A blend `a*(1-t) + b*t` with t in [0, 1] lies between a and b. */
  lemma {:induction false} MixRealBetween(a: real, b: real, t: real)
    ensures 0.0 <= t <= 1.0 ==> BetweenR(a * (1.0 - t) + b * t, a, b)
  {
    var v := a * (1.0 - t) + b * t;
    assert v == a + (b - a) * t;
    if 0.0 <= t <= 1.0 {
      if a <= b {
        MulNonneg(b - a, t);
        MulNonneg(b - a, 1.0 - t);
      } else {
        MulNonneg(a - b, t);
        MulNonneg(a - b, 1.0 - t);
      }
    }
  }

  // ---------------------------------------------------------------------
  // Vectors

  /** vec2: a 2D vector, typically a pixel position on screen. */
  datatype Vec2 = Vec2(x: real, y: real) {
    function Add(o: Vec2): Vec2 { Vec2(x + o.x, y + o.y) }
    function Sub(o: Vec2): Vec2 { Vec2(x - o.x, y - o.y) }
    function Mul(o: Vec2): Vec2 { Vec2(x * o.x, y * o.y) }
    /** Linear interpolation toward `o` by `bias`. */
    function Mix(o: Vec2, bias: real): (r: Vec2)
      ensures bias == 0.0 ==> r == this
      ensures bias == 1.0 ==> r == o
      ensures 0.0 <= bias <= 1.0 ==> BetweenR(r.x, x, o.x) && BetweenR(r.y, y, o.y)
    {
      MixRealBetween(x, o.x, bias);
      MixRealBetween(y, o.y, bias);
      Vec2(x * (1.0 - bias) + o.x * bias, y * (1.0 - bias) + o.y * bias)
    }
  }

  /** vec3: a 3D vector, used for positions, velocities, sizes and Euler rotations. */
  datatype Vec3 = Vec3(x: real, y: real, z: real) {
    function Add(o: Vec3): Vec3 { Vec3(x + o.x, y + o.y, z + o.z) }
    function Sub(o: Vec3): Vec3 { Vec3(x - o.x, y - o.y, z - o.z) }
    function Mul(o: Vec3): Vec3 { Vec3(x * o.x, y * o.y, z * o.z) }
    /** Scaling by a scalar (`v * k`, `v / 2`), applied to each axis. */
    function Scale(k: real): Vec3 { Vec3(x * k, y * k, z * k) }
    /** `.int()`: each axis truncated toward zero. */
    function Int(): Vec3 { Vec3(Trunc(x) as real, Trunc(y) as real, Trunc(z) as real) }
    /** `.max()`: the largest component. */
    function Max(): real { MaxR(x, MaxR(y, z)) }
    predicate IsZero() { x == 0.0 && y == 0.0 && z == 0.0 }

    /** Linear interpolation toward `o` by `bias`. */
    function Mix(o: Vec3, bias: real): (r: Vec3)
      ensures bias == 0.0 ==> r == this
      ensures bias == 1.0 ==> r == o
      ensures 0.0 <= bias <= 1.0 ==>
        BetweenR(r.x, x, o.x) && BetweenR(r.y, y, o.y) && BetweenR(r.z, z, o.z)
    {
      MixRealBetween(x, o.x, bias);
      MixRealBetween(y, o.y, bias);
      MixRealBetween(z, o.z, bias);
      Vec3(x * (1.0 - bias) + o.x * bias, y * (1.0 - bias) + o.y * bias, z * (1.0 - bias) + o.z * bias)
    }

    /** Composition of Euler rotations in degrees, each axis wrapped into [0, 360). */
    function Rotate(o: Vec3): (r: Vec3)
      ensures 0.0 <= r.x < 360.0 && 0.0 <= r.y < 360.0 && 0.0 <= r.z < 360.0
      ensures IsIntegral((x + o.x - r.x) / 360.0)
      ensures IsIntegral((y + o.y - r.y) / 360.0)
      ensures IsIntegral((z + o.z - r.z) / 360.0)
    {
      Vec3(Mod360(x + o.x), Mod360(y + o.y), Mod360(z + o.z))
    }
  }

  function MaxAbs3(v: Vec3): real { MaxR(AbsR(v.x), MaxR(AbsR(v.y), AbsR(v.z))) }
  function MaxAbs2(v: Vec2): real { MaxR(AbsR(v.x), AbsR(v.y)) }

  /** The vector `vec3.normalize` leaves behind: scaled so its largest-magnitude axis is +-1. */
  function Normalized(v: Vec3): Vec3 {
    var m := MaxAbs3(v);
    if m > 0.0 then Vec3(v.x / m, v.y / m, v.z / m) else v
  }

  /** The vector `vec2.normalize` leaves behind. */
  function Normalized2(v: Vec2): Vec2 {
    var m := MaxAbs2(v);
    if m > 0.0 then Vec2(v.x / m, v.y / m) else v
  }

  lemma NormalizedZero(v: Vec3)
    requires v.IsZero()
    ensures Normalized(v) == v
  {
  }

  /** Sign of a real, as -1, 0 or 1. */
  function Sign(a: real): int { if a > 0.0 then 1 else if a < 0.0 then -1 else 0 }

  lemma {:induction false} DivByPositive(a: real, m: real)
    requires m > 0.0 && AbsR(a) <= m
    ensures AbsR(a / m) <= 1.0 && Sign(a / m) == Sign(a)
    ensures AbsR(a) == m ==> AbsR(a / m) == 1.0
  {
    DivPositive(a, m);
  }

  /**
   * The normalisation invariant: a non-zero vector ends with its largest
   * absolute component exactly 1 and every component keeps its sign
   * (NormalizedRescales gives the direction back).
   */
  lemma {:induction false} NormalizedUnitMax(v: Vec3)
    requires !v.IsZero()
    ensures MaxAbs3(Normalized(v)) == 1.0
    ensures Sign(Normalized(v).x) == Sign(v.x)
    ensures Sign(Normalized(v).y) == Sign(v.y)
    ensures Sign(Normalized(v).z) == Sign(v.z)
  {
    var m := MaxAbs3(v);
    var n := Normalized(v);
    assert n.x == v.x / m && n.y == v.y / m && n.z == v.z / m;
    DivByPositive(v.x, m);
    DivByPositive(v.y, m);
    DivByPositive(v.z, m);
    MaxOfUnitBounded(n, v, m);
  }

  /** A normalised vector is zero or has largest absolute component 1. */
  lemma NormalizedUnit(w: Vec3)
    ensures Normalized(w).IsZero() || MaxAbs3(Normalized(w)) == 1.0
  {
    if !w.IsZero() {
      NormalizedUnitMax(w);
    }
  }

  /** Normalisation is undone by scaling back by the original largest magnitude, so the direction is kept. */
  lemma {:induction false} NormalizedRescales(v: Vec3)
    ensures Normalized(v).Scale(MaxAbs3(v)) == v
  {
    var m := MaxAbs3(v);
    var n := Normalized(v);
    if m > 0.0 {
      ScaleBack(v, n, m);
    } else {
      assert v.x == 0.0 && v.y == 0.0 && v.z == 0.0;
      assert n == v && m == 0.0;
    }
  }

  lemma {:induction false} ScaleBack(v: Vec3, n: Vec3, m: real)
    requires m > 0.0 && n == Vec3(v.x / m, v.y / m, v.z / m)
    ensures n.Scale(m) == v
  {
    DivPositive(v.x, m);
    DivPositive(v.y, m);
    DivPositive(v.z, m);
  }

  lemma MaxOfUnitBounded(n: Vec3, v: Vec3, m: real)
    requires m == MaxAbs3(v)
    requires AbsR(n.x) <= 1.0 && AbsR(n.y) <= 1.0 && AbsR(n.z) <= 1.0
    requires AbsR(v.x) == m ==> AbsR(n.x) == 1.0
    requires AbsR(v.y) == m ==> AbsR(n.y) == 1.0
    requires AbsR(v.z) == m ==> AbsR(n.z) == 1.0
    ensures MaxAbs3(n) == 1.0
  {
  }

  lemma {:induction false} Normalized2UnitMax(v: Vec2)
    requires v.x != 0.0 || v.y != 0.0
    ensures MaxAbs2(Normalized2(v)) == 1.0
    ensures Sign(Normalized2(v).x) == Sign(v.x) && Sign(Normalized2(v).y) == Sign(v.y)
    ensures Normalized2(v).x * MaxAbs2(v) == v.x && Normalized2(v).y * MaxAbs2(v) == v.y
  {
    var m := MaxAbs2(v);
    var n := Normalized2(v);
    assert n == Vec2(v.x / m, v.y / m);
    DivByPositive(v.x, m);
    DivByPositive(v.y, m);
  }

  /** A vec3 object whose `normalize` overwrites its own components. */
  class Vec3Cell {
    var x: real
    var y: real
    var z: real

    function Value(): Vec3 reads this { Vec3(x, y, z) }

    constructor (v: Vec3)
      ensures Value() == v
    {
      x, y, z := v.x, v.y, v.z;
    }

    /** In-place normalisation; returns nothing. */
    method Normalize()
      modifies this
      ensures Value() == Normalized(old(Value()))
    {
      var r := MaxR(AbsR(x), MaxR(AbsR(y), AbsR(z)));
      if r > 0.0 {
        x := x / r;
        y := y / r;
        z := z / r;
      }
    }
  }

  /** A vec2 object whose `normalize` overwrites its own components. */
  class Vec2Cell {
    var x: real
    var y: real

    function Value(): Vec2 reads this { Vec2(x, y) }

    constructor (v: Vec2)
      ensures Value() == v
    {
      x, y := v.x, v.y;
    }

    method Normalize()
      modifies this
      ensures Value() == Normalized2(old(Value()))
    {
      var r := MaxR(AbsR(x), AbsR(y));
      if r > 0.0 {
        x := x / r;
        y := y / r;
      }
    }
  }

  // ---------------------------------------------------------------------
  // Colours

  /** rgb: three integer channels (the constructor truncates its arguments). */
  datatype Rgb = Rgb(r: int, g: int, b: int) {
    /** Per-channel blend toward `col` by `bias`, each channel truncated toward zero. */
    function Mix(col: Rgb, bias: real): (c: Rgb)
      ensures bias == 0.0 ==> c == this
      ensures bias == 1.0 ==> c == col
      ensures 0.0 <= bias <= 1.0 ==>
        Between(c.r, r, col.r) && Between(c.g, g, col.g) && Between(c.b, b, col.b)
    {
      MixChannelBetween(r, col.r, bias);
      MixChannelBetween(g, col.g, bias);
      MixChannelBetween(b, col.b, bias);
      Rgb(MixChannel(r, col.r, bias), MixChannel(g, col.g, bias), MixChannel(b, col.b, bias))
    }
  }

  /** `rgb(r, g, b)` with float arguments. */
  function MakeRgb(r: real, g: real, b: real): Rgb {
    Rgb(Trunc(r), Trunc(g), Trunc(b))
  }

  predicate Between(c: int, a: int, b: int) {
    (a <= c <= b) || (b <= c <= a)
  }

  function MixChannel(a: int, b: int, bias: real): int {
    Trunc(a as real * (1.0 - bias) + b as real * bias)
  }

  lemma {:induction false} MixChannelBetween(a: int, b: int, bias: real)
    ensures bias == 0.0 ==> MixChannel(a, b, bias) == a
    ensures bias == 1.0 ==> MixChannel(a, b, bias) == b
    ensures 0.0 <= bias <= 1.0 ==> Between(MixChannel(a, b, bias), a, b)
  {
    var v := a as real * (1.0 - bias) + b as real * bias;
    assert v == a as real + (b - a) as real * bias;
    if bias == 0.0 { TruncOfInt(a); }
    if bias == 1.0 { TruncOfInt(b); }
    if 0.0 <= bias <= 1.0 {
      if a <= b {
        MulNonneg((b - a) as real, bias);
        MulNonneg((b - a) as real, 1.0 - bias);
        assert a as real <= v <= b as real;
      } else {
        MulNonneg((a - b) as real, bias);
        MulNonneg((a - b) as real, 1.0 - bias);
        assert b as real <= v <= a as real;
      }
    }
  }

  /** The lower-case hex digit of a value 0..15. */
  function HexDigit(d: int): (c: char)
    requires 0 <= d < 16
    ensures IsLowerHex(c)
  {
    if d < 10 then ('0' as int + d) as char else ('a' as int + d - 10) as char
  }

  predicate IsLowerHex(c: char) {
    ('0' <= c <= '9') || ('a' <= c <= 'f')
  }

  /** The value of a hex digit in either case, as `int(s, 16)` reads it. */
  function HexValue(c: char): Option<int> {
    if '0' <= c <= '9' then Some(c as int - '0' as int)
    else if 'a' <= c <= 'f' then Some(c as int - 'a' as int + 10)
    else if 'A' <= c <= 'F' then Some(c as int - 'A' as int + 10)
    else None
  }

  lemma HexValueOfDigit(d: int)
    requires 0 <= d < 16
    ensures HexValue(HexDigit(d)) == Some(d)
  {
  }

  /** The hex digits of a natural number, without leading zeros. */
  function HexDigits(n: nat): (s: string)
    ensures |s| >= 1
    ensures n < 16 ==> |s| == 1
    ensures forall i :: 0 <= i < |s| ==> IsLowerHex(s[i])
  {
    if n < 16 then [HexDigit(n)] else HexDigits(n / 16) + [HexDigit(n % 16)]
  }

  /** `"%02x" % n`: hex digits padded with zeros to width two (a sign counts toward the width). */
  function Format02x(n: int): string {
    if n < 0 then "-" + HexDigits(-n)
    else if n < 16 then "0" + HexDigits(n)
    else HexDigits(n)
  }

  /**
   * `rgb.get_hex`: for channels in 0..255 six lower-case hex digits; a
   * channel in -15..-1 is written as a sign and one digit, so the string
   * still has six characters.
   */
  function GetHex(c: Rgb): (s: string)
    ensures TwoDigit(c.r) && TwoDigit(c.g) && TwoDigit(c.b) ==> |s| == 6
    ensures IsChannel(c.r) && IsChannel(c.g) && IsChannel(c.b) ==>
      forall i :: 0 <= i < |s| ==> IsLowerHex(s[i])
  {
    Format02xTwoDigit(c.r);
    Format02xTwoDigit(c.g);
    Format02xTwoDigit(c.b);
    Format02x(c.r) + Format02x(c.g) + Format02x(c.b)
  }

  /** The characters `int()` skips around a number: the ones `str.isspace` accepts. */
  predicate IsPySpace(c: char) {
    var n := c as int;
    (9 <= n <= 13) || (28 <= n <= 32) || n == 0x85 || n == 0xA0 || n == 0x1680
    || (0x2000 <= n <= 0x200A) || n == 0x2028 || n == 0x2029 || n == 0x202F
    || n == 0x205F || n == 0x3000
  }

  /** `s` without its leading whitespace. */
  function StripLeft(s: string): (t: string)
    ensures |t| <= |s| && t == s[|s| - |t|..]
    ensures |t| > 0 ==> !IsPySpace(t[0])
  {
    if |s| > 0 && IsPySpace(s[0]) then StripLeft(s[1..]) else s
  }

  /** `s` without its trailing whitespace. */
  function StripRight(s: string): (t: string)
    ensures |t| <= |s| && t == s[..|t|]
    ensures |t| > 0 ==> !IsPySpace(t[|t| - 1])
  {
    if |s| > 0 && IsPySpace(s[|s| - 1]) then StripRight(s[..|s| - 1]) else s
  }

  function Strip(s: string): (t: string)
    ensures |t| <= |s|
    ensures |t| > 0 ==> !IsPySpace(t[0]) && !IsPySpace(t[|t| - 1])
  {
    var l := StripLeft(s);
    var t := StripRight(l);
    assert |t| > 0 ==> t[0] == l[0];
    t
  }

  function Pow16(n: nat): (p: nat)
    ensures p >= 1
  {
    if n == 0 then 1 else 16 * Pow16(n - 1)
  }

  lemma {:induction false} Pow16Monotone(m: nat, n: nat)
    requires m <= n
    ensures Pow16(m) <= Pow16(n)
  {
    if m < n {
      Pow16Monotone(m, n - 1);
    }
  }

  /**
   * Hex digits with single underscores between them, as `int(_, 16)` reads
   * them once whitespace, sign and prefix are gone; None for anything else.
   */
  function ParseHexDigits(s: string): (r: Option<int>)
    ensures r.Some? ==> 0 <= r.value < Pow16(|s|)
    ensures r.Some? ==> |s| > 0 && HexValue(s[0]).Some? && HexValue(s[|s| - 1]).Some?
  {
    if |s| == 0 then None
    else
      var last := HexValue(s[|s| - 1]);
      if last.None? then None
      else if |s| == 1 then last
      else
        var init := s[..|s| - 1];
        var digits := if init[|init| - 1] == '_' then init[..|init| - 1] else init;
        var rest := ParseHexDigits(digits);
        if rest.None? then None
        else
          Pow16Monotone(|digits|, |s| - 1);
          assert digits[0] == s[0];
          Some(rest.value * 16 + last.value)
  }

  /** A number without sign: an optional `0x` or `0X` prefix, which one underscore may follow. */
  function ParseUnsignedHex(t: string): (r: Option<int>)
    ensures r.Some? ==> 0 <= r.value
    ensures |t| <= 2 && r.Some? ==> r.value < Pow16(|t|)
  {
    if |t| >= 2 && t[0] == '0' && (t[1] == 'x' || t[1] == 'X') then
      var u := t[2..];
      ParseHexDigits(if |u| > 0 && u[0] == '_' then u[1..] else u)
    else ParseHexDigits(t)
  }

  /**
   * `int(s, 16)`: surrounding whitespace, then an optional sign, then an
   * unsigned hex number; None where Python raises ValueError.
   */
  function ParseHex(s: string): Option<int> {
    ParseSignedHex(Strip(s))
  }

  /** An optional sign, then an unsigned hex number. */
  function ParseSignedHex(t: string): Option<int> {
    if |t| > 0 && (t[0] == '+' || t[0] == '-') then
      var m := ParseUnsignedHex(t[1..]);
      if m.None? then None else if t[0] == '-' then Some(-m.value) else m
    else ParseUnsignedHex(t)
  }

  /** Python slicing `s[lo:hi]` with non-negative bounds, clamped to the length. */
  function Slice(s: string, lo: nat, hi: nat): (t: string)
    ensures |t| <= 2 || hi - lo > 2
  {
    var h := if hi <= |s| then hi else |s|;
    var l := if lo <= h then lo else h;
    s[l..h]
  }

  /** The values `int(_, 16)` can give for a string of at most two characters. */
  predicate TwoDigit(n: int) { -16 < n < 256 }

  /** At most two characters parse to a value in -15..255. */
  lemma {:induction false} ParseHexShort(s: string)
    requires |s| <= 2
    ensures ParseHex(s).Some? ==> TwoDigit(ParseHex(s).value)
  {
    var t := Strip(s);
    if |t| > 0 && (t[0] == '+' || t[0] == '-') {
      assert |t[1..]| <= 1;
    }
  }

  /** Whitespace before a number is skipped. */
  lemma ParseHexLeadingSpace(c: char, s: string)
    requires IsPySpace(c)
    ensures ParseHex([c] + s) == ParseHex(s)
  {
    StripLeadingSpace(c, s);
  }

  lemma StripLeadingSpace(c: char, s: string)
    requires IsPySpace(c)
    ensures Strip([c] + s) == Strip(s)
  {
    assert ([c] + s)[1..] == s;
    assert StripLeft([c] + s) == StripLeft(s);
  }

  /** A minus sign in front of a number without whitespace negates it, and rejects what it rejects. */
  lemma ParseHexNegative(s: string)
    requires |s| > 0 && !IsPySpace(s[0]) && !IsPySpace(s[|s| - 1])
    requires s[0] != '+' && s[0] != '-'
    ensures ParseHex(s).Some? ==> ParseHex("-" + s) == Some(-ParseHex(s).value)
    ensures ParseHex(s).None? ==> ParseHex("-" + s).None?
  {
    var m := "-" + s;
    assert StripLeft(m) == m;
    assert StripRight(m) == m;
    assert StripLeft(s) == s;
    assert StripRight(s) == s;
    assert m[1..] == s;
  }

  /**
   * `hex_to_rgb`: channels from the slices `[0:2]`, `[2:4]` and `[4:6]`; a
   * slice `int(_, 16)` rejects raises ValueError, so every string of at most
   * four characters does.
   */
  function HexToRgb(s: string): (r: Outcome<Rgb>)
    ensures |s| <= 4 ==> r == Raise(BadLiteral)
    ensures r.Ok? ==> TwoDigit(r.value.r) && TwoDigit(r.value.g) && TwoDigit(r.value.b)
  {
    var r := ParseHex(Slice(s, 0, 2));
    var g := ParseHex(Slice(s, 2, 4));
    var b := ParseHex(Slice(s, 4, 6));
    ParseHexShort(Slice(s, 0, 2));
    ParseHexShort(Slice(s, 2, 4));
    ParseHexShort(Slice(s, 4, 6));
    if r.None? || g.None? || b.None? then Raise(BadLiteral)
    else Ok(Rgb(r.value, g.value, b.value))
  }

  predicate IsChannel(n: int) { 0 <= n < 256 }

  /** For n in -15..255, `"%02x" % n` has two characters. */
  lemma Format02xTwoDigit(n: int)
    ensures TwoDigit(n) ==> |Format02x(n)| == 2
  {
  }

  /** Hex digits contain no whitespace. */
  lemma HexDigitNotSpace(d: int)
    requires 0 <= d < 16
    ensures !IsPySpace(HexDigit(d)) && HexDigit(d) != '_' && HexDigit(d) != 'x' && HexDigit(d) != 'X'
  {
  }

  /** Two hex digits read back as their value. */
  lemma {:induction false} ParseTwoDigits(a: int, b: int)
    requires 0 <= a < 16 && 0 <= b < 16
    ensures ParseHex([HexDigit(a), HexDigit(b)]) == Some(a * 16 + b)
  {
    var s := [HexDigit(a), HexDigit(b)];
    HexDigitNotSpace(a);
    HexDigitNotSpace(b);
    HexValueOfDigit(a);
    HexValueOfDigit(b);
    assert !IsPySpace(s[0]) && !IsPySpace(s[1]);
    assert StripLeft(s) == s;
    assert StripRight(s) == s;
    assert s[..1] == [HexDigit(a)];
    assert ParseHexDigits(s[..1]) == Some(a);
  }

  /** A minus sign and one hex digit read back as the negative number n. */
  lemma {:induction false} ParseSignedDigit(n: int)
    requires -16 < n < 0
    ensures ParseHex(['-', HexDigit(-n)]) == Some(n)
  {
    var s := ['-', HexDigit(-n)];
    HexDigitNotSpace(-n);
    HexValueOfDigit(-n);
    assert !IsPySpace(s[0]);
    assert StripLeft(s) == s;
    assert StripRight(s) == s;
    assert s[1..] == [HexDigit(-n)];
    assert ParseHexDigits([HexDigit(-n)]) == Some(-n);
    assert ParseUnsignedHex(s[1..]) == Some(-n);
  }

  /** The characters `"%02x"` writes for n in -15..255. */
  lemma {:induction false} Format02xChars(n: int)
    requires TwoDigit(n)
    ensures n < 0 ==> Format02x(n) == ['-', HexDigit(-n)]
    ensures 0 <= n ==> Format02x(n) == [HexDigit(n / 16), HexDigit(n % 16)]
  {
    if 16 <= n {
      assert HexDigits(n / 16) == [HexDigit(n / 16)];
    }
  }

  /** A channel's two characters read back as the channel. */
  lemma {:induction false} ParseChannel(n: int)
    requires IsChannel(n)
    ensures ParseHex(Format02x(n)) == Some(n)
  {
    Format02xChars(n);
    var hi, lo := n / 16, n % 16;
    ParseTwoDigits(hi, lo);
    assert ParseHex([HexDigit(hi), HexDigit(lo)]) == Some(hi * 16 + lo);
    assert hi * 16 + lo == n;
  }

  /**
   * For n in -15..255, `"%02x" % n` is two characters that `int(_, 16)` reads
   * back; for a channel they are the hex digits of its high and low nibble.
   */
  lemma {:induction false} Format02xChannel(n: int)
    requires TwoDigit(n)
    ensures IsChannel(n) ==> Format02x(n) == [HexDigit(n / 16), HexDigit(n % 16)]
    ensures ParseHex(Format02x(n)) == Some(n)
  {
    Format02xChars(n);
    if n < 0 {
      ParseSignedDigit(n);
    } else {
      ParseChannel(n);
    }
  }

  /**
   * `hex_to_rgb` reads back what `get_hex` writes, for every channel that
   * `"%02x"` writes in two characters: 0..255, and also -15..-1 (a sign and
   * one digit).
   */
  lemma {:induction false} HexRoundTrip(c: Rgb)
    requires TwoDigit(c.r) && TwoDigit(c.g) && TwoDigit(c.b)
    ensures HexToRgb(GetHex(c)) == Ok(c)
  {
    Format02xChannel(c.r);
    Format02xChannel(c.g);
    Format02xChannel(c.b);
    Format02xTwoDigit(c.r);
    Format02xTwoDigit(c.g);
    Format02xTwoDigit(c.b);
    HexToRgbOfPairs(GetHex(c), Format02x(c.r), Format02x(c.g), Format02x(c.b), c);
  }

  /** Three two-character parts that parse to the channels of `c` read back as `c`. */
  lemma HexToRgbOfPairs(s: string, r: string, g: string, b: string, c: Rgb)
    requires |r| == 2 && |g| == 2 && |b| == 2 && s == r + g + b
    requires ParseHex(r) == Some(c.r) && ParseHex(g) == Some(c.g) && ParseHex(b) == Some(c.b)
    ensures HexToRgb(s) == Ok(c)
  {
    SliceParts(s, r, g, b);
  }

  lemma SliceParts(s: string, r: string, g: string, b: string)
    requires |r| == 2 && |g| == 2 && |b| == 2 && s == r + g + b
    ensures Slice(s, 0, 2) == r && Slice(s, 2, 4) == g && Slice(s, 4, 6) == b
  {
  }



  // ---------------------------------------------------------------------
  // Index conversions

  /**
   * `index_vec2`: `y, x = divmod(i, width)`. The position has whole-number
   * coordinates whose row-major index is `i`; x lies in [0, width) for a
   * positive width and in (width, 0] for a negative one.
   */
  function IndexVec2(i: int, width: int): (v: Vec2)
    requires width != 0
    ensures IsIntegral(v.x) && IsIntegral(v.y)
    ensures v.x + v.y * width as real == i as real
    ensures width > 0 ==> 0.0 <= v.x < width as real
    ensures width < 0 ==> width as real < v.x <= 0.0
  {
    var y, x := FloorDiv(i, width), FloorMod(i, width);
    IntMulReal(y, width);
    Vec2(x as real, y as real)
  }

  /** The float `x + y * width` that `vec2_index` truncates. */
  function IndexSum2(v: Vec2, width: int): real {
    v.x + v.y * width as real
  }

  /** `vec2_index`: `int(x + y * width)`, exactly the row-major index when that is a whole number. */
  function Vec2Index(v: Vec2, width: int): (i: int)
    ensures IsIntegral(IndexSum2(v, width)) ==> i as real == IndexSum2(v, width)
  {
    TruncOfIntegral(IndexSum2(v, width));
    Trunc(IndexSum2(v, width))
  }

  /** For positive sizes, the row of a cell `xy` of the plane lies in [0, height). */
  lemma {:induction false} RowInPlane(xy: int, width: int, height: int)
    requires width > 0 && height > 0 && 0 <= xy < width * height
    ensures 0 <= FloorDiv(xy, width) < height
  {
    var y := FloorDiv(xy, width);
    if y >= height {
      MulMonotone(height, y, width);
      assert false;
    }
    if y < 0 {
      MulMonotone(y, -1, width);
      assert false;
    }
  }

  /**
   * The coordinates `index_vec3` picks add back up to the index, and for
   * positive sizes x and y lie in the plane.
   */
  lemma {:induction false} IndexVec3Parts(i: int, width: int, height: int)
    requires width != 0 && height != 0
    ensures var wh := width * height; var xy := FloorMod(i, wh);
      FloorMod(xy, width) + FloorDiv(xy, width) * width + FloorDiv(i, wh) * wh == i
    ensures var xy := FloorMod(i, width * height);
      width > 0 && height > 0 ==> 0 <= FloorMod(xy, width) < width && 0 <= FloorDiv(xy, width) < height
  {
    var wh := width * height;
    var xy := FloorMod(i, wh);
    if width > 0 && height > 0 {
      IntMulNonneg(width, height);
      RowInPlane(xy, width, height);
    }
  }

  /**
   * `index_vec3`: `z, xy = divmod(i, width * height)`, then `y, x = divmod(xy, width)`.
   * The position has whole-number coordinates whose index is `i`, and for
   * positive sizes x and y lie in the `width` by `height` plane.
   */
  function IndexVec3(i: int, width: int, height: int): (v: Vec3)
    requires width != 0 && height != 0
    ensures IsIntegral(v.x) && IsIntegral(v.y) && IsIntegral(v.z)
    ensures v.x.Floor + v.y.Floor * width + v.z.Floor * (width * height) == i
    ensures width > 0 && height > 0 ==> 0.0 <= v.x < width as real && 0.0 <= v.y < height as real
  {
    var wh := width * height;
    var xy := FloorMod(i, wh);
    var x, y, z := FloorMod(xy, width), FloorDiv(xy, width), FloorDiv(i, wh);
    IndexVec3Parts(i, width, height);
    Vec3(x as real, y as real, z as real)
  }

  /** The float `x + y * width + z * width * height` that `vec3_index` truncates. */
  function IndexSum3(v: Vec3, width: int, height: int): real {
    v.x + v.y * width as real + v.z * width as real * height as real
  }

  /** `vec3_index`: `int(x + y * width + z * width * height)`, exact when that is a whole number. */
  function Vec3Index(v: Vec3, width: int, height: int): (i: int)
    ensures IsIntegral(IndexSum3(v, width, height)) ==> i as real == IndexSum3(v, width, height)
  {
    TruncOfIntegral(IndexSum3(v, width, height));
    Trunc(IndexSum3(v, width, height))
  }

  /** Every index survives the trip to a 2D position and back, for any non-zero width. */
  lemma {:induction false} Vec2IndexOfIndexVec2(i: int, width: int)
    requires width != 0
    ensures Vec2Index(IndexVec2(i, width), width) == i
  {
    var q, r := FloorDiv(i, width), FloorMod(i, width);
    IntMulReal(q, width);
    assert r as real + q as real * width as real == (r + q * width) as real;
    TruncOfInt(i);
  }

  /** A position with integer coordinates and `0 <= x < width` survives the trip to an index and back. */
  lemma {:induction false} IndexVec2OfVec2Index(v: Vec2, width: int)
    requires width > 0
    requires IsIntegral(v.x) && IsIntegral(v.y) && 0.0 <= v.x < width as real
    ensures IndexVec2(Vec2Index(v, width), width) == v
  {
    var x, y := v.x.Floor, v.y.Floor;
    var i := x + y * width;
    IntMulReal(y, width);
    assert v.x + v.y * width as real == i as real;
    TruncOfInt(i);
    assert Vec2Index(v, width) == i;
    DivModUnique(i, width, y, x);
    assert IndexVec2(i, width) == Vec2(x as real, y as real);
  }

  lemma IndexSumReal(x: int, y: int, z: int, width: int, height: int)
    ensures x as real + y as real * width as real + z as real * width as real * height as real
         == (x + y * width + z * (width * height)) as real
  {
    IntMulReal(y, width);
    IntMulReal(z, width);
    IntMulReal(z * width, height);
    assert z * (width * height) == z * width * height;
  }

  /** Every index survives the trip to a 3D position and back, for non-zero sizes. */
  lemma {:induction false} Vec3IndexOfIndexVec3(i: int, width: int, height: int)
    requires width != 0 && height != 0
    ensures Vec3Index(IndexVec3(i, width, height), width, height) == i
  {
    var v := IndexVec3(i, width, height);
    IntegralIndexSum(v, width, height, i);
    Vec3IndexExact(v, width, height, i);
  }

  lemma Vec3IndexExact(v: Vec3, width: int, height: int, i: int)
    requires IndexSum3(v, width, height) == i as real
    ensures Vec3Index(v, width, height) == i
  {
    TruncOfInt(i);
  }

  /** A whole-number position whose integer index is `i` has the real index `i`. */
  lemma IntegralIndexSum(v: Vec3, width: int, height: int, i: int)
    requires IsIntegral(v.x) && IsIntegral(v.y) && IsIntegral(v.z)
    requires v.x.Floor + v.y.Floor * width + v.z.Floor * (width * height) == i
    ensures IndexSum3(v, width, height) == i as real
  {
    IndexSumReal(v.x.Floor, v.y.Floor, v.z.Floor, width, height);
  }

  lemma CellInPlane(x: int, y: int, width: int, height: int)
    requires 0 <= x < width && 0 <= y < height
    ensures 0 <= x + y * width < width * height
  {
    IntMulNonneg(y, width);
    IntMulNonneg(height - 1 - y, width);
    assert (height - 1 - y) * width == width * height - width - y * width;
  }

  /** A position with integer coordinates, `0 <= x < width` and `0 <= y < height`, survives the trip. */
  lemma {:induction false} IndexVec3OfVec3Index(v: Vec3, width: int, height: int)
    requires width > 0 && height > 0
    requires IsIntegral(v.x) && IsIntegral(v.y) && IsIntegral(v.z)
    requires 0.0 <= v.x < width as real && 0.0 <= v.y < height as real
    ensures IndexVec3(Vec3Index(v, width, height), width, height) == v
  {
    var x, y, z := v.x.Floor, v.y.Floor, v.z.Floor;
    var wh := width * height;
    var i := x + y * width + z * wh;
    IntegralIndexSum(v, width, height, i);
    Vec3IndexExact(v, width, height, i);
    CellInPlane(x, y, width, height);
    DivModUnique(i, wh, z, x + y * width);
    DivModUnique(x + y * width, width, y, x);
    assert IndexVec3(i, width, height) == Vec3(x as real, y as real, z as real);
  }

  // ---------------------------------------------------------------------
  // Randomness and ranges

  /**
   * `rand(amp)` with the draw of `random.random()` passed in as `draw`:
   * zero for a zero amplitude, otherwise `(-1 + 2 draw) amp`.
   */
  function Rand(amp: real, draw: real): (v: real)
    ensures amp == 0.0 ==> v == 0.0
    ensures amp > 0.0 && 0.0 <= draw < 1.0 ==> -amp <= v < amp
    ensures amp < 0.0 && 0.0 <= draw < 1.0 ==> amp < v <= -amp
  {
    if amp == 0.0 then 0.0
    else
      ScaledDrawBounds(amp, draw);
      (-1.0 + draw * 2.0) * amp
  }

  lemma ScaledDrawBounds(amp: real, draw: real)
    ensures amp > 0.0 && 0.0 <= draw < 1.0 ==> -amp <= (-1.0 + draw * 2.0) * amp < amp
    ensures amp < 0.0 && 0.0 <= draw < 1.0 ==> amp < (-1.0 + draw * 2.0) * amp <= -amp
  {
    if 0.0 <= draw < 1.0 {
      var t := -1.0 + draw * 2.0;
      assert -1.0 <= t < 1.0;
      if amp > 0.0 {
        assert t * amp < 1.0 * amp;
        assert -1.0 * amp <= t * amp;
      } else if amp < 0.0 {
        assert t * (-amp) < 1.0 * (-amp);
        assert -1.0 * (-amp) <= t * (-amp);
      }
    }
  }

  /** `normalize(x, x_min, x_max)`: the position of `x` in `[x_min, x_max]`, clamped to [0, 1]. */
  function NormalizeRange(x: real, lo: real, hi: real): (r: real)
    ensures 0.0 <= r <= 1.0
    ensures lo >= hi ==> r == 0.0
    ensures lo < hi && lo <= x <= hi ==> r * (hi - lo) == x - lo
    ensures lo < hi && x <= lo ==> r == 0.0
    ensures lo < hi && x >= hi ==> r == 1.0
  {
    if lo >= hi then 0.0
    else
      DivPositive(x - lo, hi - lo);
      MinR(1.0, MaxR(0.0, (x - lo) / (hi - lo)))
  }
}
