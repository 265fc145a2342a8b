/** Shared vocabulary: results with the error kinds the library raises, bytes,
    big-endian integers and Python's slicing and indexing rules. */
module Common {

  /** The exceptions the modelled code raises, by kind. */
  datatype Error =
    | KeyError          // a dictionary or tag compound has no such key
    | IndexError        // a list index outside the list
    | ValueError        // `ValueError` raised explicitly (e.g. GZip chunk data), or `list.index` miss
    | TypeError         // an operation applied to a value of the wrong kind
    | OverflowError     // `int.to_bytes` given a value that does not fit
    | AssertionError    // a failed `assert`
    | OutOfBoundsCoordinates
    | EmptySectionAlreadyExists
    | UnboundLocalError // a local variable read before it was assigned
    | DecodeError       // decompression or tag parsing failed (opaque collaborators)

  datatype Option<+T> = None | Some(value: T)

  datatype Result<+T> = Ok(value: T) | Err(error: Error) {
    predicate IsFailure() { Err? }
    function PropagateFailure<U>(): Result<U>
      requires Err?
    {
      Err(error)
    }
    function Extract(): T
      requires Ok?
    {
      value
    }
  }

  /** A byte is a natural below 256. */
  type byte = x: int | 0 <= x < 256

  const SECTOR: nat := 4096

  /** Multiplication by repeated addition: products kept in this form stay
      out of the solver's nonlinear arithmetic until a proof asks for them. */
  function Times(a: nat, b: nat): nat
  {
    if b == 0 then 0 else Times(a, b - 1) + a
  }

  lemma {:induction false} TimesIsProduct(a: nat, b: nat)
    ensures Times(a, b) == a * b
  {
    if b > 0 {
      TimesIsProduct(a, b - 1);
    }
  }

  /** A product splits over a sum of its second factor. */
  lemma {:induction false} TimesSplit(a: nat, j: nat, m: nat)
    requires j <= m
    ensures Times(a, m) == Times(a, j) + Times(a, m - j)
    decreases m
  {
    if m > j {
      TimesSplit(a, j, m - 1);
    }
  }

  function Pow2(n: nat): (r: nat)
    ensures r >= 1
  {
    if n == 0 then 1 else 2 * Pow2(n - 1)
  }

  lemma {:induction false} Pow2Add(a: nat, b: nat)
    ensures Pow2(a + b) == Pow2(a) * Pow2(b)
  {
    if a > 0 {
      Pow2Add(a - 1, b);
    }
  }

  lemma {:induction false} Pow2Monotone(a: nat, b: nat)
    requires a <= b
    ensures Pow2(a) <= Pow2(b)
  {
    if a < b {
      Pow2Monotone(a, b - 1);
    }
  }

  /** Unsigned big-endian value of a byte string (`int.from_bytes(s, "big")`). */
  function BigEndian(s: seq<byte>): (r: nat)
    ensures r < Pow2(8 * |s|)
  {
    if s == [] then 0
    else
      var hi := BigEndian(s[..|s| - 1]);
      assert Pow2(8 * |s|) == Pow2(8 * (|s| - 1)) * 256 by { Pow2Add(8 * (|s| - 1), 8); }
      hi * 256 + s[|s| - 1]
  }

  /** `n.to_bytes(len, "big")`: the `len` bytes of `n`, most significant first;
      `OverflowError` when `n` does not fit. */
  function ToBytes(n: nat, len: nat): (r: Result<seq<byte>>)
    ensures r.Ok? <==> n < Pow2(8 * len)
    ensures r.Ok? ==> |r.value| == len && BigEndian(r.value) == n
  {
    if n >= Pow2(8 * len) then Err(OverflowError)
    else Ok(ToBytesFit(n, len))
  }

  function ToBytesFit(n: nat, len: nat): (r: seq<byte>)
    requires n < Pow2(8 * len)
    ensures |r| == len && BigEndian(r) == n
  {
    if len == 0 then []
    else
      assert Pow2(8 * len) == Pow2(8 * (len - 1)) * 256 by { Pow2Add(8 * (len - 1), 8); }
      var r := ToBytesFit(n / 256, len - 1) + [n % 256];
      assert r[..|r| - 1] == ToBytesFit(n / 256, len - 1);
      r
  }

  /** `len` zero bytes (`bytes(len)`). */
  function Zeros(len: nat): (r: seq<byte>)
    ensures |r| == len && forall i :: 0 <= i < len ==> r[i] == 0
  {
    seq(len, _ => 0)
  }

  /** Python's `s[a:b]` for non-negative bounds: both ends are clamped to the
      length and an inverted range is empty. */
  function Slice<T>(s: seq<T>, a: nat, b: nat): (r: seq<T>)
    ensures a <= b <= |s| ==> r == s[a..b]
    ensures |r| <= |s|
  {
    var lo := if a <= |s| then a else |s|;
    var hi := if b <= |s| then b else |s|;
    if lo <= hi then s[lo..hi] else []
  }

  /** Python's `s[i]` on a list: negative indices count from the end. */
  function PyIndex<T>(s: seq<T>, i: int): (r: Result<T>)
    ensures 0 <= i < |s| ==> r == Ok(s[i])
    ensures -|s| <= i < 0 ==> r == Ok(s[|s| + i])
    ensures r.Err? <==> !(-|s| <= i < |s|)
  {
    if 0 <= i < |s| then Ok(s[i])
    else if -|s| <= i < 0 then Ok(s[|s| + i])
    else Err(IndexError)
  }

  /** Position of Python's index `i` in a list of length `n`, when there is one. */
  function Normalize(i: int, n: nat): int
  {
    if i < 0 then n + i else i
  }

  /** `int((n).bit_length())` for an integer n; Python gives (-1).bit_length() == 1. */
  function BitLength(n: int): (r: nat)
    ensures n >= 0 ==> n < Pow2(r)
    ensures n > 0 ==> Pow2(r - 1) <= n
    decreases if n < 0 then 1 - n else n
  {
    if n < 0 then BitLength(-n)
    else if n == 0 then 0
    else 1 + BitLength(n / 2)
  }

  /** At most one q has d*q <= x < d*q + d. */
  lemma FloorUnique(x: int, d: int, q1: int, q2: int)
    requires d > 0
    requires d * q1 <= x < d * q1 + d && d * q2 <= x < d * q2 + d
    ensures q1 == q2
  {
    MulAtLeast(d, q2 - q1);
    MulAtLeast(d, q1 - q2);
    assert d * q2 == d * q1 + d * (q2 - q1);
    assert d * q1 == d * q2 + d * (q1 - q2);
  }

  lemma MulAtLeast(d: int, k: int)
    requires d > 0
    ensures k >= 1 ==> d * k >= d
  {
    if k >= 1 {
      assert d * k == d + d * (k - 1);
    }
  }

  /** Either a < b, or 2^b <= 2^a. */
  lemma Pow2Order(a: nat, b: nat)
    ensures a < b || Pow2(b) <= Pow2(a)
  {
    if b <= a {
      Pow2Monotone(b, a);
    }
  }

  lemma MulMonotone(a: int, b: int, c: nat)
    requires a <= b
    ensures a * c <= b * c
  {
    assert b * c == a * c + (b - a) * c;
  }

  /** Floored division is characterised by its quotient and remainder. */
  lemma DivModUnique(x: int, d: int, q: int, r: int)
    requires d > 0 && 0 <= r < d && x == q * d + r
    ensures x / d == q && x % d == r
  {
    assert x == d * (x / d) + x % d;
    FloorUnique(x, d, q, x / d);
  }

  /** Quotient and remainder put a natural back together. */
  lemma DivModParts(x: nat, d: nat)
    requires d > 0
    ensures x == (x / d) * d + x % d && x % d < d
  {
    assert x == d * (x / d) + x % d;
  }

  /** Adding a multiple of the divisor shifts the quotient and keeps the remainder. */
  lemma DivModAddMultiple(a: int, k: int, d: int)
    requires d > 0
    ensures (a + k * d) / d == a / d + k && (a + k * d) % d == a % d
  {
    assert a == d * (a / d) + a % d;
    DivModUnique(a + k * d, d, a / d + k, a % d);
  }

  /** `x >> n` on a natural, one bit at a time. */
  function Shr(x: nat, n: nat): nat
  {
    if n == 0 then x else Shr(x / 2, n - 1)
  }

  /** `x << n` on a natural, one bit at a time. */
  function Shl(x: nat, n: nat): nat
  {
    if n == 0 then x else 2 * Shl(x, n - 1)
  }

  /** Shifting left by n is multiplication by 2^n. */
  lemma {:induction false} ShlIsMul(x: nat, n: nat)
    ensures Shl(x, n) == x * Pow2(n)
  {
    if n > 0 {
      ShlIsMul(x, n - 1);
      var p := Pow2(n - 1);
      assert Pow2(n) == 2 * p;
      MulDouble(x, p);
    }
  }

  lemma MulDouble(x: nat, p: nat)
    ensures 2 * (x * p) == x * (2 * p)
  {
  }

  /** `x & (2 ** n - 1)` on a natural: its n low bits. */
  function Low(x: nat, n: nat): nat
  {
    if n == 0 then 0 else x % 2 + 2 * Low(x / 2, n - 1)
  }

  /** Shifting right by n is floored division by 2^n. */
  lemma {:induction false} ShrIsDiv(x: nat, n: nat)
    ensures Shr(x, n) == x / Pow2(n)
  {
    if n > 0 {
      ShrIsDiv(x / 2, n - 1);
      DivDiv(x, 2, Pow2(n - 1));
    }
  }

  /** The n low bits are the remainder modulo 2^n. */
  lemma {:induction false} LowIsMod(x: nat, n: nat)
    ensures Low(x, n) == x % Pow2(n)
  {
    if n > 0 {
      LowIsMod(x / 2, n - 1);
      ModDouble(x, Pow2(n - 1));
    }
  }

  /** The remainder modulo 2p is the lowest bit and twice the remainder of x / 2 modulo p. */
  lemma ModDouble(x: nat, p: nat)
    requires p > 0
    ensures x % (2 * p) == 2 * ((x / 2) % p) + x % 2
  {
    var h := x / 2;
    var b := x % 2;
    var q := h / p;
    var r := h % p;
    var m := p * q;
    assert h == m + r;
    assert x == 2 * m + (2 * r + b);
    assert 2 * m == q * (2 * p);
    DivModUnique(x, 2 * p, q, 2 * r + b);
  }

  /** Two shifts add up. */
  lemma {:induction false} ShrShr(x: nat, a: nat, b: nat)
    ensures Shr(Shr(x, a), b) == Shr(x, a + b)
  {
    if a > 0 {
      ShrShr(x / 2, a - 1, b);
    }
  }

  /** Dividing twice is dividing by the product. */
  lemma DivDiv(a: nat, b: nat, c: nat)
    requires b > 0 && c > 0
    ensures (a / b) / c == a / (b * c)
  {
    var q1, r1 := a / b, a % b;
    var q2, r2 := q1 / c, q1 % c;
    var bc := b * c;
    assert a == b * q1 + r1;
    assert q1 == c * q2 + r2;
    assert b * q1 == bc * q2 + b * r2 by {
      assert b * (c * q2 + r2) == b * (c * q2) + b * r2;
      assert b * (c * q2) == bc * q2;
    }
    assert b * r2 + r1 < bc by {
      MulMonotone(r2, c - 1, b);
      assert (c - 1) * b == bc - b;
    }
    DivModUnique(a, bc, q2, b * r2 + r1);
  }

  /** Python's `x | y` on naturals, bit by bit. */
  function BitOr(x: nat, y: nat): nat
  {
    if x == 0 then y
    else if y == 0 then x
    else 2 * BitOr(x / 2, y / 2) + Max(x % 2, y % 2)
  }

  /** Or-ing in a value below the shift amount is addition: `(a << l) | b == a * 2^l + b`. */
  lemma {:induction false} BitOrDisjoint(a: nat, l: nat, b: nat)
    requires b < Pow2(l)
    ensures BitOr(a * Pow2(l), b) == a * Pow2(l) + b
  {
    if a != 0 && b != 0 {
      assert l > 0;
      assert a * Pow2(l) == 2 * (a * Pow2(l - 1));
      DivModAddMultiple(0, a * Pow2(l - 1), 2);
      BitOrDisjoint(a, l - 1, b / 2);
    }
  }

  function Max(a: int, b: int): int { if a >= b then a else b }
  function Min(a: int, b: int): int { if a <= b then a else b }

  /** Python's `math.ceil(a / b)` for a natural a and positive b (CeilDivBounds). */
  function CeilDiv(a: nat, b: nat): nat
    requires b > 0
  {
    (a + b - 1) / b
  }

  /** The ceiling is the least multiple count covering a. */
  lemma CeilDivBounds(a: nat, b: nat)
    requires b > 0
    ensures (CeilDiv(a, b) - 1) * b < a <= CeilDiv(a, b) * b || (a == 0 && CeilDiv(a, b) == 0)
  {
    var r := CeilDiv(a, b);
    DivModParts(a + b - 1, b);
    assert (r - 1) * b == r * b - b;
  }

  lemma AppendAssoc<T>(a: seq<T>, b: seq<T>, c: seq<T>)
    ensures (a + b) + c == a + (b + c)
  {
  }
}
