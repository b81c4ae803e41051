/** Java's 32-bit `int` arithmetic, the runtime faults the reader can raise,
    and the Option/Result wrappers used to model null and thrown exceptions. */
module JavaRuntime {

  const TWO_32: int := 0x1_0000_0000
  const INT_MIN: int := -0x8000_0000
  const INT_MAX: int := 0x7FFF_FFFF

  predicate IsInt(x: int) { INT_MIN <= x <= INT_MAX }

  function Abs(x: int): nat { if x < 0 then -x else x }

  function Max(a: int, b: int): int { if a < b then b else a }

  function Min(a: int, b: int): int { if a < b then a else b }

  /** Two's complement wrap-around of a mathematical integer into Java `int`. */
  function Wrap(x: int): (r: int)
    ensures IsInt(r)
    ensures (r - x) % TWO_32 == 0
    ensures IsInt(x) ==> r == x
  {
    (x - INT_MIN) % TWO_32 + INT_MIN
  }

  /** Java's `/` before wrap-around: the quotient rounded toward zero. */
  function TruncDiv(a: int, b: int): int
    requires b != 0
  {
    var m := Abs(a) / Abs(b);
    if (a < 0) == (b < 0) then m else -m
  }

  /** Java's `%`: the remainder left by the quotient rounded toward zero. */
  function TruncRem(a: int, b: int): int
    requires b != 0
  {
    a - b * TruncDiv(a, b)
  }

  /** Java `a / b` on `int` operands (only `MIN_VALUE / -1` overflows). */
  function IntDiv(a: int, b: int): (q: int)
    requires b != 0
    ensures IsInt(q)
    ensures (q - TruncDiv(a, b)) % TWO_32 == 0
  {
    Wrap(TruncDiv(a, b))
  }

  /** Java's remainder is smaller than the divisor and takes the sign of the dividend. */
  lemma {:induction false} TruncRemBounds(a: int, b: int)
    requires b != 0
    ensures Abs(TruncRem(a, b)) < Abs(b)
    ensures TruncRem(a, b) != 0 ==> ((TruncRem(a, b) < 0) <==> (a < 0))
    ensures TruncRem(a, b) == (if a < 0 then -(Abs(a) % Abs(b)) else Abs(a) % Abs(b))
  {
    var m := Abs(a) / Abs(b);
    var k := Abs(a) % Abs(b);
    assert Abs(a) == Abs(b) * m + k;
    assert b * -m == -(b * m);
    if b > 0 {
      assert b * m == Abs(b) * m;
    } else {
      assert b * m == -(Abs(b) * m);
    }
  }

  /** Euclidean division is determined by any quotient/remainder pair with 0 <= r < |b|. */
  lemma {:induction false} EuclidUnique(a: int, b: int, q: int, r: int)
    requires b != 0
    requires a == b * q + r && 0 <= r < Abs(b)
    ensures a % b == r
  {
    var q2, r2 := a / b, a % b;
    assert a == b * q2 + r2;
    assert b * q - b * q2 == b * (q - q2);
    if q != q2 {
      NonZeroMultiple(b, q - q2);
      assert false;
    }
  }

  /** Java's `a % b == 0` holds exactly when `b` divides `a`. */
  lemma {:induction false} TruncRemZeroIffDivides(a: int, b: int)
    requires b != 0
    ensures TruncRem(a, b) == 0 <==> a % b == 0
  {
    TruncRemBounds(a, b);
    var q := TruncDiv(a, b);
    if TruncRem(a, b) == 0 {
      assert a == b * q + 0;
      EuclidUnique(a, b, q, 0);
    } else if a % b == 0 {
      var r := TruncRem(a, b);
      var d := a / b;
      assert a == b * d;
      assert r == b * d - b * q;
      assert b * d - b * q == b * (d - q);
      NonZeroMultiple(b, d - q);
      assert false;
    }
  }

  lemma {:induction false} NonZeroMultiple(b: int, k: int)
    requires b != 0 && k != 0
    ensures Abs(b * k) >= Abs(b)
  {
    var x: int, y: int := Abs(b), Abs(k);
    assert x * y == x * (y - 1) + x;
    assert x * (y - 1) >= 0;
    if (b > 0) == (k > 0) {
      assert b * k == x * y;
    } else {
      assert b * k == -(x * y);
    }
  }

  /** The exceptions of the Java runtime and I/O layer that escape the reader. */
  datatype Fault =
    | NullPointer            // unboxing a missing Hashtable entry
    | ClassCast              // a tag value of another type than the one cast to
    | NegativeArraySize      // an ASCII value with a negative declared length
    | StringIndexOutOfBounds // `substring` with an end index of -1
    | DivideByZero           // `/` or `%` by a zero dimension
    | NegativeSeek           // seeking to a negative file offset
    | EndOfFile              // a read past the end that nothing catches
    | MissingStripOffsets    // a descriptor with no STRIP_OFFSETS value to index

  datatype Option<+T> = None | Some(value: T) {
    function GetOr(default: T): T {
      match this
      case Some(v) => v
      case None => default
    }
  }

  datatype Result<+T> = Ok(value: T) | Err(fault: Fault) {
    predicate IsFailure() { Err? }

    function PropagateFailure<U>(): Result<U>
      requires Err?
    {
      Err(fault)
    }

    function Extract(): T
      requires Ok?
    {
      value
    }
  }

  /** `acc` put in front of a successful list; a failure stays as it is. */
  function Prepend<T>(acc: seq<T>, r: Result<seq<T>>): Result<seq<T>>
  {
    if r.Ok? then Ok(acc + r.value) else r
  }

  lemma PrependTwice<T>(a: seq<T>, b: seq<T>, r: Result<seq<T>>)
    ensures Prepend(a, Prepend(b, r)) == Prepend(a + b, r)
  {
    if r.Ok? {
      assert a + (b + r.value) == (a + b) + r.value;
    }
  }

  lemma PrependNothing<T>(r: Result<seq<T>>)
    ensures Prepend([], r) == r
  {
    if r.Ok? {
      assert [] + r.value == r.value;
    }
  }
}
