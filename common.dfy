// Shared result types and Go integer semantics used across the model.
module Common {
  datatype Option<T> = None | Some(value: T)

  /** The error families the server reports (the `errs` package's codes). */
  datatype ErrorKind =
    | ArgsError
    | NoPermission
    | RecordNotFound
    | InternalServer
    | GroupTypeNotSupport
    | DismissedAlready
    | GroupRequestHandled
    | TokenNotExist
    | TokenKicked
    | TokenUnknown
    | StorageFailed
    | SizeNotPositive
    | Panic
    | UserIdNotFound

  datatype Result<T> = Ok(value: T) | Err(kind: ErrorKind)
  {
    predicate IsFailure() { Err? }
    function PropagateFailure<U>(): Result<U>
      requires Err?
    {
      Err(kind)
    }
    function Extract(): T
      requires Ok?
    {
      value
    }
  }

  const INT32_MIN: int := -0x8000_0000
  const INT32_MAX: int := 0x7fff_ffff
  const INT64_MIN: int := -0x8000_0000_0000_0000
  const INT64_MAX: int := 0x7fff_ffff_ffff_ffff

  predicate InInt32(x: int) { INT32_MIN <= x <= INT32_MAX }
  predicate InInt64(x: int) { INT64_MIN <= x <= INT64_MAX }

  /** Go's `int32(x)` conversion: keep the low 32 bits, read them as two's complement. */
  function WrapInt32(x: int): (r: int)
    ensures InInt32(r)
    ensures (r - x) % 0x1_0000_0000 == 0
    ensures InInt32(x) ==> r == x
  {
    var low := x % 0x1_0000_0000;
    if low <= INT32_MAX then low else low - 0x1_0000_0000
  }

  /** Go's integer division, which truncates toward zero (Dafny's `/` is Euclidean). */
  function GoDiv(a: int, b: int): (q: int)
    requires b > 0
    ensures a >= 0 ==> q == a / b
    ensures a < 0 ==> q == -((-a) / b)
    ensures q * b <= a < q * b + b || q * b - b < a <= q * b
  {
    if a >= 0 then a / b else -((-a) / b)
  }

  /** Go's `%`, whose result takes the sign of the dividend. */
  function GoRem(a: int, b: int): (r: int)
    requires b > 0
    ensures a >= 0 ==> r == a % b
    ensures a < 0 ==> r == -((-a) % b)
  {
    a - GoDiv(a, b) * b
  }

  lemma MultipleModZero(k: int, b: int)
    requires b > 0
    ensures (k * b) % b == 0
  {
    var x := k * b;
    var m := k - x / b;
    assert x == (x / b) * b + x % b;
    assert x % b == m * b;
    assert m >= 1 ==> m * b >= b;
    assert m <= -1 ==> m * b <= -b;
  }

  /** Go's and Dafny's remainders agree on divisibility, negative dividends included. */
  lemma GoRemZeroIffDivisible(a: int, b: int)
    requires b > 0
    ensures GoRem(a, b) == 0 <==> a % b == 0
  {
    if a < 0 {
      var q := (-a) / b;
      assert -a == q * b + (-a) % b;
      assert (-a) % b == 0 ==> a == (-q) * b;
      MultipleModZero(-q, b);
      var k := a / b;
      assert a == k * b + a % b;
      assert a % b == 0 ==> -a == (-k) * b;
      MultipleModZero(-k, b);
    }
  }
}
