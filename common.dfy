/** Shared vocabulary of the model: optional values, error results and the
    fixed-width integer conversions that the C++ sources perform implicitly. */
module Common {

  datatype Option<+T> = None | Some(value: T)

  /** Outcome of an operation that the sources can abort (a failed `assert`,
      a `panic`, an uncaught exception or undefined behaviour). */
  datatype Result<+T> = Ok(value: T) | Fail(reason: string) {
    predicate IsFailure() { Fail? }
  }

  const TWO_32: int := 0x1_0000_0000
  const TWO_64: int := 0x1_0000_0000_0000_0000

  /** A 64-bit unsigned address or line address (`Address`). */
  type Address = a: int | 0 <= a < TWO_64

  /** The value of `x` converted to `uint32_t` (reduction modulo 2^32). */
  function Wrap32(x: int): nat {
    x % TWO_32
  }

  /** The value of `x` converted to `uint64_t`. */
  function Wrap64(x: int): nat {
    x % TWO_64
  }

  /** A value held in a 64-bit unsigned integer. */
  type U64 = x: int | 0 <= x < TWO_64

  /** Adding a 64-bit value `l` to `c` in `uint64_t` lands strictly past `c`
      exactly when `l` is positive and the sum does not wrap around. */
  lemma Wrap64Past(c: nat, l: U64)
    ensures Wrap64(c + l) > c <==> l > 0 && c + l < TWO_64
  {
    if c + l >= TWO_64 && c < TWO_64 {
      assert 0 <= c + l - TWO_64 < TWO_64;
      assert Wrap64(c + l) == c + l - TWO_64;
    }
  }

  /** Values that fit are left alone by the conversions. */
  lemma WrapSmall(x: int)
    requires 0 <= x < TWO_32
    ensures Wrap32(x) == x && Wrap64(x) == x
  {
  }

  /** Reinterpretation of a 32-bit pattern as `int32_t` (two's complement). */
  function ToInt32(x: int): int {
    var u := Wrap32(x);
    if u < TWO_32 / 2 then u else u - TWO_32
  }

  /** Reinterpretation of a 64-bit pattern as a signed `long`. */
  function ToInt64(x: int): int {
    var u := Wrap64(x);
    if u < TWO_64 / 2 then u else u - TWO_64
  }

  function Max(a: int, b: int): int {
    if a >= b then a else b
  }

  function Min(a: int, b: int): int {
    if a <= b then a else b
  }

  /** C's `/` on signed integers: truncation toward zero. */
  function CDiv(a: int, b: int): int
    requires b != 0
  {
    var q := (if a >= 0 then a else -a) / (if b >= 0 then b else -b);
    if (a >= 0) == (b >= 0) then q else -q
  }
}
