/** Types shared by every part of the model: Go's byte, the error value, optional
    values, and Go's 32-bit signed integer arithmetic. */
module Common {

  /** Go's byte: an unsigned 8-bit value. */
  type byte = b: int | 0 <= b < 256

  /** A Go []byte. */
  type Bytes = seq<byte>

  /** The line break '\n'. */
  const NL: byte := 10

  datatype Option<+T> = None | Some(value: T)

  /** A Go error value, identified by the text its Error() method returns. */
  datatype Error = Error(text: string)

  /** A value or the error that took its place. */
  datatype Result<+T> = Ok(value: T) | Fail(error: Error)

  const TwoTo31: int := 0x8000_0000

  /** x fits in Go's int32. */
  predicate IsInt32(x: int) {
    -0x8000_0000 <= x < 0x8000_0000
  }

  /** Go's `x++` on an int32: two's-complement wrap-around past the largest value. */
  function Inc32(x: int): (r: int)
    requires IsInt32(x)
    ensures IsInt32(r)
  {
    if x == 0x7fff_ffff then -0x8000_0000 else x + 1
  }

  /** The value of an int32 counter that starts at 0 after n increments. */
  function Count32(n: nat): (r: int)
    ensures IsInt32(r)
  {
    if n == 0 then 0 else Inc32(Count32(n - 1))
  }

  /** Below 2^31 increments the counter holds the exact count. */
  lemma {:induction false} Count32Exact(n: nat)
    requires n < TwoTo31
    ensures Count32(n) == n
  {
    if n > 0 {
      Count32Exact(n - 1);
    }
  }

  /** The reference definition of int32 arithmetic: the two's-complement value
      of x modulo 2^32. */
  function Wrap32(x: int): (r: int)
    ensures IsInt32(r)
    ensures IsInt32(x) ==> r == x
  {
    var m := x % 0x1_0000_0000;
    if m < 0x8000_0000 then m else m - 0x1_0000_0000
  }

  /** An int32 increment is addition modulo 2^32. */
  lemma Inc32IsWrap(x: int)
    requires IsInt32(x)
    ensures Inc32(x) == Wrap32(x + 1)
  {
    if x == 0x7fff_ffff {
      assert (x + 1) % 0x1_0000_0000 == 0x8000_0000;
    }
  }

  /** The counter after n increments is n modulo 2^32, read as an int32. */
  lemma {:induction false} Count32IsWrap(n: nat)
    ensures Count32(n) == Wrap32(n)
  {
    if n > 0 {
      Count32IsWrap(n - 1);
      Inc32IsWrap(Count32(n - 1));
      Wrap32Succ(n - 1);
    }
  }

  /** Adding one after wrapping is the same as wrapping after adding one. */
  lemma Wrap32Succ(x: int)
    ensures Wrap32(Wrap32(x) + 1) == Wrap32(x + 1)
  {
    var q := x / 0x1_0000_0000;
    var m := x % 0x1_0000_0000;
    assert x == q * 0x1_0000_0000 + m;
    if m < 0x8000_0000 {
      assert Wrap32(x) == m;
      Wrap32Shift(m + 1, q);
    } else {
      assert Wrap32(x) == m - 0x1_0000_0000;
      Wrap32Shift(m + 1 - 0x1_0000_0000, q + 1);
    }
  }

  /** Wrap32 ignores multiples of 2^32. */
  lemma Wrap32Shift(y: int, q: int)
    ensures Wrap32(y + q * 0x1_0000_0000) == Wrap32(y)
  {
    assert (y + q * 0x1_0000_0000) % 0x1_0000_0000 == y % 0x1_0000_0000;
  }
}
