/** The two pieces of size arithmetic the library offers its callers:
    the constant-buffer size quantum and the work-group count of a dispatch. */
module Sizes {
  import opened Ints

  /** Direct3D 12 places constant buffers at, and sizes them in, multiples of 256 bytes. */
  const CONSTANT_BUFFER_QUANTUM: nat := 256

  /** On 32-bit words, masking with `0xFFFFFF00` is subtracting the remainder
      modulo 256; the model states the mask in that arithmetic form. */
  lemma MaskClearsLowByte(x: bv32)
    ensures x & 0xFFFF_FF00 == x - x % 256
  {
  }

  /** `constantBufferSize`: `(bytes + 255) & 0xFFFFFF00` in `uint32_t`, so the
      addition wraps around modulo 2^32 before the mask is applied. */
  function ConstantBufferSize(bytes: uint32): (r: uint32)
    ensures r as int % CONSTANT_BUFFER_QUANTUM == 0
    ensures bytes as int <= TWO_TO_THE_32 - 256 ==>
              bytes <= r && (r as int) < bytes as int + CONSTANT_BUFFER_QUANTUM
    ensures bytes as int > TWO_TO_THE_32 - 256 ==> r == 0
  {
    var wrapped := (bytes as int + 255) % TWO_TO_THE_32;
    (wrapped - wrapped % 256) as uint32
  }

  /** Without wrap-around the result is the least multiple of 256 that holds `bytes`. */
  lemma {:induction false} ConstantBufferSizeIsLeast(bytes: uint32, m: int)
    requires bytes as int <= TWO_TO_THE_32 - 256
    requires m % CONSTANT_BUFFER_QUANTUM == 0 && m >= bytes as int
    ensures ConstantBufferSize(bytes) as int <= m
  {
  }

  /** The worked examples listed beside `constantBufferSize`. */
  lemma ConstantBufferSizeExamples()
    ensures ConstantBufferSize(0) == 0
    ensures ConstantBufferSize(1) == 256
    ensures ConstantBufferSize(255) == 256
    ensures ConstantBufferSize(256) == 256
    ensures ConstantBufferSize(257) == 512
    ensures ConstantBufferSize(258) == 512
  {
  }

  /** `dispatchsize`: `(n + threads - 1) / threads` on `int64_t`, where `/`
      truncates toward zero. A zero divisor and a signed overflow are undefined
      in C++, so callers must avoid them; the sum `n + threads` is formed
      first, and it must fit as well as the difference. */
  function DispatchSize(n: int64, threads: int64): (r: int64)
    requires threads != 0
    requires InInt64(n as int + threads as int) && InInt64(n as int + threads as int - 1)
    requires InInt64(TruncDiv(n as int + threads as int - 1, threads as int))
  {
    TruncDiv(n as int + threads as int - 1, threads as int) as int64
  }

  /** `(n + t - 1) / t` is the ceiling of `n / t` on non-negative integers. */
  lemma {:induction false} CeilingDivision(n: nat, t: nat)
    requires t > 0
    ensures var q := (n + t - 1) / t;
            q >= 0 && q * t >= n && (q - 1) * t < n
  {
    var a := n + t - 1;
    var q, rem := a / t, a % t;
    assert a == q * t + rem && 0 <= rem < t;
    assert (q - 1) * t == q * t - t;
  }

  /** For a non-negative element count and a positive group size the result is
      the ceiling of `n / threads`: enough groups to cover `n`, and one fewer would not. */
  lemma {:induction false} DispatchSizeIsCeiling(n: int64, threads: int64)
    requires n >= 0 && threads > 0
    requires InInt64(n as int + threads as int)
    ensures InInt64(TruncDiv(n as int + threads as int - 1, threads as int))
    ensures var r := DispatchSize(n, threads) as int;
            r >= 0 && r * (threads as int) >= n as int && (r - 1) * (threads as int) < n as int
  {
    CeilingDivision(n as int, threads as int);
    QuotientAtMost(n as int + threads as int - 1, threads as int);
  }
}
