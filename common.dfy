/** Small shared datatypes: an optional value, and the kernel drivers' error returns. */
module Wrappers {

  datatype Option<+T> = None | Some(value: T)
}

module Errno {

  /** The negative errno values the drivers return. A failed bus transaction surfaces the
      bus layer's own code unchanged, carried by Transport. */
  datatype Error = EInval | ENoDev | EBusy | Transport(code: int)

  /** A driver call either produces a value or fails with an errno. */
  datatype Result<+T> = Ok(value: T) | Err(error: Error)

  /** The unsigned widths the kernel parses sysfs input into. */
  type u32 = x: int | 0 <= x < 0x1_0000_0000
}

/** Facts of integer arithmetic the solver does not find unaided. */
module Arith {

  lemma DivisionBounds(m: int, n: int)
    requires 0 <= m && 0 < n
    ensures 0 <= m / n
    ensures (m / n) * n <= m < (m / n) * n + n
    ensures m == (m / n) * n + m % n
  {
  }

  lemma MulMonotone(a: int, n1: int, n2: int)
    requires 0 <= a && n1 <= n2
    ensures a * n1 <= a * n2
  {
  }

  /** Quotient uniqueness: q * n == m with n positive makes m / n equal q. */
  lemma ExactQuotient(m: int, n: int, q: int)
    requires n > 0 && q * n == m
    ensures m / n == q
  {
    var r := m / n;
    assert m == r * n + m % n;
    assert (q - r) * n == m % n;
    MulMonotone(if q - r > 0 then q - r else r - q, 1, n);
  }

  lemma ByteRoundTrip(x: int)
    requires 0 <= x < 256
    ensures (x as bv8) as int == x
  {
    // Splitting the range keeps the solver's bit-vector conversion small.
    if x < 32 {} else if x < 64 {} else if x < 96 {} else if x < 128 {}
    else if x < 160 {} else if x < 192 {} else if x < 224 {} else {}
  }

  /** A number below 65536 has one high byte and one low byte. */
  lemma SplitUnique(h1: int, l1: int, h2: int, l2: int)
    requires 0 <= l1 < 256 && 0 <= l2 < 256
    requires h1 * 256 + l1 == h2 * 256 + l2
    ensures h1 == h2 && l1 == l2
  {
    MulMonotone(if h1 > h2 then h1 - h2 else h2 - h1, 1, 256);
    assert (h1 - h2) * 256 == l2 - l1;
  }
}
