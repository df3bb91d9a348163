/** The onion address encoder (`base32_encode_35`): section 6 of RFC 4648, lower case, no padding. */
module Base32 {
  import opened Bytes

  const ALPHABET := "abcdefghijklmnopqrstuvwxyz234567"
  const U64_LIMIT := 0x1_0000_0000_0000_0000

  /** The i-th most significant of the 56 base-32 digits of a 280-bit number. */
  function Digit(n: nat, i: nat): (d: nat)
    requires i < 56
    ensures d < 32
  {
    Pow2Positive(5 * (55 - i));
    n / Pow2(5 * (55 - i)) % 32
  }

  lemma {:induction false} Pow2Positive(n: nat)
    ensures Pow2(n) > 0
  {
    if n > 0 {
      Pow2Positive(n - 1);
    }
  }

  lemma {:induction false} Pow2Sum(a: nat, b: nat)
    ensures Pow2(a) * Pow2(b) == Pow2(a + b)
  {
    if a > 0 {
      Pow2Sum(a - 1, b);
      assert Pow2(a) * Pow2(b) == 2 * (Pow2(a - 1) * Pow2(b));
    }
  }

  lemma MulAtLeast(e: int, d: int)
    requires e >= 1 && d >= 0
    ensures e * d >= d
  {
    assert (e - 1) * d >= 0;
  }

  lemma SmallMultiple(e: int, d: int)
    requires -d < e * d < d
    ensures e == 0
  {
    if e >= 1 {
      MulAtLeast(e, d);
    } else if e <= -1 {
      MulAtLeast(-e, d);
    }
  }

  lemma DivUnique(x: nat, d: nat, q: int, r: nat)
    requires x == q * d + r && r < d
    ensures x / d == q && x % d == r
  {
    var p, m := x / d, x % d;
    Euclid(x, d);
    assert (p - q) * d == p * d - q * d;
    SmallMultiple(p - q, d);
  }

  lemma Euclid(x: nat, d: nat)
    requires d > 0
    ensures x == x / d * d + x % d && 0 <= x % d < d
  {
  }

  lemma DivDiv(x: nat, a: nat, b: nat)
    requires a > 0 && b > 0
    ensures a * b > 0 && x / (a * b) == x / a / b
  {
    Euclid(x, a);
    Euclid(x / a, b);
    Recombine(x, a, b, x / a / b, x / a % b, x % a);
  }

  lemma Recombine(x: nat, a: nat, b: nat, q: nat, s: nat, r: nat)
    requires x == (q * b + s) * a + r && s < b && r < a
    ensures a * b > 0 && x / (a * b) == q
  {
    assert (q * b + s) * a == q * (a * b) + s * a;
    MulAtLeast(b - s, a);
    assert (b - s) * a == a * b - s * a;
    assert s * a >= 0;
    DivUnique(x, a * b, q, s * a + r);
  }

  /** Dropping the trailing bytes of a big-endian number divides it. */
  lemma {:induction false} Truncated(data: seq<byte>, k: nat)
    requires k <= |data|
    ensures Pow2(8 * (|data| - k)) > 0 && FromBe(data) / Pow2(8 * (|data| - k)) == FromBe(data[..k])
    decreases |data|
  {
    var m := |data| - k;
    Pow2Positive(8 * m);
    if m == 0 {
      assert data[..k] == data;
    } else {
      var front := data[..|data| - 1];
      Truncated(front, k);
      assert front[..k] == data[..k];
      Pow2Sum(8, 8 * (m - 1));
      assert Pow2(8) == 256;
      Pow2Positive(8 * (m - 1));
      DivDiv(FromBe(data), 256, Pow2(8 * (m - 1)));
      DivUnique(FromBe(data), 256, FromBe(front), data[|data| - 1]);
    }
  }

  /** Reducing modulo a multiple of 32 p leaves the base-32 digit above p as it is. */
  lemma DigitModulo(n: nat, p: nat, c: nat, limit: nat)
    requires p > 0 && c > 0 && limit == p * (c * 32) && limit > 0
    ensures n % limit / p % 32 == n / p % 32
  {
    var q, m := n / limit, n % limit;
    Euclid(n, limit);
    Rearrange(q, p, c);
    DivAdd(q * c * 32, p, m);
    ModAdd(q * c, m / p);
  }

  lemma Rearrange(q: nat, p: nat, c: nat)
    ensures q * (p * (c * 32)) == q * c * 32 * p
  {
  }

  lemma ModAdd(k: nat, y: nat)
    ensures (k * 32 + y) % 32 == y % 32
  {
  }

  lemma DivAdd(t: nat, p: nat, m: nat)
    requires p > 0
    ensures (t * p + m) / p == t + m / p
  {
    Euclid(m, p);
    assert (t + m / p) * p == t * p + m / p * p;
    DivUnique(t * p + m, p, t + m / p, m % p);
  }

  lemma U64Bits()
    ensures Pow2(64) == U64_LIMIT
  {
    assert Pow2(8) == 256;
    Pow2Sum(8, 8);
    Pow2Sum(16, 16);
    Pow2Sum(32, 32);
  }

  /** Bits shifted out of the 64-bit accumulator never reach a digit. */
  lemma WrapIsHarmless(n: nat, bits: nat)
    requires bits <= 59
    ensures Pow2(bits) > 0 && n % U64_LIMIT / Pow2(bits) % 32 == n / Pow2(bits) % 32
  {
    Pow2Positive(bits);
    Pow2Positive(59 - bits);
    Pow2Sum(59 - bits, 5);
    Pow2Sum(bits, 64 - bits);
    assert Pow2(5) == 32;
    U64Bits();
    DigitModulo(n, Pow2(bits), Pow2(59 - bits), U64_LIMIT);
  }

  /** The digit read from the accumulator after `k` bytes is the one at its place in the whole number. */
  lemma DigitFromAccumulator(data: seq<byte>, k: nat, i: nat, bits: nat)
    requires |data| == 35 && k <= 35 && 8 * k == 5 * (i + 1) + bits && bits <= 7
    ensures i < 56 && Pow2(bits) > 0
    ensures FromBe(data[..k]) % U64_LIMIT / Pow2(bits) % 32 == Digit(FromBe(data), i)
  {
    Truncated(data, k);
    Pow2Positive(bits);
    Pow2Sum(8 * (35 - k), bits);
    DivDiv(FromBe(data), Pow2(8 * (35 - k)), Pow2(bits));
    WrapIsHarmless(FromBe(data[..k]), bits);
  }

  /** `out` starts with the first `i` digits of `n`. */
  ghost predicate Written(out: seq<char>, n: nat, i: nat) {
    i <= 56 && i <= |out| && forall j :: 0 <= j < i ==> out[j] == ALPHABET[Digit(n, j)]
  }

  lemma WrittenNone(out: seq<char>, n: nat)
    ensures Written(out, n, 0)
  {
  }

  lemma WrittenNext(out: seq<char>, n: nat, i: nat, more: seq<char>)
    requires Written(out, n, i) && i < 56 && i < |out| && more == out[i := ALPHABET[Digit(n, i)]]
    ensures Written(more, n, i + 1)
  {
  }

  /** `encoded` spells the 56 digits of `n`. */
  ghost predicate Spells(encoded: seq<char>, n: nat) {
    |encoded| == 56 && Written(encoded, n, 56)
  }

  /** Exactly 56 characters, the i-th naming the i-th base-32 digit of the big-endian input. */
  method Base32Encode35(data: seq<byte>) returns (out: array<char>)
    requires |data| == 35
    ensures fresh(out) && Spells(out[..], FromBe(data))
  {
    hide Digit, Written, Pow2;
    out := new char[56](_ => 'a');
    var buffer, bitsLeft, i := 0, 0, 0;
    WrittenNone(out[..], FromBe(data));
    ghost var n := FromBe(data);
    for k := 0 to 35
      invariant 8 * k == 5 * i + bitsLeft && 0 <= bitsLeft < 5 && 0 <= i
      invariant buffer == FromBe(data[..k]) % U64_LIMIT
      invariant Written(out[..], n, i)
    {
      assert data[..k + 1][..k] == data[..k];
      Shifted(FromBe(data[..k]), data[k]);
      buffer := (buffer * 256) % U64_LIMIT + data[k];
      bitsLeft := bitsLeft + 8;
      while bitsLeft >= 5
        invariant 8 * (k + 1) == 5 * i + bitsLeft && 0 <= bitsLeft <= 12 && 0 <= i
        invariant Written(out[..], n, i)
      {
        bitsLeft := bitsLeft - 5;
        DigitFromAccumulator(data, k + 1, i, bitsLeft);
        var digit := buffer / Pow2(bitsLeft) % 32;
        ghost var before := out[..];
        out[i] := ALPHABET[digit];
        WrittenNext(before, n, i, out[..]);
        i := i + 1;
      }
    }
  }

  /** Shifting the wrapped accumulator and filling in a byte is appending the byte, modulo the width. */
  lemma Shifted(n: nat, b: byte)
    ensures ((n % U64_LIMIT) * 256) % U64_LIMIT + b == (256 * n + b) % U64_LIMIT
  {
    var q, m := n / U64_LIMIT, n % U64_LIMIT;
    Euclid(n, U64_LIMIT);
    var p, r := m * 256 / U64_LIMIT, m * 256 % U64_LIMIT;
    Euclid(m * 256, U64_LIMIT);
    assert r == 256 * (m - p * (U64_LIMIT / 256));
    DivUnique(256 * n + b, U64_LIMIT, 256 * q + p, r + b);
  }

  function Value(c: char): nat {
    if 'a' <= c <= 'z' then (c - 'a') as nat else if '2' <= c <= '7' then (c - '2') as nat + 26 else 0
  }

  function Number(encoded: seq<char>): nat {
    if encoded == [] then 0 else 32 * Number(encoded[..|encoded| - 1]) + Value(encoded[|encoded| - 1])
  }

  lemma AlphabetValues(d: nat)
    requires d < 32
    ensures Value(ALPHABET[d]) == d
  {
  }

  /** The number above the k-th digit, shifted by one digit, plus that digit. */
  lemma TopDigits(n: nat, k: nat)
    requires 0 < k <= 56
    ensures Above(n, k) == 32 * Above(n, k - 1) + Digit(n, k - 1)
  {
    Pow2Positive(5 * (56 - k));
    Pow2Sum(5 * (56 - k), 5);
    assert Pow2(5) == 32;
    DivDiv(n, Pow2(5 * (56 - k)), 32);
  }

  function Above(n: nat, k: nat): int
    requires k <= 56
  {
    Pow2Positive(5 * (56 - k));
    n / Pow2(5 * (56 - k))
  }

  lemma {:induction false} PrefixNumber(n: nat, encoded: seq<char>, k: nat)
    requires Spells(encoded, n) && k <= 56 && Above(n, 0) == 0
    ensures Number(encoded[..k]) == Above(n, k)
  {
    if k > 0 {
      PrefixNumber(n, encoded, k - 1);
      assert encoded[..k][..k - 1] == encoded[..k - 1];
      AlphabetValues(Digit(n, k - 1));
      TopDigits(n, k);
    }
  }

  lemma SpelledNumber(data: seq<byte>, encoded: seq<char>)
    requires |data| == 35 && Spells(encoded, FromBe(data))
    ensures Number(encoded) == FromBe(data)
  {
    var n, k := FromBe(data), |encoded|;
    Truncated(data, 0);
    assert Above(n, 0) == 0;
    PrefixNumber(n, encoded, k);
    assert encoded[..k] == encoded;
  }

  /** The encoding can be undone: its characters spell the number whose bytes are the input. */
  lemma EncodingInvertible(data: seq<byte>, encoded: seq<char>)
    requires |data| == 35 && Spells(encoded, FromBe(data))
    ensures ToBe(Number(encoded), |data|) == data
  {
    SpelledNumber(data, encoded);
    BeRoundTrip(data);
  }

  /** The digits are the letters a to z and then 2 to 7. */
  lemma AlphabetIs(d: nat)
    requires d < 32
    ensures ALPHABET[d] as int == if d < 26 then 'a' as int + d else '2' as int + (d - 26)
  {
  }
}
