/** UTF-8 (section 3 of RFC 3629), and decoding that skips what is not a whole character. */
module Utf8 {
  import opened ByteStrings

  predicate IsContinuation(b: Byte) { 0x80 <= b < 0xC0 }

  function EncodeChar(c: char): (bytes: Bytes)
    ensures 1 <= |bytes| <= 4 && !IsContinuation(bytes[0])
    ensures forall i | 0 < i < |bytes| :: IsContinuation(bytes[i])
  {
    var n := c as int;
    if n < 0x80 then [n]
    else if n < 0x800 then [0xC0 + n / 64, 0x80 + n % 64]
    else if n < 0x1_0000 then [0xE0 + n / 4096, 0x80 + n / 64 % 64, 0x80 + n % 64]
    else [0xF0 + n / 262144, 0x80 + n / 4096 % 64, 0x80 + n / 64 % 64, 0x80 + n % 64]
  }

  /** The bytes of a character carry the bits of its number, six to a continuation byte, behind the
      prefix that tells how many bytes there are. */
  lemma CharSpelled(c: char)
    ensures
      var n, b := c as int, EncodeChar(c);
      if n < 0x80 then b == [n]
      else if n < 0x800 then |b| == 2 && 0xC0 <= b[0] < 0xE0 && n == (b[0] as int - 0xC0) * 64 + (b[1] as int - 0x80)
      else if n < 0x1_0000 then
        && |b| == 3 && 0xE0 <= b[0] < 0xF0
        && n == (b[0] as int - 0xE0) * 4096 + (b[1] as int - 0x80) * 64 + (b[2] as int - 0x80)
      else
        && |b| == 4 && 0xF0 <= b[0] < 0xF8
        && n == (b[0] as int - 0xF0) * 262144 + (b[1] as int - 0x80) * 4096 + (b[2] as int - 0x80) * 64 + (b[3] as int - 0x80)
  {
    Digits(c as int);
  }

  /** `encode("utf-8")`. */
  function Encode(s: string): Bytes { if s == "" then [] else EncodeChar(s[0]) + Encode(s[1..]) }

  /** The length a first byte announces; 0 for a byte that cannot start a character. */
  function Announced(b: Byte): nat {
    if b < 0x80 then 1 else if 0xC2 <= b < 0xE0 then 2 else if 0xE0 <= b < 0xF0 then 3 else if 0xF0 <= b < 0xF5 then 4 else 0
  }

  /** The six bits a continuation byte carries. */
  function Low(b: Byte): (n: nat)
    requires IsContinuation(b)
    ensures n < 64
  {
    b as int - 0x80
  }

  /** The number the first n bytes spell. */
  function Spelled(bytes: Bytes, n: nat): nat
    requires 1 <= n <= 4 && n <= |bytes|
    requires n == Announced(bytes[0]) && forall i | 0 < i < n :: IsContinuation(bytes[i])
  {
    match n
    case 1 => bytes[0] as int
    case 2 => (bytes[0] as int - 0xC0) * 64 + Low(bytes[1])
    case 3 => (bytes[0] as int - 0xE0) * 4096 + Low(bytes[1]) * 64 + Low(bytes[2])
    case _ => (bytes[0] as int - 0xF0) * 262144 + Low(bytes[1]) * 4096 + Low(bytes[2]) * 64 + Low(bytes[3])
  }

  predicate IsScalar(n: nat) { n < 0xD800 || 0xE000 <= n < 0x11_0000 }

  /** The smallest number that takes n bytes. */
  function Least(n: nat): nat { if n == 1 then 0 else if n == 2 then 0x80 else if n == 3 then 0x800 else 0x1_0000 }

  /** A whole character stands at the front. */
  predicate StartsWhole(bytes: Bytes) {
    bytes != [] &&
    var n := Announced(bytes[0]);
    && 1 <= n <= |bytes| && (forall i | 0 < i < n :: IsContinuation(bytes[i]))
    && IsScalar(Spelled(bytes, n)) && Spelled(bytes, n) >= Least(n)
  }

  /** `decode("utf-8", errors="ignore")`, skipping one byte at a time. */
  function DecodeIgnore(bytes: Bytes): string {
    if bytes == [] then ""
    else if StartsWhole(bytes) then
      var n := Announced(bytes[0]);
      [Spelled(bytes, n) as char] + DecodeIgnore(bytes[n..])
    else DecodeIgnore(bytes[1..])
  }

  lemma Digits(n: nat)
    ensures n == n / 64 * 64 + n % 64
    ensures n == n / 4096 * 4096 + n / 64 % 64 * 64 + n % 64
    ensures n == n / 262144 * 262144 + n / 4096 % 64 * 4096 + n / 64 % 64 * 64 + n % 64
  {
    var q := n / 64;
    var p := q / 64;
    assert n == 64 * q + n % 64 && q == 64 * p + q % 64 && p == 64 * (p / 64) + p % 64;
    assert n == 4096 * p + (64 * (q % 64) + n % 64);
    Quotient(n, 4096, p, 64 * (q % 64) + n % 64);
    Quotient(n, 262144, p / 64, 4096 * (p % 64) + 64 * (q % 64) + n % 64);
  }

  lemma Quotient(n: nat, d: nat, q: nat, r: nat)
    requires r < d && n == d * q + r
    ensures n / d == q
  {
    var k := n / d;
    assert n == d * k + n % d;
    if k < q {
      Ordered(d, k + 1, q);
    } else if k > q {
      Ordered(d, q + 1, k);
    }
  }

  lemma Ordered(d: nat, a: nat, b: nat)
    requires a <= b
    ensures d * a <= d * b
  {
    assert d * b == d * a + d * (b - a);
  }

  lemma SpelledShort(c: char, bytes: Bytes)
    requires c as int < 0x800 && EncodeChar(c) <= bytes
    ensures Announced(bytes[0]) == |EncodeChar(c)| && Spelled(bytes, |EncodeChar(c)|) == c as int
  {
    var n, own := c as int, EncodeChar(c);
    Digits(n);
    assert bytes[0] == own[0];
    if n >= 0x80 {
      assert bytes[1] == own[1];
    }
  }

  lemma SpelledThree(c: char, bytes: Bytes)
    requires 0x800 <= c as int < 0x1_0000 && EncodeChar(c) <= bytes
    ensures Announced(bytes[0]) == 3 == |EncodeChar(c)|
    ensures (forall i | 0 < i < 3 :: IsContinuation(bytes[i])) && Spelled(bytes, 3) == c as int
  {
    var n, own := c as int, EncodeChar(c);
    Digits(n);
    assert bytes[0] == own[0] && bytes[1] == own[1] && bytes[2] == own[2];
  }

  lemma SpelledFour(c: char, bytes: Bytes)
    requires 0x1_0000 <= c as int && EncodeChar(c) <= bytes
    ensures Announced(bytes[0]) == 4 == |EncodeChar(c)|
    ensures (forall i | 0 < i < 4 :: IsContinuation(bytes[i])) && Spelled(bytes, 4) == c as int
  {
    var n, own := c as int, EncodeChar(c);
    Digits(n);
    assert bytes[0] == own[0] && bytes[1] == own[1] && bytes[2] == own[2] && bytes[3] == own[3];
  }

  lemma EncodedStarts(c: char, more: Bytes)
    ensures StartsWhole(EncodeChar(c) + more) && Announced((EncodeChar(c) + more)[0]) == |EncodeChar(c)|
    ensures Spelled(EncodeChar(c) + more, |EncodeChar(c)|) == c as int
  {
    var bytes := EncodeChar(c) + more;
    if c as int < 0x800 {
      SpelledShort(c, bytes);
    } else if c as int < 0x1_0000 {
      SpelledThree(c, bytes);
    } else {
      SpelledFour(c, bytes);
    }
  }

  /** Decoding what was encoded gives it back. */
  lemma {:induction false} DecodeOfEncode(s: string)
    ensures DecodeIgnore(Encode(s)) == s
  {
    if s != "" {
      EncodedStarts(s[0], Encode(s[1..]));
      DecodeOfEncode(s[1..]);
      assert Encode(s)[|EncodeChar(s[0])|..] == Encode(s[1..]);
    }
  }

  lemma {:induction false} EncodeConcat(a: string, b: string)
    ensures Encode(a + b) == Encode(a) + Encode(b)
  {
    if a == "" {
      assert a + b == b;
    } else {
      assert (a + b)[1..] == a[1..] + b;
      EncodeConcat(a[1..], b);
    }
  }

  /** The rest of a character that was cut is skipped. */
  lemma {:induction false} CutCharSkipped(cut: Bytes, s: string)
    requires forall i | 0 <= i < |cut| :: IsContinuation(cut[i])
    ensures DecodeIgnore(cut + Encode(s)) == s
  {
    if cut == [] {
      assert cut + Encode(s) == Encode(s);
      DecodeOfEncode(s);
    } else {
      assert (cut + Encode(s))[1..] == cut[1..] + Encode(s);
      assert Announced((cut + Encode(s))[0]) == 0;
      CutCharSkipped(cut[1..], s);
    }
  }

  /** The longest run of whole characters at the end that fits into size bytes. */
  function Fitting(s: string, size: nat): (k: nat)
    ensures k <= |s|
  {
    if |Encode(s)| <= size then 0 else assert s != ""; 1 + Fitting(s[1..], size)
  }

  /** Decoding the last bytes of a text keeps every character that is there whole, and those only. */
  lemma {:induction false} DecodeTail(s: string, size: nat)
    requires size <= |Encode(s)|
    ensures DecodeIgnore(Encode(s)[|Encode(s)| - size..]) == s[Fitting(s, size)..]
  {
    hide DecodeIgnore, EncodeChar;
    var bytes := Encode(s);
    if |bytes| == size {
      DecodeOfEncode(s);
      assert bytes[0..] == bytes;
    } else {
      var first, rest := EncodeChar(s[0]), Encode(s[1..]);
      if size <= |rest| {
        DecodeTail(s[1..], size);
        assert bytes[|bytes| - size..] == rest[|rest| - size..];
      } else {
        CutInFirst(first, rest, s[1..], size);
        assert Fitting(s[1..], size) == 0;
      }
    }
  }

  lemma CutInFirst(first: Bytes, rest: Bytes, s: string, size: nat)
    requires rest == Encode(s) && |rest| < size < |first| + |rest|
    requires forall i | 0 < i < |first| :: IsContinuation(first[i])
    ensures DecodeIgnore((first + rest)[|first + rest| - size..]) == s
  {
    hide DecodeIgnore, Encode;
    var from := |first + rest| - size;
    assert (first + rest)[from..] == first[from..] + rest;
    CutCharSkipped(first[from..], s);
  }

  /** What fits is the longest such run. */
  lemma {:induction false} FittingIsLongest(s: string, size: nat)
    ensures |Encode(s[Fitting(s, size)..])| <= size
    ensures forall k | 0 <= k < Fitting(s, size) :: |Encode(s[k..])| > size
  {
    if |Encode(s)| <= size {
      assert s[0..] == s;
    } else {
      FittingIsLongest(s[1..], size);
      assert s[0..] == s;
      forall k | 0 <= k < Fitting(s, size)
        ensures |Encode(s[k..])| > size
      {
        if k > 0 {
          assert s[k..] == s[1..][k - 1..];
        }
      }
      assert s[Fitting(s, size)..] == s[1..][Fitting(s[1..], size)..];
    }
  }
}
