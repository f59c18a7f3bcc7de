/** The string operations of JavaScript that the core uses:
    `Number.prototype.toString(radix)` for naturals, `String.prototype.slice(-k)`,
    `padStart`, `toLowerCase` (restricted to ASCII letters) and `includes`. */
module Strings {

  /** The digit characters of radix 16; the lower radices use a prefix. */
  const Digits: string := "0123456789abcdef"

  function Pow(b: nat, k: nat): (r: nat)
    ensures b >= 1 ==> r >= 1
  {
    if k == 0 then 1 else b * Pow(b, k - 1)
  }

  /** The value of a digit character of radix 16 or less. */
  function DigitValue(c: char): nat
  {
    if '0' <= c <= '9' then c as int - '0' as int
    else if 'a' <= c <= 'f' then c as int - 'a' as int + 10
    else 0
  }

  function DigitChar(d: nat): (c: char)
    requires d < 16
    ensures DigitValue(c) == d
    ensures '0' <= c <= '9' <==> d < 10
  {
    if d < 10 then ('0' as int + d) as char else ('a' as int + d - 10) as char
  }

  predicate IsDecimalDigit(c: char) { '0' <= c <= '9' }

  /** `n.toString(radix)` for a natural `n`: most significant digit first,
      no leading zeros, lower-case letters above 9. */
  function NumberToString(n: nat, radix: nat): (s: string)
    requires 2 <= radix <= 16
    ensures |s| >= 1
    ensures forall i :: 0 <= i < |s| ==> DigitValue(s[i]) < radix
    ensures radix == 10 ==> forall i :: 0 <= i < |s| ==> IsDecimalDigit(s[i])
    decreases n
  {
    if n < radix then [DigitChar(n)]
    else
      QuotientSmaller(n, radix);
      NumberToString(n / radix, radix) + [DigitChar(n % radix)]
  }

  /** `String(n)` for a natural `n`. */
  function Decimal(n: nat): (s: string)
    ensures |s| >= 1 && forall i :: 0 <= i < |s| ==> IsDecimalDigit(s[i])
  {
    NumberToString(n, 10)
  }

  /** The number a digit string denotes in the given radix (a reference
      reading of digit strings, independent of how they are produced). */
  function ValueOf(s: string, radix: nat): nat
  {
    if s == [] then 0 else ValueOf(s[..|s| - 1], radix) * radix + DigitValue(s[|s| - 1])
  }

  /** Printing a natural and reading the digits back gives the natural. */
  lemma {:induction false} NumberToStringRoundTrip(n: nat, radix: nat)
    requires 2 <= radix <= 16
    ensures ValueOf(NumberToString(n, radix), radix) == n
    decreases n
  {
    if n >= radix {
      var q, d := n / radix, n % radix;
      var a := NumberToString(q, radix);
      var c := DigitChar(d);
      assert NumberToString(n, radix) == a + [c];
      QuotientSmaller(n, radix);
      NumberToStringRoundTrip(q, radix);
      DivMod(n, radix);
      AppendDigit(a, c, radix, q, d, n);
    } else {
      AppendDigit([], DigitChar(n), radix, 0, n, n);
      assert [] + [DigitChar(n)] == NumberToString(n, radix);
    }
  }

  /** Appending the digit of `d` to digits denoting `q` denotes `q * radix + d`. */
  lemma AppendDigit(a: string, c: char, radix: nat, q: nat, d: nat, n: nat)
    requires ValueOf(a, radix) == q && DigitValue(c) == d && n == q * radix + d
    ensures ValueOf(a + [c], radix) == n
  {
    ValueOfSnoc(a, radix, c);
  }

  lemma QuotientSmaller(n: nat, d: nat)
    requires d >= 2 && n >= 1
    ensures n / d < n
  {
    var q := n / d;
    assert n == d * q + n % d;
    assert d * q >= 2 * q by {
      assert (d - 2) * q >= 0;
    }
  }

  lemma DivMod(n: nat, d: nat)
    requires d >= 1
    ensures n == (n / d) * d + n % d
  {
  }

  /** Reading one more digit multiplies the value so far by the radix. */
  lemma ValueOfSnoc(a: string, radix: nat, c: char)
    ensures ValueOf(a + [c], radix) == ValueOf(a, radix) * radix + DigitValue(c)
  {
    var s := a + [c];
    assert s[..|s| - 1] == a;
  }

  lemma DivBelow(n: nat, r: nat, m: nat)
    requires r >= 1
    ensures n / r < m <==> n < r * m
  {
    var q, t := n / r, n % r;
    assert n == r * q + t && 0 <= t < r;
    if q < m {
      assert q + 1 <= m;
      assert r * (q + 1) <= r * m;
    } else {
      assert r * q >= r * m;
    }
  }

  lemma {:induction false} PowPositiveMonotone(b: nat, k: nat)
    requires b >= 2 && k >= 1
    ensures Pow(b, k) >= b
  {
    if k > 1 {
      PowPositiveMonotone(b, k - 1);
    }
  }

  /** `n.toString(radix)` has at most `k` digits exactly when `n < radix^k`. */
  lemma {:induction false} NumberToStringLength(n: nat, radix: nat, k: nat)
    requires 2 <= radix <= 16 && k >= 1
    ensures |NumberToString(n, radix)| <= k <==> n < Pow(radix, k)
    decreases n
  {
    PowPositiveMonotone(radix, k);
    if n >= radix {
      if k > 1 {
        NumberToStringLength(n / radix, radix, k - 1);
        DivBelow(n, radix, Pow(radix, k - 1));
      }
    }
  }

  /** The last `k` characters of `s`, or all of a shorter string. */
  function TakeLast(s: string, k: nat): (r: string)
    ensures |r| == if |s| <= k then |s| else k
  {
    if |s| <= k then s else s[|s| - k..]
  }

  /** `s.slice(-k)`: `-0` is `0`, so `k == 0` keeps the whole string, and
      any other `k` keeps the last `k` characters. */
  function SliceFromEnd(s: string, k: nat): (r: string)
    ensures |r| == if k == 0 || |s| <= k then |s| else k
    ensures k >= 1 ==> r == TakeLast(s, k)
  {
    if k == 0 then s else TakeLast(s, k)
  }

  /** What `slice(-k)` keeps is a suffix of the string. */
  lemma SliceFromEndIsSuffix(s: string, k: nat)
    ensures forall i :: 0 <= i < |SliceFromEnd(s, k)| ==> SliceFromEnd(s, k)[i] == s[|s| - |SliceFromEnd(s, k)| + i]
  {
  }

  /** `s.padStart(width, fill)` with a one-character fill. */
  function PadStart(s: string, width: nat, fill: char): (r: string)
    ensures |r| == if |s| >= width then |s| else width
  {
    if |s| >= width then s else seq(width - |s|, _ => fill) + s
  }

  /** Every character is a decimal digit. */
  predicate AllDecimal(s: string)
  {
    forall i :: 0 <= i < |s| ==> IsDecimalDigit(s[i])
  }

  /** The last digits of a digit string are digits. */
  lemma SliceFromEndDigits(s: string, k: nat)
    requires AllDecimal(s)
    ensures AllDecimal(SliceFromEnd(s, k))
  {
    SliceFromEndIsSuffix(s, k);
  }

  /** Zero padding keeps a digit string all digits. */
  lemma PadStartDigits(s: string, width: nat)
    requires AllDecimal(s)
    ensures AllDecimal(PadStart(s, width, '0'))
  {
    var r := PadStart(s, width, '0');
    if |s| < width {
      assert forall i :: 0 <= i < |r| ==> r[i] == if i < width - |s| then '0' else s[i - (width - |s|)];
    }
  }

  lemma {:induction false} MulAtLeast(d: int, x: int)
    requires d >= 0 && x >= 1
    ensures d * x >= d
    decreases x
  {
    if x > 1 {
      MulAtLeast(d, x - 1);
      assert d * x == d * (x - 1) + d;
    }
  }

  lemma MulSign(d: int, x: int)
    requires d >= 1
    ensures x >= 1 ==> d * x >= d
    ensures x <= -1 ==> d * x <= -d
  {
    if x >= 1 {
      MulAtLeast(d, x);
    }
    if x <= -1 {
      MulAtLeast(d, -x);
      assert d * x == -(d * -x);
    }
  }

  /** Euclidean division has one quotient and one remainder. */
  lemma ModUnique(n: int, d: int, q: int, r: int)
    requires d >= 1 && n == d * q + r && 0 <= r < d
    ensures n % d == r && n / d == q
  {
    var q', r' := n / d, n % d;
    assert n == d * q' + r' && 0 <= r' < d;
    assert d * (q - q') == r' - r;
    MulSign(d, q - q');
  }

  /** The low digits of `n / b`, shifted back, together with the last digit
      of `n`, are the low digits of `n`. */
  lemma ModOfQuotient(n: nat, b: nat, m: nat)
    requires b >= 1 && m >= 1
    ensures (n / b % m) * b + n % b == n % (b * m)
  {
    var q, t := n / b, n % b;
    var a, c := q / m, q % m;
    DivMod(n, b);
    DivMod(q, m);
    Recompose(n, b, m, q, t, a, c);
    ModUnique(n, b * m, a, c * b + t);
  }

  /** Two Euclidean divisions in a row, put back together. */
  lemma Recompose(n: int, b: int, m: int, q: int, t: int, a: int, c: int)
    requires b >= 1 && m >= 1
    requires n == q * b + t && 0 <= t < b
    requires q == a * m + c && 0 <= c < m
    ensures n == (b * m) * a + (c * b + t)
    ensures 0 <= c * b + t < b * m
  {
    MulAddRight(a * m, c, b);
    MulRearrange(a, m, b);
    MulNonneg(m - 1 - c, b);
    MulAddRight(m - 1 - c, c, b);
    MulAddRight(m, -1, b);
    MulNonneg(c, b);
  }

  lemma MulAddRight(x: int, y: int, z: int)
    ensures (x + y) * z == x * z + y * z
  {
  }

  lemma MulRearrange(a: int, m: int, b: int)
    ensures (a * m) * b == (b * m) * a
  {
  }

  lemma MulNonneg(x: int, y: int)
    requires x >= 0 && y >= 0
    ensures x * y >= 0
  {
  }

  /** The last `k` digits of `n.toString(radix)` denote `n` modulo `radix^k`. */
  lemma {:induction false} LastDigits(n: nat, radix: nat, k: nat)
    requires 2 <= radix <= 16
    ensures ValueOf(TakeLast(NumberToString(n, radix), k), radix) == n % Pow(radix, k)
    decreases n
  {
    var s := NumberToString(n, radix);
    if k == 0 {
      assert TakeLast(s, k) == [];
      assert Pow(radix, k) == 1;
    } else if n < radix {
      PowPositiveMonotone(radix, k);
      assert TakeLast(s, k) == s;
      NumberToStringRoundTrip(n, radix);
      ModUnique(n, Pow(radix, k), 0, n);
    } else {
      var q, d := n / radix, n % radix;
      var a := NumberToString(q, radix);
      var c := DigitChar(d);
      var p := Pow(radix, k - 1);
      assert s == a + [c];
      var t := TakeLast(a, k - 1);
      TakeLastSnoc(a, c, k);
      ValueOfSnoc(t, radix, c);
      QuotientSmaller(n, radix);
      LastDigits(q, radix, k - 1);
      assert ValueOf(t, radix) == q % p;
      ModOfQuotient(n, radix, p);
      assert Pow(radix, k) == radix * p;
    }
  }

  lemma TakeLastSnoc(a: string, c: char, k: nat)
    requires k >= 1
    ensures TakeLast(a + [c], k) == TakeLast(a, k - 1) + [c]
  {
  }

  /** Leading zeros do not change the value of a digit string. */
  lemma {:induction false} LeadingZeros(z: string, s: string, radix: nat)
    requires forall i :: 0 <= i < |z| ==> z[i] == '0'
    ensures ValueOf(z + s, radix) == ValueOf(s, radix)
    decreases |z| + |s|
  {
    if s == [] {
      assert z + s == z;
      if z != [] {
        LeadingZeros(z[..|z| - 1], [], radix);
        assert z[..|z| - 1] + [] == z[..|z| - 1];
      }
    } else {
      assert (z + s)[..|z + s| - 1] == z + s[..|s| - 1];
      LeadingZeros(z, s[..|s| - 1], radix);
    }
  }

  /** Zero-padding keeps the value of a digit string. */
  lemma PadStartValue(s: string, width: nat, radix: nat)
    ensures ValueOf(PadStart(s, width, '0'), radix) == ValueOf(s, radix)
  {
    if |s| < width {
      LeadingZeros(seq(width - |s|, _ => '0'), s, radix);
    }
  }

  /** `c.toLowerCase()` on ASCII letters; every other character is kept. */
  function LowerChar(c: char): char
  {
    if 'A' <= c <= 'Z' then (c as int - 'A' as int + 'a' as int) as char else c
  }

  function ToLower(s: string): (r: string)
    ensures |r| == |s| && forall i :: 0 <= i < |s| ==> r[i] == LowerChar(s[i])
  {
    seq(|s|, i requires 0 <= i < |s| => LowerChar(s[i]))
  }

  predicate IsPrefix(p: string, s: string)
  {
    |p| <= |s| && s[..|p|] == p
  }

  /** `hay.includes(needle)`. */
  predicate Contains(hay: string, needle: string)
    decreases |hay|
  {
    IsPrefix(needle, hay) || (hay != [] && Contains(hay[1..], needle))
  }

  /** `includes` holds exactly when the needle occurs at some position. */
  lemma {:induction false} ContainsAt(hay: string, needle: string)
    ensures Contains(hay, needle) <==> exists i :: 0 <= i <= |hay| && IsPrefix(needle, hay[i..])
    decreases |hay|
  {
    assert hay[0..] == hay;
    if hay != [] {
      ContainsAt(hay[1..], needle);
      if exists i :: 0 <= i <= |hay| && IsPrefix(needle, hay[i..]) {
        var i :| 0 <= i <= |hay| && IsPrefix(needle, hay[i..]);
        if i > 0 {
          assert hay[1..][i - 1..] == hay[i..];
        }
      }
      if Contains(hay[1..], needle) {
        var j :| 0 <= j <= |hay[1..]| && IsPrefix(needle, hay[1..][j..]);
        assert hay[1..][j..] == hay[j + 1..];
      }
    }
  }
}
