/**
 * Shared vocabulary for the C string handling of the status generator:
 * optional values (a NULL `char *`), what `snprintf`/`strlcpy` leave in a
 * fixed-size buffer, and the decimal text printed by `%d` and `%02d`.
 * C strings are modelled as `seq<char>` holding bytes; they never contain NUL.
 */
module CString {

  datatype Option<+T> = None | Some(value: T)

  /** A C string: a byte string without an embedded NUL. */
  predicate NoNul(s: string) {
    forall i :: 0 <= i < |s| ==> s[i] != '\0'
  }

  /** The first `max` bytes of `s`: what a buffer of `max + 1` bytes keeps of it. */
  function Truncate(s: string, max: nat): (r: string)
    ensures |r| <= max && |r| <= |s|
    ensures |s| <= max ==> r == s
    ensures r == s[..|r|]
  {
    if |s| <= max then s else s[..max]
  }

  /**
   * `snprintf(buf + at, size - at, "%s", s)` (or `strlcpy`) on a buffer of `size`
   * bytes that already holds the C string `buf` of length `at`: the new contents.
   */
  function WriteAt(buf: string, size: nat, s: string): (r: string)
    requires |buf| < size
    ensures |r| == if |buf| + |s| < size then |buf| + |s| else size - 1
    ensures |buf| <= |r| && r[..|buf|] == buf && r[|buf|..] == s[..|r| - |buf|]
  {
    buf + Truncate(s, size - 1 - |buf|)
  }

  /** Truncating twice in a row is truncating once to the joined text. */
  lemma {:induction false} TruncateAppend(a: string, b: string, max: nat)
    ensures |Truncate(a, max)| < max + 1
    ensures |Truncate(a, max)| == max || Truncate(a, max) == a
    ensures Truncate(Truncate(a, max) + b, max) == Truncate(a + b, max)
  {
    if |a| > max {
      assert Truncate(a, max) == a[..max];
      assert (a + b)[..max] == a[..max];
      assert (a[..max] + b)[..max] == a[..max];
    }
  }

  /** Appending to a buffer whose contents are a truncation of `a` gives the truncation of `a + b`. */
  lemma WriteAtTruncated(a: string, b: string, size: nat)
    requires size > 0
    ensures |Truncate(a, size - 1)| < size
    ensures WriteAt(Truncate(a, size - 1), size, b) == Truncate(a + b, size - 1)
  {
    var t := Truncate(a, size - 1);
    if |a| <= size - 1 {
      assert t == a;
      assert WriteAt(t, size, b) == a + Truncate(b, size - 1 - |a|);
      if |a + b| <= size - 1 {
      } else {
        assert (a + b)[..size - 1] == a + b[..size - 1 - |a|];
      }
    } else {
      assert |t| == size - 1;
      assert Truncate(b, 0) == [];
      assert (a + b)[..size - 1] == a[..size - 1];
    }
  }

  // ---------------------------------------------------------------------
  // Decimal text, as printed by `%d`

  predicate IsDigit(c: char) {
    '0' <= c <= '9'
  }

  predicate AllDigits(s: string) {
    forall i :: 0 <= i < |s| ==> IsDigit(s[i])
  }

  function DigitChar(d: nat): (c: char)
    requires d < 10
    ensures IsDigit(c)
  {
    "0123456789"[d]
  }

  function DigitValue(c: char): (d: nat)
    requires IsDigit(c)
    ensures d < 10
  {
    (c as int - '0' as int) as nat
  }

  lemma DigitRoundTrip(d: nat)
    requires d < 10
    ensures DigitValue(DigitChar(d)) == d
  {
  }

  /** `%d` of a non-negative number: its shortest decimal text. */
  function NatText(n: nat): (r: string)
    ensures |r| >= 1 && AllDigits(r)
  {
    if n < 10 then [DigitChar(n)] else NatText(n / 10) + [DigitChar(n % 10)]
  }

  /** `%d` of any number: a minus sign before the digits of a negative one. */
  function IntText(i: int): (r: string)
    ensures i >= 0 ==> r == NatText(i)
    ensures i < 0 ==> |r| >= 2 && r[0] == '-' && r[1..] == NatText(-i)
  {
    if i < 0 then "-" + NatText(-i) else NatText(i)
  }

  /** `%02d` of a number below 100: always two digits. */
  function Pad2(n: nat): (r: string)
    requires n < 100
    ensures |r| == 2 && AllDigits(r)
  {
    if n < 10 then ['0', DigitChar(n)] else [DigitChar(n / 10), DigitChar(n % 10)]
  }

  /** The value of a decimal numeral (leading zeros allowed). */
  function ParseNat(s: string): nat
    requires |s| >= 1 && AllDigits(s)
  {
    if |s| == 1 then DigitValue(s[0])
    else ParseNat(s[..|s| - 1]) * 10 + DigitValue(s[|s| - 1])
  }

  /** `%d` text reads back as the number printed. */
  lemma {:induction false} NatTextRoundTrip(n: nat)
    ensures ParseNat(NatText(n)) == n
  {
    if n >= 10 {
      var s := NatText(n);
      NatTextRoundTrip(n / 10);
      assert s[..|s| - 1] == NatText(n / 10);
      DigitRoundTrip(n % 10);
    } else {
      DigitRoundTrip(n);
    }
  }

  /** `%02d` text reads back as the number printed. */
  lemma Pad2RoundTrip(n: nat)
    requires n < 100
    ensures ParseNat(Pad2(n)) == n
  {
    var r := Pad2(n);
    assert r[..1] == [r[0]];
    if n < 10 {
      DigitRoundTrip(n);
      DigitRoundTrip(0);
    } else {
      DigitRoundTrip(n / 10);
      DigitRoundTrip(n % 10);
    }
  }

  function Pow10(k: nat): (p: nat)
    ensures p >= 1
  {
    if k == 0 then 1 else 10 * Pow10(k - 1)
  }

  /** A number below 10^k prints in at most k digits. */
  lemma {:induction false} NatTextLength(n: nat, k: nat)
    requires k >= 1 && n < Pow10(k)
    ensures |NatText(n)| <= k
  {
    if n >= 10 {
      assert Pow10(1) == 10;
      assert k != 1;
      NatTextLength(n / 10, k - 1);
    }
  }

  /** A decimal numeral has no character other than digits, so no ':' or '%' or '-'. */
  lemma DigitsHaveNo(s: string, c: char)
    requires AllDigits(s) && !IsDigit(c)
    ensures c !in s
  {
  }

  // ---------------------------------------------------------------------
  // C integer arithmetic

  /** C's `/` on `int`: the quotient truncated toward zero. */
  function CDiv(a: int, b: int): (q: int)
    requires b != 0
  {
    if (a >= 0) == (b > 0) then
      (if a >= 0 then a else -a) / (if b > 0 then b else -b)
    else
      -((if a >= 0 then a else -a) / (if b > 0 then b else -b))
  }

  const INT32_MIN: int := -0x8000_0000
  const INT32_MAX: int := 0x7fff_ffff

  /** Converting an `unsigned int` to `int`: values of 2^31 and more become negative. */
  function UintToInt(u: int): (i: int)
    requires 0 <= u < 0x1_0000_0000
    ensures INT32_MIN <= i <= INT32_MAX
    ensures i >= 0 <==> u < 0x8000_0000
    ensures i % 0x1_0000_0000 == u
  {
    if u < 0x8000_0000 then u else u - 0x1_0000_0000
  }

  /** The C string at the start of `s`: everything before the first NUL. */
  function CStr(s: seq<char>): (r: seq<char>)
    ensures |r| <= |s| && r == s[..|r|] && '\0' !in r
    ensures |r| < |s| ==> s[|r|] == '\0'
  {
    if |s| == 0 || s[0] == '\0' then []
    else
      var t := CStr(s[1..]);
      assert s[..1 + |t|] == [s[0]] + t;
      [s[0]] + t
  }

  /** A buffer holding `t` and then a NUL holds the C string of `t`. */
  lemma {:induction false} CStrOfTerminated(s: seq<char>, t: seq<char>)
    requires |t| < |s| && s[..|t|] == t && s[|t|] == '\0'
    ensures CStr(s) == CStr(t)
    decreases |t|
  {
    if |t| > 0 && t[0] != '\0' {
      assert s[1..][..|t| - 1] == t[1..];
      CStrOfTerminated(s[1..], t[1..]);
    }
  }

  /** Copy `t` into `a` from index `at` on, as `strlcpy` or `memcpy` do; the rest of `a` is left alone. */
  method Put(a: array<char>, at: nat, t: seq<char>)
    requires at + |t| <= a.Length
    modifies a
    ensures a[..at] == old(a[..at])
    ensures a[at..at + |t|] == t
    ensures a[at + |t|..] == old(a[at + |t|..])
  {
    forall k | 0 <= k < |t| {
      a[at + k] := t[k];
    }
  }

  /** A buffer that holds `x`, then `y`, then a NUL holds the C string `x + y`. */
  lemma CStrOfParts(s: seq<char>, x: seq<char>, y: seq<char>)
    requires |x| + |y| < |s| && '\0' !in x && '\0' !in y
    requires s[..|x|] == x && s[|x|..|x| + |y| + 1] == y + ['\0']
    ensures CStr(s) == x + y
  {
    assert s[|x| + |y|] == s[|x|..|x| + |y| + 1][|y|];
    assert s[..|x + y|] == x + y by {
      forall k | |x| <= k < |x| + |y|
        ensures s[k] == y[k - |x|]
      {
        assert s[k] == s[|x|..|x| + |y| + 1][k - |x|];
      }
    }
    CStrOfTerminated(s, x + y);
    CStrWhole(x + y);
  }

  /** A C string without NUL is read back whole. */
  lemma {:induction false} CStrWhole(t: seq<char>)
    requires '\0' !in t
    ensures CStr(t) == t
  {
    if |t| > 0 {
      assert t[1..] == t[|t| - |t[1..]|..];
      CStrWhole(t[1..]);
      assert t == [t[0]] + t[1..];
    }
  }
}
