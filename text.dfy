/** Characters, decimal digits and the small numeric helpers the parser is built on.
    A C `char` of the sentence is a Dafny `char`; only its code point matters. */
module Text {

  datatype Option<T> = None | Some(value: T)

  /** C `isprint` in the "C" locale: 0x20 (space) through 0x7E (tilde). */
  predicate IsPrint(c: char) {
    ' ' <= c <= '~'
  }

  /** C `isdigit`. */
  predicate IsDigit(c: char) {
    '0' <= c <= '9'
  }

  predicate AllDigits(s: string) {
    forall i :: 0 <= i < |s| ==> IsDigit(s[i])
  }

  function DigitValue(c: char): (d: nat)
    requires IsDigit(c)
    ensures d < 10
  {
    (c as int) - ('0' as int)
  }

  function DigitChar(d: nat): (c: char)
    requires d < 10
    ensures IsDigit(c) && DigitValue(c) == d
  {
    (('0' as int) + d) as char
  }

  function Pow10(k: nat): (p: nat)
    ensures p >= 1
  {
    if k == 0 then 1 else 10 * Pow10(k - 1)
  }

  /** The number a string of decimal digits denotes, most significant digit first. */
  function DigitsValue(ds: string): (n: nat)
    requires AllDigits(ds)
    ensures n < Pow10(|ds|)
  {
    if ds == [] then 0 else DigitsValue(ds[..|ds| - 1]) * 10 + DigitValue(ds[|ds| - 1])
  }

  /** `n` written in decimal with at least `width` digits (zero padded on the left). */
  function DigitsOf(n: nat, width: nat): (ds: string)
    ensures AllDigits(ds) && |ds| >= width && |ds| >= 1
    decreases n + width
  {
    if n < 10 && width <= 1 then [DigitChar(n)]
    else DigitsOf(n / 10, if width == 0 then 0 else width - 1) + [DigitChar(n % 10)]
  }

  lemma DigitsValueSnoc(ds: string, c: char)
    requires AllDigits(ds) && IsDigit(c)
    ensures AllDigits(ds + [c]) && DigitsValue(ds + [c]) == DigitsValue(ds) * 10 + DigitValue(c)
  {
    assert (ds + [c])[..|ds|] == ds;
  }

  /** Reading back what `DigitsOf` wrote gives the number again. */
  lemma {:induction false} DigitsRoundTrip(n: nat, width: nat)
    ensures DigitsValue(DigitsOf(n, width)) == n
    decreases n + width
  {
    if n < 10 && width <= 1 {
    } else {
      var w := if width == 0 then 0 else width - 1;
      DigitsRoundTrip(n / 10, w);
      DigitsValueSnoc(DigitsOf(n / 10, w), DigitChar(n % 10));
    }
  }

  /** A number below 10^width is written with exactly `width` digits. */
  lemma {:induction false} DigitsOfWidth(n: nat, width: nat)
    requires width >= 1 && n < Pow10(width)
    ensures |DigitsOf(n, width)| == width
    decreases width
  {
    if n < 10 && width <= 1 {
    } else {
      DigitsOfWidth(n / 10, width - 1);
    }
  }

  lemma DigitsValueAppend(a: string, b: string)
    requires AllDigits(a) && AllDigits(b)
    ensures AllDigits(a + b) && DigitsValue(a + b) == DigitsValue(a) * Pow10(|b|) + DigitsValue(b)
    decreases |b|
  {
    if b == [] {
      assert a + b == a;
    } else {
      var b' := b[..|b| - 1];
      var c := b[|b| - 1];
      assert b == b' + [c];
      assert a + b == (a + b') + [c];
      DigitsValueAppend(a, b');
      DigitsValueSnoc(a + b', c);
      DigitsValueSnoc(b', c);
      var x, p := DigitsValue(a), Pow10(|b'|);
      assert Pow10(|b|) == 10 * p;
      calc {
        DigitsValue(a + b);
        (x * p + DigitsValue(b')) * 10 + DigitValue(c);
        { MulAssoc(x, p, 10); }
        x * (10 * p) + (DigitsValue(b') * 10 + DigitValue(c));
      }
    }
  }

  lemma MulAssoc(x: int, y: int, z: int)
    ensures (x * y) * z == x * (z * y)
  {
  }

  /** Index of the first occurrence of `c` in `s`, or |s| when there is none. */
  function IndexOf(s: string, c: char): (i: nat)
    ensures i <= |s|
    ensures i < |s| ==> s[i] == c
  {
    if s == [] then 0
    else if s[0] == c then 0
    else 1 + IndexOf(s[1..], c)
  }

  /** No `c` comes before IndexOf(s, c). */
  lemma {:induction false} IndexOfFirst(s: string, c: char)
    ensures forall j :: 0 <= j < IndexOf(s, c) ==> s[j] != c
  {
    if s != [] && s[0] != c {
      IndexOfFirst(s[1..], c);
      forall j | 0 <= j < IndexOf(s, c)
        ensures s[j] != c
      {
        if j > 0 {
          assert s[j] == s[1..][j - 1];
        }
      }
    }
  }

  /** The index of the first `c`, or |s| when there is none, is IndexOf(s, c). */
  lemma IndexOfIs(s: string, c: char, i: nat)
    requires i <= |s| && (i < |s| ==> s[i] == c)
    requires forall j :: 0 <= j < i ==> s[j] != c
    ensures IndexOf(s, c) == i
  {
    IndexOfFirst(s, c);
  }

  /** When `p` does not hold `c`, the first `c` of `p + [c] + rest` is the one after `p`. */
  lemma {:induction false} IndexOfAfter(p: string, c: char, rest: string)
    requires forall j :: 0 <= j < |p| ==> p[j] != c
    ensures IndexOf(p + [c] + rest, c) == |p|
    decreases |p|
  {
    var x := p + [c] + rest;
    if p != [] {
      assert x[1..] == p[1..] + [c] + rest;
      IndexOfAfter(p[1..], c, rest);
    }
  }

  lemma {:induction false} Pow10Add(a: nat, b: nat)
    ensures Pow10(a) * Pow10(b) == Pow10(a + b)
    decreases a
  {
    if a > 0 {
      Pow10Add(a - 1, b);
      MulAssoc(10, Pow10(a - 1), Pow10(b));
    }
  }

  /** `k` zero digits. */
  function Zeros(k: nat): (z: string)
    ensures |z| == k && AllDigits(z)
  {
    if k == 0 then "" else Zeros(k - 1) + "0"
  }

  /** Zero digits in front do not change the value. */
  lemma {:induction false} LeadingZeros(k: nat, n: nat)
    ensures AllDigits(Zeros(k) + DigitsOf(n, 1)) && DigitsValue(Zeros(k) + DigitsOf(n, 1)) == n
  {
    DigitsRoundTrip(n, 1);
    ZerosValue(k);
    DigitsValueAppend(Zeros(k), DigitsOf(n, 1));
  }

  lemma {:induction false} ZerosValue(k: nat)
    ensures DigitsValue(Zeros(k)) == 0
  {
    if k > 0 {
      ZerosValue(k - 1);
      DigitsValueSnoc(Zeros(k - 1), '0');
    }
  }
}
