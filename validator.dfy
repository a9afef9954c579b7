/** `minmea_check`: the frame validator. A sentence is `$`, a body of printable
    characters, an optional `*HH` checksum and an optional line ending; the checksum
    is the exclusive-or of the body's bytes (the NMEA 0183 sentence checksum). */
module Validator {
  import opened Text

  /** `MINMEA_MAX_LENGTH`; a whole line may hold three more characters ('*' and
      the two checksum digits are not counted by the protocol's 80). */
  const MaxLength: nat := 80

  /** The characters allowed between `$` and `*`. */
  predicate IsBodyChar(c: char) {
    IsPrint(c) && c != '$' && c != '*'
  }

  predicate IsHex(c: char) {
    IsDigit(c) || 'A' <= c <= 'F' || 'a' <= c <= 'f'
  }

  function HexValue(c: char): (v: nat)
    requires IsHex(c)
    ensures v < 16
  {
    if IsDigit(c) then DigitValue(c)
    else if 'A' <= c <= 'F' then (c as int) - ('A' as int) + 10
    else (c as int) - ('a' as int) + 10
  }

  /** The upper-case hex digit for d, as a transmitter writes it. */
  function HexDigit(d: nat): (c: char)
    requires d < 16
    ensures IsHex(c) && HexValue(c) == d
  {
    if d < 10 then DigitChar(d) else (('A' as int) + d - 10) as char
  }

  /** The byte a character occupies in the C string. */
  function Byte(c: char): bv8 {
    if c as int < 256 then c as bv8 else ((c as int) % 256) as bv8
  }

  /** Exclusive-or of the bytes s[lo], ..., s[hi - 1]. */
  function XorRange(s: string, lo: nat, hi: nat): bv8
    requires lo <= hi <= |s|
    decreases hi - lo
  {
    if lo == hi then 0 else Byte(s[lo]) ^ XorRange(s, lo + 1, hi)
  }

  /** A stretch's exclusive-or is that of its two halves combined. */
  lemma {:induction false} XorRangeSplit(s: string, lo: nat, mid: nat, hi: nat)
    requires lo <= mid <= hi <= |s|
    ensures XorRange(s, lo, hi) == XorRange(s, lo, mid) ^ XorRange(s, mid, hi)
    decreases mid - lo
  {
    if lo < mid {
      XorRangeSplit(s, lo + 1, mid, hi);
    }
  }

  /** Exclusive-or of the bytes of `body`: the NMEA 0183 checksum. */
  function Checksum(body: string): bv8 {
    XorRange(body, 0, |body|)
  }

  lemma {:induction false} XorRangeSlice(s: string, lo: nat, hi: nat, i: nat, j: nat)
    requires lo <= hi <= |s| && i <= j <= hi - lo
    ensures XorRange(s[lo..hi], i, j) == XorRange(s, lo + i, lo + j)
    decreases j - i
  {
    if i < j {
      XorRangeSlice(s, lo, hi, i + 1, j);
    }
  }

  /** The checksum of any stretch of a sentence is the exclusive-or over that stretch. */
  lemma ChecksumSlice(s: string, lo: nat, hi: nat)
    requires lo <= hi <= |s|
    ensures Checksum(s[lo..hi]) == XorRange(s, lo, hi)
  {
    XorRangeSlice(s, lo, hi, 0, hi - lo);
  }

  /** The end of the run of body characters that starts at `i`. */
  function BodyEnd(s: string, i: nat): (n: nat)
    requires i <= |s|
    ensures i <= n <= |s|
    ensures forall j :: i <= j < n ==> IsBodyChar(s[j])
    ensures n < |s| ==> !IsBodyChar(s[n])
    decreases |s| - i
  {
    if i == |s| || !IsBodyChar(s[i]) then i else BodyEnd(s, i + 1)
  }

  /** What may follow the body (and its checksum): nothing, LF, or CR LF. */
  predicate IsLineEnd(rest: string) {
    rest == "" || rest == "\n" || rest == "\r\n"
  }

  /** `minmea_check`. */
  function Check(s: string): (ok: bool)
    ensures ok ==> |s| <= MaxLength + 3 && |s| >= 1 && s[0] == '$'
  {
    if |s| > MaxLength + 3 || |s| == 0 || s[0] != '$' then false
    else
      var n := BodyEnd(s, 1);
      var rest := s[n..];
      if |rest| > 0 && rest[0] == '*' then
        && |rest| >= 3 && IsHex(rest[1]) && IsHex(rest[2])
        && HexValue(rest[1]) * 16 + HexValue(rest[2]) == XorRange(s, 1, n) as int
        && IsLineEnd(rest[3..])
      else
        IsLineEnd(rest)
  }

  /** What an accepted sentence looks like: printable characters up to a final line
      ending, no second `$`, and after any `*` two hex digits equal to the
      exclusive-or of everything between `$` and that `*`. */
  lemma CheckAccepted(s: string)
    requires Check(s)
    ensures exists n :: 0 <= n <= |s| && IsLineEnd(s[n..]) && forall i :: 0 <= i < n ==> IsPrint(s[i])
    ensures forall i :: 0 < i < |s| ==> s[i] != '$'
    ensures forall k :: 0 < k < |s| && s[k] == '*' ==>
      k + 2 < |s| && IsHex(s[k + 1]) && IsHex(s[k + 2]) &&
      HexValue(s[k + 1]) * 16 + HexValue(s[k + 2]) == Checksum(s[1..k]) as int &&
      IsLineEnd(s[k + 3..])
  {
    var eol := AcceptedLineEnd(s);
    CheckNoSecondDollar(s);
    CheckStarChecksum(s);
  }

  /** Where the line ending of an accepted sentence starts: after the body and its
      checksum, if it has one. */
  function AcceptedLineEnd(s: string): (eol: nat)
    requires Check(s)
    ensures eol <= |s| && IsLineEnd(s[eol..])
    ensures forall i :: 0 <= i < eol ==> IsPrint(s[i])
  {
    var n := BodyEnd(s, 1);
    var rest := s[n..];
    var star := |rest| > 0 && rest[0] == '*';
    assert star ==> forall i :: n <= i < n + 3 ==> s[i] == rest[i - n];
    if star then n + 3 else n
  }

  lemma CheckNoSecondDollar(s: string)
    requires Check(s)
    ensures forall i :: 0 < i < |s| ==> s[i] != '$'
  {
    var n := BodyEnd(s, 1);
    var rest := s[n..];
    var star := |rest| > 0 && rest[0] == '*';
    forall i | 0 < i < |s| ensures s[i] != '$' {
      if star && n <= i < n + 3 {
        assert s[i] == rest[i - n];
      }
    }
  }

  lemma CheckStarChecksum(s: string)
    requires Check(s)
    ensures forall k :: 0 < k < |s| && s[k] == '*' ==>
      k + 2 < |s| && IsHex(s[k + 1]) && IsHex(s[k + 2]) &&
      HexValue(s[k + 1]) * 16 + HexValue(s[k + 2]) == Checksum(s[1..k]) as int &&
      IsLineEnd(s[k + 3..])
  {
    var n := BodyEnd(s, 1);
    var rest := s[n..];
    forall k | 0 < k < |s| && s[k] == '*'
      ensures k + 2 < |s| && IsHex(s[k + 1]) && IsHex(s[k + 2])
      ensures HexValue(s[k + 1]) * 16 + HexValue(s[k + 2]) == Checksum(s[1..k]) as int
      ensures IsLineEnd(s[k + 3..])
    {
      assert k >= n;
      assert s[k + 1] == rest[1] && s[k + 2] == rest[2];
      assert s[k + 3..] == rest[3..];
      ChecksumSlice(s, 1, k);
    }
  }

  /** The two upper-case hex digits of a checksum. */
  function HexByte(b: bv8): (h: string)
    ensures |h| == 2 && IsHex(h[0]) && IsHex(h[1])
    ensures HexValue(h[0]) * 16 + HexValue(h[1]) == b as int
  {
    [HexDigit((b as int) / 16), HexDigit((b as int) % 16)]
  }

  /** A sentence as a transmitter frames it: `$`, the body, `*` and its checksum. */
  function Frame(body: string): string {
    "$" + body + "*" + HexByte(Checksum(body))
  }

  predicate ValidBody(body: string) {
    forall i :: 0 <= i < |body| ==> IsBodyChar(body[i])
  }

  lemma BodyEndOf(body: string, tail: string)
    requires ValidBody(body)
    requires tail == [] || !IsBodyChar(tail[0])
    ensures BodyEnd("$" + body + tail, 1) == 1 + |body|
  {
    var s := "$" + body + tail;
    forall j | 1 <= j < 1 + |body| ensures IsBodyChar(s[j]) {
      assert s[j] == body[j - 1];
    }
    if tail != [] {
      assert s[1 + |body|] == tail[0];
    }
  }

  /** Every well-formed body, framed with its checksum and any line ending, passes. */
  lemma CheckFrame(body: string, eol: string)
    requires ValidBody(body) && IsLineEnd(eol)
    requires |body| + 4 + |eol| <= MaxLength + 3
    ensures Check(Frame(body) + eol)
  {
    var h := HexByte(Checksum(body));
    var s := Frame(body) + eol;
    assert s == "$" + body + ("*" + h + eol);
    BodyEndOf(body, "*" + h + eol);
    assert s[1..1 + |body|] == body;
    ChecksumSlice(s, 1, 1 + |body|);
    assert s[1 + |body|..] == "*" + h + eol;
  }

  /** A well-formed body without a checksum passes too: the checksum is optional. */
  lemma CheckUnframed(body: string, eol: string)
    requires ValidBody(body) && IsLineEnd(eol)
    requires 1 + |body| + |eol| <= MaxLength + 3
    ensures Check("$" + body + eol)
  {
    var s := "$" + body + eol;
    BodyEndOf(body, eol);
    assert s[1 + |body|..] == eol;
  }

  /** Any checksum other than the body's exclusive-or is refused. */
  lemma CheckRejectsWrongChecksum(body: string, h: string, eol: string)
    requires ValidBody(body) && IsLineEnd(eol)
    requires |h| == 2 && IsHex(h[0]) && IsHex(h[1])
    requires HexValue(h[0]) * 16 + HexValue(h[1]) != Checksum(body) as int
    ensures !Check("$" + body + "*" + h + eol)
  {
    var s := "$" + body + "*" + h + eol;
    assert s == "$" + body + ("*" + h + eol);
    BodyEndOf(body, "*" + h + eol);
    assert s[1..1 + |body|] == body;
    ChecksumSlice(s, 1, 1 + |body|);
    assert s[1 + |body|..] == "*" + h + eol;
  }
}
