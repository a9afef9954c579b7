/** The directives of `minmea_scan`'s format string and what each makes of one field.
    A field here is the text of one field, as `FieldSplit.Fields` cuts it: only field
    characters, never ',' or '*'. */
module Directives {
  import opened Text
  import opened FixedPoint

  /** `struct minmea_date`; all three components are -1 when the field was absent. */
  datatype Date = Date(day: int, month: int, year: int)

  /** `struct minmea_time`; all four components are -1 when the field was absent. */
  datatype Time = Time(hours: int, minutes: int, seconds: int, microseconds: int)

  const NoDate := Date(-1, -1, -1)
  const NoTime := Time(-1, -1, -1, -1)

  /** One directive character: `c d f i s t D T _`. */
  datatype Directive =
    | Character   // c
    | Direction   // d
    | Decimal     // f
    | Integer     // i
    | Verbatim    // s
    | Talker      // t
    | DateStamp   // D
    | TimeStamp   // T
    | Ignore      // _

  /** What one directive stores through its output arguments. */
  datatype Value =
    | CharValue(ch: char)
    | IntValue(n: int)
    | FixedValue(x: Fixed)
    | TextValue(text: string)
    | DateValue(date: Date)
    | TimeValue(time: Time)

  function DirectiveOf(c: char): (d: Option<Directive>)
    ensures d.Some? <==> c in "cdfistDT_"
  {
    match c
    case 'c' => Some(Character)
    case 'd' => Some(Direction)
    case 'f' => Some(Decimal)
    case 'i' => Some(Integer)
    case 's' => Some(Verbatim)
    case 't' => Some(Talker)
    case 'D' => Some(DateStamp)
    case 'T' => Some(TimeStamp)
    case '_' => Some(Ignore)
    case _ => None
  }

  /** `d`: the hemisphere sign of a coordinate field. */
  function ParseDirection(f: string): (r: Option<int>)
    ensures r.Some? <==> f == [] || f[0] in "NESW"
    ensures r == Some(0) <==> f == []
    ensures r == Some(1) <==> f != [] && f[0] in "NE"
    ensures r == Some(-1) <==> f != [] && f[0] in "SW"
  {
    if f == [] then Some(0)
    else if f[0] == 'N' || f[0] == 'E' then Some(1)
    else if f[0] == 'S' || f[0] == 'W' then Some(-1)
    else None
  }

  /** `f`: an optionally signed decimal number with an optional fraction, as a
      mantissa and the power of ten of its fraction digits; an empty field is the
      absent number, scale 0. */
  function ParseDecimal(f: string): (r: Option<Fixed>)
    ensures r.Some? ==> r.value.scale >= 0
    ensures r.Some? ==> (r.value.scale == 0 <==> f == [])
  {
    if f == [] then Some(Fixed(0, 0))
    else
      var read := ReadUnsigned(Unsigned(f));
      if read.None? then None
      else
        var magnitude: int := read.value.0;
        Some(Fixed(if f[0] == '-' then -magnitude else magnitude, Pow10(read.value.1)))
  }

  /** The field without its sign, if it has one. */
  function Unsigned(f: string): (body: string)
    ensures |body| <= |f|
  {
    if f != [] && (f[0] == '+' || f[0] == '-') then f[1..] else f
  }

  /** Digits with at most one '.' among them, at least one digit: the value of all
      the digits and how many follow the point. */
  function ReadUnsigned(body: string): (r: Option<(nat, nat)>)
  {
    var dot := IndexOf(body, '.');
    var whole := body[..dot];
    var frac := if dot < |body| then body[dot + 1..] else [];
    if !AllDigits(whole) || !AllDigits(frac) || |whole| + |frac| == 0 then None
    else
      DigitsValueAppend(whole, frac);
      Some((DigitsValue(whole + frac), |frac|))
  }

  /** The text the `f` directive accepts, said independently of how it is read: an
      optional sign in front, otherwise digits and at most one '.', and at least one digit. */
  predicate IsDecimal(f: string) {
    && (forall i :: 0 <= i < |f| ==>
          IsDigit(f[i]) || f[i] == '.' || (i == 0 && (f[i] == '+' || f[i] == '-')))
    && OneDot(f)
    && (exists i :: 0 <= i < |f| && IsDigit(f[i]))
  }

  predicate OneDot(f: string) {
    forall i, j :: 0 <= i < j < |f| && f[i] == '.' ==> f[j] != '.'
  }

  /** The same grammar once the sign is gone: digits and at most one '.', at least one digit. */
  predicate IsUnsignedDecimal(body: string) {
    && (forall i :: 0 <= i < |body| ==> IsDigit(body[i]) || body[i] == '.')
    && OneDot(body)
    && (exists i :: 0 <= i < |body| && IsDigit(body[i]))
  }

  lemma SignedFromUnsigned(f: string)
    requires f != [] && IsUnsignedDecimal(Unsigned(f))
    ensures IsDecimal(f)
  {
    var off := if f[0] == '+' || f[0] == '-' then 1 else 0;
    var body := Unsigned(f);
    assert body == f[off..];
    var b :| 0 <= b < |body| && IsDigit(body[b]);
    assert IsDigit(f[b + off]);
    forall i | 0 <= i < |f|
      ensures IsDigit(f[i]) || f[i] == '.' || (i == 0 && (f[i] == '+' || f[i] == '-'))
    {
      if i >= off {
        assert body[i - off] == f[i];
      }
    }
    forall i, j | 0 <= i < j < |f| && f[i] == '.' ensures f[j] != '.' {
      assert body[i - off] == f[i] && body[j - off] == f[j];
    }
  }

  lemma UnsignedFromSigned(f: string)
    requires IsDecimal(f)
    ensures f != [] && IsUnsignedDecimal(Unsigned(f))
  {
    var off := if f[0] == '+' || f[0] == '-' then 1 else 0;
    var body := Unsigned(f);
    assert body == f[off..];
    var i :| 0 <= i < |f| && IsDigit(f[i]);
    assert body[i - off] == f[i];
    forall b | 0 <= b < |body| ensures IsDigit(body[b]) || body[b] == '.' {
      assert body[b] == f[b + off];
    }
    forall b, c | 0 <= b < c < |body| && body[b] == '.' ensures body[c] != '.' {
      assert body[b] == f[b + off] && body[c] == f[c + off];
    }
  }

  lemma ReadUnsignedSound(body: string)
    requires ReadUnsigned(body).Some?
    ensures IsUnsignedDecimal(body)
  {
    var dot := IndexOf(body, '.');
    var whole := body[..dot];
    var frac := if dot < |body| then body[dot + 1..] else [];
    forall b | 0 <= b < |body| ensures IsDigit(body[b]) || (b == dot && body[b] == '.') {
      if b < dot {
        assert whole[b] == body[b];
      } else if b > dot {
        assert frac[b - dot - 1] == body[b];
      }
    }
    if |whole| > 0 {
      assert body[0] == whole[0];
    } else {
      assert body[dot + 1] == frac[0];
    }
  }

  lemma ReadUnsignedComplete(body: string)
    requires IsUnsignedDecimal(body)
    ensures ReadUnsigned(body).Some?
  {
    var dot := IndexOf(body, '.');
    IndexOfFirst(body, '.');
    var whole := body[..dot];
    var frac := if dot < |body| then body[dot + 1..] else [];
    assert AllDigits(whole) by {
      forall b | 0 <= b < |whole| ensures IsDigit(whole[b]) {
        assert whole[b] == body[b];
      }
    }
    assert AllDigits(frac) by {
      forall b | 0 <= b < |frac| ensures IsDigit(frac[b]) {
        assert frac[b] == body[dot + 1 + b];
      }
    }
    var i :| 0 <= i < |body| && IsDigit(body[i]);
    if i < dot {
      assert whole[i] == body[i];
    } else {
      assert frac[i - dot - 1] == body[i];
    }
  }

  /** `f` accepts exactly the empty field and the decimal numbers. */
  lemma DecimalGrammar(f: string)
    ensures ParseDecimal(f).Some? <==> f == [] || IsDecimal(f)
  {
    if f != [] && ParseDecimal(f).Some? {
      ReadUnsignedSound(Unsigned(f));
      SignedFromUnsigned(f);
    }
    if IsDecimal(f) {
      UnsignedFromSigned(f);
      ReadUnsignedComplete(Unsigned(f));
    }
  }

  /** `f` reads back what a transmitter writes: an optional '+' or '-', the digits
      before the point, and optionally a point and digits after it, with a digit on at
      least one side of the point. The mantissa is all the digits, negated after a
      '-', and the scale counts the digits after the point, trailing zeros included. */
  lemma DecimalRoundTrip(sign: string, whole: string, frac: string, dotted: bool, m: nat)
    requires sign == "" || sign == "+" || sign == "-"
    requires AllDigits(whole) && AllDigits(frac) && (dotted || frac == [])
    requires |whole| >= 1 || (dotted && |frac| >= 1)
    requires AllDigits(whole + frac) && m == DigitsValue(whole + frac)
    ensures ParseDecimal(sign + (whole + (if dotted then "." + frac else "")))
         == Some(Fixed(if sign == "-" then -(m as int) else m, Pow10(|frac|)))
  {
    ReadUnsignedOf(whole, frac, dotted);
    var body := whole + (if dotted then "." + frac else "");
    if whole != [] {
      assert body[0] == whole[0];
    } else {
      assert body[0] == '.';
    }
    var k: nat := |frac|;
    ParseDecimalSigned(sign, body, m, k);
  }

  /** An unsigned decimal field with a point. */
  lemma DecimalOf(f: string, whole: string, frac: string, m: nat)
    requires AllDigits(whole) && AllDigits(frac) && |whole| >= 1
    requires AllDigits(whole + frac) && DigitsValue(whole + frac) == m
    requires f == whole + ("." + frac)
    ensures ParseDecimal(f) == Some(Fixed(m, Pow10(|frac|)))
  {
    DecimalRoundTrip("", whole, frac, true, m);
    assert "" + (whole + ("." + frac)) == f;
  }

  /** An unsigned decimal field with a point: `w` behind `wz` zeros, then `r` behind
      `fz` zeros. */
  lemma DecimalParts(f: string, wz: nat, w: nat, fz: nat, r: nat, m: nat, p: nat)
    requires p == Pow10(|Zeros(fz) + DigitsOf(r, 1)|) && m == w * p + r
    requires f == Zeros(wz) + DigitsOf(w, 1) + ("." + (Zeros(fz) + DigitsOf(r, 1)))
    ensures ParseDecimal(f) == Some(Fixed(m, p))
  {
    var whole, frac := Zeros(wz) + DigitsOf(w, 1), Zeros(fz) + DigitsOf(r, 1);
    LeadingZeros(wz, w);
    LeadingZeros(fz, r);
    assert AllDigits(whole + frac) && DigitsValue(whole + frac) == w * Pow10(|frac|) + r by {
      DigitsValueAppend(whole, frac);
    }
    DecimalOf(f, whole, frac, m);
  }

  /** A '+' in front changes nothing and a '-' negates the mantissa; the scale stays. */
  lemma ParseDecimalSigned(sign: string, body: string, m: nat, k: nat)
    requires sign == "" || sign == "+" || sign == "-"
    requires |body| >= 1 && body[0] != '+' && body[0] != '-'
    requires ReadUnsigned(body) == Some((m, k))
    ensures ParseDecimal(sign + body) ==
      Some(Fixed(if sign == "-" then -(m as int) else m, Pow10(k)))
  {
    var f := sign + body;
    assert f[|sign|] == body[0];
    assert f[|sign|..] == body;
  }

  lemma ReadUnsignedOf(whole: string, frac: string, dotted: bool)
    requires AllDigits(whole) && AllDigits(frac) && (dotted || frac == [])
    requires |whole| >= 1 || (dotted && |frac| >= 1)
    ensures AllDigits(whole + frac)
    ensures ReadUnsigned(whole + (if dotted then "." + frac else "")) ==
      Some((DigitsValue(whole + frac), |frac|))
  {
    DigitsValueAppend(whole, frac);
    var body := whole + (if dotted then "." + frac else "");
    if dotted {
      assert body == whole + ['.'] + frac;
      IndexOfAfter(whole, '.', frac);
      assert body[..|whole|] == whole;
      assert body[|whole| + 1..] == frac;
    } else {
      assert body == whole;
      assert whole + frac == whole;
      assert IndexOf(body, '.') == |body|;
    }
  }

  /** The number of leading spaces, which C `strtol` skips. */
  function LeadingSpaces(f: string): (n: nat)
    ensures n <= |f|
    ensures forall j :: 0 <= j < n ==> f[j] == ' '
    ensures n < |f| ==> f[n] != ' '
  {
    if f == [] || f[0] != ' ' then 0 else 1 + LeadingSpaces(f[1..])
  }

  /** `i`: a decimal integer as C `strtol` reads it, required to take up the whole
      field; an empty field is 0. */
  function ParseInteger(f: string): (r: Option<int>)
    ensures f == [] ==> r == Some(0)
    ensures r.Some? && f != [] ==> exists j :: 0 <= j < |f| && IsDigit(f[j])
  {
    if f == [] then Some(0)
    else
      var t := f[LeadingSpaces(f)..];
      var digits := if |t| > 0 && (t[0] == '+' || t[0] == '-') then t[1..] else t;
      if |digits| > 0 && AllDigits(digits) then
        assert digits[0] in f;
        var magnitude: int := DigitsValue(digits);
        Some(if t[0] == '-' then -magnitude else magnitude)
      else None
  }

  /** How a transmitter writes an integer. */
  function IntegerText(n: int): string {
    (if n < 0 then "-" else "") + DigitsOf(if n < 0 then -n else n, 1)
  }

  /** `i` reads back every integer written in decimal. */
  lemma IntegerRoundTrip(n: int)
    ensures ParseInteger(IntegerText(n)) == Some(n)
  {
    var m := if n < 0 then -n else n;
    DigitsRoundTrip(m, 1);
    ParseIntegerDigits(n < 0, DigitsOf(m, 1));
  }

  /** `i` on a run of digits, with or without a '-' in front. */
  lemma ParseIntegerDigits(negative: bool, ds: string)
    requires AllDigits(ds) && |ds| >= 1
    ensures ParseInteger((if negative then "-" else "") + ds)
         == Some(if negative then -(DigitsValue(ds) as int) else DigitsValue(ds))
  {
    var f := (if negative then "-" else "") + ds;
    assert LeadingSpaces(f) == 0 by {
      assert f[0] == (if negative then '-' else ds[0]) && IsDigit(ds[0]);
    }
    assert f[0..] == f;
    if negative {
      assert f[1..] == ds;
    } else {
      assert f == ds;
    }
  }

  /** `t`: the five-character talker and sentence type after the leading '$'. */
  function ParseTalker(f: string): (r: Option<string>)
    ensures r.Some? <==> |f| >= 6 && f[0] == '$'
    ensures r.Some? ==> |r.value| == 5 && f[..6] == "$" + r.value
  {
    if |f| >= 6 && f[0] == '$' then Some(f[1..6]) else None
  }

  /** The value of the two digits f[i] f[i + 1]. */
  function TwoDigits(f: string, i: nat): (n: nat)
    requires i + 2 <= |f| && AllDigits(f[i..i + 2])
    ensures n < 100
  {
    DigitsValue(f[i..i + 2])
  }

  predicate SixDigits(f: string) {
    |f| >= 6 && AllDigits(f[..6])
  }

  /** `D`: ddmmyy; anything not starting with six digits is the absent date. */
  function ParseDate(f: string): (d: Date)
    ensures d == NoDate <==> !SixDigits(f)
    ensures d != NoDate ==> 0 <= d.day < 100 && 0 <= d.month < 100 && 0 <= d.year < 100
  {
    if SixDigits(f) then
      SixDigitsPairs(f);
      Date(TwoDigits(f, 0), TwoDigits(f, 2), TwoDigits(f, 4))
    else NoDate
  }

  lemma SixDigitsPairs(f: string)
    requires SixDigits(f)
    ensures AllDigits(f[0..2]) && AllDigits(f[2..4]) && AllDigits(f[4..6])
  {
    assert forall j :: 0 <= j < 2 ==> f[0..2][j] == f[..6][j];
    assert forall j :: 0 <= j < 2 ==> f[2..4][j] == f[..6][2 + j];
    assert forall j :: 0 <= j < 2 ==> f[4..6][j] == f[..6][4 + j];
  }

  /** Up to `limit` leading digits of `x`. */
  function LeadingDigits(x: string, limit: nat): (n: nat)
    ensures n <= limit && n <= |x|
    ensures forall j :: 0 <= j < n ==> IsDigit(x[j])
    ensures n < limit && n < |x| ==> !IsDigit(x[n])
  {
    if limit == 0 || x == [] || !IsDigit(x[0]) then 0 else 1 + LeadingDigits(x[1..], limit - 1)
  }

  /** The fraction of a second after the '.', in microseconds: at most six digits
      are read and fewer are scaled up. */
  function Microseconds(x: string): (u: nat)
    ensures u < 1000000
  {
    var n := LeadingDigits(x, 6);
    var v := DigitsValue(x[..n]);
    MulLess(v, Pow10(n), Pow10(6 - n));
    Pow10Add(n, 6 - n);
    v * Pow10(6 - n)
  }

  lemma MulLess(a: nat, b: nat, c: nat)
    requires a < b && c > 0
    ensures a * c < b * c
  {
  }

  /** `T`: hhmmss with an optional fraction after a '.'; anything not starting with
      six digits is the absent time. */
  function ParseTime(f: string): (t: Time)
    ensures t == NoTime <==> !SixDigits(f)
    ensures t != NoTime ==> 0 <= t.hours < 100 && 0 <= t.minutes < 100 && 0 <= t.seconds < 100
    ensures t != NoTime ==> 0 <= t.microseconds < 1000000
    ensures t != NoTime && (|f| == 6 || f[6] != '.') ==> t.microseconds == 0
  {
    if SixDigits(f) then
      SixDigitsPairs(f);
      var u := if |f| > 6 && f[6] == '.' then Microseconds(f[7..]) else 0;
      Time(TwoDigits(f, 0), TwoDigits(f, 2), TwoDigits(f, 4), u)
    else NoTime
  }

  /** Two digits, zero padded. */
  function Pad2(n: nat): (ds: string)
    requires n < 100
    ensures |ds| == 2 && AllDigits(ds) && DigitsValue(ds) == n
  {
    DigitsOfWidth(n, 2);
    DigitsRoundTrip(n, 2);
    DigitsOf(n, 2)
  }

  predicate ValidDate(d: Date) {
    0 <= d.day < 100 && 0 <= d.month < 100 && 0 <= d.year < 100
  }

  /** ddmmyy as a receiver writes it. */
  function DateText(d: Date): string
    requires ValidDate(d)
  {
    Pad2(d.day) + Pad2(d.month) + Pad2(d.year)
  }

  lemma SixDigitsOf(a: string, b: string, c: string, rest: string)
    requires |a| == 2 && |b| == 2 && |c| == 2 && AllDigits(a) && AllDigits(b) && AllDigits(c)
    ensures var f := a + b + c + rest;
      SixDigits(f) && f[0..2] == a && f[2..4] == b && f[4..6] == c
  {
    var f := a + b + c + rest;
    assert f[..6] == a + b + c;
  }

  /** `D` reads back every date written as ddmmyy. */
  lemma DateRoundTrip(d: Date)
    requires ValidDate(d)
    ensures ParseDate(DateText(d)) == d
  {
    SixDigitsOf(Pad2(d.day), Pad2(d.month), Pad2(d.year), "");
    assert DateText(d) == Pad2(d.day) + Pad2(d.month) + Pad2(d.year) + "";
  }

  predicate ValidTime(t: Time) {
    0 <= t.hours < 100 && 0 <= t.minutes < 100 && 0 <= t.seconds < 100 &&
    0 <= t.microseconds < 1000000
  }

  /** hhmmss.uuuuuu as a receiver writes it. */
  function TimeText(t: Time): string
    requires ValidTime(t)
  {
    DigitsOfWidth(t.microseconds, 6);
    Pad2(t.hours) + Pad2(t.minutes) + Pad2(t.seconds) + "." + DigitsOf(t.microseconds, 6)
  }

  /** `T` reads back every time written with six fraction digits. */
  lemma TimeRoundTrip(t: Time)
    requires ValidTime(t)
    ensures ParseTime(TimeText(t)) == t
  {
    var us := DigitsOf(t.microseconds, 6);
    DigitsOfWidth(t.microseconds, 6);
    var f := TimeText(t);
    SixDigitsOf(Pad2(t.hours), Pad2(t.minutes), Pad2(t.seconds), "." + us);
    assert f == Pad2(t.hours) + Pad2(t.minutes) + Pad2(t.seconds) + ("." + us);
    assert f[6] == '.';
    assert f[7..] == us;
    assert us[..6] == us;
    DigitsRoundTrip(t.microseconds, 6);
  }

  /** A fraction of fewer than six digits is scaled up: ".75" is 750000 microseconds
      and ".001" is 1000. */
  lemma MicrosecondsShort(ds: string, rest: string)
    requires AllDigits(ds) && |ds| <= 6
    requires rest == [] || !IsDigit(rest[0])
    ensures Microseconds(ds + rest) == DigitsValue(ds) * Pow10(6 - |ds|)
  {
    var x := ds + rest;
    assert LeadingDigits(x, 6) == |ds| by {
      LeadingDigitsPrefix(ds, rest, 6);
    }
    assert x[..|ds|] == ds;
    assert Microseconds(x) == DigitsValue(x[..|ds|]) * Pow10(6 - |ds|);
  }

  lemma {:induction false} LeadingDigitsPrefix(ds: string, rest: string, limit: nat)
    requires AllDigits(ds) && |ds| <= limit
    requires rest == [] || !IsDigit(rest[0])
    ensures LeadingDigits(ds + rest, limit) == |ds|
    decreases |ds|
  {
    var x := ds + rest;
    if ds != [] {
      assert x[1..] == ds[1..] + rest;
      LeadingDigitsPrefix(ds[1..], rest, limit - 1);
    } else {
      assert x == rest;
    }
  }

  /** The outcome of one directive on one field: the values it stores (none for
      `_`), or None when the scan must fail. */
  function Apply(d: Directive, f: string): (r: Option<seq<Value>>)
    ensures d in {Character, Verbatim, DateStamp, TimeStamp, Ignore} ==> r.Some?
    ensures r.Some? ==> |r.value| == (if d == Ignore then 0 else 1)
    ensures r.Some? && d != Ignore ==> Fits(d, r.value[0])
  {
    match d
    case Character => Some([CharValue(if f == [] then '\0' else f[0])])
    case Direction =>
      (match ParseDirection(f) case Some(n) => Some([IntValue(n)]) case None => None)
    case Decimal =>
      (match ParseDecimal(f) case Some(x) => Some([FixedValue(x)]) case None => None)
    case Integer =>
      (match ParseInteger(f) case Some(n) => Some([IntValue(n)]) case None => None)
    case Verbatim => Some([TextValue(f)])
    case Talker =>
      (match ParseTalker(f) case Some(t) => Some([TextValue(t)]) case None => None)
    case DateStamp => Some([DateValue(ParseDate(f))])
    case TimeStamp => Some([TimeValue(ParseTime(f))])
    case Ignore => Some([])
  }

  /** The kind of value each storing directive writes. */
  predicate Fits(d: Directive, v: Value) {
    match d
    case Character => v.CharValue?
    case Direction => v.IntValue? && -1 <= v.n <= 1
    case Decimal => v.FixedValue? && v.x.scale >= 0
    case Integer => v.IntValue?
    case Verbatim => v.TextValue?
    case Talker => v.TextValue? && |v.text| == 5
    case DateStamp => v.DateValue?
    case TimeStamp => v.TimeValue?
    case Ignore => false
  }
}
