/** The `minmea_scan` calls of the library's own tests (tests.c:48-172), each with the
    outcome the tests require. Every sentence is written out as its fields joined with
    commas, so that the scan is the format applied to those fields. */
module ScanExamples {
  import opened Text
  import opened FixedPoint
  import opened FieldSplit
  import opened Directives
  import opened Scanner

  /** A sentence made of fields joined with commas, and whatever does not continue
      the line, has exactly those fields. */
  lemma FieldsOfLiteral(s: string, parts: seq<string>, tail: string)
    requires |parts| >= 1 && s == Join(parts) + tail
    requires forall k, j :: 0 <= k < |parts| && 0 <= j < |parts[k]| ==> IsField(parts[k][j])
    requires tail == [] || !InLine(tail[0])
    ensures Fields(s) == parts
  {
    FieldsOfJoin(parts, tail);
  }

  /** A format of one directive, or of `_` and one directive, stores what that
      directive makes of the field it falls on. */
  lemma ScanOne(s: string, format: string, r: Option<seq<Value>>)
    requires |format| == 1 || (|format| == 2 && format[0] == '_')
    requires DirectiveOf(format[|format| - 1]).Some? && |format| <= |Fields(s)|
    requires Apply(DirectiveOf(format[|format| - 1]).value, Fields(s)[|format| - 1]) == r
    ensures Scan(s, format) == r
  {
    if |format| == 1 {
      ScanFieldsSingle(Fields(s), format[0]);
      assert format == [format[0]];
    } else {
      ScanFieldsSkipOne(Fields(s), format);
    }
  }

  /** A decimal number written with a point reads as its digits over the power of
      ten of its fraction digits. */
  lemma DecimalText(f: string, negative: bool, whole: string, frac: string, m: nat)
    requires AllDigits(whole) && AllDigits(frac) && |whole| >= 1
    requires AllDigits(whole + frac) && DigitsValue(whole + frac) == m
    requires f == (if negative then "-" else "") + (whole + ("." + frac))
    ensures Apply(Decimal, f) == Some([FixedValue(Fixed(if negative then -(m as int) else m, Pow10(|frac|)))])
  {
    DecimalRoundTrip(if negative then "-" else "", whole, frac, true, m);
  }

  lemma ScanCharFirstFields(s: string)
    requires s == "A,123.45"
    ensures Fields(s) == ["A", "123.45"]
  {
    FieldsOfLiteral(s, ["A", "123.45"], "");
  }

  lemma ScanCharFirstParsed()
    ensures Apply(Character, "A") == Some([CharValue('A')])
  {
  }

  /** tests.c:52-53: `c` stores the field's first character. */
  lemma ScanCharFirst(s: string)
    requires s == "A,123.45"
    ensures Scan(s, "c") == Some([CharValue('A')])
  {
    assert |Fields(s)| == 2 && Fields(s)[0] == "A" by {
      ScanCharFirstFields(s);
    }
    ScanCharFirstParsed();
    ScanOne(s, "c", Some([CharValue('A')]));
  }

  lemma ScanCharOfLongerFields(s: string)
    requires s == "WUT,123.45"
    ensures Fields(s) == ["WUT", "123.45"]
  {
    FieldsOfLiteral(s, ["WUT", "123.45"], "");
  }

  lemma ScanCharOfLongerParsed()
    ensures Apply(Character, "WUT") == Some([CharValue('W')])
  {
  }

  /** tests.c:55-56: only the first character of a longer field. */
  lemma ScanCharOfLonger(s: string)
    requires s == "WUT,123.45"
    ensures Scan(s, "c") == Some([CharValue('W')])
  {
    assert |Fields(s)| == 2 && Fields(s)[0] == "WUT" by {
      ScanCharOfLongerFields(s);
    }
    ScanCharOfLongerParsed();
    ScanOne(s, "c", Some([CharValue('W')]));
  }

  lemma ScanCharEmptyFields(s: string)
    requires s == ",123.45"
    ensures Fields(s) == ["", "123.45"]
  {
    FieldsOfLiteral(s, ["", "123.45"], "");
  }

  lemma ScanCharEmptyParsed()
    ensures Apply(Character, "") == Some([CharValue('\0')])
  {
  }

  /** tests.c:58-59: an empty field stores NUL. */
  lemma ScanCharEmpty(s: string)
    requires s == ",123.45"
    ensures Scan(s, "c") == Some([CharValue('\0')])
  {
    assert |Fields(s)| == 2 && Fields(s)[0] == "" by {
      ScanCharEmptyFields(s);
    }
    ScanCharEmptyParsed();
    ScanOne(s, "c", Some([CharValue('\0')]));
  }

  lemma ScanDirectionRejectsFields(s: string)
    requires s == "K"
    ensures Fields(s) == ["K"]
  {
    FieldsOfLiteral(s, ["K"], "");
  }

  lemma ScanDirectionRejectsParsed()
    ensures Apply(Direction, "K").None?
  {
  }

  /** tests.c:67: a letter that is no hemisphere fails the scan. */
  lemma ScanDirectionRejects(s: string)
    requires s == "K"
    ensures Scan(s, "d").None?
  {
    assert |Fields(s)| == 1 && Fields(s)[0] == "K" by {
      ScanDirectionRejectsFields(s);
    }
    ScanDirectionRejectsParsed();
    ScanOne(s, "d", None);
  }

  lemma ScanDirectionEmptyFields(s: string)
    requires s == ""
    ensures Fields(s) == [""]
  {
    FieldsOfLiteral(s, [""], "");
  }

  lemma ScanDirectionEmptyParsed()
    ensures Apply(Direction, "") == Some([IntValue(0)])
  {
  }

  /** tests.c:69: an empty sentence is an empty field, direction 0. */
  lemma ScanDirectionEmpty(s: string)
    requires s == ""
    ensures Scan(s, "d") == Some([IntValue(0)])
  {
    assert |Fields(s)| == 1 && Fields(s)[0] == "" by {
      ScanDirectionEmptyFields(s);
    }
    ScanDirectionEmptyParsed();
    ScanOne(s, "d", Some([IntValue(0)]));
  }

  lemma ScanDirectionEmptyFieldFields(s: string)
    requires s == ",foo"
    ensures Fields(s) == ["", "foo"]
  {
    FieldsOfLiteral(s, ["", "foo"], "");
  }

  lemma ScanDirectionEmptyFieldParsed()
    ensures Apply(Direction, "") == Some([IntValue(0)])
  {
  }

  /** tests.c:70-71: an empty field is direction 0. */
  lemma ScanDirectionEmptyField(s: string)
    requires s == ",foo"
    ensures Scan(s, "d") == Some([IntValue(0)])
  {
    assert |Fields(s)| == 2 && Fields(s)[0] == "" by {
      ScanDirectionEmptyFieldFields(s);
    }
    ScanDirectionEmptyFieldParsed();
    ScanOne(s, "d", Some([IntValue(0)]));
  }

  lemma ScanDirectionNorthFields(s: string)
    requires s == "N"
    ensures Fields(s) == ["N"]
  {
    FieldsOfLiteral(s, ["N"], "");
  }

  lemma ScanDirectionNorthParsed()
    ensures Apply(Direction, "N") == Some([IntValue(1)])
  {
  }

  /** tests.c:72-73. */
  lemma ScanDirectionNorth(s: string)
    requires s == "N"
    ensures Scan(s, "d") == Some([IntValue(1)])
  {
    assert |Fields(s)| == 1 && Fields(s)[0] == "N" by {
      ScanDirectionNorthFields(s);
    }
    ScanDirectionNorthParsed();
    ScanOne(s, "d", Some([IntValue(1)]));
  }

  lemma ScanDirectionSouthFields(s: string)
    requires s == "S,foo"
    ensures Fields(s) == ["S", "foo"]
  {
    FieldsOfLiteral(s, ["S", "foo"], "");
  }

  lemma ScanDirectionSouthParsed()
    ensures Apply(Direction, "S") == Some([IntValue(-1)])
  {
  }

  /** tests.c:74-75. */
  lemma ScanDirectionSouth(s: string)
    requires s == "S,foo"
    ensures Scan(s, "d") == Some([IntValue(-1)])
  {
    assert |Fields(s)| == 2 && Fields(s)[0] == "S" by {
      ScanDirectionSouthFields(s);
    }
    ScanDirectionSouthParsed();
    ScanOne(s, "d", Some([IntValue(-1)]));
  }

  lemma ScanDirectionWestFields(s: string)
    requires s == "W"
    ensures Fields(s) == ["W"]
  {
    FieldsOfLiteral(s, ["W"], "");
  }

  lemma ScanDirectionWestParsed()
    ensures Apply(Direction, "W") == Some([IntValue(-1)])
  {
  }

  /** tests.c:76-77. */
  lemma ScanDirectionWest(s: string)
    requires s == "W"
    ensures Scan(s, "d") == Some([IntValue(-1)])
  {
    assert |Fields(s)| == 1 && Fields(s)[0] == "W" by {
      ScanDirectionWestFields(s);
    }
    ScanDirectionWestParsed();
    ScanOne(s, "d", Some([IntValue(-1)]));
  }

  lemma ScanDirectionEastFields(s: string)
    requires s == "E,foo"
    ensures Fields(s) == ["E", "foo"]
  {
    FieldsOfLiteral(s, ["E", "foo"], "");
  }

  lemma ScanDirectionEastParsed()
    ensures Apply(Direction, "E") == Some([IntValue(1)])
  {
  }

  /** tests.c:78-79. */
  lemma ScanDirectionEast(s: string)
    requires s == "E,foo"
    ensures Scan(s, "d") == Some([IntValue(1)])
  {
    assert |Fields(s)| == 2 && Fields(s)[0] == "E" by {
      ScanDirectionEastFields(s);
    }
    ScanDirectionEastParsed();
    ScanOne(s, "d", Some([IntValue(1)]));
  }

  lemma ScanDecimalSignOnlyFields(s: string)
    requires s == "-"
    ensures Fields(s) == ["-"]
  {
    FieldsOfLiteral(s, ["-"], "");
  }

  lemma ScanDecimalSignOnlyParsed()
    ensures Apply(Decimal, "-").None?
  {
  }

  /** tests.c:87: a sign without digits. */
  lemma ScanDecimalSignOnly(s: string)
    requires s == "-"
    ensures Scan(s, "f").None?
  {
    assert |Fields(s)| == 1 && Fields(s)[0] == "-" by {
      ScanDecimalSignOnlyFields(s);
    }
    ScanDecimalSignOnlyParsed();
    ScanOne(s, "f", None);
  }

  lemma ScanDecimalSignLastFields(s: string)
    requires s == "10-"
    ensures Fields(s) == ["10-"]
  {
    FieldsOfLiteral(s, ["10-"], "");
  }

  lemma ScanDecimalSignLastParsed()
    ensures Apply(Decimal, "10-").None?
  {
  }

  /** tests.c:88: a sign after the digits. */
  lemma ScanDecimalSignLast(s: string)
    requires s == "10-"
    ensures Scan(s, "f").None?
  {
    assert |Fields(s)| == 1 && Fields(s)[0] == "10-" by {
      ScanDecimalSignLastFields(s);
    }
    ScanDecimalSignLastParsed();
    ScanOne(s, "f", None);
  }

  lemma ScanDecimalTwoSignsFields(s: string)
    requires s == "+-10"
    ensures Fields(s) == ["+-10"]
  {
    FieldsOfLiteral(s, ["+-10"], "");
  }

  lemma ScanDecimalTwoSignsParsed()
    ensures Apply(Decimal, "+-10").None?
  {
  }

  /** tests.c:89: two signs. */
  lemma ScanDecimalTwoSigns(s: string)
    requires s == "+-10"
    ensures Scan(s, "f").None?
  {
    assert |Fields(s)| == 1 && Fields(s)[0] == "+-10" by {
      ScanDecimalTwoSignsFields(s);
    }
    ScanDecimalTwoSignsParsed();
    ScanOne(s, "f", None);
  }

  lemma ScanDecimalTwoDotsTogetherFields(s: string)
    requires s == "12..45"
    ensures Fields(s) == ["12..45"]
  {
    FieldsOfLiteral(s, ["12..45"], "");
  }

  lemma ScanDecimalTwoDotsTogetherParsed()
    ensures Apply(Decimal, "12..45").None?
  {
    var f := "12..45";
    IndexOfIs(f, '.', 2);
    assert f[3..][0] == '.';
  }

  /** tests.c:90: two points. */
  lemma ScanDecimalTwoDotsTogether(s: string)
    requires s == "12..45"
    ensures Scan(s, "f").None?
  {
    assert |Fields(s)| == 1 && Fields(s)[0] == "12..45" by {
      ScanDecimalTwoDotsTogetherFields(s);
    }
    ScanDecimalTwoDotsTogetherParsed();
    ScanOne(s, "f", None);
  }

  lemma ScanDecimalWordFields(s: string)
    requires s == "blah"
    ensures Fields(s) == ["blah"]
  {
    FieldsOfLiteral(s, ["blah"], "");
  }

  lemma ScanDecimalWordParsed()
    ensures Apply(Decimal, "blah").None?
  {
  }

  /** tests.c:91: no digits at all. */
  lemma ScanDecimalWord(s: string)
    requires s == "blah"
    ensures Scan(s, "f").None?
  {
    assert |Fields(s)| == 1 && Fields(s)[0] == "blah" by {
      ScanDecimalWordFields(s);
    }
    ScanDecimalWordParsed();
    ScanOne(s, "f", None);
  }

  lemma ScanDecimalTwoDotsFields(s: string)
    requires s == "12.3.4"
    ensures Fields(s) == ["12.3.4"]
  {
    FieldsOfLiteral(s, ["12.3.4"], "");
  }

  lemma ScanDecimalTwoDotsParsed()
    ensures Apply(Decimal, "12.3.4").None?
  {
    var f := "12.3.4";
    IndexOfIs(f, '.', 2);
    assert f[3..][1] == '.';
  }

  /** tests.c:92: two points apart. */
  lemma ScanDecimalTwoDots(s: string)
    requires s == "12.3.4"
    ensures Scan(s, "f").None?
  {
    assert |Fields(s)| == 1 && Fields(s)[0] == "12.3.4" by {
      ScanDecimalTwoDotsFields(s);
    }
    ScanDecimalTwoDotsParsed();
    ScanOne(s, "f", None);
  }

  lemma ScanDecimalEmptyFieldFields(s: string)
    requires s == ","
    ensures Fields(s) == ["", ""]
  {
    FieldsOfLiteral(s, ["", ""], "");
  }

  lemma ScanDecimalEmptyFieldParsed()
    ensures Apply(Decimal, "") == Some([FixedValue(Fixed(0, 0))])
  {
  }

  /** tests.c:94-95: an empty field is scale 0. */
  lemma ScanDecimalEmptyField(s: string)
    requires s == ","
    ensures Scan(s, "f") == Some([FixedValue(Fixed(0, 0))])
  {
    assert |Fields(s)| == 2 && Fields(s)[0] == "" by {
      ScanDecimalEmptyFieldFields(s);
    }
    ScanDecimalEmptyFieldParsed();
    ScanOne(s, "f", Some([FixedValue(Fixed(0, 0))]));
  }

  lemma ScanDecimalEmptyFields(s: string)
    requires s == ""
    ensures Fields(s) == [""]
  {
    FieldsOfLiteral(s, [""], "");
  }

  lemma ScanDecimalEmptyParsed()
    ensures Apply(Decimal, "") == Some([FixedValue(Fixed(0, 0))])
  {
  }

  /** tests.c:96-97: so is an empty sentence. */
  lemma ScanDecimalEmpty(s: string)
    requires s == ""
    ensures Scan(s, "f") == Some([FixedValue(Fixed(0, 0))])
  {
    assert |Fields(s)| == 1 && Fields(s)[0] == "" by {
      ScanDecimalEmptyFields(s);
    }
    ScanDecimalEmptyParsed();
    ScanOne(s, "f", Some([FixedValue(Fixed(0, 0))]));
  }

  lemma ScanDecimalFractionFields(s: string)
    requires s == "15.345"
    ensures Fields(s) == ["15.345"]
  {
    FieldsOfLiteral(s, ["15.345"], "");
  }

  lemma FractionText(f: string)
    requires f == "15.345"
    ensures 1000 == Pow10(|Zeros(0) + DigitsOf(345, 1)|)
    ensures f == Zeros(0) + DigitsOf(15, 1) + ("." + (Zeros(0) + DigitsOf(345, 1)))
  {
  }

  lemma ScanDecimalFractionParsed(f: string)
    requires f == "15.345"
    ensures Apply(Decimal, f) == Some([FixedValue(Fixed(15345, 1000))])
  {
    FractionText(f);
    DecimalParts(f, 0, 15, 0, 345, 15345, 1000);
  }

  /** tests.c:99-101: three fraction digits, scale 1000. */
  lemma ScanDecimalFraction(s: string)
    requires s == "15.345"
    ensures Scan(s, "f") == Some([FixedValue(Fixed(15345, 1000))])
  {
    assert |Fields(s)| == 1 && Fields(s)[0] == "15.345" by {
      ScanDecimalFractionFields(s);
    }
    ScanDecimalFractionParsed(Fields(s)[0]);
    ScanOne(s, "f", Some([FixedValue(Fixed(15345, 1000))]));
  }

  lemma ScanDecimalNegativeFields(s: string)
    requires s == "-1.23,V"
    ensures Fields(s) == ["-1.23", "V"]
  {
    FieldsOfLiteral(s, ["-1.23", "V"], "");
  }

  lemma ScanDecimalNegativeParsed(f: string)
    requires f == "-1.23"
    ensures Apply(Decimal, f) == Some([FixedValue(Fixed(-123, 100))])
  {
    var whole: string, frac: string := "1", "23";
    assert AllDigits(whole + frac) && DigitsValue(whole + frac) == 123 by {
      DigitsRoundTrip(123, 1);
      assert DigitsOf(123, 1) == whole + frac;
    }
    assert f == "-" + (whole + ("." + frac));
    assert Pow10(|frac|) == 100;
    DecimalText(f, true, whole, frac, 123);
  }

  /** tests.c:103-105: a negative number. */
  lemma ScanDecimalNegative(s: string)
    requires s == "-1.23,V"
    ensures Scan(s, "f") == Some([FixedValue(Fixed(-123, 100))])
  {
    assert |Fields(s)| == 2 && Fields(s)[0] == "-1.23" by {
      ScanDecimalNegativeFields(s);
    }
    ScanDecimalNegativeParsed(Fields(s)[0]);
    ScanOne(s, "f", Some([FixedValue(Fixed(-123, 100))]));
  }

  lemma ScanVerbatimFields(s: string)
    requires s == "foo,bar,baz"
    ensures Fields(s) == ["foo", "bar", "baz"]
  {
    FieldsOfLiteral(s, ["foo", "bar", "baz"], "");
  }

  lemma ScanVerbatimParsed()
    ensures Apply(Verbatim, "foo") == Some([TextValue("foo")])
  {
  }

  /** tests.c:113-114: `s` stores the field's text. */
  lemma ScanVerbatim(s: string)
    requires s == "foo,bar,baz"
    ensures Scan(s, "s") == Some([TextValue("foo")])
  {
    assert |Fields(s)| == 3 && Fields(s)[0] == "foo" by {
      ScanVerbatimFields(s);
    }
    ScanVerbatimParsed();
    ScanOne(s, "s", Some([TextValue("foo")]));
  }

  lemma ScanVerbatimEmptyFields(s: string)
    requires s == ",bar,baz"
    ensures Fields(s) == ["", "bar", "baz"]
  {
    FieldsOfLiteral(s, ["", "bar", "baz"], "");
  }

  lemma ScanVerbatimEmptyParsed()
    ensures Apply(Verbatim, "") == Some([TextValue("")])
  {
  }

  /** tests.c:115-116. */
  lemma ScanVerbatimEmpty(s: string)
    requires s == ",bar,baz"
    ensures Scan(s, "s") == Some([TextValue("")])
  {
    assert |Fields(s)| == 3 && Fields(s)[0] == "" by {
      ScanVerbatimEmptyFields(s);
    }
    ScanVerbatimEmptyParsed();
    ScanOne(s, "s", Some([TextValue("")]));
  }

  lemma ScanTalkerShortFields(s: string)
    requires s == "$GPRM,foo,bar,baz"
    ensures Fields(s) == ["$GPRM", "foo", "bar", "baz"]
  {
    FieldsOfLiteral(s, ["$GPRM", "foo", "bar", "baz"], "");
  }

  lemma ScanTalkerShortParsed()
    ensures Apply(Talker, "$GPRM").None?
  {
  }

  /** tests.c:125: a token of four characters. */
  lemma ScanTalkerShort(s: string)
    requires s == "$GPRM,foo,bar,baz"
    ensures Scan(s, "t").None?
  {
    ScanTalkerShortFields(s);
    ScanTalkerShortParsed();
    ScanTalkerToken(s, "$GPRM", None);
  }

  lemma ScanTalkerNoDollarFields(s: string)
    requires s == "GPRMC,foo,bar,baz"
    ensures Fields(s) == ["GPRMC", "foo", "bar", "baz"]
  {
    FieldsOfLiteral(s, ["GPRMC", "foo", "bar", "baz"], "");
  }

  lemma ScanTalkerNoDollarParsed()
    ensures Apply(Talker, "GPRMC").None?
  {
  }

  /** tests.c:126: no '$'. */
  lemma ScanTalkerNoDollar(s: string)
    requires s == "GPRMC,foo,bar,baz"
    ensures Scan(s, "t").None?
  {
    ScanTalkerNoDollarFields(s);
    ScanTalkerNoDollarParsed();
    ScanTalkerToken(s, "GPRMC", None);
  }

  /** Scanning "t" reads the first field as a talker token. */
  lemma ScanTalkerToken(s: string, f: string, r: Option<seq<Value>>)
    requires |Fields(s)| >= 1 && Fields(s)[0] == f && Apply(Talker, f) == r
    ensures Scan(s, "t") == r
  {
    ScanOne(s, "t", r);
  }

  lemma ScanTalkerFields(s: string)
    requires s == "$GPRMC,foo,bar,baz"
    ensures Fields(s) == ["$GPRMC", "foo", "bar", "baz"]
  {
    FieldsOfLiteral(s, ["$GPRMC", "foo", "bar", "baz"], "");
  }

  lemma ScanTalkerParsed(f: string)
    requires f == "$GPRMC"
    ensures Apply(Talker, f) == Some([TextValue("GPRMC")])
  {
    assert |f| >= 6 && f[0] == '$' && f[1..6] == "GPRMC";
  }

  /** tests.c:128-129: the token after the '$'. */
  lemma ScanTalker(s: string)
    requires s == "$GPRMC,foo,bar,baz"
    ensures Scan(s, "t") == Some([TextValue("GPRMC")])
  {
    assert |Fields(s)| == 4 && Fields(s)[0] == "$GPRMC" by {
      ScanTalkerFields(s);
    }
    ScanTalkerParsed(Fields(s)[0]);
    ScanOne(s, "t", Some([TextValue("GPRMC")]));
  }

  lemma ScanDateFields(s: string)
    requires s == "$GPXXX,311299"
    ensures Fields(s) == ["$GPXXX", "311299"]
  {
    FieldsOfLiteral(s, ["$GPXXX", "311299"], "");
  }

  lemma ScanDateParsed(f: string)
    requires f == "311299"
    ensures Apply(DateStamp, f) == Some([DateValue(Date(31, 12, 99))])
  {
    DateRoundTrip(Date(31, 12, 99));
    assert DateText(Date(31, 12, 99)) == "311299";
  }

  /** tests.c:139-142: ddmmyy. */
  lemma ScanDate(s: string)
    requires s == "$GPXXX,311299"
    ensures Scan(s, "_D") == Some([DateValue(Date(31, 12, 99))])
  {
    assert |Fields(s)| == 2 by {
      ScanDateFields(s);
    }
    assert Apply(DirectiveOf('D').value, Fields(s)[1]) == Some([DateValue(Date(31, 12, 99))]) by {
      assert Fields(s)[1] == "311299" by {
        ScanDateFields(s);
      }
      ScanDateParsed(Fields(s)[1]);
    }
    ScanOne(s, "_D", Some([DateValue(Date(31, 12, 99))]));
  }

  lemma ScanDateAbsentFields(s: string)
    requires s == "$GPXXX,,,,,,,,,nope"
    ensures Fields(s) == ["$GPXXX", "", "", "", "", "", "", "", "", "nope"]
  {
    FieldsOfLiteral(s, ["$GPXXX", "", "", "", "", "", "", "", "", "nope"], "");
  }

  lemma ScanDateAbsentParsed()
    ensures Apply(DateStamp, "") == Some([DateValue(NoDate)])
  {
  }

  /** tests.c:144-147: a field that is no date is the absent date. */
  lemma ScanDateAbsent(s: string)
    requires s == "$GPXXX,,,,,,,,,nope"
    ensures Scan(s, "_D") == Some([DateValue(NoDate)])
  {
    assert |Fields(s)| == 10 && Fields(s)[1] == "" by {
      ScanDateAbsentFields(s);
    }
    ScanDateAbsentParsed();
    ScanOne(s, "_D", Some([DateValue(NoDate)]));
  }

  lemma ScanTimeLeapSecondFields(s: string)
    requires s == "$GPXXX,235960"
    ensures Fields(s) == ["$GPXXX", "235960"]
  {
    FieldsOfLiteral(s, ["$GPXXX", "235960"], "");
  }

  lemma ScanTimeLeapSecondParsed(f: string)
    requires f == "235960"
    ensures Apply(TimeStamp, f) == Some([TimeValue(Time(23, 59, 60, 0))])
  {
    SixDigitsOf(Pad2(23), Pad2(59), Pad2(60), "");
    assert Pad2(23) + Pad2(59) + Pad2(60) + "" == "235960";
  }

  /** tests.c:155-159: hhmmss, second 60 included. */
  lemma ScanTimeLeapSecond(s: string)
    requires s == "$GPXXX,235960"
    ensures Scan(s, "_T") == Some([TimeValue(Time(23, 59, 60, 0))])
  {
    assert |Fields(s)| == 2 by {
      ScanTimeLeapSecondFields(s);
    }
    assert Apply(DirectiveOf('T').value, Fields(s)[1]) == Some([TimeValue(Time(23, 59, 60, 0))]) by {
      assert Fields(s)[1] == "235960" by {
        ScanTimeLeapSecondFields(s);
      }
      ScanTimeLeapSecondParsed(Fields(s)[1]);
    }
    ScanOne(s, "_T", Some([TimeValue(Time(23, 59, 60, 0))]));
  }

  lemma ScanTimeFractionFields(s: string)
    requires s == "$GPXXX,213700.001"
    ensures Fields(s) == ["$GPXXX", "213700.001"]
  {
    FieldsOfLiteral(s, ["$GPXXX", "213700.001"], "");
  }

  lemma TimeFractionText(f: string)
    requires f == "213700.001"
    ensures f == Pad2(21) + Pad2(37) + Pad2(0) + ".001"
    ensures |f| > 6 && f[6] == '.' && f[7..] == Zeros(2) + DigitsOf(1, 1) + ""
  {
  }

  lemma ScanTimeFractionParsed(f: string)
    requires f == "213700.001"
    ensures Apply(TimeStamp, f) == Some([TimeValue(Time(21, 37, 0, 1000))])
  {
    TimeFractionText(f);
    SixDigitsOf(Pad2(21), Pad2(37), Pad2(0), ".001");
    var ds := Zeros(2) + DigitsOf(1, 1);
    assert Microseconds(f[7..]) == 1000 by {
      LeadingZeros(2, 1);
      assert |ds| == 3;
      MicrosecondsShort(ds, "");
    }
  }

  /** tests.c:161-165: three fraction digits are 1000 microseconds. */
  lemma ScanTimeFraction(s: string)
    requires s == "$GPXXX,213700.001"
    ensures Scan(s, "_T") == Some([TimeValue(Time(21, 37, 0, 1000))])
  {
    assert |Fields(s)| == 2 by {
      ScanTimeFractionFields(s);
    }
    assert Apply(DirectiveOf('T').value, Fields(s)[1]) == Some([TimeValue(Time(21, 37, 0, 1000))]) by {
      assert Fields(s)[1] == "213700.001" by {
        ScanTimeFractionFields(s);
      }
      ScanTimeFractionParsed(Fields(s)[1]);
    }
    ScanOne(s, "_T", Some([TimeValue(Time(21, 37, 0, 1000))]));
  }

  lemma ScanTimeAbsentFields(s: string)
    requires s == "$GPXXX,,,,,,,nope"
    ensures Fields(s) == ["$GPXXX", "", "", "", "", "", "", "nope"]
  {
    FieldsOfLiteral(s, ["$GPXXX", "", "", "", "", "", "", "nope"], "");
  }

  lemma ScanTimeAbsentParsed()
    ensures Apply(TimeStamp, "") == Some([TimeValue(NoTime)])
  {
  }

  /** tests.c:167-171: a field that is no time is the absent time. */
  lemma ScanTimeAbsent(s: string)
    requires s == "$GPXXX,,,,,,,nope"
    ensures Scan(s, "_T") == Some([TimeValue(NoTime)])
  {
    assert |Fields(s)| == 8 && Fields(s)[1] == "" by {
      ScanTimeAbsentFields(s);
    }
    ScanTimeAbsentParsed();
    ScanOne(s, "_T", Some([TimeValue(NoTime)]));
  }

  /** tests.c:122-131: the token goes into a seven-character buffer, terminated, and
      the buffer's last character (set to 0x42, 'B', beforehand) is left alone. */
  method ScanTalkerBuffer() returns (ok: bool, buf: array<char>)
    ensures ok && buf.Length == 7
    ensures buf[..5] == "GPRMC" && buf[5] == '\0' && buf[6] == 'B'
  {
    buf := new char[7](_ => '\0');
    buf[6] := 'B';
    var s := "$GPRMC,foo,bar,baz";
    ScanTalker(s);
    ok := ScanTalkerInto(s, buf);
  }
}
