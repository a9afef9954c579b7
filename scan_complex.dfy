/** The two `minmea_scan` calls of the library's tests that read a whole sentence with
    a long format (tests.c:175-256): the GGA sentence with a line ending, and a BWC
    sentence whose fields are mostly empty. For each format, a lemma about any fields
    says what the scan stores in terms of each field's parse; the examples then supply
    the parses of their own fields. */
module ScanComplex {
  import opened Text
  import opened FixedPoint
  import opened FieldSplit
  import opened Directives
  import opened Scanner
  import opened Decoders
  import opened DecoderExamples
  import opened SentenceTexts

  // ---------------------------------------------------------------- GGA, tests.c:175-219

  /** The GGA format with its last two fields skipped instead of read. */
  const GgaLineFormat := "tTfdfdiiffcfc__"

  /** The format's directives, none of them a skip before the fourteenth. */
  lemma GgaLineDirectives()
    ensures |GgaLineFormat| == 15 && forall j :: 0 <= j < 13 ==> GgaLineFormat[j] != '_'
    ensures GgaLineFormat[0] == 't' && GgaLineFormat[1] == 'T' && GgaLineFormat[2] == 'f'
    ensures GgaLineFormat[3] == 'd' && GgaLineFormat[4] == 'f' && GgaLineFormat[5] == 'd'
    ensures GgaLineFormat[6] == 'i' && GgaLineFormat[7] == 'i' && GgaLineFormat[8] == 'f'
    ensures GgaLineFormat[9] == 'f' && GgaLineFormat[10] == 'c' && GgaLineFormat[11] == 'f'
    ensures GgaLineFormat[12] == 'c'
  {
  }

  /** The format stores thirteen values. */
  lemma GgaLineStored()
    ensures Stored(GgaLineFormat) == 13
  {
    GgaLineDirectives();
    var head := GgaLineFormat[..14];
    assert GgaLineFormat == head + "_";
    assert head == GgaLineFormat[..13] + "_";
    StoredSkipLast(GgaLineFormat[..13], head);
    StoredAppend(head, "_");
    assert "_"[1..] == [];
  }

  /** The first thirteen directives are the GGA format's. */
  lemma GgaLineAgrees()
    ensures forall i :: 0 <= i < 13 ==> GgaLineFormat[i] == GgaFormat[i]
  {
  }

  /** Whenever the GGA format accepts a sentence's fields, so does this one: they
      differ only in the last two directives, and `_` accepts any field. */
  lemma GgaLineAccepts(fs: seq<string>)
    requires ScanFields(fs, GgaFormat).Some?
    ensures ScanFields(fs, GgaLineFormat).Some?
  {
    ScanFieldsSucceeds(fs, GgaFormat);
    ScanFieldsSucceeds(fs, GgaLineFormat);
    GgaLineAgrees();
    assert |GgaLineFormat| == 15 && GgaLineFormat[13] == '_' && GgaLineFormat[14] == '_';
    forall i | 0 <= i < 15 ensures Accepts(GgaLineFormat[i], fs[i]) {
      if i >= 13 {
        AcceptsByParser('_', fs[i]);
      }
    }
  }

  /** Each value the format stores is what its field's parser makes of that field:
      the token, the time, both coordinates with their hemispheres, fix quality,
      satellites, dilution, altitude and its unit, geoid height and its unit. */
  lemma GgaLineValues(fs: seq<string>)
    requires ScanFields(fs, GgaLineFormat).Some?
    ensures |fs| >= 15
    ensures var vs := ScanFields(fs, GgaLineFormat).value;
      && |vs| == 13
      && ParseTalker(fs[0]).Some? && vs[0] == TextValue(ParseTalker(fs[0]).value)
      && vs[1] == TimeValue(ParseTime(fs[1]))
      && ParseDecimal(fs[2]).Some? && vs[2] == FixedValue(ParseDecimal(fs[2]).value)
      && ParseDirection(fs[3]).Some? && vs[3] == IntValue(ParseDirection(fs[3]).value)
      && ParseDecimal(fs[4]).Some? && vs[4] == FixedValue(ParseDecimal(fs[4]).value)
      && ParseDirection(fs[5]).Some? && vs[5] == IntValue(ParseDirection(fs[5]).value)
      && ParseInteger(fs[6]).Some? && vs[6] == IntValue(ParseInteger(fs[6]).value)
      && ParseInteger(fs[7]).Some? && vs[7] == IntValue(ParseInteger(fs[7]).value)
      && ParseDecimal(fs[8]).Some? && vs[8] == FixedValue(ParseDecimal(fs[8]).value)
      && ParseDecimal(fs[9]).Some? && vs[9] == FixedValue(ParseDecimal(fs[9]).value)
      && vs[10] == CharValue(FirstChar(fs[10]))
      && ParseDecimal(fs[11]).Some? && vs[11] == FixedValue(ParseDecimal(fs[11]).value)
      && vs[12] == CharValue(FirstChar(fs[12]))
  {
    GgaLineDirectives();
    GgaLineStored();
    ScanFieldsStored(fs, GgaLineFormat);
    TalkerAt(fs, GgaLineFormat, 0);
    TimeAt(fs, GgaLineFormat, 1);
    DecimalAt(fs, GgaLineFormat, 2);
    DirectionAt(fs, GgaLineFormat, 3);
    DecimalAt(fs, GgaLineFormat, 4);
    DirectionAt(fs, GgaLineFormat, 5);
    IntegerAt(fs, GgaLineFormat, 6);
    IntegerAt(fs, GgaLineFormat, 7);
    DecimalAt(fs, GgaLineFormat, 8);
    DecimalAt(fs, GgaLineFormat, 9);
    CharAt(fs, GgaLineFormat, 10);
    DecimalAt(fs, GgaLineFormat, 11);
    CharAt(fs, GgaLineFormat, 12);
  }

  /** What each field of the GGA example parses to. */
  predicate GgaLineParses(fs: seq<string>) {
    && |fs| == 15
    && ParseTalker(fs[0]) == Some("GPGGA") && ParseTime(fs[1]) == Time(12, 35, 19, 0)
    && ParseDecimal(fs[2]) == Some(Fixed(4807038, 1000)) && ParseDirection(fs[3]) == Some(1)
    && ParseDecimal(fs[4]) == Some(Fixed(1131000, 1000)) && ParseDirection(fs[5]) == Some(1)
    && ParseInteger(fs[6]) == Some(1) && ParseInteger(fs[7]) == Some(8)
    && ParseDecimal(fs[8]) == Some(Fixed(9, 10)) && ParseDecimal(fs[9]) == Some(Fixed(5454, 10))
    && FirstChar(fs[10]) == 'M' && ParseDecimal(fs[11]) == Some(Fixed(469, 10))
    && FirstChar(fs[12]) == 'M' && ParseInteger(fs[13]) == Some(0)
  }

  lemma GgaLineFieldList(s: string)
    requires s == "$GPGGA,123519,4807.038,N,01131.000,E,1,08,0.9,545.4,M,46.9,M,,*47\r\n"
    ensures Fields(s) == ["$GPGGA", "123519", "4807.038", "N", "01131.000", "E", "1", "08",
      "0.9", "545.4", "M", "46.9", "M", "", ""]
  {
    var jab, jc, jd := "$GPGGA,123519,4807.038,N,01131.000,E,1", "08,0.9,545.4,M", "46.9,M,,";
    var a, b, c, d := ["$GPGGA", "123519", "4807.038"], ["N", "01131.000", "E", "1"],
      ["08", "0.9", "545.4", "M"], ["46.9", "M", "", ""];
    GgaLineText(s, jab, jc, jd);
    GgaChunkFields(s, jab, jc, jd, a, b, c, d, "*47\r\n");
  }

  /** The token, time and position fields of the GGA example with its line ending. */
  lemma GgaLinePosition(s: string)
    requires s == "$GPGGA,123519,4807.038,N,01131.000,E,1,08,0.9,545.4,M,46.9,M,,*47\r\n"
    ensures |Fields(s)| == 15
    ensures ParseTalker(Fields(s)[0]) == Some("GPGGA") && ParseTime(Fields(s)[1]) == Time(12, 35, 19, 0)
    ensures ParseDecimal(Fields(s)[2]) == Some(Fixed(4807038, 1000)) && ParseDirection(Fields(s)[3]) == Some(1)
    ensures ParseDecimal(Fields(s)[4]) == Some(Fixed(1131000, 1000)) && ParseDirection(Fields(s)[5]) == Some(1)
  {
    GgaLineFieldList(s);
    GgaPosition(Fields(s));
  }

  /** The fix, dilution and altitude fields of the GGA example with its line ending. */
  lemma GgaLineFix(s: string)
    requires s == "$GPGGA,123519,4807.038,N,01131.000,E,1,08,0.9,545.4,M,46.9,M,,*47\r\n"
    ensures |Fields(s)| == 15
    ensures ParseInteger(Fields(s)[6]) == Some(1) && ParseInteger(Fields(s)[7]) == Some(8)
    ensures ParseDecimal(Fields(s)[8]) == Some(Fixed(9, 10)) && ParseDecimal(Fields(s)[9]) == Some(Fixed(5454, 10))
    ensures FirstChar(Fields(s)[10]) == 'M' && ParseDecimal(Fields(s)[11]) == Some(Fixed(469, 10))
    ensures FirstChar(Fields(s)[12]) == 'M' && ParseInteger(Fields(s)[13]) == Some(0)
  {
    GgaLineFieldList(s);
    GgaFix(Fields(s));
  }

  lemma GgaLineFields(s: string)
    requires s == "$GPGGA,123519,4807.038,N,01131.000,E,1,08,0.9,545.4,M,46.9,M,,*47\r\n"
    ensures GgaLineParses(Fields(s))
  {
    GgaLinePosition(s);
    GgaLineFix(s);
  }

  /** The values the GGA example's scan stores, listed one by one. */
  lemma GgaLineList(vs: seq<Value>)
    requires |vs| == 13 && vs[0] == TextValue("GPGGA") && vs[1] == TimeValue(Time(12, 35, 19, 0))
      && vs[2] == FixedValue(Fixed(4807038, 1000)) && vs[3] == IntValue(1)
      && vs[4] == FixedValue(Fixed(1131000, 1000)) && vs[5] == IntValue(1)
      && vs[6] == IntValue(1) && vs[7] == IntValue(8) && vs[8] == FixedValue(Fixed(9, 10))
      && vs[9] == FixedValue(Fixed(5454, 10)) && vs[10] == CharValue('M')
      && vs[11] == FixedValue(Fixed(469, 10)) && vs[12] == CharValue('M')
    ensures vs == [TextValue("GPGGA"), TimeValue(Time(12, 35, 19, 0)),
      FixedValue(Fixed(4807038, 1000)), IntValue(1), FixedValue(Fixed(1131000, 1000)), IntValue(1),
      IntValue(1), IntValue(8), FixedValue(Fixed(9, 10)), FixedValue(Fixed(5454, 10)),
      CharValue('M'), FixedValue(Fixed(469, 10)), CharValue('M')]
  {
  }

  /** Any fields that parse as the GGA example's do scan to its values. */
  lemma GgaLineScan(fs: seq<string>)
    requires GgaLineParses(fs)
    ensures ScanFields(fs, GgaLineFormat) == Some([TextValue("GPGGA"), TimeValue(Time(12, 35, 19, 0)),
      FixedValue(Fixed(4807038, 1000)), IntValue(1), FixedValue(Fixed(1131000, 1000)), IntValue(1),
      IntValue(1), IntValue(8), FixedValue(Fixed(9, 10)), FixedValue(Fixed(5454, 10)),
      CharValue('M'), FixedValue(Fixed(469, 10)), CharValue('M')])
  {
    GgaScanAccepts(fs);
    GgaLineAccepts(fs);
    var vs := ScanFields(fs, GgaLineFormat).value;
    assert |vs| == 13 && vs[0] == TextValue("GPGGA") && vs[1] == TimeValue(Time(12, 35, 19, 0))
      && vs[2] == FixedValue(Fixed(4807038, 1000)) && vs[3] == IntValue(1)
      && vs[4] == FixedValue(Fixed(1131000, 1000)) && vs[5] == IntValue(1)
    by {
      GgaLineValues(fs);
    }
    assert |vs| == 13
      && vs[6] == IntValue(1) && vs[7] == IntValue(8) && vs[8] == FixedValue(Fixed(9, 10))
      && vs[9] == FixedValue(Fixed(5454, 10)) && vs[10] == CharValue('M')
      && vs[11] == FixedValue(Fixed(469, 10)) && vs[12] == CharValue('M')
    by {
      GgaLineValues(fs);
    }
    GgaLineList(vs);
  }

  /** tests.c:175-219: the GGA sentence with its line ending, read with a format that
      skips the last two fields, stores the token, the time, both coordinates with
      their hemisphere signs, the fix quality, the satellite count, the dilution, and
      the altitude and geoid height with their units. */
  lemma ScanGgaLine(s: string)
    requires s == "$GPGGA,123519,4807.038,N,01131.000,E,1,08,0.9,545.4,M,46.9,M,,*47\r\n"
    ensures Scan(s, GgaLineFormat) == Some([TextValue("GPGGA"), TimeValue(Time(12, 35, 19, 0)),
      FixedValue(Fixed(4807038, 1000)), IntValue(1), FixedValue(Fixed(1131000, 1000)), IntValue(1),
      IntValue(1), IntValue(8), FixedValue(Fixed(9, 10)), FixedValue(Fixed(5454, 10)),
      CharValue('M'), FixedValue(Fixed(469, 10)), CharValue('M')])
  {
    GgaLineFields(s);
    GgaLineScan(Fields(s));
  }

  // ---------------------------------------------------------------- BWC, tests.c:221-256

  /** token, time, latitude and its hemisphere, longitude and its hemisphere, true
      bearing and its mark, magnetic bearing and its mark, distance and its unit, and
      the waypoint name. */
  const BwcFormat := "tTfdfdfcfcfcs"

  /** When the fields under the hard-failing directives parse, the BWC scan succeeds. */
  lemma BwcAccepts(fs: seq<string>)
    requires |fs| >= 13
    requires ParseTalker(fs[0]).Some? && ParseDecimal(fs[2]).Some?
    requires ParseDirection(fs[3]).Some? && ParseDecimal(fs[4]).Some?
    requires ParseDirection(fs[5]).Some? && ParseDecimal(fs[6]).Some?
    requires ParseDecimal(fs[8]).Some? && ParseDecimal(fs[10]).Some?
    ensures ScanFields(fs, BwcFormat).Some?
  {
    forall i | 0 <= i < 13 ensures Accepts(BwcFormat[i], fs[i]) {
      if i == 0 {
        AcceptsByParser(BwcFormat[0], fs[0]);
      } else if i == 1 {
        AcceptsByParser(BwcFormat[1], fs[1]);
      } else if i == 2 {
        AcceptsByParser(BwcFormat[2], fs[2]);
      } else if i == 3 {
        AcceptsByParser(BwcFormat[3], fs[3]);
      } else if i == 4 {
        AcceptsByParser(BwcFormat[4], fs[4]);
      } else if i == 5 {
        AcceptsByParser(BwcFormat[5], fs[5]);
      } else if i == 6 {
        AcceptsByParser(BwcFormat[6], fs[6]);
      } else if i == 7 {
        AcceptsByParser(BwcFormat[7], fs[7]);
      } else if i == 8 {
        AcceptsByParser(BwcFormat[8], fs[8]);
      } else if i == 9 {
        AcceptsByParser(BwcFormat[9], fs[9]);
      } else if i == 10 {
        AcceptsByParser(BwcFormat[10], fs[10]);
      } else if i == 11 {
        AcceptsByParser(BwcFormat[11], fs[11]);
      } else if i == 12 {
        AcceptsByParser(BwcFormat[12], fs[12]);
      }
    }
    ScanFieldsSucceeds(fs, BwcFormat);
  }

  /** The format's directives, none of them a skip. */
  lemma BwcDirectives()
    ensures |BwcFormat| == 13 && forall j :: 0 <= j < 13 ==> BwcFormat[j] != '_'
    ensures BwcFormat[0] == 't' && BwcFormat[1] == 'T' && BwcFormat[2] == 'f'
    ensures BwcFormat[3] == 'd' && BwcFormat[4] == 'f' && BwcFormat[5] == 'd'
    ensures BwcFormat[6] == 'f' && BwcFormat[7] == 'c' && BwcFormat[8] == 'f'
    ensures BwcFormat[9] == 'c' && BwcFormat[10] == 'f' && BwcFormat[11] == 'c'
    ensures BwcFormat[12] == 's'
  {
  }

  /** Each value the BWC format stores is what its field's parser makes of that field;
      the waypoint name is stored as written. */
  lemma BwcValues(fs: seq<string>)
    requires ScanFields(fs, BwcFormat).Some?
    ensures |fs| >= 13
    ensures var vs := ScanFields(fs, BwcFormat).value;
      && |vs| == 13
      && ParseTalker(fs[0]).Some? && vs[0] == TextValue(ParseTalker(fs[0]).value)
      && vs[1] == TimeValue(ParseTime(fs[1]))
      && ParseDecimal(fs[2]).Some? && vs[2] == FixedValue(ParseDecimal(fs[2]).value)
      && ParseDirection(fs[3]).Some? && vs[3] == IntValue(ParseDirection(fs[3]).value)
      && ParseDecimal(fs[4]).Some? && vs[4] == FixedValue(ParseDecimal(fs[4]).value)
      && ParseDirection(fs[5]).Some? && vs[5] == IntValue(ParseDirection(fs[5]).value)
      && ParseDecimal(fs[6]).Some? && vs[6] == FixedValue(ParseDecimal(fs[6]).value)
      && vs[7] == CharValue(FirstChar(fs[7]))
      && ParseDecimal(fs[8]).Some? && vs[8] == FixedValue(ParseDecimal(fs[8]).value)
      && vs[9] == CharValue(FirstChar(fs[9]))
      && ParseDecimal(fs[10]).Some? && vs[10] == FixedValue(ParseDecimal(fs[10]).value)
      && vs[11] == CharValue(FirstChar(fs[11]))
      && vs[12] == TextValue(fs[12])
  {
    BwcDirectives();
    StoredAll(BwcFormat);
    ScanFieldsStored(fs, BwcFormat);
    TalkerAt(fs, BwcFormat, 0);
    TimeAt(fs, BwcFormat, 1);
    DecimalAt(fs, BwcFormat, 2);
    DirectionAt(fs, BwcFormat, 3);
    DecimalAt(fs, BwcFormat, 4);
    DirectionAt(fs, BwcFormat, 5);
    DecimalAt(fs, BwcFormat, 6);
    CharAt(fs, BwcFormat, 7);
    DecimalAt(fs, BwcFormat, 8);
    CharAt(fs, BwcFormat, 9);
    DecimalAt(fs, BwcFormat, 10);
    CharAt(fs, BwcFormat, 11);
    VerbatimAt(fs, BwcFormat, 12);
  }

  /** What each field of the BWC example parses to. */
  predicate BwcParses(fs: seq<string>) {
    && |fs| == 13
    && ParseTalker(fs[0]) == Some("GPBWC") && ParseTime(fs[1]) == Time(8, 18, 37, 0)
    && ParseDecimal(fs[2]) == Some(Fixed(0, 0)) && ParseDirection(fs[3]) == Some(0)
    && ParseDecimal(fs[4]) == Some(Fixed(0, 0)) && ParseDirection(fs[5]) == Some(0)
    && ParseDecimal(fs[6]) == Some(Fixed(0, 0)) && FirstChar(fs[7]) == 'T'
    && ParseDecimal(fs[8]) == Some(Fixed(0, 0)) && FirstChar(fs[9]) == 'M'
    && ParseDecimal(fs[10]) == Some(Fixed(0, 0)) && FirstChar(fs[11]) == 'N' && fs[12] == ""
  }

  /** The values the BWC example's scan stores, listed one by one. */
  lemma BwcList(vs: seq<Value>)
    requires |vs| == 13 && vs[0] == TextValue("GPBWC") && vs[1] == TimeValue(Time(8, 18, 37, 0))
      && vs[2] == FixedValue(Fixed(0, 0)) && vs[3] == IntValue(0)
      && vs[4] == FixedValue(Fixed(0, 0)) && vs[5] == IntValue(0)
      && vs[6] == FixedValue(Fixed(0, 0)) && vs[7] == CharValue('T') && vs[8] == FixedValue(Fixed(0, 0))
      && vs[9] == CharValue('M') && vs[10] == FixedValue(Fixed(0, 0))
      && vs[11] == CharValue('N') && vs[12] == TextValue("")
    ensures vs == [TextValue("GPBWC"), TimeValue(Time(8, 18, 37, 0)),
      FixedValue(Fixed(0, 0)), IntValue(0), FixedValue(Fixed(0, 0)), IntValue(0),
      FixedValue(Fixed(0, 0)), CharValue('T'), FixedValue(Fixed(0, 0)), CharValue('M'),
      FixedValue(Fixed(0, 0)), CharValue('N'), TextValue("")]
  {
  }

  /** Any fields that parse as the BWC example's do scan to its values. */
  lemma BwcScan(fs: seq<string>)
    requires BwcParses(fs)
    ensures ScanFields(fs, BwcFormat) == Some([TextValue("GPBWC"), TimeValue(Time(8, 18, 37, 0)),
      FixedValue(Fixed(0, 0)), IntValue(0), FixedValue(Fixed(0, 0)), IntValue(0),
      FixedValue(Fixed(0, 0)), CharValue('T'), FixedValue(Fixed(0, 0)), CharValue('M'),
      FixedValue(Fixed(0, 0)), CharValue('N'), TextValue("")])
  {
    BwcAccepts(fs);
    var vs := ScanFields(fs, BwcFormat).value;
    assert |vs| == 13 && vs[0] == TextValue("GPBWC") && vs[1] == TimeValue(Time(8, 18, 37, 0))
      && vs[2] == FixedValue(Fixed(0, 0)) && vs[3] == IntValue(0)
      && vs[4] == FixedValue(Fixed(0, 0)) && vs[5] == IntValue(0)
    by {
      BwcValues(fs);
    }
    assert |vs| == 13
      && vs[6] == FixedValue(Fixed(0, 0)) && vs[7] == CharValue('T') && vs[8] == FixedValue(Fixed(0, 0))
      && vs[9] == CharValue('M') && vs[10] == FixedValue(Fixed(0, 0))
      && vs[11] == CharValue('N') && vs[12] == TextValue("")
    by {
      BwcValues(fs);
    }
    BwcList(vs);
  }

  lemma BwcChunk1()
    ensures Join(["$GPBWC", "081837", "", ""]) == "$GPBWC,081837,,"
  {
  }

  lemma BwcChunk2()
    ensures Join(["", "", "", "T", "", "M"]) == ",,,T,,M"
  {
  }

  lemma BwcChunk3()
    ensures Join(["", "N", ""]) == ",N,"
  {
  }

  lemma BwcTexts()
    ensures FieldTexts(["$GPBWC", "081837", "", ""])
    ensures FieldTexts(["", "", "", "T", "", "M"])
    ensures FieldTexts(["", "N", ""])
  {
  }

  lemma BwcTime(f: string)
    requires f == "081837"
    ensures ParseTime(f) == Time(8, 18, 37, 0)
  {
    assert f == Pad2(8) + Pad2(18) + Pad2(37) + "";
    TimeOf(f, 8, 18, 37, "", 0);
  }

  lemma BwcFields(s: string)
    requires s == "$GPBWC,081837,,,,,,T,,M,,N,*13"
    ensures BwcParses(Fields(s))
  {
    var ja, jb, jc := "$GPBWC,081837,,", ",,,T,,M", ",N,";
    var a, b, c := ["$GPBWC", "081837", "", ""], ["", "", "", "T", "", "M"], ["", "N", ""];
    BwcSentenceText(s, ja, jb, jc);
    BwcChunk1();
    BwcChunk2();
    BwcChunk3();
    BwcTexts();
    FieldsOfChunks(s, a, b, c, "*13");
    var fs := Fields(s);
    assert fs[0][1..6] == "GPBWC";
    BwcTime(fs[1]);
  }

  /** tests.c:221-256: a BWC sentence, which no decoder reads, scanned field by field:
      the token and the time are stored, the empty coordinates and bearings are the
      absent number (scale 0) with hemisphere 0, the marks and the unit are their
      fields' letters, and the empty waypoint name is the empty string. */
  lemma ScanBwc(s: string)
    requires s == "$GPBWC,081837,,,,,,T,,M,,N,*13"
    ensures Scan(s, BwcFormat) == Some([TextValue("GPBWC"), TimeValue(Time(8, 18, 37, 0)),
      FixedValue(Fixed(0, 0)), IntValue(0), FixedValue(Fixed(0, 0)), IntValue(0),
      FixedValue(Fixed(0, 0)), CharValue('T'), FixedValue(Fixed(0, 0)), CharValue('M'),
      FixedValue(Fixed(0, 0)), CharValue('N'), TextValue("")])
  {
    BwcFields(s);
    BwcScan(Fields(s));
  }
}
