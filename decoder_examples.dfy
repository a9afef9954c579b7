/** The sentences the library's own tests decode in full (tests.c:259-356), each read
    through `Decoders.DecodeRmc` or `Decoders.DecodeGga` to the record the test expects.
    A sentence is cut into fields a few at a time (`FieldsOfChunks`), and each field's
    value is read by its own small lemma. */
module DecoderExamples {
  import opened Text
  import opened FixedPoint
  import opened FieldSplit
  import opened Directives
  import opened Decoders
  import opened Validator
  import opened CheckVectors
  import opened SentenceTexts

  // ---------------------------------------------------------------- helpers

  /** Every character of `x` is a field character. */
  predicate FieldText(x: string) {
    forall j :: 0 <= j < |x| ==> IsField(x[j])
  }

  predicate FieldTexts(parts: seq<string>) {
    forall k :: 0 <= k < |parts| ==> FieldText(parts[k])
  }

  /** Joining two runs of parts puts one ',' between their joined texts. */
  lemma {:induction false} JoinAppend(a: seq<string>, b: seq<string>)
    requires |a| >= 1 && |b| >= 1
    ensures Join(a + b) == Join(a) + "," + Join(b)
    decreases |a|
  {
    if |a| == 1 {
      assert (a + b)[1..] == b;
    } else {
      JoinAppend(a[1..], b);
      assert (a + b)[1..] == a[1..] + b;
    }
  }

  /** A sentence made of three runs of fields (and a tail that ends the line) has
      those fields. */
  lemma FieldsOfChunks(s: string, a: seq<string>, b: seq<string>, c: seq<string>, tail: string)
    requires |a| >= 1 && |b| >= 1 && |c| >= 1
    requires FieldTexts(a) && FieldTexts(b) && FieldTexts(c)
    requires tail == [] || !InLine(tail[0])
    requires s == Join(a) + "," + Join(b) + "," + Join(c) + tail
    ensures Fields(s) == a + b + c
  {
    var parts := a + b + c;
    JoinAppend(a, b);
    JoinAppend(a + b, c);
    forall k, j | 0 <= k < |parts| && 0 <= j < |parts[k]|
      ensures IsField(parts[k][j])
    {
      if k < |a| {
        assert parts[k] == a[k] && FieldText(a[k]);
      } else if k < |a| + |b| {
        assert parts[k] == b[k - |a|] && FieldText(b[k - |a|]);
      } else {
        assert parts[k] == c[k - |a| - |b|] && FieldText(c[k - |a| - |b|]);
      }
    }
    FieldsOfJoin(parts, tail);
  }

  /** Two runs of fields joined one after the other. */
  lemma JoinChunks(a: seq<string>, b: seq<string>, ja: string, jb: string)
    requires |a| >= 1 && |b| >= 1 && FieldTexts(a) && FieldTexts(b)
    requires Join(a) == ja && Join(b) == jb
    ensures Join(a + b) == ja + "," + jb && FieldTexts(a + b)
  {
    JoinAppend(a, b);
    forall k | 0 <= k < |a + b|
      ensures FieldText((a + b)[k])
    {
      if k < |a| {
        assert (a + b)[k] == a[k];
      } else {
        assert (a + b)[k] == b[k - |a|];
      }
    }
  }

  /** An unsigned integer field. */
  lemma IntegerDigits(f: string, z: nat, m: nat)
    requires f == Zeros(z) + DigitsOf(m, 1)
    ensures ParseInteger(f) == Some(m)
  {
    LeadingZeros(z, m);
    ParseIntegerDigits(false, f);
    assert "" + f == f;
  }

  /** An hhmmss time field, with `ds` the digits after the point when there are any. */
  lemma TimeOf(f: string, h: nat, mi: nat, sec: nat, ds: string, u: nat)
    requires h < 100 && mi < 100 && sec < 100
    requires AllDigits(ds) && |ds| <= 6 && u == DigitsValue(ds) * Pow10(6 - |ds|)
    requires f == Pad2(h) + Pad2(mi) + Pad2(sec) + (if ds == [] then "" else "." + ds)
    ensures ParseTime(f) == Time(h, mi, sec, u)
  {
    var rest := if ds == [] then "" else "." + ds;
    assert SixDigits(f) && TwoDigits(f, 0) == h && TwoDigits(f, 2) == mi && TwoDigits(f, 4) == sec by {
      SixDigitsOf(Pad2(h), Pad2(mi), Pad2(sec), rest);
    }
    FractionAfter(f, Pad2(h) + Pad2(mi) + Pad2(sec), ds);
  }

  /** The fraction digits after six leading characters. */
  lemma FractionAfter(f: string, p: string, ds: string)
    requires |p| == 6 && AllDigits(ds) && |ds| <= 6
    requires f == p + (if ds == [] then "" else "." + ds)
    ensures (if |f| > 6 && f[6] == '.' then Microseconds(f[7..]) else 0)
         == DigitsValue(ds) * Pow10(6 - |ds|)
  {
    if ds != [] {
      assert |f| > 6 && f[6] == '.' && f[7..] == ds + "" by {
        assert f == p + ("." + ds);
        assert f[7..] == ds;
      }
      assert Microseconds(f[7..]) == DigitsValue(ds) * Pow10(6 - |ds|) by {
        MicrosecondsShort(ds, "");
      }
    } else {
      assert |f| == 6 && DigitsValue(ds) == 0;
    }
  }

  // ---------------------------------------------------------------- GGA, tests.c:303-329

  lemma GgaChunk1()
    ensures Join(["$GPGGA", "123519", "4807.038"]) == "$GPGGA,123519,4807.038"
  {
  }

  lemma GgaTexts1()
    ensures FieldTexts(["$GPGGA", "123519", "4807.038"])
  {
  }

  lemma GgaChunk2()
    ensures Join(["N", "01131.000", "E", "1"]) == "N,01131.000,E,1"
  {
  }

  lemma GgaTexts2()
    ensures FieldTexts(["N", "01131.000", "E", "1"])
  {
  }

  lemma GgaChunk3()
    ensures Join(["08", "0.9", "545.4", "M"]) == "08,0.9,545.4,M"
  {
  }

  lemma GgaTexts3()
    ensures FieldTexts(["08", "0.9", "545.4", "M"])
  {
  }

  lemma GgaChunk4()
    ensures Join(["46.9", "M", "", ""]) == "46.9,M,,"
  {
  }

  lemma GgaTexts4()
    ensures FieldTexts(["46.9", "M", "", ""])
  {
  }

  /** The GGA example's fields, followed by its checksum and any line ending. */
  lemma GgaChunkFields(s: string, jab: string, jc: string, jd: string,
    a: seq<string>, b: seq<string>, c: seq<string>, d: seq<string>, tail: string)
    requires jab == "$GPGGA,123519,4807.038,N,01131.000,E,1"
    requires jc == "08,0.9,545.4,M" && jd == "46.9,M,,"
    requires a == ["$GPGGA", "123519", "4807.038"] && b == ["N", "01131.000", "E", "1"]
    requires c == ["08", "0.9", "545.4", "M"] && d == ["46.9", "M", "", ""]
    requires tail == "*47" || tail == "*47\r\n"
    requires s == jab + "," + jc + "," + jd + tail
    ensures Fields(s) == a + b + c + d
  {
    var ja, jb := "$GPGGA,123519,4807.038", "N,01131.000,E,1";
    assert Join(a) == ja && FieldTexts(a) by { GgaChunk1(); GgaTexts1(); }
    assert Join(b) == jb && FieldTexts(b) by { GgaChunk2(); GgaTexts2(); }
    assert Join(c) == jc && FieldTexts(c) by { GgaChunk3(); GgaTexts3(); }
    assert Join(d) == jd && FieldTexts(d) by { GgaChunk4(); GgaTexts4(); }
    JoinChunks(a, b, ja, jb);
    GgaHeadText(jab, ja, jb);
    FieldsOfChunks(s, a + b, c, d, tail);
  }

  lemma GgaSentenceFields(s: string)
    requires s == "$GPGGA,123519,4807.038,N,01131.000,E,1,08,0.9,545.4,M,46.9,M,,*47"
    ensures Fields(s) == ["$GPGGA", "123519", "4807.038", "N", "01131.000", "E", "1", "08",
      "0.9", "545.4", "M", "46.9", "M", "", ""]
  {
    var jab, jc, jd := "$GPGGA,123519,4807.038,N,01131.000,E,1", "08,0.9,545.4,M", "46.9,M,,";
    var a, b, c, d := ["$GPGGA", "123519", "4807.038"], ["N", "01131.000", "E", "1"],
      ["08", "0.9", "545.4", "M"], ["46.9", "M", "", ""];
    GgaSentenceText(s, jab, jc, jd);
    GgaChunkFields(s, jab, jc, jd, a, b, c, d, "*47");
  }

  lemma GgaTalker(f: string)
    requires f == "$GPGGA"
    ensures ParseTalker(f) == Some("GPGGA")
  {
    assert |f| >= 6 && f[0] == '$' && f[1..6] == "GPGGA";
  }

  lemma GgaTime(f: string)
    requires f == "123519"
    ensures ParseTime(f) == Time(12, 35, 19, 0)
  {
    assert f == Pad2(12) + Pad2(35) + Pad2(19) + "";
    TimeOf(f, 12, 35, 19, "", 0);
  }

  lemma GgaLatitude(f: string)
    requires f == "4807.038"
    ensures ParseDecimal(f) == Some(Fixed(4807038, 1000))
  {
    DecimalParts(f, 0, 4807, 1, 38, 4807038, 1000);
  }

  lemma GgaLongitude(f: string)
    requires f == "01131.000"
    ensures ParseDecimal(f) == Some(Fixed(1131000, 1000))
  {
    DecimalParts(f, 1, 1131, 2, 0, 1131000, 1000);
  }

  lemma GgaCounts(q: string, n: string)
    requires q == "1" && n == "08"
    ensures ParseInteger(q) == Some(1) && ParseInteger(n) == Some(8)
  {
    assert ParseInteger(q) == Some(1) by {
      IntegerDigits(q, 0, 1);
    }
    assert ParseInteger(n) == Some(8) by {
      IntegerDigits(n, 1, 8);
    }
  }

  lemma GgaHdop(f: string)
    requires f == "0.9"
    ensures ParseDecimal(f) == Some(Fixed(9, 10))
  {
    DecimalParts(f, 0, 0, 0, 9, 9, 10);
  }

  lemma GgaAltitude(f: string)
    requires f == "545.4"
    ensures ParseDecimal(f) == Some(Fixed(5454, 10))
  {
    DecimalParts(f, 0, 545, 0, 4, 5454, 10);
  }

  lemma GgaHeight(f: string)
    requires f == "46.9"
    ensures ParseDecimal(f) == Some(Fixed(469, 10))
  {
    DecimalParts(f, 0, 46, 0, 9, 469, 10);
  }

  /** The talker, time and position fields of the GGA example. */
  lemma GgaPosition(fs: seq<string>)
    requires && |fs| == 15 && fs[0] == "$GPGGA" && fs[1] == "123519" && fs[2] == "4807.038"
      && fs[3] == "N" && fs[4] == "01131.000" && fs[5] == "E"
    ensures ParseTalker(fs[0]) == Some("GPGGA") && ParseTime(fs[1]) == Time(12, 35, 19, 0)
    ensures ParseDecimal(fs[2]) == Some(Fixed(4807038, 1000)) && ParseDirection(fs[3]) == Some(1)
    ensures ParseDecimal(fs[4]) == Some(Fixed(1131000, 1000)) && ParseDirection(fs[5]) == Some(1)
  {
    GgaTalker(fs[0]);
    GgaTime(fs[1]);
    GgaLatitude(fs[2]);
    GgaLongitude(fs[4]);
  }

  /** The fix quality, satellite count, dilution and altitude fields of the GGA example. */
  lemma GgaFix(fs: seq<string>)
    requires && |fs| == 15 && fs[6] == "1" && fs[7] == "08"
      && fs[8] == "0.9" && fs[9] == "545.4" && fs[10] == "M" && fs[11] == "46.9"
      && fs[12] == "M" && fs[13] == ""
    ensures ParseInteger(fs[6]) == Some(1) && ParseInteger(fs[7]) == Some(8)
    ensures ParseDecimal(fs[8]) == Some(Fixed(9, 10)) && ParseDecimal(fs[9]) == Some(Fixed(5454, 10))
    ensures FirstChar(fs[10]) == 'M' && ParseDecimal(fs[11]) == Some(Fixed(469, 10))
    ensures FirstChar(fs[12]) == 'M' && ParseInteger(fs[13]) == Some(0)
  {
    GgaCounts(fs[6], fs[7]);
    GgaHdop(fs[8]);
    GgaAltitude(fs[9]);
    GgaHeight(fs[11]);
  }

  /** The fields of the GGA sentence make the record the test expects. */
  lemma GgaRecord(fs: seq<string>)
    requires && |fs| == 15 && fs[0] == "$GPGGA" && fs[1] == "123519" && fs[2] == "4807.038"
      && fs[3] == "N" && fs[4] == "01131.000" && fs[5] == "E" && fs[6] == "1" && fs[7] == "08"
      && fs[8] == "0.9" && fs[9] == "545.4" && fs[10] == "M" && fs[11] == "46.9"
      && fs[12] == "M" && fs[13] == ""
    ensures GgaFromFields(fs) == Some(Gga(Time(12, 35, 19, 0), Fixed(4807038, 1000),
      Fixed(1131000, 1000), 1, 8, Fixed(9, 10), Fixed(5454, 10), 'M', Fixed(469, 10), 'M', 0))
  {
    GgaPosition(fs);
    GgaFix(fs);
  }

  /** tests.c:303-329: the GGA sentence decodes to the record the test expects. */
  lemma GgaSentence(s: string)
    requires s == "$GPGGA,123519,4807.038,N,01131.000,E,1,08,0.9,545.4,M,46.9,M,,*47"
    ensures DecodeGga(s) == Some(Gga(Time(12, 35, 19, 0), Fixed(4807038, 1000),
      Fixed(1131000, 1000), 1, 8, Fixed(9, 10), Fixed(5454, 10), 'M', Fixed(469, 10), 'M', 0))
  {
    GgaSentenceFields(s);
    GgaRecord(Fields(s));
    DecodeGgaFieldwise(s);
  }

  // ---------------------------------------------------------------- RMC, tests.c:259-301, 331-356

  lemma RmcHeadJoined()
    ensures Join(["$GPRMC", "081836.75", "A", "3751.65", "S"]) == "$GPRMC,081836.75,A,3751.65,S"
  {
  }

  lemma RmcHeadTexts()
    ensures FieldTexts(["$GPRMC", "081836.75", "A", "3751.65", "S"])
  {
  }

  lemma SparseHeadJoined()
    ensures Join(["$GPRMC", "", "A", "3751.65", "N"]) == "$GPRMC,,A,3751.65,N"
  {
  }

  lemma SparseHeadTexts()
    ensures FieldTexts(["$GPRMC", "", "A", "3751.65", "N"])
  {
  }

  lemma UsageHeadJoined()
    ensures Join(["$GPRMC", "081836", "A", "3751.65", "S"]) == "$GPRMC,081836,A,3751.65,S"
  {
  }

  lemma UsageHeadTexts()
    ensures FieldTexts(["$GPRMC", "081836", "A", "3751.65", "S"])
  {
  }

  lemma RmcMiddleJoined()
    ensures Join(["14507.36", "E", "000.0", "360.0"]) == "14507.36,E,000.0,360.0"
  {
  }

  lemma RmcMiddleTexts()
    ensures FieldTexts(["14507.36", "E", "000.0", "360.0"])
  {
  }

  lemma RmcLastJoined()
    ensures Join(["130998", "011.3", "E"]) == "130998,011.3,E"
  {
  }

  lemma RmcLastTexts()
    ensures FieldTexts(["130998", "011.3", "E"])
  {
  }

  lemma SparseMiddleJoined()
    ensures Join(["14507.36", "W", "", ""]) == "14507.36,W,,"
  {
  }

  lemma SparseMiddleTexts()
    ensures FieldTexts(["14507.36", "W", "", ""])
  {
  }

  lemma SparseLastJoined()
    ensures Join(["", "", ""]) == ",,"
  {
  }

  lemma SparseLastTexts()
    ensures FieldTexts(["", "", ""])
  {
  }

  lemma RmcSentenceChunkFields(s: string, ja: string, jb: string, jc: string, a: seq<string>, b: seq<string>, c: seq<string>)
    requires ja == "$GPRMC,081836.75,A,3751.65,S"
    requires jb == "14507.36,E,000.0,360.0" && jc == "130998,011.3,E"
    requires a == ["$GPRMC", "081836.75", "A", "3751.65", "S"]
    requires b == ["14507.36", "E", "000.0", "360.0"] && c == ["130998", "011.3", "E"]
    requires s == ja + "," + jb + "," + jc
    ensures Fields(s) == a + b + c
  {
    assert Join(a) == ja && FieldTexts(a) by { RmcHeadJoined(); RmcHeadTexts(); }
    assert Join(b) == jb && FieldTexts(b) by { RmcMiddleJoined(); RmcMiddleTexts(); }
    assert Join(c) == jc && FieldTexts(c) by { RmcLastJoined(); RmcLastTexts(); }
    assert s == ja + "," + jb + "," + jc + "";
    FieldsOfChunks(s, a, b, c, "");
  }

  lemma RmcSentenceFields(s: string)
    requires s == "$GPRMC,081836.75,A,3751.65,S,14507.36,E,000.0,360.0,130998,011.3,E"
    ensures Fields(s) == ["$GPRMC", "081836.75", "A", "3751.65", "S", "14507.36", "E",
      "000.0", "360.0", "130998", "011.3", "E"]
  {
    var ja, jb, jc := "$GPRMC,081836.75,A,3751.65,S", "14507.36,E,000.0,360.0", "130998,011.3,E";
    var a, b, c := ["$GPRMC", "081836.75", "A", "3751.65", "S"],
      ["14507.36", "E", "000.0", "360.0"], ["130998", "011.3", "E"];
    RmcSentenceText(s, ja, jb, jc);
    RmcSentenceChunkFields(s, ja, jb, jc, a, b, c);
  }

  lemma SparseSentenceChunkFields(s: string, ja: string, jb: string, jc: string, a: seq<string>, b: seq<string>, c: seq<string>)
    requires ja == "$GPRMC,,A,3751.65,N"
    requires jb == "14507.36,W,," && jc == ",,"
    requires a == ["$GPRMC", "", "A", "3751.65", "N"]
    requires b == ["14507.36", "W", "", ""] && c == ["", "", ""]
    requires s == ja + "," + jb + "," + jc
    ensures Fields(s) == a + b + c
  {
    assert Join(a) == ja && FieldTexts(a) by { SparseHeadJoined(); SparseHeadTexts(); }
    assert Join(b) == jb && FieldTexts(b) by { SparseMiddleJoined(); SparseMiddleTexts(); }
    assert Join(c) == jc && FieldTexts(c) by { SparseLastJoined(); SparseLastTexts(); }
    assert s == ja + "," + jb + "," + jc + "";
    FieldsOfChunks(s, a, b, c, "");
  }

  lemma SparseSentenceFields(s: string)
    requires s == "$GPRMC,,A,3751.65,N,14507.36,W,,,,,"
    ensures Fields(s) == ["$GPRMC", "", "A", "3751.65", "N", "14507.36", "W", "", "", "", "",
      ""]
  {
    var ja, jb, jc := "$GPRMC,,A,3751.65,N", "14507.36,W,,", ",,";
    var a, b, c := ["$GPRMC", "", "A", "3751.65", "N"],
      ["14507.36", "W", "", ""], ["", "", ""];
    SparseSentenceText(s, ja, jb, jc);
    SparseSentenceChunkFields(s, ja, jb, jc, a, b, c);
  }

  lemma UsageRmcChunkFields(s: string, ja: string, jb: string, jc: string, a: seq<string>, b: seq<string>, c: seq<string>)
    requires ja == "$GPRMC,081836,A,3751.65,S"
    requires jb == "14507.36,E,000.0,360.0" && jc == "130998,011.3,E"
    requires a == ["$GPRMC", "081836", "A", "3751.65", "S"]
    requires b == ["14507.36", "E", "000.0", "360.0"] && c == ["130998", "011.3", "E"]
    requires s == ja + "," + jb + "," + jc + "*62"
    ensures Fields(s) == a + b + c
  {
    assert Join(a) == ja && FieldTexts(a) by { UsageHeadJoined(); UsageHeadTexts(); }
    assert Join(b) == jb && FieldTexts(b) by { RmcMiddleJoined(); RmcMiddleTexts(); }
    assert Join(c) == jc && FieldTexts(c) by { RmcLastJoined(); RmcLastTexts(); }
    FieldsOfChunks(s, a, b, c, "*62");
  }

  lemma UsageRmcFields(s: string)
    requires s == "$GPRMC,081836,A,3751.65,S,14507.36,E,000.0,360.0,130998,011.3,E*62"
    ensures Fields(s) == ["$GPRMC", "081836", "A", "3751.65", "S", "14507.36", "E", "000.0",
      "360.0", "130998", "011.3", "E"]
  {
    var ja, jb, jc := "$GPRMC,081836,A,3751.65,S", "14507.36,E,000.0,360.0", "130998,011.3,E";
    var a, b, c := ["$GPRMC", "081836", "A", "3751.65", "S"],
      ["14507.36", "E", "000.0", "360.0"], ["130998", "011.3", "E"];
    UsageRmcText(s, ja, jb, jc);
    UsageRmcChunkFields(s, ja, jb, jc, a, b, c);
  }

  lemma RmcTalker(f: string)
    requires f == "$GPRMC"
    ensures ParseTalker(f) == Some("GPRMC")
  {
    assert |f| >= 6 && f[0] == '$' && f[1..6] == "GPRMC";
  }

  lemma RmcLatitude(f: string)
    requires f == "3751.65"
    ensures ParseDecimal(f) == Some(Fixed(375165, 100))
  {
    DecimalParts(f, 0, 3751, 0, 65, 375165, 100);
  }

  lemma RmcLongitude(f: string)
    requires f == "14507.36"
    ensures ParseDecimal(f) == Some(Fixed(1450736, 100))
  {
    DecimalParts(f, 0, 14507, 0, 36, 1450736, 100);
  }

  lemma RmcSpeed(f: string)
    requires f == "000.0"
    ensures ParseDecimal(f) == Some(Fixed(0, 10))
  {
    DecimalParts(f, 2, 0, 0, 0, 0, 10);
  }

  lemma RmcCourse(f: string)
    requires f == "360.0"
    ensures ParseDecimal(f) == Some(Fixed(3600, 10))
  {
    DecimalParts(f, 0, 360, 0, 0, 3600, 10);
  }

  lemma RmcVariation(f: string)
    requires f == "011.3"
    ensures ParseDecimal(f) == Some(Fixed(113, 10))
  {
    DecimalParts(f, 1, 11, 0, 3, 113, 10);
  }

  lemma RmcDate(f: string)
    requires f == "130998"
    ensures ParseDate(f) == Date(13, 9, 98)
  {
    DateRoundTrip(Date(13, 9, 98));
    assert DateText(Date(13, 9, 98)) == f;
  }

  lemma RmcTimeFraction(f: string)
    requires f == "081836.75"
    ensures ParseTime(f) == Time(8, 18, 36, 750000)
  {
    assert DigitsValue("75") * Pow10(6 - |"75"|) == 750000;
    assert f == Pad2(8) + Pad2(18) + Pad2(36) + ("." + "75");
    TimeOf(f, 8, 18, 36, "75", 750000);
  }

  lemma RmcTimeWhole(f: string)
    requires f == "081836"
    ensures ParseTime(f) == Time(8, 18, 36, 0)
  {
    assert f == Pad2(8) + Pad2(18) + Pad2(36) + "";
    TimeOf(f, 8, 18, 36, "", 0);
  }

  /** The RMC record from fields whose parses are known. */
  lemma RmcFromParses(fs: seq<string>, t: Time, lat: Fixed, latSign: int, lon: Fixed, lonSign: int,
    speed: Fixed, course: Fixed, d: Date, mv: Fixed, mvSign: int)
    requires |fs| >= 12 && ParseTalker(fs[0]) == Some("GPRMC") && ParseTime(fs[1]) == t
    requires ParseDecimal(fs[3]) == Some(lat) && ParseDirection(fs[4]) == Some(latSign)
    requires ParseDecimal(fs[5]) == Some(lon) && ParseDirection(fs[6]) == Some(lonSign)
    requires ParseDecimal(fs[7]) == Some(speed) && ParseDecimal(fs[8]) == Some(course)
    requires ParseDate(fs[9]) == d
    requires ParseDecimal(fs[10]) == Some(mv) && ParseDirection(fs[11]) == Some(mvSign)
    ensures RmcFromFields(fs) == Some(Rmc(t, fs[2] != [] && fs[2][0] == 'A',
      Signed(lat, latSign), Signed(lon, lonSign), speed, course, d, Signed(mv, mvSign)))
  {
  }

  /** The fields of the RMC sentences of tests.c:259-282 and tests.c:334 past the time
      make the same record. */
  lemma RmcRecord(fs: seq<string>, t: Time)
    requires |fs| == 12 && fs[0] == "$GPRMC" && ParseTime(fs[1]) == t && fs[2] == "A"
    requires fs[3] == "3751.65" && fs[4] == "S" && fs[5] == "14507.36" && fs[6] == "E"
    requires fs[7] == "000.0" && fs[8] == "360.0" && fs[9] == "130998" && fs[10] == "011.3"
    requires fs[11] == "E"
    ensures RmcFromFields(fs) == Some(Rmc(t, true, Fixed(-375165, 100), Fixed(1450736, 100),
      Fixed(0, 10), Fixed(3600, 10), Date(13, 9, 98), Fixed(113, 10)))
  {
    RmcTalker(fs[0]);
    RmcLatitude(fs[3]);
    RmcLongitude(fs[5]);
    RmcSpeed(fs[7]);
    RmcCourse(fs[8]);
    RmcDate(fs[9]);
    RmcVariation(fs[10]);
    assert ParseDirection(fs[4]) == Some(-1);
    assert ParseDirection(fs[6]) == Some(1) && ParseDirection(fs[11]) == Some(1);
    RmcFromParses(fs, t, Fixed(375165, 100), -1, Fixed(1450736, 100), 1, Fixed(0, 10),
      Fixed(3600, 10), Date(13, 9, 98), Fixed(113, 10), 1);
    assert fs[2][0] == 'A';
  }

  /** The fields of the sparse RMC sentence of tests.c:284-301: absent time, speed,
      course, date and variation. */
  lemma SparseRecord(fs: seq<string>)
    requires |fs| == 12 && fs[0] == "$GPRMC" && fs[1] == "" && fs[2] == "A"
    requires fs[3] == "3751.65" && fs[4] == "N" && fs[5] == "14507.36" && fs[6] == "W"
    requires fs[7] == "" && fs[8] == "" && fs[9] == "" && fs[10] == "" && fs[11] == ""
    ensures RmcFromFields(fs) == Some(Rmc(NoTime, true, Fixed(375165, 100),
      Fixed(-1450736, 100), Fixed(0, 0), Fixed(0, 0), NoDate, Fixed(0, 0)))
  {
    RmcTalker(fs[0]);
    RmcLatitude(fs[3]);
    RmcLongitude(fs[5]);
    assert ParseDirection(fs[4]) == Some(1) && ParseDirection(fs[6]) == Some(-1);
    assert ParseTime(fs[1]) == NoTime && ParseDate(fs[9]) == NoDate;
    RmcFromParses(fs, NoTime, Fixed(375165, 100), 1, Fixed(1450736, 100), -1, Fixed(0, 0),
      Fixed(0, 0), NoDate, Fixed(0, 0), 0);
    assert fs[2][0] == 'A';
  }

  /** tests.c:259-282: the full RMC sentence decodes to the record the test expects:
      southern latitude negative, a fractional second, speed and course at scale 10. */
  lemma RmcSentence(s: string)
    requires s == "$GPRMC,081836.75,A,3751.65,S,14507.36,E,000.0,360.0,130998,011.3,E"
    ensures DecodeRmc(s) == Some(Rmc(Time(8, 18, 36, 750000), true, Fixed(-375165, 100),
      Fixed(1450736, 100), Fixed(0, 10), Fixed(3600, 10), Date(13, 9, 98), Fixed(113, 10)))
  {
    RmcSentenceFields(s);
    RmcTimeFraction(Fields(s)[1]);
    RmcRecord(Fields(s), Time(8, 18, 36, 750000));
    DecodeRmcFieldwise(s);
  }

  /** tests.c:284-301: empty fields decode to the absent time and date and to zero at
      scale 0; the western longitude is negative. */
  lemma SparseSentence(s: string)
    requires s == "$GPRMC,,A,3751.65,N,14507.36,W,,,,,"
    ensures DecodeRmc(s) == Some(Rmc(NoTime, true, Fixed(375165, 100), Fixed(-1450736, 100),
      Fixed(0, 0), Fixed(0, 0), NoDate, Fixed(0, 0)))
  {
    SparseSentenceFields(s);
    SparseRecord(Fields(s));
    DecodeRmcFieldwise(s);
  }

  /** tests.c:334: the RMC sentence of the usage test, with a checksum. */
  lemma UsageRmc(s: string)
    requires s == "$GPRMC,081836,A,3751.65,S,14507.36,E,000.0,360.0,130998,011.3,E*62"
    ensures DecodeRmc(s) == Some(Rmc(Time(8, 18, 36, 0), true, Fixed(-375165, 100),
      Fixed(1450736, 100), Fixed(0, 10), Fixed(3600, 10), Date(13, 9, 98), Fixed(113, 10)))
  {
    UsageRmcFields(s);
    RmcTimeWhole(Fields(s)[1]);
    RmcRecord(Fields(s), Time(8, 18, 36, 0));
    DecodeRmcFieldwise(s);
  }

  // ---------------------------------------------------------------- the tests as run

  /** tests.c:259-282: the sentence passes the check, and parsing it into a zeroed
      frame succeeds and leaves the expected record there. */
  method RmcTest() returns (checked: bool, parsed: bool, frame: RmcFrame)
    ensures checked && parsed
    ensures frame.Record() == Rmc(Time(8, 18, 36, 750000), true, Fixed(-375165, 100),
      Fixed(1450736, 100), Fixed(0, 10), Fixed(3600, 10), Date(13, 9, 98), Fixed(113, 10))
  {
    var s := "$GPRMC,081836.75,A,3751.65,S,14507.36,E,000.0,360.0,130998,011.3,E";
    CheckRmcSentence(s);
    RmcSentence(s);
    checked := Check(s);
    frame := new RmcFrame();
    parsed := frame.Parse(s);
  }

  /** tests.c:284-301: the same with most fields empty. */
  method SparseTest() returns (checked: bool, parsed: bool, frame: RmcFrame)
    ensures checked && parsed
    ensures frame.Record() == Rmc(NoTime, true, Fixed(375165, 100), Fixed(-1450736, 100),
      Fixed(0, 0), Fixed(0, 0), NoDate, Fixed(0, 0))
  {
    var s := "$GPRMC,,A,3751.65,N,14507.36,W,,,,,";
    CheckRmcSparse(s);
    SparseSentence(s);
    checked := Check(s);
    frame := new RmcFrame();
    parsed := frame.Parse(s);
  }

  /** tests.c:303-329: the GGA sentence, checksum included. */
  method GgaTest() returns (checked: bool, parsed: bool, frame: GgaFrame)
    ensures checked && parsed
    ensures frame.Record() == Gga(Time(12, 35, 19, 0), Fixed(4807038, 1000),
      Fixed(1131000, 1000), 1, 8, Fixed(9, 10), Fixed(5454, 10), 'M', Fixed(469, 10), 'M', 0)
  {
    var s := "$GPGGA,123519,4807.038,N,01131.000,E,1,08,0.9,545.4,M,46.9,M,,*47";
    CheckGgaSentence(s);
    GgaSentence(s);
    checked := Check(s);
    frame := new GgaFrame();
    parsed := frame.Parse(s);
  }

  /** The decoder for `kind` accepts `s`. */
  predicate Decodes(s: string, kind: SentenceKind) {
    match kind
    case GpRmc => DecodeRmc(s).Some?
    case GpGga => DecodeGga(s).Some?
    case Unknown => false
  }

  /** What one pass of the usage test's loop sees: the sentence's kind, and whether
      the decoder for that kind accepted it. */
  function Outcome(s: string): (SentenceKind, bool) {
    (Classify(s), Decodes(s, Classify(s)))
  }

  lemma UsageSentences(sentences: seq<string>)
    requires sentences == ["$GPRMC,081836,A,3751.65,S,14507.36,E,000.0,360.0,130998,011.3,E*62",
      "$GPGGA,123519,4807.038,N,01131.000,E,1,08,0.9,545.4,M,46.9,M,,*47"]
    ensures |sentences| == 2
    ensures Outcome(sentences[0]) == (GpRmc, true) && Outcome(sentences[1]) == (GpGga, true)
  {
    UsageRmc(sentences[0]);
    DecodersAgreeWithClassify(sentences[0]);
    GgaSentence(sentences[1]);
    DecodersAgreeWithClassify(sentences[1]);
  }

  /** The body of the usage test's loop (tests.c:340-353): classify the sentence and
      run the decoder for its kind on a fresh frame. */
  method Dispatch(s: string) returns (kind: SentenceKind, ok: bool)
    ensures (kind, ok) == Outcome(s)
  {
    kind := Classify(s);
    ok := false;
    match kind {
      case GpRmc =>
        var frame := new RmcFrame();
        ok := frame.Parse(s);
      case GpGga =>
        var frame := new GgaFrame();
        ok := frame.Parse(s);
      case Unknown =>
    }
  }

  /** The usage test's loop (tests.c:339-354): one outcome per sentence, in order. */
  method UsageLoop(sentences: seq<string>) returns (kinds: seq<SentenceKind>, parsed: seq<bool>)
    ensures |kinds| == |parsed| == |sentences|
    ensures forall j :: 0 <= j < |sentences| ==> (kinds[j], parsed[j]) == Outcome(sentences[j])
  {
    kinds, parsed := [], [];
    var i := 0;
    while i < |sentences|
      invariant 0 <= i <= |sentences|
      invariant |kinds| == |parsed| == i
      invariant forall j :: 0 <= j < i ==> (kinds[j], parsed[j]) == Outcome(sentences[j])
    {
      var kind, ok := Dispatch(sentences[i]);
      kinds, parsed := kinds + [kind], parsed + [ok];
      i := i + 1;
    }
  }

  /** tests.c:331-356: the RMC sentence is classified RMC and the GGA sentence GGA,
      and both decode. */
  method UsageTest() returns (kinds: seq<SentenceKind>, parsed: seq<bool>)
    ensures |kinds| == |parsed| == 2
    ensures kinds[0] == GpRmc && kinds[1] == GpGga
    ensures parsed[0] && parsed[1]
  {
    var sentences := ["$GPRMC,081836,A,3751.65,S,14507.36,E,000.0,360.0,130998,011.3,E*62",
      "$GPGGA,123519,4807.038,N,01131.000,E,1,08,0.9,545.4,M,46.9,M,,*47"];
    UsageSentences(sentences);
    kinds, parsed := UsageLoop(sentences);
  }
}
