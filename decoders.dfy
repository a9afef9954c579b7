/** `minmea_parse_gprmc` and `minmea_parse_gpgga`: each is `minmea_scan` with a fixed
    format, a check of the sentence token, and the hemisphere sign applied to the
    coordinates. `minmea_type` picks the decoder from the same token. */
module Decoders {
  import opened Text
  import opened FixedPoint
  import opened FieldSplit
  import opened Directives
  import opened Scanner

  /** `struct minmea_gprmc`. */
  datatype Rmc = Rmc(
    time: Time,
    valid: bool,
    latitude: Fixed,
    longitude: Fixed,
    speed: Fixed,
    course: Fixed,
    date: Date,
    variation: Fixed)

  /** `struct minmea_gpgga`. */
  datatype Gga = Gga(
    time: Time,
    latitude: Fixed,
    longitude: Fixed,
    fixQuality: int,
    satellitesTracked: int,
    hdop: Fixed,
    altitude: Fixed,
    altitudeUnits: char,
    height: Fixed,
    heightUnits: char,
    dgpsAge: int)

  /** token, time, status, latitude and its hemisphere, longitude and its hemisphere,
      speed, course, date, magnetic variation and its direction. */
  const RmcFormat := "tTcfdfdffDfd"

  /** token, time, latitude and its hemisphere, longitude and its hemisphere, fix
      quality, satellites, hdop, altitude and its unit, geoid height and its unit,
      age of the differential data, and one skipped field (the station id). */
  const GgaFormat := "tTfdfdiiffcfci_"

  /** A magnitude carried over to the sign of its direction field (1, -1, or 0 when the
      direction field was empty). */
  function Signed(x: Fixed, direction: int): (r: Fixed)
    ensures r.scale == x.scale
    ensures direction == 1 ==> r == x
    ensures direction == -1 ==> r.value == -x.value
    ensures direction == 0 ==> r.value == 0
  {
    Fixed(x.value * direction, x.scale)
  }

  // ---------------------------------------------------------------- RMC

  /** The kinds of the values the RMC format stores, in order. */
  predicate RmcShape(vs: seq<Value>) {
    && |vs| == 12 && vs[0].TextValue?
    && vs[1].TimeValue? && vs[2].CharValue? && vs[3].FixedValue? && vs[4].IntValue?
    && vs[5].FixedValue? && vs[6].IntValue? && vs[7].FixedValue? && vs[8].FixedValue?
    && vs[9].DateValue? && vs[10].FixedValue? && vs[11].IntValue?
  }

  /** The record made from the values the RMC format stores. */
  function RmcOf(vs: seq<Value>): Option<Rmc> {
    if RmcShape(vs) && vs[0].text == "GPRMC" then
      Some(Rmc(vs[1].time, vs[2].ch == 'A', Signed(vs[3].x, vs[4].n), Signed(vs[5].x, vs[6].n),
        vs[7].x, vs[8].x, vs[9].date, Signed(vs[10].x, vs[11].n)))
    else None
  }

  /** `minmea_parse_gprmc` on a sentence: only a `$GPRMC` sentence decodes, and every
      number it yields has a scale. */
  function DecodeRmc(sentence: string): (r: Option<Rmc>)
    ensures r.Some? ==> |sentence| >= 6 && sentence[..6] == "$GPRMC"
    ensures r.Some? ==>
      && r.value.latitude.scale >= 0 && r.value.longitude.scale >= 0
      && r.value.speed.scale >= 0 && r.value.course.scale >= 0
      && r.value.variation.scale >= 0
  {
    match Scan(sentence, RmcFormat)
    case None => None
    case Some(vs) => RmcAccepted(sentence); RmcOf(vs)
  }

  /** What a successful RMC scan holds: values of the right kinds, numbers with a
      scale, and a GPRMC token only in a sentence opening with `$GPRMC`. */
  lemma RmcAccepted(sentence: string)
    requires Scan(sentence, RmcFormat).Some?
    ensures var vs := Scan(sentence, RmcFormat).value;
      && RmcShape(vs)
      && vs[3].x.scale >= 0 && vs[5].x.scale >= 0 && vs[7].x.scale >= 0
      && vs[8].x.scale >= 0 && vs[10].x.scale >= 0
      && (vs[0].text == "GPRMC" ==> |sentence| >= 6 && sentence[..6] == "$GPRMC")
  {
    var fs := Fields(sentence);
    RmcScanValues(fs);
    var vs := ScanFields(fs, RmcFormat).value;
    assert Scan(sentence, RmcFormat).value == vs;
    RmcToken(sentence, vs[0]);
  }

  /** The token a format led by `t` stores opens the sentence. */
  lemma RmcToken(sentence: string, v: Value)
    requires ParseTalker(Fields(sentence)[0]).Some?
    requires v == TextValue(ParseTalker(Fields(sentence)[0]).value)
    ensures v.text == "GPRMC" ==> |sentence| >= 6 && sentence[..6] == "$GPRMC"
  {
    TokenPrefix(sentence);
  }

  /** The first six characters of a sentence whose first field has at least six. */
  lemma TokenPrefix(sentence: string)
    ensures |Fields(sentence)[0]| >= 6 ==>
      |sentence| >= 6 && sentence[..6] == Fields(sentence)[0][..6]
  {
    FirstField(sentence);
  }

  /** The same record read off the fields one by one, each with its own parser: the
      token field must be `$GPRMC`, and every number has a scale. */
  function RmcFromFields(fs: seq<string>): (r: Option<Rmc>)
    ensures r.Some? ==> |fs| >= 12 && |fs[0]| >= 6 && fs[0][..6] == "$GPRMC"
    ensures r.Some? ==>
      && r.value.latitude.scale >= 0 && r.value.longitude.scale >= 0
      && r.value.speed.scale >= 0 && r.value.course.scale >= 0
      && r.value.variation.scale >= 0
  {
    if && |fs| >= 12 && ParseTalker(fs[0]) == Some("GPRMC")
       && ParseDecimal(fs[3]).Some? && ParseDirection(fs[4]).Some?
       && ParseDecimal(fs[5]).Some? && ParseDirection(fs[6]).Some?
       && ParseDecimal(fs[7]).Some? && ParseDecimal(fs[8]).Some?
       && ParseDecimal(fs[10]).Some? && ParseDirection(fs[11]).Some?
    then
      Some(Rmc(
        ParseTime(fs[1]),
        fs[2] != [] && fs[2][0] == 'A',
        Signed(ParseDecimal(fs[3]).value, ParseDirection(fs[4]).value),
        Signed(ParseDecimal(fs[5]).value, ParseDirection(fs[6]).value),
        ParseDecimal(fs[7]).value,
        ParseDecimal(fs[8]).value,
        ParseDate(fs[9]),
        Signed(ParseDecimal(fs[10]).value, ParseDirection(fs[11]).value)))
    else None
  }

  /** A decoded RMC coordinate has scale 0 exactly when its field was empty. */
  lemma RmcAbsentCoordinates(fs: seq<string>)
    requires RmcFromFields(fs).Some?
    ensures |fs| >= 12
    ensures RmcFromFields(fs).value.latitude.scale == 0 <==> fs[3] == []
    ensures RmcFromFields(fs).value.longitude.scale == 0 <==> fs[5] == []
  {
    var latitude, longitude := ParseDecimal(fs[3]).value, ParseDecimal(fs[5]).value;
    assert RmcFromFields(fs).value.latitude.scale == latitude.scale;
    assert RmcFromFields(fs).value.longitude.scale == longitude.scale;
  }

  /** Which directive each position of the RMC format is. */
  lemma RmcDirectives()
    ensures |RmcFormat| == 12 && forall j :: 0 <= j < 12 ==> RmcFormat[j] != '_'
    ensures DirectiveOf(RmcFormat[0]) == Some(Talker)
    ensures DirectiveOf(RmcFormat[1]) == Some(TimeStamp)
    ensures DirectiveOf(RmcFormat[2]) == Some(Character)
    ensures DirectiveOf(RmcFormat[3]) == Some(Decimal)
    ensures DirectiveOf(RmcFormat[4]) == Some(Direction)
    ensures DirectiveOf(RmcFormat[5]) == Some(Decimal)
    ensures DirectiveOf(RmcFormat[6]) == Some(Direction)
    ensures DirectiveOf(RmcFormat[7]) == Some(Decimal)
    ensures DirectiveOf(RmcFormat[8]) == Some(Decimal)
    ensures DirectiveOf(RmcFormat[9]) == Some(DateStamp)
    ensures DirectiveOf(RmcFormat[10]) == Some(Decimal)
    ensures DirectiveOf(RmcFormat[11]) == Some(Direction)
  {
  }

  /** When the RMC scan succeeds, each stored value is what its field's parser makes
      of that field. */
  lemma RmcScanValues(fs: seq<string>)
    requires ScanFields(fs, RmcFormat).Some?
    ensures |fs| >= 12
    ensures var vs := ScanFields(fs, RmcFormat).value;
      && |vs| == 12
      && ParseTalker(fs[0]).Some? && vs[0] == TextValue(ParseTalker(fs[0]).value)
      && vs[1] == TimeValue(ParseTime(fs[1]))
      && vs[2] == CharValue(if fs[2] == [] then '\0' else fs[2][0])
      && ParseDecimal(fs[3]).Some? && vs[3] == FixedValue(ParseDecimal(fs[3]).value)
      && ParseDirection(fs[4]).Some? && vs[4] == IntValue(ParseDirection(fs[4]).value)
      && ParseDecimal(fs[5]).Some? && vs[5] == FixedValue(ParseDecimal(fs[5]).value)
      && ParseDirection(fs[6]).Some? && vs[6] == IntValue(ParseDirection(fs[6]).value)
      && ParseDecimal(fs[7]).Some? && vs[7] == FixedValue(ParseDecimal(fs[7]).value)
      && ParseDecimal(fs[8]).Some? && vs[8] == FixedValue(ParseDecimal(fs[8]).value)
      && vs[9] == DateValue(ParseDate(fs[9]))
      && ParseDecimal(fs[10]).Some? && vs[10] == FixedValue(ParseDecimal(fs[10]).value)
      && ParseDirection(fs[11]).Some? && vs[11] == IntValue(ParseDirection(fs[11]).value)
  {
    RmcDirectives();
    StoredAll(RmcFormat);
    ScanFieldsStored(fs, RmcFormat);
    TalkerAt(fs, RmcFormat, 0);
    TimeAt(fs, RmcFormat, 1);
    CharAt(fs, RmcFormat, 2);
    DecimalAt(fs, RmcFormat, 3);
    DirectionAt(fs, RmcFormat, 4);
    DecimalAt(fs, RmcFormat, 5);
    DirectionAt(fs, RmcFormat, 6);
    DecimalAt(fs, RmcFormat, 7);
    DecimalAt(fs, RmcFormat, 8);
    DateAt(fs, RmcFormat, 9);
    DecimalAt(fs, RmcFormat, 10);
    DirectionAt(fs, RmcFormat, 11);
  }

  /** When every field under a hard-failing directive parses, the RMC scan succeeds:
      the other directives never refuse a field. */
  lemma RmcScanAccepts(fs: seq<string>)
    requires |fs| >= 12
    requires ParseTalker(fs[0]).Some? && ParseDecimal(fs[3]).Some?
    requires ParseDirection(fs[4]).Some? && ParseDecimal(fs[5]).Some?
    requires ParseDirection(fs[6]).Some? && ParseDecimal(fs[7]).Some?
    requires ParseDecimal(fs[8]).Some? && ParseDecimal(fs[10]).Some?
    requires ParseDirection(fs[11]).Some?
    ensures ScanFields(fs, RmcFormat).Some?
  {
    RmcDirectives();
    forall i | 0 <= i < 12
      ensures Accepts(RmcFormat[i], fs[i])
    {
      if i == 0 {
        AcceptsByParser(RmcFormat[0], fs[0]);
      } else if i == 1 {
        AcceptsByParser(RmcFormat[1], fs[1]);
      } else if i == 2 {
        AcceptsByParser(RmcFormat[2], fs[2]);
      } else if i == 3 {
        AcceptsByParser(RmcFormat[3], fs[3]);
      } else if i == 4 {
        AcceptsByParser(RmcFormat[4], fs[4]);
      } else if i == 5 {
        AcceptsByParser(RmcFormat[5], fs[5]);
      } else if i == 6 {
        AcceptsByParser(RmcFormat[6], fs[6]);
      } else if i == 7 {
        AcceptsByParser(RmcFormat[7], fs[7]);
      } else if i == 8 {
        AcceptsByParser(RmcFormat[8], fs[8]);
      } else if i == 9 {
        AcceptsByParser(RmcFormat[9], fs[9]);
      } else if i == 10 {
        AcceptsByParser(RmcFormat[10], fs[10]);
      } else if i == 11 {
        AcceptsByParser(RmcFormat[11], fs[11]);
      }
    }
    ScanFieldsSucceeds(fs, RmcFormat);
  }

  /** The scanner-driven decoder agrees with the field-by-field one on every
      sentence: same record, and failure exactly when it fails. */
  lemma DecodeRmcFieldwise(sentence: string)
    ensures DecodeRmc(sentence) == RmcFromFields(Fields(sentence))
  {
    RmcScanFieldwise(Fields(sentence));
  }

  /** The RMC format's scan, turned into a record, is the field-by-field record. */
  lemma RmcScanFieldwise(fs: seq<string>)
    ensures (match ScanFields(fs, RmcFormat) case None => None case Some(vs) => RmcOf(vs))
         == RmcFromFields(fs)
  {
    if RmcFromFields(fs).Some? {
      RmcScanAccepts(fs);
      RmcScanValues(fs);
    } else if ScanFields(fs, RmcFormat).Some? {
      RmcScanValues(fs);
    }
  }

  // ---------------------------------------------------------------- GGA

  /** The kinds of the values the GGA format stores, in order. */
  predicate GgaShape(vs: seq<Value>) {
    && |vs| == 14 && vs[0].TextValue?
    && vs[1].TimeValue? && vs[2].FixedValue? && vs[3].IntValue? && vs[4].FixedValue?
    && vs[5].IntValue? && vs[6].IntValue? && vs[7].IntValue? && vs[8].FixedValue?
    && vs[9].FixedValue? && vs[10].CharValue? && vs[11].FixedValue? && vs[12].CharValue?
    && vs[13].IntValue?
  }

  /** The record made from the values the GGA format stores (the skipped field stores
      nothing). */
  function GgaOf(vs: seq<Value>): Option<Gga> {
    if GgaShape(vs) && vs[0].text == "GPGGA" then
      Some(Gga(vs[1].time, Signed(vs[2].x, vs[3].n), Signed(vs[4].x, vs[5].n),
        vs[6].n, vs[7].n, vs[8].x, vs[9].x, vs[10].ch, vs[11].x, vs[12].ch, vs[13].n))
    else None
  }

  /** `minmea_parse_gpgga` on a sentence: only a `$GPGGA` sentence decodes, and every
      number it yields has a scale. */
  function DecodeGga(sentence: string): (r: Option<Gga>)
    ensures r.Some? ==> |sentence| >= 6 && sentence[..6] == "$GPGGA"
    ensures r.Some? ==>
      && r.value.latitude.scale >= 0 && r.value.longitude.scale >= 0
      && r.value.hdop.scale >= 0 && r.value.altitude.scale >= 0 && r.value.height.scale >= 0
  {
    match Scan(sentence, GgaFormat)
    case None => None
    case Some(vs) => GgaAccepted(sentence); GgaOf(vs)
  }

  /** What a successful GGA scan holds: values of the right kinds, numbers with a
      scale, and a GPGGA token only in a sentence opening with `$GPGGA`. */
  lemma GgaAccepted(sentence: string)
    requires Scan(sentence, GgaFormat).Some?
    ensures var vs := Scan(sentence, GgaFormat).value;
      && GgaShape(vs)
      && vs[2].x.scale >= 0 && vs[4].x.scale >= 0 && vs[8].x.scale >= 0
      && vs[9].x.scale >= 0 && vs[11].x.scale >= 0
      && (vs[0].text == "GPGGA" ==> |sentence| >= 6 && sentence[..6] == "$GPGGA")
  {
    var fs := Fields(sentence);
    GgaScanValues(fs);
    var vs := ScanFields(fs, GgaFormat).value;
    assert Scan(sentence, GgaFormat).value == vs;
    GgaToken(sentence, vs[0]);
  }

  /** The token a format led by `t` stores opens the sentence. */
  lemma GgaToken(sentence: string, v: Value)
    requires ParseTalker(Fields(sentence)[0]).Some?
    requires v == TextValue(ParseTalker(Fields(sentence)[0]).value)
    ensures v.text == "GPGGA" ==> |sentence| >= 6 && sentence[..6] == "$GPGGA"
  {
    TokenPrefix(sentence);
  }

  /** The first character of a field, NUL when it is empty. */
  function FirstChar(f: string): char {
    if f == [] then '\0' else f[0]
  }

  /** The same record read off the fields one by one: the token field must be
      `$GPGGA`, and every number has a scale. */
  function GgaFromFields(fs: seq<string>): (r: Option<Gga>)
    ensures r.Some? ==> |fs| >= 15 && |fs[0]| >= 6 && fs[0][..6] == "$GPGGA"
    ensures r.Some? ==>
      && r.value.latitude.scale >= 0 && r.value.longitude.scale >= 0
      && r.value.hdop.scale >= 0 && r.value.altitude.scale >= 0 && r.value.height.scale >= 0
  {
    if && |fs| >= 15 && ParseTalker(fs[0]) == Some("GPGGA")
       && ParseDecimal(fs[2]).Some? && ParseDirection(fs[3]).Some?
       && ParseDecimal(fs[4]).Some? && ParseDirection(fs[5]).Some?
       && ParseInteger(fs[6]).Some? && ParseInteger(fs[7]).Some?
       && ParseDecimal(fs[8]).Some? && ParseDecimal(fs[9]).Some?
       && ParseDecimal(fs[11]).Some? && ParseInteger(fs[13]).Some?
    then
      var latitude, longitude := ParseDecimal(fs[2]).value, ParseDecimal(fs[4]).value;
      var hdop, altitude, height := ParseDecimal(fs[8]).value, ParseDecimal(fs[9]).value, ParseDecimal(fs[11]).value;
      assert fs[0][..6] == "$GPGGA";
      assert latitude.scale >= 0 && longitude.scale >= 0;
      assert hdop.scale >= 0 && altitude.scale >= 0 && height.scale >= 0;
      Some(Gga(
        ParseTime(fs[1]),
        Signed(latitude, ParseDirection(fs[3]).value),
        Signed(longitude, ParseDirection(fs[5]).value),
        ParseInteger(fs[6]).value,
        ParseInteger(fs[7]).value,
        hdop,
        altitude,
        FirstChar(fs[10]),
        height,
        FirstChar(fs[12]),
        ParseInteger(fs[13]).value))
    else None
  }

  /** A decoded GGA coordinate has scale 0 exactly when its field was empty. */
  lemma GgaAbsentCoordinates(fs: seq<string>)
    requires GgaFromFields(fs).Some?
    ensures |fs| >= 15
    ensures GgaFromFields(fs).value.latitude.scale == 0 <==> fs[2] == []
    ensures GgaFromFields(fs).value.longitude.scale == 0 <==> fs[4] == []
  {
    var latitude, longitude := ParseDecimal(fs[2]).value, ParseDecimal(fs[4]).value;
    assert GgaFromFields(fs).value.latitude.scale == latitude.scale;
    assert GgaFromFields(fs).value.longitude.scale == longitude.scale;
  }

  lemma GgaDirectives()
    ensures |GgaFormat| == 15 && forall j :: 0 <= j < 14 ==> GgaFormat[j] != '_'
    ensures DirectiveOf(GgaFormat[0]) == Some(Talker)
    ensures DirectiveOf(GgaFormat[1]) == Some(TimeStamp)
    ensures DirectiveOf(GgaFormat[2]) == Some(Decimal)
    ensures DirectiveOf(GgaFormat[3]) == Some(Direction)
    ensures DirectiveOf(GgaFormat[4]) == Some(Decimal)
    ensures DirectiveOf(GgaFormat[5]) == Some(Direction)
    ensures DirectiveOf(GgaFormat[6]) == Some(Integer)
    ensures DirectiveOf(GgaFormat[7]) == Some(Integer)
    ensures DirectiveOf(GgaFormat[8]) == Some(Decimal)
    ensures DirectiveOf(GgaFormat[9]) == Some(Decimal)
    ensures DirectiveOf(GgaFormat[10]) == Some(Character)
    ensures DirectiveOf(GgaFormat[11]) == Some(Decimal)
    ensures DirectiveOf(GgaFormat[12]) == Some(Character)
    ensures DirectiveOf(GgaFormat[13]) == Some(Integer)
    ensures DirectiveOf(GgaFormat[14]) == Some(Ignore)
  {
  }

  /** The GGA format stores fourteen values. */
  lemma GgaStored()
    ensures Stored(GgaFormat) == 14
  {
    StoredSkipLast(GgaFormat[..14], GgaFormat);
  }

  lemma GgaScanValues(fs: seq<string>)
    requires ScanFields(fs, GgaFormat).Some?
    ensures |fs| >= 15
    ensures var vs := ScanFields(fs, GgaFormat).value;
      && |vs| == 14
      && ParseTalker(fs[0]).Some? && vs[0] == TextValue(ParseTalker(fs[0]).value)
      && vs[1] == TimeValue(ParseTime(fs[1]))
      && ParseDecimal(fs[2]).Some? && vs[2] == FixedValue(ParseDecimal(fs[2]).value)
      && ParseDirection(fs[3]).Some? && vs[3] == IntValue(ParseDirection(fs[3]).value)
      && ParseDecimal(fs[4]).Some? && vs[4] == FixedValue(ParseDecimal(fs[4]).value)
      && ParseDirection(fs[5]).Some? && vs[5] == IntValue(ParseDirection(fs[5]).value)
      && ParseInteger(fs[6]).Some? && vs[6] == IntValue(ParseInteger(fs[6]).value)
      && ParseInteger(fs[7]).Some? && vs[7] == IntValue(ParseInteger(fs[7]).value)
      && ParseDecimal(fs[8]).Some? && vs[8] == FixedValue(ParseDecimal(fs[8]).value)
      && ParseDecimal(fs[9]).Some? && vs[9] == FixedValue(ParseDecimal(fs[9]).value)
      && vs[10] == CharValue(FirstChar(fs[10]))
      && ParseDecimal(fs[11]).Some? && vs[11] == FixedValue(ParseDecimal(fs[11]).value)
      && vs[12] == CharValue(FirstChar(fs[12]))
      && ParseInteger(fs[13]).Some? && vs[13] == IntValue(ParseInteger(fs[13]).value)
  {
    GgaDirectives();
    GgaStored();
    ScanFieldsStored(fs, GgaFormat);
    TalkerAt(fs, GgaFormat, 0);
    TimeAt(fs, GgaFormat, 1);
    DecimalAt(fs, GgaFormat, 2);
    DirectionAt(fs, GgaFormat, 3);
    DecimalAt(fs, GgaFormat, 4);
    DirectionAt(fs, GgaFormat, 5);
    IntegerAt(fs, GgaFormat, 6);
    IntegerAt(fs, GgaFormat, 7);
    DecimalAt(fs, GgaFormat, 8);
    DecimalAt(fs, GgaFormat, 9);
    CharAt(fs, GgaFormat, 10);
    DecimalAt(fs, GgaFormat, 11);
    CharAt(fs, GgaFormat, 12);
    IntegerAt(fs, GgaFormat, 13);
  }

  /** When every field under a hard-failing directive parses, the GGA scan succeeds:
      the other directives never refuse a field. */
  lemma GgaScanAccepts(fs: seq<string>)
    requires |fs| >= 15
    requires ParseTalker(fs[0]).Some? && ParseDecimal(fs[2]).Some?
    requires ParseDirection(fs[3]).Some? && ParseDecimal(fs[4]).Some?
    requires ParseDirection(fs[5]).Some? && ParseInteger(fs[6]).Some?
    requires ParseInteger(fs[7]).Some? && ParseDecimal(fs[8]).Some?
    requires ParseDecimal(fs[9]).Some? && ParseDecimal(fs[11]).Some?
    requires ParseInteger(fs[13]).Some?
    ensures ScanFields(fs, GgaFormat).Some?
  {
    GgaDirectives();
    forall i | 0 <= i < 15
      ensures Accepts(GgaFormat[i], fs[i])
    {
      if i == 0 {
        AcceptsByParser(GgaFormat[0], fs[0]);
      } else if i == 1 {
        AcceptsByParser(GgaFormat[1], fs[1]);
      } else if i == 2 {
        AcceptsByParser(GgaFormat[2], fs[2]);
      } else if i == 3 {
        AcceptsByParser(GgaFormat[3], fs[3]);
      } else if i == 4 {
        AcceptsByParser(GgaFormat[4], fs[4]);
      } else if i == 5 {
        AcceptsByParser(GgaFormat[5], fs[5]);
      } else if i == 6 {
        AcceptsByParser(GgaFormat[6], fs[6]);
      } else if i == 7 {
        AcceptsByParser(GgaFormat[7], fs[7]);
      } else if i == 8 {
        AcceptsByParser(GgaFormat[8], fs[8]);
      } else if i == 9 {
        AcceptsByParser(GgaFormat[9], fs[9]);
      } else if i == 10 {
        AcceptsByParser(GgaFormat[10], fs[10]);
      } else if i == 11 {
        AcceptsByParser(GgaFormat[11], fs[11]);
      } else if i == 12 {
        AcceptsByParser(GgaFormat[12], fs[12]);
      } else if i == 13 {
        AcceptsByParser(GgaFormat[13], fs[13]);
      } else if i == 14 {
        AcceptsByParser(GgaFormat[14], fs[14]);
      }
    }
    ScanFieldsSucceeds(fs, GgaFormat);
  }

  lemma DecodeGgaFieldwise(sentence: string)
    ensures DecodeGga(sentence) == GgaFromFields(Fields(sentence))
  {
    GgaScanFieldwise(Fields(sentence));
  }

  /** The GGA format's scan, turned into a record, is the field-by-field record. */
  lemma GgaScanFieldwise(fs: seq<string>)
    ensures (match ScanFields(fs, GgaFormat) case None => None case Some(vs) => GgaOf(vs))
         == GgaFromFields(fs)
  {
    if GgaFromFields(fs).Some? {
      GgaScanAccepts(fs);
      GgaScanValues(fs);
    } else if ScanFields(fs, GgaFormat).Some? {
      GgaScanValues(fs);
    }
  }

  // ---------------------------------------------------------------- frames

  /** What the RMC frame stores after a successful scan `vs` of a sentence: the
      decoder's record, present exactly when the token is GPRMC. */
  lemma RmcDecoded(sentence: string, vs: seq<Value>)
    requires Scan(sentence, RmcFormat) == Some(vs)
    ensures RmcShape(vs)
    ensures DecodeRmc(sentence).Some? <==> vs[0].text == "GPRMC"
    ensures DecodeRmc(sentence).Some? ==>
      DecodeRmc(sentence).value == Rmc(vs[1].time, vs[2].ch == 'A',
        Signed(vs[3].x, vs[4].n), Signed(vs[5].x, vs[6].n),
        vs[7].x, vs[8].x, vs[9].date, Signed(vs[10].x, vs[11].n))
  {
    RmcAccepted(sentence);
  }

  /** What the GGA frame stores after a successful scan `vs` of a sentence. */
  lemma GgaDecoded(sentence: string, vs: seq<Value>)
    requires Scan(sentence, GgaFormat) == Some(vs)
    ensures GgaShape(vs)
    ensures DecodeGga(sentence).Some? <==> vs[0].text == "GPGGA"
    ensures DecodeGga(sentence).Some? ==>
      DecodeGga(sentence).value == Gga(vs[1].time,
        Signed(vs[2].x, vs[3].n), Signed(vs[4].x, vs[5].n),
        vs[6].n, vs[7].n, vs[8].x, vs[9].x, vs[10].ch, vs[11].x, vs[12].ch, vs[13].n)
  {
    GgaAccepted(sentence);
  }

  /** A caller's `struct minmea_gprmc`, filled in place by `Parse`. */
  class RmcFrame {
    var time: Time
    var valid: bool
    var latitude: Fixed
    var longitude: Fixed
    var speed: Fixed
    var course: Fixed
    var date: Date
    var variation: Fixed

    function Record(): Rmc
      reads this
    {
      Rmc(time, valid, latitude, longitude, speed, course, date, variation)
    }

    /** A zero-initialised frame. */
    constructor ()
      ensures Record() == Rmc(Time(0, 0, 0, 0), false, Fixed(0, 0), Fixed(0, 0),
        Fixed(0, 0), Fixed(0, 0), Date(0, 0, 0), Fixed(0, 0))
    {
      time := Time(0, 0, 0, 0);
      valid := false;
      latitude := Fixed(0, 0);
      longitude := Fixed(0, 0);
      speed := Fixed(0, 0);
      course := Fixed(0, 0);
      date := Date(0, 0, 0);
      variation := Fixed(0, 0);
    }

    /** Store every field of `r`, as the scanner does through its output arguments. */
    method Fill(r: Rmc)
      modifies this
      ensures Record() == r
    {
      time := r.time;
      valid := r.valid;
      latitude := r.latitude;
      longitude := r.longitude;
      speed := r.speed;
      course := r.course;
      date := r.date;
      variation := r.variation;
    }

    /** `minmea_parse_gprmc`: scan the sentence into the frame, refuse any token but
        GPRMC, then sign the coordinates and the variation. On failure the frame's
        contents are not specified. */
    method Parse(sentence: string) returns (ok: bool)
      modifies this
      ensures ok <==> DecodeRmc(sentence).Some?
      ensures ok ==> Record() == DecodeRmc(sentence).value
    {
      var scanned, vs := ScanSentence(sentence, RmcFormat);
      if !scanned {
        return false;
      }
      RmcDecoded(sentence, vs);
      var scannedRecord := Rmc(vs[1].time, vs[2].ch == 'A', vs[3].x, vs[5].x, vs[7].x, vs[8].x,
        vs[9].date, vs[10].x);
      Fill(scannedRecord);
      if vs[0].text != "GPRMC" {
        return false;
      }
      ApplySigns(vs[4].n, vs[6].n, vs[11].n);
      return true;
    }

    /** Carry the hemisphere signs over to the coordinates and the magnetic variation. */
    method ApplySigns(north: int, east: int, magnetic: int)
      modifies this
      ensures Record() == old(Record()).(latitude := Signed(old(latitude), north),
        longitude := Signed(old(longitude), east), variation := Signed(old(variation), magnetic))
    {
      latitude := Signed(latitude, north);
      longitude := Signed(longitude, east);
      variation := Signed(variation, magnetic);
    }
  }

  /** A caller's `struct minmea_gpgga`, filled in place by `Parse`. */
  class GgaFrame {
    var time: Time
    var latitude: Fixed
    var longitude: Fixed
    var fixQuality: int
    var satellitesTracked: int
    var hdop: Fixed
    var altitude: Fixed
    var altitudeUnits: char
    var height: Fixed
    var heightUnits: char
    var dgpsAge: int

    function Record(): Gga
      reads this
    {
      Gga(time, latitude, longitude, fixQuality, satellitesTracked, hdop, altitude,
        altitudeUnits, height, heightUnits, dgpsAge)
    }

    /** A zero-initialised frame. */
    constructor ()
      ensures Record() == Gga(Time(0, 0, 0, 0), Fixed(0, 0), Fixed(0, 0), 0, 0,
        Fixed(0, 0), Fixed(0, 0), '\0', Fixed(0, 0), '\0', 0)
    {
      time := Time(0, 0, 0, 0);
      latitude := Fixed(0, 0);
      longitude := Fixed(0, 0);
      fixQuality := 0;
      satellitesTracked := 0;
      hdop := Fixed(0, 0);
      altitude := Fixed(0, 0);
      altitudeUnits := '\0';
      height := Fixed(0, 0);
      heightUnits := '\0';
      dgpsAge := 0;
    }

    /** Store every field of `r`, as the scanner does through its output arguments. */
    method Fill(r: Gga)
      modifies this
      ensures Record() == r
    {
      time := r.time;
      latitude := r.latitude;
      longitude := r.longitude;
      fixQuality := r.fixQuality;
      satellitesTracked := r.satellitesTracked;
      hdop := r.hdop;
      altitude := r.altitude;
      altitudeUnits := r.altitudeUnits;
      height := r.height;
      heightUnits := r.heightUnits;
      dgpsAge := r.dgpsAge;
    }

    /** `minmea_parse_gpgga`: scan the sentence into the frame, refuse any token but
        GPGGA, then sign the coordinates. On failure the frame's contents are not
        specified. */
    method Parse(sentence: string) returns (ok: bool)
      modifies this
      ensures ok <==> DecodeGga(sentence).Some?
      ensures ok ==> Record() == DecodeGga(sentence).value
    {
      var scanned, vs := ScanSentence(sentence, GgaFormat);
      if !scanned {
        return false;
      }
      GgaDecoded(sentence, vs);
      Fill(Gga(vs[1].time, vs[2].x, vs[4].x, vs[6].n, vs[7].n, vs[8].x, vs[9].x,
        vs[10].ch, vs[11].x, vs[12].ch, vs[13].n));
      if vs[0].text != "GPGGA" {
        return false;
      }
      ApplySigns(vs[3].n, vs[5].n);
      return true;
    }

    /** Carry the hemisphere signs over to the coordinates. */
    method ApplySigns(north: int, east: int)
      modifies this
      ensures Record() == old(Record()).(latitude := Signed(old(latitude), north),
        longitude := Signed(old(longitude), east))
    {
      latitude := Signed(latitude, north);
      longitude := Signed(longitude, east);
    }
  }

  // ---------------------------------------------------------------- dispatcher

  /** `enum minmea_type`, for the two decoded kinds. */
  datatype SentenceKind = Unknown | GpRmc | GpGga

  /** `minmea_type`: the kind named by the sentence token; no checksum check. The kind
      is read off the first six characters and nothing else. */
  function Classify(sentence: string): (k: SentenceKind)
    ensures k == GpRmc <==> |sentence| >= 6 && sentence[..6] == "$GPRMC"
    ensures k == GpGga <==> |sentence| >= 6 && sentence[..6] == "$GPGGA"
  {
    ClassifyPrefix(sentence);
    match Scan(sentence, "t")
    case None => Unknown
    case Some(vs) =>
      if vs == [TextValue("GPRMC")] then GpRmc
      else if vs == [TextValue("GPGGA")] then GpGga
      else Unknown
  }

  /** What the `t` scan makes of the first six characters, as `Classify` reads it. */
  lemma ClassifyPrefix(sentence: string)
    ensures (Scan(sentence, "t") == Some([TextValue("GPRMC")])) <==>
      |sentence| >= 6 && sentence[..6] == "$GPRMC"
    ensures (Scan(sentence, "t") == Some([TextValue("GPGGA")])) <==>
      |sentence| >= 6 && sentence[..6] == "$GPGGA"
  {
    TalkerScan(sentence);
    if |sentence| >= 6 {
      var head := sentence[..6];
      assert head[1..] == sentence[1..6];
      assert forall j :: 1 <= j < 6 ==> head[j] == sentence[j];
    }
  }

  /** A sentence the RMC decoder accepts is classified RMC, so the GGA decoder refuses
      it; and the other way round. */
  lemma DecodersAgreeWithClassify(sentence: string)
    ensures DecodeRmc(sentence).Some? ==> Classify(sentence) == GpRmc
    ensures DecodeGga(sentence).Some? ==> Classify(sentence) == GpGga
  {
    if DecodeRmc(sentence).Some? {
      var vs := Scan(sentence, RmcFormat).value;
      assert vs[0] == TextValue("GPRMC") by {
        RmcDecoded(sentence, vs);
      }
      TokenClassifies(sentence, RmcFormat, "GPRMC");
    }
    if DecodeGga(sentence).Some? {
      var vs := Scan(sentence, GgaFormat).value;
      assert vs[0] == TextValue("GPGGA") by {
        GgaDecoded(sentence, vs);
      }
      TokenClassifies(sentence, GgaFormat, "GPGGA");
    }
  }

  /** A scan with a format that starts with `t` stores first what `Classify` reads. */
  lemma TokenClassifies(sentence: string, format: string, token: string)
    requires |format| >= 1 && format[0] == 't'
    requires Scan(sentence, format).Some? && Scan(sentence, format).value[0] == TextValue(token)
    ensures Scan(sentence, "t") == Some([TextValue(token)])
  {
    var fs := Fields(sentence);
    ScanFieldsToken(fs, format);
    var t := ScanFields(fs, "t").value;
    assert |t| == 1 by {
      assert "t" == ['t'];
      ScanFieldsStored(fs, "t");
    }
    assert t == [t[0]];
  }
}
