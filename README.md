# minmea parsing core, in Dafny

A model of the parsing engine of minmea, a small C library that reads NMEA 0183
sentences from GPS receivers, with proofs of what the library promises about it. Every
assertion of the library's test suite, `tests.c`, is a lemma or method here, and the
source cells of the table below cite the test lines each member answers to.

What is modelled:

- `minmea_check` (module `Validator`): the frame validator. A sentence is `$`, a body
  of printable characters other than `$` and `*`, an optional `*HH` checksum, and an
  optional line ending (LF or CR LF). `HH` must equal the exclusive-or of the body's
  bytes. The whole line may be at most `MINMEA_MAX_LENGTH` (80) + 3 characters long.
- How the scanner cuts a sentence into fields (module `FieldSplit`). A field is a run
  of printable characters other than `,` and `*`. The next field starts only after a `,`.
- `minmea_scan` (modules `Directives` and `Scanner`):
  - The directives `c d f i s t _ D T` and what each stores through its output
    arguments, as a typed `seq<Value>`.
  - A specification function `ScanFields` over the fields.
  - A method `ScanSentence` that walks the sentence with a cursor, one directive per
    iteration, and is proved equal to that function.
  - The `t` directive writing into a caller's `array<char>` (`ScanTalkerInto`).
- `minmea_rescale`, and exact-arithmetic versions of `minmea_float` and `minmea_coord`
  (module `FixedPoint`).
- `minmea_parse_gprmc` and `minmea_parse_gpgga` (module `Decoders`):
  - pure decoders `DecodeRmc` and `DecodeGga`;
  - field-by-field reference decoders;
  - classes `RmcFrame` and `GgaFrame` whose `Parse` methods fill a caller's record in place.
- `minmea_type` (`Decoders.Classify`).
- `minmea_gettimeofday` (module `Clock`).
- Every test of the suite (modules `CheckVectors`, `ScanExamples`, `ScanComplex`,
  `DecoderExamples`, with the sentence texts in `SentenceTexts`).

Behaviour the tests leave open, and how the model fixes it:

- The length cap: `MINMEA_MAX_LENGTH` is 80. A line of more than 83 characters is
  refused. This admits the 41-character line of tests.c:16 and refuses the 97-character
  line of tests.c:27-28.
- The checksum digits may be upper or lower case.
- Every directive, `_` included, fails the scan when the sentence has no field left
  for it.
- `d`, like `c`, reads only the first character of its field.
- `D` and `T`: a field that does not start with six digits gives the `-1` sentinels,
  and the scan goes on. Characters after the six digits are ignored: no test has a
  field longer than six digits that is not a time with a fraction. `T` reads a
  fraction only right after the six digits. It keeps up to six fraction digits,
  scaled to microseconds.
- `t` needs `$` and at least five more field characters, and stores those five.
- `i` reads like C `strtol` over the whole field: leading spaces, an optional sign,
  at least one digit. An empty field is 0.
- `minmea_type` compares the whole token, talker included, with `GPRMC` and `GPGGA`,
  and does not look at the checksum. The tests name the kinds `MINMEA_GPRMC` and
  `MINMEA_GPGGA` and only use GP sentences.
- The decoders: RMC reads the format `tTcfdfdffDfd`. GGA reads `tTfdfdiiffcfci_`, where
  the DGPS age comes from tests.c:323. A decoder refuses a sentence whose token is not
  its own. A coordinate's mantissa is multiplied by its hemisphere's sign (1, -1, or 0
  for an empty direction field).
- `minmea_rescale` works on signed mantissas. Scaling down rounds to the nearest
  mantissa, a tie away from zero, so a negated mantissa rescales to the negated result.
  Scaling up multiplies by the whole factor between the scales. Scale 0 gives 0.
- `f` takes an optional `+` or `-` sign, and the integer part may be empty when a
  point and at least one fraction digit follow (".5").
- `minmea_gettimeofday` accepts a date and time only when every component is in range:
  a two-digit year (2000-2099), month 1-12, day 1-31, hours 0-23, minutes 0-59,
  seconds 0-60, and microseconds 0-999999.

## Model

| member | source | states |
|---|---|---|
| Validator.Check | tests.c:15-45 | an accepted line starts with `$` and is at most 83 characters long, so any longer line is refused |
| Validator.CheckAccepted | tests.c:15-45 | an accepted line is printable characters followed by a line ending (none, LF or CR LF), has no `$` after the first character, and any `*` is followed by two hex digits equal to the exclusive-or of the body before it, then only the line ending |
| Validator.CheckFrame | tests.c:17-22 | every well-formed body framed with `*` and its checksum, plus any line ending, is accepted when it fits the length cap |
| Validator.CheckUnframed | tests.c:16 | a well-formed body without a checksum is accepted too |
| Validator.CheckRejectsWrongChecksum | tests.c:29 | any two hex digits other than the body's exclusive-or are refused |
| Validator.HexByte | tests.c:17-22 | the two upper-case digits written for a checksum are hex and read back as that byte |
| Validator.ChecksumSlice | tests.c:29 | the checksum of a stretch of a sentence is the exclusive-or over those positions |
| CheckVectors.CheckTxtPlain | tests.c:16 | accepted: long, no checksum |
| CheckVectors.CheckTxtSummed | tests.c:17 | accepted: 0x25 is the body's exclusive-or |
| CheckVectors.CheckRmcEmpty | tests.c:18 | accepted: 0x53 is the body's exclusive-or |
| CheckVectors.CheckVtgEmpty | tests.c:19 | accepted: 0x30 is the body's exclusive-or |
| CheckVectors.CheckGgaEmpty | tests.c:20 | accepted: 0x48 is the body's exclusive-or |
| CheckVectors.CheckGsaEmpty | tests.c:21 | accepted: 0x30 is the body's exclusive-or |
| CheckVectors.CheckGllEmpty | tests.c:22 | accepted: 0x64 is the body's exclusive-or |
| CheckVectors.CheckRejectsTooLong | tests.c:27-28 | refused: longer than the cap |
| CheckVectors.CheckRejectsBadSum | tests.c:29 | refused: `*26` where the body's exclusive-or is 0x25 |
| CheckVectors.CheckRejectsThreeDigits | tests.c:30 | refused: a third digit after the checksum |
| CheckVectors.CheckRejectsHighByte | tests.c:31 | refused: a 0xFF byte in the body |
| CheckVectors.CheckRejectsDoubleDollar | tests.c:32 | refused: a second `$` |
| CheckVectors.CheckRejectsNoDollar | tests.c:33 | refused: no leading `$` |
| CheckVectors.CheckRejectsPrefix | tests.c:34 | refused: text before the `$` |
| CheckVectors.CheckRmcSentence | tests.c:278 | the full RMC sentence is accepted without a checksum |
| CheckVectors.CheckRmcSparse | tests.c:297 | the sparse RMC sentence is accepted |
| CheckVectors.CheckGgaSentence | tests.c:325 | the GGA sentence is accepted: 0x47 is the body's exclusive-or |
| CheckVectors.CheckRmcSummed | tests.c:334 | the usage test's RMC sentence is accepted: 0x62 is the body's exclusive-or |
| FieldSplit.FieldEnd | tests.c:113-116 | the end of a field: field characters up to it, and none at it |
| FieldSplit.LineEnd | tests.c:187-196 | the end of the stretch of field characters and commas the scanner walks |
| FieldSplit.Split | tests.c:113-116 | cutting at commas gives at least one part |
| FieldSplit.JoinSplit | tests.c:113-116 | cutting at commas and gluing back with commas gives the text again |
| FieldSplit.SplitJoin | tests.c:113-116 | comma-free parts glued with commas are cut back into the same parts |
| FieldSplit.Fields | tests.c:113-129 | a sentence has at least one field; when the sentence opens with `$`, the first field is the `$` token |
| FieldSplit.FieldsOfJoin | tests.c:187-196 | fields written with commas and followed by a non-field character are the sentence's fields |
| FieldSplit.FieldsChars | tests.c:113-116 | every field holds field characters only |
| FieldSplit.FieldStep | tests.c:187-196 | the field at the cursor is the first part of what is left of the line |
| FieldSplit.FieldWalk | tests.c:187-196 | the cursor invariant carries over one field: past a ',' the next field starts, otherwise this was the last one |
| FixedPoint.Rescale | tests.c:376-382 | scale 0 gives 0 whatever the target; the sign of the mantissa is kept; scaling down rounds to the nearest mantissa, a tie away from zero; scaling up by a whole factor multiplies exactly |
| FixedPoint.RescaleNegate | tests.c:376-382 | a negated mantissa rescales to the negated result |
| FixedPoint.RescaleRoundTrip | tests.c:379-381 | scaling up by a whole factor and back gives the original mantissa |
| FixedPoint.RescaleUp | tests.c:381 | scaling up by a factor k multiplies the mantissa by k |
| FixedPoint.RescaleDown | tests.c:379-380 | scaling a multiple of k down by k divides exactly |
| FixedPoint.ToReal | tests.c:385-391 | absent exactly at scale 0; otherwise the real number times the scale is the mantissa |
| FixedPoint.ToRealRescale | tests.c:381 | scaling up keeps the quantity the number stands for |
| FixedPoint.Coord | tests.c:394-400 | absent exactly at scale 0 |
| FixedPoint.CoordOfDegreesMinutes | tests.c:397-399 | DDMM.MMMM reads back as degrees plus minutes over 60 |
| FixedPoint.CoordNegate | tests.c:394-400 | a negated mantissa gives the negated coordinate |
| FixedPoint.RescaleExamples | tests.c:376-382 | the four rescale checks of the tests, and -1235 at scale 10 rescaling to -124 at scale 1 |
| FixedPoint.RealExamples | tests.c:385-400 | the float and coord checks of the tests, in exact arithmetic |
| Clock.ToEpoch | tests.c:358-373 | a timestamp exactly when every component is in range, carrying the time's microseconds |
| Clock.LeapYearsInRange | tests.c:358-373 | between 1970 and 2100 the leap years are the multiples of four |
| Clock.DaysFromCivilCounts | tests.c:358-373 | the closed-form day count equals the month-by-month, year-by-year count |
| Clock.ToEpochCounts | tests.c:358-373 | the timestamp is 86400 times the days since 1970-01-01, plus the seconds of the day |
| Clock.ToEpochOrdersTimes | tests.c:358-373 | a later time of the same day gives a later timestamp |
| Clock.ToEpochNextDay | tests.c:358-373 | the next calendar day at the same time is 86400 seconds later, across month and year ends |
| Clock.CivilDaysNext | tests.c:358-373 | the day count of the next calendar day is one more |
| Clock.ToEpochExamples | tests.c:358-373 | 2014-02-14 13:00:09.123456 is 1392382809 s and 123456 us; a -1 year is refused, and -1 hours is refused with the year 2014 or 14 |
| Directives.DirectiveOf | tests.c:48-172 | exactly the characters `cdfistDT_` name a directive |
| Directives.ParseDirection | tests.c:63-80 | accepted exactly when empty or starting N, E, S or W; 0 for empty, 1 for N/E, -1 for S/W |
| Directives.ParseDecimal | tests.c:83-106 | an accepted number has a non-negative scale, and scale 0 exactly for the empty field |
| Directives.DecimalGrammar | tests.c:87-97 | `f` accepts exactly the empty field and the optionally signed digit strings with at most one point |
| Directives.DecimalRoundTrip | tests.c:99-105 | a number written with no sign, `+` or `-`, integer digits and an optional point and fraction (the integer part may be empty before a non-empty fraction) reads back as its signed mantissa at 10 to the number of fraction digits, trailing zeros kept |
| Directives.ParseDecimalSigned | tests.c:103-105 | a leading `-` negates the mantissa, a leading `+` keeps it, and either keeps the scale |
| Directives.ParseInteger | tests.c:187-196 | the empty field is 0; any other accepted field holds a digit |
| Directives.IntegerRoundTrip | tests.c:187-196 | every integer written in decimal reads back |
| Directives.ParseIntegerDigits | tests.c:187-196 | a run of digits, with or without '-', reads as its value (`08` is 8) |
| Directives.LeadingSpaces | tests.c:187-196 | the spaces `strtol` skips: spaces up to it, none at it |
| Directives.ParseTalker | tests.c:120-133 | accepted exactly when the field is `$` and at least five more characters; the token is those five |
| Directives.ParseDate | tests.c:135-148 | the absent date exactly when the field does not start with six digits; otherwise two-digit components |
| Directives.DateRoundTrip | tests.c:139-142 | every date written as ddmmyy reads back |
| Directives.ParseTime | tests.c:151-172 | the absent time exactly when the field does not start with six digits; otherwise two-digit components, microseconds below a million and 0 without a fraction |
| Directives.TimeRoundTrip | tests.c:155-165 | every time written as hhmmss.uuuuuu reads back |
| Directives.MicrosecondsShort | tests.c:161-165 | a fraction of fewer than six digits is scaled up to microseconds |
| Directives.Microseconds | tests.c:161-165 | the fraction is below a million microseconds |
| Directives.Apply | tests.c:48-172 | `c s D T _` never refuse a field; one value stored per directive but `_`, of the kind the directive stores |
| Scanner.ScanFields | tests.c:187-196 | a successful scan had a field for every directive |
| Scanner.Scan | tests.c:187-196 | a successful scan of a sentence found a field for every directive and stores one value per directive other than `_` |
| Scanner.ScanFieldsStored | tests.c:187-196 | a successful scan stores one value per directive other than `_` |
| Scanner.ScanFieldsSucceeds | tests.c:187-196 | the scan succeeds exactly when there is a field for every directive and each directive accepts its field |
| Scanner.ScanFieldsAt | tests.c:187-196 | value i is what directive i makes of field i, wherever no `_` comes before it |
| Scanner.AcceptsByParser | tests.c:67 | only `d`, `f`, `i` and `t` can refuse a field, each when its parser does |
| Scanner.ScanFieldsFits | tests.c:187-196 | value i is of the kind directive i stores |
| Scanner.ScanFieldsToken | tests.c:187-196 | a format starting with `t` stores first what `t` alone stores |
| Scanner.ScanSentence | tests.c:187-196 | the cursor-walking scanner succeeds exactly when the scan specification does, with the same values |
| Scanner.FindFieldEnd | tests.c:113-116 | the cursor loop stops at the end of the field |
| Scanner.ScanRunsOut | tests.c:187-196 | a directive left over once the fields are used up fails the scan |
| Scanner.ScanUnknown | tests.c:187-196 | a character that names no directive fails the scan |
| Scanner.ScanRefused | tests.c:67 | a directive refusing its field fails the whole scan |
| Scanner.TalkerScan | tests.c:125-129 | the format `t` succeeds exactly when the sentence opens with `$` and five field characters, and stores those five |
| Scanner.ScanTalkerInto | tests.c:120-133 | the `t` directive writes the token and a NUL into the first six cells of the buffer and leaves every other cell as it was |
| Decoders.DecodeRmc | tests.c:259-301 | a decoded sentence starts `$GPRMC`; its coordinates, speed, course and variation have non-negative scales |
| Decoders.RmcFromFields | tests.c:259-301 | the field-by-field reference: a decoded field list has at least twelve fields and a first field starting `$GPRMC`; the five numbers have non-negative scales |
| Decoders.RmcAbsentCoordinates | tests.c:284-301 | a coordinate has scale 0 exactly when its field is empty |
| Decoders.DecodeGga | tests.c:303-329 | a decoded sentence starts `$GPGGA`; its coordinates, dilution, altitude and height have non-negative scales |
| Decoders.GgaFromFields | tests.c:303-329 | the field-by-field reference: a decoded field list has at least fifteen fields and a first field starting `$GPGGA`; the five numbers have non-negative scales |
| Decoders.GgaAbsentCoordinates | tests.c:303-329 | a coordinate has scale 0 exactly when its field is empty |
| Decoders.Signed | tests.c:266-268 | the hemisphere sign carried over to the mantissa: kept for 1, negated for -1, zero for 0 |
| Decoders.RmcScanValues | tests.c:259-301 | each value of the RMC scan is what its field's parser makes of that field |
| Decoders.RmcScanAccepts | tests.c:284-301 | the RMC scan succeeds whenever the token, the numbers and the directions parse |
| Decoders.DecodeRmcFieldwise | tests.c:259-301 | the scanner-driven RMC decoder equals the field-by-field reference decoder on every sentence |
| Decoders.GgaStored | tests.c:303-329 | the GGA format stores fourteen values |
| Decoders.GgaScanValues | tests.c:303-329 | each value of the GGA scan is what its field's parser makes of that field |
| Decoders.GgaScanAccepts | tests.c:303-329 | the GGA scan succeeds whenever the token, the numbers and the directions parse |
| Decoders.DecodeGgaFieldwise | tests.c:303-329 | the scanner-driven GGA decoder equals the field-by-field reference decoder on every sentence |
| Decoders.RmcDecoded | tests.c:259-301 | after a successful RMC scan the decoder succeeds exactly when the token is GPRMC, and the record is the scanned values with signed coordinates and variation |
| Decoders.GgaDecoded | tests.c:303-329 | after a successful GGA scan the decoder succeeds exactly when the token is GPGGA, and the record is the scanned values with signed coordinates |
| Decoders.RmcFrame.constructor | tests.c:262 | a zero-initialised RMC record |
| Decoders.RmcFrame.Fill | tests.c:259-301 | the frame then holds the given record |
| Decoders.RmcFrame.ApplySigns | tests.c:266-276 | the coordinates and the variation take their hemisphere signs, and nothing else changes |
| Decoders.RmcFrame.Parse | tests.c:279 | succeeds exactly when the RMC decoder does, and the frame then holds its record |
| Decoders.GgaFrame.constructor | tests.c:306 | a zero-initialised GGA record |
| Decoders.GgaFrame.Fill | tests.c:303-329 | the frame then holds the given record |
| Decoders.GgaFrame.ApplySigns | tests.c:309-312 | the coordinates take their hemisphere signs, and nothing else changes |
| Decoders.GgaFrame.Parse | tests.c:326 | succeeds exactly when the GGA decoder does, and the frame then holds its record |
| Decoders.Classify | tests.c:340-349 | the kind is RMC exactly when the sentence starts `$GPRMC`, and GGA exactly when it starts `$GPGGA` |
| Decoders.ClassifyPrefix | tests.c:340-349 | scanning `t` reads the token GPRMC exactly when the sentence starts `$GPRMC`, and GPGGA exactly when it starts `$GPGGA` |
| Decoders.DecodersAgreeWithClassify | tests.c:340-349 | a sentence a decoder accepts is classified as that decoder's kind |
| Decoders.TokenClassifies | tests.c:340-349 | a scan whose format starts with `t` stores the token `Classify` reads |
| ScanExamples.ScanCharFirst | tests.c:52-53 | `c` on "A,123.45" stores 'A' |
| ScanExamples.ScanCharOfLonger | tests.c:55-56 | `c` on "WUT,123.45" stores 'W' |
| ScanExamples.ScanCharEmpty | tests.c:58-59 | `c` on an empty field stores NUL |
| ScanExamples.ScanDirectionRejects | tests.c:67 | `d` on "K" fails |
| ScanExamples.ScanDirectionEmpty | tests.c:69 | `d` on "" stores 0 |
| ScanExamples.ScanDirectionEmptyField | tests.c:70-71 | `d` on ",foo" stores 0 |
| ScanExamples.ScanDirectionNorth | tests.c:72-73 | `d` on "N" stores 1 |
| ScanExamples.ScanDirectionSouth | tests.c:74-75 | `d` on "S,foo" stores -1 |
| ScanExamples.ScanDirectionWest | tests.c:76-77 | `d` on "W" stores -1 |
| ScanExamples.ScanDirectionEast | tests.c:78-79 | `d` on "E,foo" stores 1 |
| ScanExamples.ScanDecimalSignOnly | tests.c:87 | `f` on "-" fails |
| ScanExamples.ScanDecimalSignLast | tests.c:88 | `f` on "10-" fails |
| ScanExamples.ScanDecimalTwoSigns | tests.c:89 | `f` on "+-10" fails |
| ScanExamples.ScanDecimalTwoDotsTogether | tests.c:90 | `f` on "12..45" fails |
| ScanExamples.ScanDecimalWord | tests.c:91 | `f` on "blah" fails |
| ScanExamples.ScanDecimalTwoDots | tests.c:92 | `f` on "12.3.4" fails |
| ScanExamples.ScanDecimalEmptyField | tests.c:94-95 | `f` on "," stores scale 0 |
| ScanExamples.ScanDecimalEmpty | tests.c:96-97 | `f` on "" stores scale 0 |
| ScanExamples.ScanDecimalFraction | tests.c:99-101 | `f` on "15.345" stores 15345 at scale 1000 |
| ScanExamples.ScanDecimalNegative | tests.c:103-105 | `f` on "-1.23,V" stores -123 at scale 100 |
| ScanExamples.ScanVerbatim | tests.c:113-114 | `s` on "foo,bar,baz" stores "foo" |
| ScanExamples.ScanVerbatimEmpty | tests.c:115-116 | `s` on ",bar,baz" stores "" |
| ScanExamples.ScanTalkerShort | tests.c:125 | `t` on a four-character token fails |
| ScanExamples.ScanTalkerNoDollar | tests.c:126 | `t` without `$` fails |
| ScanExamples.ScanTalker | tests.c:128-129 | `t` on "$GPRMC,..." stores "GPRMC" |
| ScanExamples.ScanTalkerBuffer | tests.c:122-131 | the token lands in a seven-character buffer, terminated, and the buffer's last cell keeps its 0x42 |
| ScanExamples.ScanDate | tests.c:139-142 | `_D` on "311299" stores 31/12/99 |
| ScanExamples.ScanDateAbsent | tests.c:144-147 | `_D` on an empty field stores the absent date |
| ScanExamples.ScanTimeLeapSecond | tests.c:155-159 | `_T` on "235960" stores 23:59:60.0 |
| ScanExamples.ScanTimeFraction | tests.c:161-165 | `_T` on "213700.001" stores 21:37:00 and 1000 microseconds |
| ScanExamples.ScanTimeAbsent | tests.c:167-171 | `_T` on an empty field stores the absent time |
| ScanComplex.GgaLineStored | tests.c:187 | the format `tTfdfdiiffcfc__` stores thirteen values |
| ScanComplex.GgaLineAccepts | tests.c:187 | whatever the GGA decoder's format accepts, this format accepts |
| ScanComplex.GgaLineValues | tests.c:187-216 | each value the format stores is what its field's parser makes of that field |
| ScanComplex.GgaLineScan | tests.c:197-216 | any fields that parse as the example's scan to the values the test expects |
| ScanComplex.ScanGgaLine | tests.c:175-219 | the GGA sentence with CR LF scans to the token, time, signed coordinates, fix, satellites, dilution, altitude and height the test expects |
| ScanComplex.BwcAccepts | tests.c:232 | the format `tTfdfdfcfcfcs` accepts any fields whose token, numbers and directions parse |
| ScanComplex.BwcValues | tests.c:232-255 | each value the format stores is what its field's parser makes of that field |
| ScanComplex.BwcScan | tests.c:241-255 | any fields that parse as the example's scan to the values the test expects |
| ScanComplex.ScanBwc | tests.c:221-256 | the BWC sentence scans to its token and time, scale 0 and direction 0 for the empty numbers, the marks T, M and N, and an empty name |
| DecoderExamples.RmcRecord | tests.c:263-277 | the RMC fields after the time make the expected record |
| DecoderExamples.SparseRecord | tests.c:288-296 | the sparse RMC fields make the expected record |
| DecoderExamples.GgaRecord | tests.c:307-324 | the GGA fields make the expected record |
| DecoderExamples.RmcSentence | tests.c:259-282 | the full RMC sentence decodes to the expected record: southern latitude negative, 750000 microseconds |
| DecoderExamples.SparseSentence | tests.c:284-301 | the sparse RMC sentence decodes: absent time and date, zero at scale 0, western longitude negative |
| DecoderExamples.GgaSentence | tests.c:303-329 | the GGA sentence decodes to the expected record |
| DecoderExamples.UsageRmc | tests.c:334 | the usage test's RMC sentence decodes |
| DecoderExamples.RmcTest | tests.c:259-282 | the sentence passes the check, and parsing into a zeroed frame succeeds and leaves the expected record |
| DecoderExamples.SparseTest | tests.c:284-301 | the same for the sparse sentence |
| DecoderExamples.GgaTest | tests.c:303-329 | the same for the GGA sentence |
| DecoderExamples.UsageSentences | tests.c:333-337 | the RMC sentence is classified RMC and decodes, and the GGA sentence likewise |
| DecoderExamples.Dispatch | tests.c:340-353 | classifies the sentence and runs the decoder for its kind on a fresh frame |
| DecoderExamples.UsageLoop | tests.c:339-354 | one outcome per sentence, in order |
| DecoderExamples.UsageTest | tests.c:331-356 | both sentences of the usage test are classified and decoded |

## Left out

- FixedPoint.ToReal and FixedPoint.Coord: exact reals, with "absent" for scale 0. Float
  rounding and NaN are not modelled.
- Integer width: values are unbounded integers. The overflow of C `int` on long digit
  runs is not modelled.
- C varargs: the output arguments are a typed sequence of values. Writes through them
  are modelled only for the `t` buffer and the decoder frames.
- The `s` directive's buffer bound: the field text is stored whole.
- What a failed scan leaves in its outputs, and what a failed `Parse` leaves in its
  frame: both are unspecified, and the frame methods promise nothing then.
- Decoders for GSA, GSV, VTG, GLL, TXT and ZDA: those sentences appear only as inputs
  to `minmea_check`, and no decoder contract for them is given.
- The libc time conversion behind `struct timeval`: the day count is computed
  directly. Only the range check and the arithmetic are modelled.
- The test framework (suites, runners, `main`) and the `memcmp` of whole structs: the
  record equality of the decoders stands in for `memcmp`.
- minmea.c and minmea.h are not part of this model.
