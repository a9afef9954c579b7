/** The sentences the library's own tests give `minmea_check` (tests.c:15-45): seven
    it must accept and seven it must refuse; and the four sentences its decoding tests
    (tests.c:259-356) decode, all well formed. The `...Chars` lemmas spell a sentence out
    character by character, the `...Body` lemmas find where its body ends and the
    `...Sum` lemmas what the body's exclusive-or is, a stretch at a time from the back. */
module CheckVectors {
  import opened Validator

  lemma CheckTxtPlainPieces(s: string, p0: string, p1: string)
    requires s == "$GPTXT,xxxxxxxxxxxxxxxxxxxxxxxxxxxxxxxxxx"
    requires p0 == "$GPTXT,xxxxxxxxxxxxxxxxx" && p1 == "xxxxxxxxxxxxxxxxx"
    ensures s == p0 + p1
  {
  }

  lemma CheckTxtPlainLength(s: string, p0: string, p1: string)
    requires p0 == "$GPTXT,xxxxxxxxxxxxxxxxx" && p1 == "xxxxxxxxxxxxxxxxx"
    requires s == p0 + p1
    ensures |s| == 41
  {
  }

  lemma CheckTxtPlainChars0(s: string, p0: string, p1: string)
    requires p0 == "$GPTXT,xxxxxxxxxxxxxxxxx" && p1 == "xxxxxxxxxxxxxxxxx"
    requires s == p0 + p1
    ensures s[0] == '$' && s[1] == 'G' && s[2] == 'P' && s[3] == 'T' && s[4] == 'X'
  {
  }

  lemma CheckTxtPlainChars1(s: string, p0: string, p1: string)
    requires p0 == "$GPTXT,xxxxxxxxxxxxxxxxx" && p1 == "xxxxxxxxxxxxxxxxx"
    requires s == p0 + p1
    ensures s[5] == 'T' && s[6] == ',' && s[7] == 'x' && s[8] == 'x' && s[9] == 'x'
  {
  }

  lemma CheckTxtPlainChars2(s: string, p0: string, p1: string)
    requires p0 == "$GPTXT,xxxxxxxxxxxxxxxxx" && p1 == "xxxxxxxxxxxxxxxxx"
    requires s == p0 + p1
    ensures s[10] == 'x' && s[11] == 'x' && s[12] == 'x' && s[13] == 'x' && s[14] == 'x'
  {
  }

  lemma CheckTxtPlainChars3(s: string, p0: string, p1: string)
    requires p0 == "$GPTXT,xxxxxxxxxxxxxxxxx" && p1 == "xxxxxxxxxxxxxxxxx"
    requires s == p0 + p1
    ensures s[15] == 'x' && s[16] == 'x' && s[17] == 'x' && s[18] == 'x' && s[19] == 'x'
  {
  }

  lemma CheckTxtPlainChars4(s: string, p0: string, p1: string)
    requires p0 == "$GPTXT,xxxxxxxxxxxxxxxxx" && p1 == "xxxxxxxxxxxxxxxxx"
    requires s == p0 + p1
    ensures s[20] == 'x' && s[21] == 'x' && s[22] == 'x' && s[23] == 'x' && s[24] == 'x'
  {
  }

  lemma CheckTxtPlainChars5(s: string, p0: string, p1: string)
    requires p0 == "$GPTXT,xxxxxxxxxxxxxxxxx" && p1 == "xxxxxxxxxxxxxxxxx"
    requires s == p0 + p1
    ensures s[25] == 'x' && s[26] == 'x' && s[27] == 'x' && s[28] == 'x' && s[29] == 'x'
  {
  }

  lemma CheckTxtPlainChars6(s: string, p0: string, p1: string)
    requires p0 == "$GPTXT,xxxxxxxxxxxxxxxxx" && p1 == "xxxxxxxxxxxxxxxxx"
    requires s == p0 + p1
    ensures s[30] == 'x' && s[31] == 'x' && s[32] == 'x' && s[33] == 'x' && s[34] == 'x'
  {
  }

  lemma CheckTxtPlainChars7(s: string, p0: string, p1: string)
    requires p0 == "$GPTXT,xxxxxxxxxxxxxxxxx" && p1 == "xxxxxxxxxxxxxxxxx"
    requires s == p0 + p1
    ensures s[35] == 'x' && s[36] == 'x' && s[37] == 'x' && s[38] == 'x' && s[39] == 'x'
  {
  }

  lemma CheckTxtPlainChars8(s: string, p0: string, p1: string)
    requires p0 == "$GPTXT,xxxxxxxxxxxxxxxxx" && p1 == "xxxxxxxxxxxxxxxxx"
    requires s == p0 + p1
    ensures s[40] == 'x'
  {
  }

  lemma CheckTxtPlainBody0(s: string)
    requires |s| == 41 && s[31] == 'x' && s[32] == 'x' && s[33] == 'x' && s[34] == 'x'
      && s[35] == 'x' && s[36] == 'x' && s[37] == 'x' && s[38] == 'x' && s[39] == 'x'
      && s[40] == 'x'
    ensures BodyEnd(s, 31) == 41
  {
    assert BodyEnd(s, 41) == 41;
    assert BodyEnd(s, 40) == 41;
    assert BodyEnd(s, 39) == 41;
    assert BodyEnd(s, 38) == 41;
    assert BodyEnd(s, 37) == 41;
    assert BodyEnd(s, 36) == 41;
    assert BodyEnd(s, 35) == 41;
    assert BodyEnd(s, 34) == 41;
    assert BodyEnd(s, 33) == 41;
    assert BodyEnd(s, 32) == 41;
    assert BodyEnd(s, 31) == 41;
  }

  lemma CheckTxtPlainBody1(s: string)
    requires |s| == 41 && s[21] == 'x' && s[22] == 'x' && s[23] == 'x' && s[24] == 'x'
      && s[25] == 'x' && s[26] == 'x' && s[27] == 'x' && s[28] == 'x' && s[29] == 'x'
      && s[30] == 'x' && BodyEnd(s, 31) == 41
    ensures BodyEnd(s, 21) == 41
  {
    assert BodyEnd(s, 31) == 41;
    assert BodyEnd(s, 30) == 41;
    assert BodyEnd(s, 29) == 41;
    assert BodyEnd(s, 28) == 41;
    assert BodyEnd(s, 27) == 41;
    assert BodyEnd(s, 26) == 41;
    assert BodyEnd(s, 25) == 41;
    assert BodyEnd(s, 24) == 41;
    assert BodyEnd(s, 23) == 41;
    assert BodyEnd(s, 22) == 41;
    assert BodyEnd(s, 21) == 41;
  }

  lemma CheckTxtPlainBody2(s: string)
    requires |s| == 41 && s[11] == 'x' && s[12] == 'x' && s[13] == 'x' && s[14] == 'x'
      && s[15] == 'x' && s[16] == 'x' && s[17] == 'x' && s[18] == 'x' && s[19] == 'x'
      && s[20] == 'x' && BodyEnd(s, 21) == 41
    ensures BodyEnd(s, 11) == 41
  {
    assert BodyEnd(s, 21) == 41;
    assert BodyEnd(s, 20) == 41;
    assert BodyEnd(s, 19) == 41;
    assert BodyEnd(s, 18) == 41;
    assert BodyEnd(s, 17) == 41;
    assert BodyEnd(s, 16) == 41;
    assert BodyEnd(s, 15) == 41;
    assert BodyEnd(s, 14) == 41;
    assert BodyEnd(s, 13) == 41;
    assert BodyEnd(s, 12) == 41;
    assert BodyEnd(s, 11) == 41;
  }

  lemma CheckTxtPlainBody3(s: string)
    requires |s| == 41 && s[1] == 'G' && s[2] == 'P' && s[3] == 'T' && s[4] == 'X'
      && s[5] == 'T' && s[6] == ',' && s[7] == 'x' && s[8] == 'x' && s[9] == 'x'
      && s[10] == 'x' && BodyEnd(s, 11) == 41
    ensures BodyEnd(s, 1) == 41
  {
    assert BodyEnd(s, 11) == 41;
    assert BodyEnd(s, 10) == 41;
    assert BodyEnd(s, 9) == 41;
    assert BodyEnd(s, 8) == 41;
    assert BodyEnd(s, 7) == 41;
    assert BodyEnd(s, 6) == 41;
    assert BodyEnd(s, 5) == 41;
    assert BodyEnd(s, 4) == 41;
    assert BodyEnd(s, 3) == 41;
    assert BodyEnd(s, 2) == 41;
    assert BodyEnd(s, 1) == 41;
  }

  /** Accepted without a checksum. */
  lemma CheckTxtPlain(s: string)
    requires s == "$GPTXT,xxxxxxxxxxxxxxxxxxxxxxxxxxxxxxxxxx"
    ensures Check(s)
  {
    var p0, p1 := "$GPTXT,xxxxxxxxxxxxxxxxx", "xxxxxxxxxxxxxxxxx";
    CheckTxtPlainPieces(s, p0, p1);
    CheckTxtPlainLength(s, p0, p1);
    CheckTxtPlainChars0(s, p0, p1);
    CheckTxtPlainChars1(s, p0, p1);
    CheckTxtPlainChars2(s, p0, p1);
    CheckTxtPlainChars3(s, p0, p1);
    CheckTxtPlainChars4(s, p0, p1);
    CheckTxtPlainChars5(s, p0, p1);
    CheckTxtPlainChars6(s, p0, p1);
    CheckTxtPlainChars7(s, p0, p1);
    CheckTxtPlainChars8(s, p0, p1);
    CheckTxtPlainBody0(s);
    CheckTxtPlainBody1(s);
    CheckTxtPlainBody2(s);
    CheckTxtPlainBody3(s);
    assert s[41..] == "";
  }

  lemma CheckTxtSummedLength(s: string)
    requires s == "$GPTXT,01,01,02,ANTSTATUS=INIT*25"
    ensures |s| == 33
  {
  }

  lemma CheckTxtSummedChars0(s: string)
    requires s == "$GPTXT,01,01,02,ANTSTATUS=INIT*25"
    ensures s[0] == '$' && s[1] == 'G' && s[2] == 'P' && s[3] == 'T' && s[4] == 'X'
  {
  }

  lemma CheckTxtSummedChars1(s: string)
    requires s == "$GPTXT,01,01,02,ANTSTATUS=INIT*25"
    ensures s[5] == 'T' && s[6] == ',' && s[7] == '0' && s[8] == '1' && s[9] == ','
  {
  }

  lemma CheckTxtSummedChars2(s: string)
    requires s == "$GPTXT,01,01,02,ANTSTATUS=INIT*25"
    ensures s[10] == '0' && s[11] == '1' && s[12] == ',' && s[13] == '0' && s[14] == '2'
  {
  }

  lemma CheckTxtSummedChars3(s: string)
    requires s == "$GPTXT,01,01,02,ANTSTATUS=INIT*25"
    ensures s[15] == ',' && s[16] == 'A' && s[17] == 'N' && s[18] == 'T' && s[19] == 'S'
  {
  }

  lemma CheckTxtSummedChars4(s: string)
    requires s == "$GPTXT,01,01,02,ANTSTATUS=INIT*25"
    ensures s[20] == 'T' && s[21] == 'A' && s[22] == 'T' && s[23] == 'U' && s[24] == 'S'
  {
  }

  lemma CheckTxtSummedChars5(s: string)
    requires s == "$GPTXT,01,01,02,ANTSTATUS=INIT*25"
    ensures s[25] == '=' && s[26] == 'I' && s[27] == 'N' && s[28] == 'I' && s[29] == 'T'
  {
  }

  lemma CheckTxtSummedChars6(s: string)
    requires s == "$GPTXT,01,01,02,ANTSTATUS=INIT*25"
    ensures s[30] == '*' && s[31] == '2' && s[32] == '5'
  {
  }

  lemma CheckTxtSummedBody0(s: string)
    requires |s| == 33 && s[20] == 'T' && s[21] == 'A' && s[22] == 'T' && s[23] == 'U'
      && s[24] == 'S' && s[25] == '=' && s[26] == 'I' && s[27] == 'N' && s[28] == 'I'
      && s[29] == 'T' && s[30] == '*'
    ensures BodyEnd(s, 20) == 30
  {
    assert BodyEnd(s, 30) == 30;
    assert BodyEnd(s, 29) == 30;
    assert BodyEnd(s, 28) == 30;
    assert BodyEnd(s, 27) == 30;
    assert BodyEnd(s, 26) == 30;
    assert BodyEnd(s, 25) == 30;
    assert BodyEnd(s, 24) == 30;
    assert BodyEnd(s, 23) == 30;
    assert BodyEnd(s, 22) == 30;
    assert BodyEnd(s, 21) == 30;
    assert BodyEnd(s, 20) == 30;
  }

  lemma CheckTxtSummedBody1(s: string)
    requires |s| == 33 && s[10] == '0' && s[11] == '1' && s[12] == ',' && s[13] == '0'
      && s[14] == '2' && s[15] == ',' && s[16] == 'A' && s[17] == 'N' && s[18] == 'T'
      && s[19] == 'S' && BodyEnd(s, 20) == 30
    ensures BodyEnd(s, 10) == 30
  {
    assert BodyEnd(s, 20) == 30;
    assert BodyEnd(s, 19) == 30;
    assert BodyEnd(s, 18) == 30;
    assert BodyEnd(s, 17) == 30;
    assert BodyEnd(s, 16) == 30;
    assert BodyEnd(s, 15) == 30;
    assert BodyEnd(s, 14) == 30;
    assert BodyEnd(s, 13) == 30;
    assert BodyEnd(s, 12) == 30;
    assert BodyEnd(s, 11) == 30;
    assert BodyEnd(s, 10) == 30;
  }

  lemma CheckTxtSummedBody2(s: string)
    requires |s| == 33 && s[1] == 'G' && s[2] == 'P' && s[3] == 'T' && s[4] == 'X'
      && s[5] == 'T' && s[6] == ',' && s[7] == '0' && s[8] == '1' && s[9] == ','
      && BodyEnd(s, 10) == 30
    ensures BodyEnd(s, 1) == 30
  {
    assert BodyEnd(s, 10) == 30;
    assert BodyEnd(s, 9) == 30;
    assert BodyEnd(s, 8) == 30;
    assert BodyEnd(s, 7) == 30;
    assert BodyEnd(s, 6) == 30;
    assert BodyEnd(s, 5) == 30;
    assert BodyEnd(s, 4) == 30;
    assert BodyEnd(s, 3) == 30;
    assert BodyEnd(s, 2) == 30;
    assert BodyEnd(s, 1) == 30;
  }

  lemma CheckTxtSummedSum0(s: string)
    requires |s| == 33 && s[20] == 'T' && s[21] == 'A' && s[22] == 'T' && s[23] == 'U'
      && s[24] == 'S' && s[25] == '=' && s[26] == 'I' && s[27] == 'N' && s[28] == 'I'
      && s[29] == 'T'
    ensures XorRange(s, 20, 30) == 0x60
  {
    assert XorRange(s, 30, 30) == 0;
    assert XorRange(s, 29, 30) == 0x54;
    assert XorRange(s, 28, 30) == 0x1D;
    assert XorRange(s, 27, 30) == 0x53;
    assert XorRange(s, 26, 30) == 0x1A;
    assert XorRange(s, 25, 30) == 0x27;
    assert XorRange(s, 24, 30) == 0x74;
    assert XorRange(s, 23, 30) == 0x21;
    assert XorRange(s, 22, 30) == 0x75;
    assert XorRange(s, 21, 30) == 0x34;
  }

  lemma CheckTxtSummedSum1(s: string)
    requires |s| == 33 && s[10] == '0' && s[11] == '1' && s[12] == ',' && s[13] == '0'
      && s[14] == '2' && s[15] == ',' && s[16] == 'A' && s[17] == 'N' && s[18] == 'T'
      && s[19] == 'S'
    ensures XorRange(s, 10, 20) == 0x0B
  {
    assert XorRange(s, 20, 20) == 0;
    assert XorRange(s, 19, 20) == 0x53;
    assert XorRange(s, 18, 20) == 0x07;
    assert XorRange(s, 17, 20) == 0x49;
    assert XorRange(s, 16, 20) == 0x08;
    assert XorRange(s, 15, 20) == 0x24;
    assert XorRange(s, 14, 20) == 0x16;
    assert XorRange(s, 13, 20) == 0x26;
    assert XorRange(s, 12, 20) == 0x0A;
    assert XorRange(s, 11, 20) == 0x3B;
  }

  lemma CheckTxtSummedSum2(s: string)
    requires |s| == 33 && s[1] == 'G' && s[2] == 'P' && s[3] == 'T' && s[4] == 'X'
      && s[5] == 'T' && s[6] == ',' && s[7] == '0' && s[8] == '1' && s[9] == ','
    ensures XorRange(s, 1, 10) == 0x4E
  {
    assert XorRange(s, 10, 10) == 0;
    assert XorRange(s, 9, 10) == 0x2C;
    assert XorRange(s, 8, 10) == 0x1D;
    assert XorRange(s, 7, 10) == 0x2D;
    assert XorRange(s, 6, 10) == 0x01;
    assert XorRange(s, 5, 10) == 0x55;
    assert XorRange(s, 4, 10) == 0x0D;
    assert XorRange(s, 3, 10) == 0x59;
    assert XorRange(s, 2, 10) == 0x09;
  }

  /** Accepted: 0x25 is the exclusive-or of the body. */
  lemma CheckTxtSummed(s: string)
    requires s == "$GPTXT,01,01,02,ANTSTATUS=INIT*25"
    ensures Check(s)
  {
    CheckTxtSummedLength(s);
    CheckTxtSummedChars0(s);
    CheckTxtSummedChars1(s);
    CheckTxtSummedChars2(s);
    CheckTxtSummedChars3(s);
    CheckTxtSummedChars4(s);
    CheckTxtSummedChars5(s);
    CheckTxtSummedChars6(s);
    CheckTxtSummedBody0(s);
    CheckTxtSummedBody1(s);
    CheckTxtSummedBody2(s);
    CheckTxtSummedSum0(s);
    CheckTxtSummedSum1(s);
    XorRangeSplit(s, 10, 20, 30);
    CheckTxtSummedSum2(s);
    XorRangeSplit(s, 1, 10, 30);
    assert XorRange(s, 1, 30) == 0x25;
    assert s[30..] == "*25";
  }

  lemma CheckRmcEmptyLength(s: string)
    requires s == "$GPRMC,,V,,,,,,,,,,N*53"
    ensures |s| == 23
  {
  }

  lemma CheckRmcEmptyChars0(s: string)
    requires s == "$GPRMC,,V,,,,,,,,,,N*53"
    ensures s[0] == '$' && s[1] == 'G' && s[2] == 'P' && s[3] == 'R' && s[4] == 'M'
  {
  }

  lemma CheckRmcEmptyChars1(s: string)
    requires s == "$GPRMC,,V,,,,,,,,,,N*53"
    ensures s[5] == 'C' && s[6] == ',' && s[7] == ',' && s[8] == 'V' && s[9] == ','
  {
  }

  lemma CheckRmcEmptyChars2(s: string)
    requires s == "$GPRMC,,V,,,,,,,,,,N*53"
    ensures s[10] == ',' && s[11] == ',' && s[12] == ',' && s[13] == ',' && s[14] == ','
  {
  }

  lemma CheckRmcEmptyChars3(s: string)
    requires s == "$GPRMC,,V,,,,,,,,,,N*53"
    ensures s[15] == ',' && s[16] == ',' && s[17] == ',' && s[18] == ',' && s[19] == 'N'
  {
  }

  lemma CheckRmcEmptyChars4(s: string)
    requires s == "$GPRMC,,V,,,,,,,,,,N*53"
    ensures s[20] == '*' && s[21] == '5' && s[22] == '3'
  {
  }

  lemma CheckRmcEmptyBody0(s: string)
    requires |s| == 23 && s[10] == ',' && s[11] == ',' && s[12] == ',' && s[13] == ','
      && s[14] == ',' && s[15] == ',' && s[16] == ',' && s[17] == ',' && s[18] == ','
      && s[19] == 'N' && s[20] == '*'
    ensures BodyEnd(s, 10) == 20
  {
    assert BodyEnd(s, 20) == 20;
    assert BodyEnd(s, 19) == 20;
    assert BodyEnd(s, 18) == 20;
    assert BodyEnd(s, 17) == 20;
    assert BodyEnd(s, 16) == 20;
    assert BodyEnd(s, 15) == 20;
    assert BodyEnd(s, 14) == 20;
    assert BodyEnd(s, 13) == 20;
    assert BodyEnd(s, 12) == 20;
    assert BodyEnd(s, 11) == 20;
    assert BodyEnd(s, 10) == 20;
  }

  lemma CheckRmcEmptyBody1(s: string)
    requires |s| == 23 && s[1] == 'G' && s[2] == 'P' && s[3] == 'R' && s[4] == 'M'
      && s[5] == 'C' && s[6] == ',' && s[7] == ',' && s[8] == 'V' && s[9] == ','
      && BodyEnd(s, 10) == 20
    ensures BodyEnd(s, 1) == 20
  {
    assert BodyEnd(s, 10) == 20;
    assert BodyEnd(s, 9) == 20;
    assert BodyEnd(s, 8) == 20;
    assert BodyEnd(s, 7) == 20;
    assert BodyEnd(s, 6) == 20;
    assert BodyEnd(s, 5) == 20;
    assert BodyEnd(s, 4) == 20;
    assert BodyEnd(s, 3) == 20;
    assert BodyEnd(s, 2) == 20;
    assert BodyEnd(s, 1) == 20;
  }

  lemma CheckRmcEmptySum0(s: string)
    requires |s| == 23 && s[10] == ',' && s[11] == ',' && s[12] == ',' && s[13] == ','
      && s[14] == ',' && s[15] == ',' && s[16] == ',' && s[17] == ',' && s[18] == ','
      && s[19] == 'N'
    ensures XorRange(s, 10, 20) == 0x62
  {
    assert XorRange(s, 20, 20) == 0;
    assert XorRange(s, 19, 20) == 0x4E;
    assert XorRange(s, 18, 20) == 0x62;
    assert XorRange(s, 17, 20) == 0x4E;
    assert XorRange(s, 16, 20) == 0x62;
    assert XorRange(s, 15, 20) == 0x4E;
    assert XorRange(s, 14, 20) == 0x62;
    assert XorRange(s, 13, 20) == 0x4E;
    assert XorRange(s, 12, 20) == 0x62;
    assert XorRange(s, 11, 20) == 0x4E;
  }

  lemma CheckRmcEmptySum1(s: string)
    requires |s| == 23 && s[1] == 'G' && s[2] == 'P' && s[3] == 'R' && s[4] == 'M'
      && s[5] == 'C' && s[6] == ',' && s[7] == ',' && s[8] == 'V' && s[9] == ','
    ensures XorRange(s, 1, 10) == 0x31
  {
    assert XorRange(s, 10, 10) == 0;
    assert XorRange(s, 9, 10) == 0x2C;
    assert XorRange(s, 8, 10) == 0x7A;
    assert XorRange(s, 7, 10) == 0x56;
    assert XorRange(s, 6, 10) == 0x7A;
    assert XorRange(s, 5, 10) == 0x39;
    assert XorRange(s, 4, 10) == 0x74;
    assert XorRange(s, 3, 10) == 0x26;
    assert XorRange(s, 2, 10) == 0x76;
  }

  /** Accepted, empty fields and all. */
  lemma CheckRmcEmpty(s: string)
    requires s == "$GPRMC,,V,,,,,,,,,,N*53"
    ensures Check(s)
  {
    CheckRmcEmptyLength(s);
    CheckRmcEmptyChars0(s);
    CheckRmcEmptyChars1(s);
    CheckRmcEmptyChars2(s);
    CheckRmcEmptyChars3(s);
    CheckRmcEmptyChars4(s);
    CheckRmcEmptyBody0(s);
    CheckRmcEmptyBody1(s);
    CheckRmcEmptySum0(s);
    CheckRmcEmptySum1(s);
    XorRangeSplit(s, 1, 10, 20);
    assert XorRange(s, 1, 20) == 0x53;
    assert s[20..] == "*53";
  }

  lemma CheckVtgEmptyLength(s: string)
    requires s == "$GPVTG,,,,,,,,,N*30"
    ensures |s| == 19
  {
  }

  lemma CheckVtgEmptyChars0(s: string)
    requires s == "$GPVTG,,,,,,,,,N*30"
    ensures s[0] == '$' && s[1] == 'G' && s[2] == 'P' && s[3] == 'V' && s[4] == 'T'
  {
  }

  lemma CheckVtgEmptyChars1(s: string)
    requires s == "$GPVTG,,,,,,,,,N*30"
    ensures s[5] == 'G' && s[6] == ',' && s[7] == ',' && s[8] == ',' && s[9] == ','
  {
  }

  lemma CheckVtgEmptyChars2(s: string)
    requires s == "$GPVTG,,,,,,,,,N*30"
    ensures s[10] == ',' && s[11] == ',' && s[12] == ',' && s[13] == ',' && s[14] == ','
  {
  }

  lemma CheckVtgEmptyChars3(s: string)
    requires s == "$GPVTG,,,,,,,,,N*30"
    ensures s[15] == 'N' && s[16] == '*' && s[17] == '3' && s[18] == '0'
  {
  }

  lemma CheckVtgEmptyBody0(s: string)
    requires |s| == 19 && s[6] == ',' && s[7] == ',' && s[8] == ',' && s[9] == ','
      && s[10] == ',' && s[11] == ',' && s[12] == ',' && s[13] == ',' && s[14] == ','
      && s[15] == 'N' && s[16] == '*'
    ensures BodyEnd(s, 6) == 16
  {
    assert BodyEnd(s, 16) == 16;
    assert BodyEnd(s, 15) == 16;
    assert BodyEnd(s, 14) == 16;
    assert BodyEnd(s, 13) == 16;
    assert BodyEnd(s, 12) == 16;
    assert BodyEnd(s, 11) == 16;
    assert BodyEnd(s, 10) == 16;
    assert BodyEnd(s, 9) == 16;
    assert BodyEnd(s, 8) == 16;
    assert BodyEnd(s, 7) == 16;
    assert BodyEnd(s, 6) == 16;
  }

  lemma CheckVtgEmptyBody1(s: string)
    requires |s| == 19 && s[1] == 'G' && s[2] == 'P' && s[3] == 'V' && s[4] == 'T'
      && s[5] == 'G' && BodyEnd(s, 6) == 16
    ensures BodyEnd(s, 1) == 16
  {
    assert BodyEnd(s, 6) == 16;
    assert BodyEnd(s, 5) == 16;
    assert BodyEnd(s, 4) == 16;
    assert BodyEnd(s, 3) == 16;
    assert BodyEnd(s, 2) == 16;
    assert BodyEnd(s, 1) == 16;
  }

  lemma CheckVtgEmptySum0(s: string)
    requires |s| == 19 && s[6] == ',' && s[7] == ',' && s[8] == ',' && s[9] == ','
      && s[10] == ',' && s[11] == ',' && s[12] == ',' && s[13] == ',' && s[14] == ','
      && s[15] == 'N'
    ensures XorRange(s, 6, 16) == 0x62
  {
    assert XorRange(s, 16, 16) == 0;
    assert XorRange(s, 15, 16) == 0x4E;
    assert XorRange(s, 14, 16) == 0x62;
    assert XorRange(s, 13, 16) == 0x4E;
    assert XorRange(s, 12, 16) == 0x62;
    assert XorRange(s, 11, 16) == 0x4E;
    assert XorRange(s, 10, 16) == 0x62;
    assert XorRange(s, 9, 16) == 0x4E;
    assert XorRange(s, 8, 16) == 0x62;
    assert XorRange(s, 7, 16) == 0x4E;
  }

  lemma CheckVtgEmptySum1(s: string)
    requires |s| == 19 && s[1] == 'G' && s[2] == 'P' && s[3] == 'V' && s[4] == 'T'
      && s[5] == 'G'
    ensures XorRange(s, 1, 6) == 0x52
  {
    assert XorRange(s, 6, 6) == 0;
    assert XorRange(s, 5, 6) == 0x47;
    assert XorRange(s, 4, 6) == 0x13;
    assert XorRange(s, 3, 6) == 0x45;
    assert XorRange(s, 2, 6) == 0x15;
  }

  /** Accepted. */
  lemma CheckVtgEmpty(s: string)
    requires s == "$GPVTG,,,,,,,,,N*30"
    ensures Check(s)
  {
    CheckVtgEmptyLength(s);
    CheckVtgEmptyChars0(s);
    CheckVtgEmptyChars1(s);
    CheckVtgEmptyChars2(s);
    CheckVtgEmptyChars3(s);
    CheckVtgEmptyBody0(s);
    CheckVtgEmptyBody1(s);
    CheckVtgEmptySum0(s);
    CheckVtgEmptySum1(s);
    XorRangeSplit(s, 1, 6, 16);
    assert XorRange(s, 1, 16) == 0x30;
    assert s[16..] == "*30";
  }

  lemma CheckGgaEmptyLength(s: string)
    requires s == "$GPGGA,,,,,,0,00,99.99,,,,,,*48"
    ensures |s| == 31
  {
  }

  lemma CheckGgaEmptyChars0(s: string)
    requires s == "$GPGGA,,,,,,0,00,99.99,,,,,,*48"
    ensures s[0] == '$' && s[1] == 'G' && s[2] == 'P' && s[3] == 'G' && s[4] == 'G'
  {
  }

  lemma CheckGgaEmptyChars1(s: string)
    requires s == "$GPGGA,,,,,,0,00,99.99,,,,,,*48"
    ensures s[5] == 'A' && s[6] == ',' && s[7] == ',' && s[8] == ',' && s[9] == ','
  {
  }

  lemma CheckGgaEmptyChars2(s: string)
    requires s == "$GPGGA,,,,,,0,00,99.99,,,,,,*48"
    ensures s[10] == ',' && s[11] == ',' && s[12] == '0' && s[13] == ',' && s[14] == '0'
  {
  }

  lemma CheckGgaEmptyChars3(s: string)
    requires s == "$GPGGA,,,,,,0,00,99.99,,,,,,*48"
    ensures s[15] == '0' && s[16] == ',' && s[17] == '9' && s[18] == '9' && s[19] == '.'
  {
  }

  lemma CheckGgaEmptyChars4(s: string)
    requires s == "$GPGGA,,,,,,0,00,99.99,,,,,,*48"
    ensures s[20] == '9' && s[21] == '9' && s[22] == ',' && s[23] == ',' && s[24] == ','
  {
  }

  lemma CheckGgaEmptyChars5(s: string)
    requires s == "$GPGGA,,,,,,0,00,99.99,,,,,,*48"
    ensures s[25] == ',' && s[26] == ',' && s[27] == ',' && s[28] == '*' && s[29] == '4'
  {
  }

  lemma CheckGgaEmptyChars6(s: string)
    requires s == "$GPGGA,,,,,,0,00,99.99,,,,,,*48"
    ensures s[30] == '8'
  {
  }

  lemma CheckGgaEmptyBody0(s: string)
    requires |s| == 31 && s[18] == '9' && s[19] == '.' && s[20] == '9' && s[21] == '9'
      && s[22] == ',' && s[23] == ',' && s[24] == ',' && s[25] == ',' && s[26] == ','
      && s[27] == ',' && s[28] == '*'
    ensures BodyEnd(s, 18) == 28
  {
    assert BodyEnd(s, 28) == 28;
    assert BodyEnd(s, 27) == 28;
    assert BodyEnd(s, 26) == 28;
    assert BodyEnd(s, 25) == 28;
    assert BodyEnd(s, 24) == 28;
    assert BodyEnd(s, 23) == 28;
    assert BodyEnd(s, 22) == 28;
    assert BodyEnd(s, 21) == 28;
    assert BodyEnd(s, 20) == 28;
    assert BodyEnd(s, 19) == 28;
    assert BodyEnd(s, 18) == 28;
  }

  lemma CheckGgaEmptyBody1(s: string)
    requires |s| == 31 && s[8] == ',' && s[9] == ',' && s[10] == ',' && s[11] == ','
      && s[12] == '0' && s[13] == ',' && s[14] == '0' && s[15] == '0' && s[16] == ','
      && s[17] == '9' && BodyEnd(s, 18) == 28
    ensures BodyEnd(s, 8) == 28
  {
    assert BodyEnd(s, 18) == 28;
    assert BodyEnd(s, 17) == 28;
    assert BodyEnd(s, 16) == 28;
    assert BodyEnd(s, 15) == 28;
    assert BodyEnd(s, 14) == 28;
    assert BodyEnd(s, 13) == 28;
    assert BodyEnd(s, 12) == 28;
    assert BodyEnd(s, 11) == 28;
    assert BodyEnd(s, 10) == 28;
    assert BodyEnd(s, 9) == 28;
    assert BodyEnd(s, 8) == 28;
  }

  lemma CheckGgaEmptyBody2(s: string)
    requires |s| == 31 && s[1] == 'G' && s[2] == 'P' && s[3] == 'G' && s[4] == 'G'
      && s[5] == 'A' && s[6] == ',' && s[7] == ',' && BodyEnd(s, 8) == 28
    ensures BodyEnd(s, 1) == 28
  {
    assert BodyEnd(s, 8) == 28;
    assert BodyEnd(s, 7) == 28;
    assert BodyEnd(s, 6) == 28;
    assert BodyEnd(s, 5) == 28;
    assert BodyEnd(s, 4) == 28;
    assert BodyEnd(s, 3) == 28;
    assert BodyEnd(s, 2) == 28;
    assert BodyEnd(s, 1) == 28;
  }

  lemma CheckGgaEmptySum0(s: string)
    requires |s| == 31 && s[18] == '9' && s[19] == '.' && s[20] == '9' && s[21] == '9'
      && s[22] == ',' && s[23] == ',' && s[24] == ',' && s[25] == ',' && s[26] == ','
      && s[27] == ','
    ensures XorRange(s, 18, 28) == 0x17
  {
    assert XorRange(s, 28, 28) == 0;
    assert XorRange(s, 27, 28) == 0x2C;
    assert XorRange(s, 26, 28) == 0x00;
    assert XorRange(s, 25, 28) == 0x2C;
    assert XorRange(s, 24, 28) == 0x00;
    assert XorRange(s, 23, 28) == 0x2C;
    assert XorRange(s, 22, 28) == 0x00;
    assert XorRange(s, 21, 28) == 0x39;
    assert XorRange(s, 20, 28) == 0x00;
    assert XorRange(s, 19, 28) == 0x2E;
  }

  lemma CheckGgaEmptySum1(s: string)
    requires |s| == 31 && s[8] == ',' && s[9] == ',' && s[10] == ',' && s[11] == ','
      && s[12] == '0' && s[13] == ',' && s[14] == '0' && s[15] == '0' && s[16] == ','
      && s[17] == '9'
    ensures XorRange(s, 8, 18) == 0x09
  {
    assert XorRange(s, 18, 18) == 0;
    assert XorRange(s, 17, 18) == 0x39;
    assert XorRange(s, 16, 18) == 0x15;
    assert XorRange(s, 15, 18) == 0x25;
    assert XorRange(s, 14, 18) == 0x15;
    assert XorRange(s, 13, 18) == 0x39;
    assert XorRange(s, 12, 18) == 0x09;
    assert XorRange(s, 11, 18) == 0x25;
    assert XorRange(s, 10, 18) == 0x09;
    assert XorRange(s, 9, 18) == 0x25;
  }

  lemma CheckGgaEmptySum2(s: string)
    requires |s| == 31 && s[1] == 'G' && s[2] == 'P' && s[3] == 'G' && s[4] == 'G'
      && s[5] == 'A' && s[6] == ',' && s[7] == ','
    ensures XorRange(s, 1, 8) == 0x56
  {
    assert XorRange(s, 8, 8) == 0;
    assert XorRange(s, 7, 8) == 0x2C;
    assert XorRange(s, 6, 8) == 0x00;
    assert XorRange(s, 5, 8) == 0x41;
    assert XorRange(s, 4, 8) == 0x06;
    assert XorRange(s, 3, 8) == 0x41;
    assert XorRange(s, 2, 8) == 0x11;
  }

  /** Accepted. */
  lemma CheckGgaEmpty(s: string)
    requires s == "$GPGGA,,,,,,0,00,99.99,,,,,,*48"
    ensures Check(s)
  {
    CheckGgaEmptyLength(s);
    CheckGgaEmptyChars0(s);
    CheckGgaEmptyChars1(s);
    CheckGgaEmptyChars2(s);
    CheckGgaEmptyChars3(s);
    CheckGgaEmptyChars4(s);
    CheckGgaEmptyChars5(s);
    CheckGgaEmptyChars6(s);
    CheckGgaEmptyBody0(s);
    CheckGgaEmptyBody1(s);
    CheckGgaEmptyBody2(s);
    CheckGgaEmptySum0(s);
    CheckGgaEmptySum1(s);
    XorRangeSplit(s, 8, 18, 28);
    CheckGgaEmptySum2(s);
    XorRangeSplit(s, 1, 8, 28);
    assert XorRange(s, 1, 28) == 0x48;
    assert s[28..] == "*48";
  }

  lemma CheckGsaEmptyPieces(s: string, p0: string, p1: string)
    requires s == "$GPGSA,A,1,,,,,,,,,,,,,99.99,99.99,99.99*30"
    requires p0 == "$GPGSA,A,1,,,,,,,,,,,,,9" && p1 == "9.99,99.99,99.99*30"
    ensures s == p0 + p1
  {
  }

  lemma CheckGsaEmptyLength(s: string, p0: string, p1: string)
    requires p0 == "$GPGSA,A,1,,,,,,,,,,,,,9" && p1 == "9.99,99.99,99.99*30"
    requires s == p0 + p1
    ensures |s| == 43
  {
  }

  lemma CheckGsaEmptyChars0(s: string, p0: string, p1: string)
    requires p0 == "$GPGSA,A,1,,,,,,,,,,,,,9" && p1 == "9.99,99.99,99.99*30"
    requires s == p0 + p1
    ensures s[0] == '$' && s[1] == 'G' && s[2] == 'P' && s[3] == 'G' && s[4] == 'S'
  {
  }

  lemma CheckGsaEmptyChars1(s: string, p0: string, p1: string)
    requires p0 == "$GPGSA,A,1,,,,,,,,,,,,,9" && p1 == "9.99,99.99,99.99*30"
    requires s == p0 + p1
    ensures s[5] == 'A' && s[6] == ',' && s[7] == 'A' && s[8] == ',' && s[9] == '1'
  {
  }

  lemma CheckGsaEmptyChars2(s: string, p0: string, p1: string)
    requires p0 == "$GPGSA,A,1,,,,,,,,,,,,,9" && p1 == "9.99,99.99,99.99*30"
    requires s == p0 + p1
    ensures s[10] == ',' && s[11] == ',' && s[12] == ',' && s[13] == ',' && s[14] == ','
  {
  }

  lemma CheckGsaEmptyChars3(s: string, p0: string, p1: string)
    requires p0 == "$GPGSA,A,1,,,,,,,,,,,,,9" && p1 == "9.99,99.99,99.99*30"
    requires s == p0 + p1
    ensures s[15] == ',' && s[16] == ',' && s[17] == ',' && s[18] == ',' && s[19] == ','
  {
  }

  lemma CheckGsaEmptyChars4(s: string, p0: string, p1: string)
    requires p0 == "$GPGSA,A,1,,,,,,,,,,,,,9" && p1 == "9.99,99.99,99.99*30"
    requires s == p0 + p1
    ensures s[20] == ',' && s[21] == ',' && s[22] == ',' && s[23] == '9' && s[24] == '9'
  {
  }

  lemma CheckGsaEmptyChars5(s: string, p0: string, p1: string)
    requires p0 == "$GPGSA,A,1,,,,,,,,,,,,,9" && p1 == "9.99,99.99,99.99*30"
    requires s == p0 + p1
    ensures s[25] == '.' && s[26] == '9' && s[27] == '9' && s[28] == ',' && s[29] == '9'
  {
  }

  lemma CheckGsaEmptyChars6(s: string, p0: string, p1: string)
    requires p0 == "$GPGSA,A,1,,,,,,,,,,,,,9" && p1 == "9.99,99.99,99.99*30"
    requires s == p0 + p1
    ensures s[30] == '9' && s[31] == '.' && s[32] == '9' && s[33] == '9' && s[34] == ','
  {
  }

  lemma CheckGsaEmptyChars7(s: string, p0: string, p1: string)
    requires p0 == "$GPGSA,A,1,,,,,,,,,,,,,9" && p1 == "9.99,99.99,99.99*30"
    requires s == p0 + p1
    ensures s[35] == '9' && s[36] == '9' && s[37] == '.' && s[38] == '9' && s[39] == '9'
  {
  }

  lemma CheckGsaEmptyChars8(s: string, p0: string, p1: string)
    requires p0 == "$GPGSA,A,1,,,,,,,,,,,,,9" && p1 == "9.99,99.99,99.99*30"
    requires s == p0 + p1
    ensures s[40] == '*' && s[41] == '3' && s[42] == '0'
  {
  }

  lemma CheckGsaEmptyBody0(s: string)
    requires |s| == 43 && s[30] == '9' && s[31] == '.' && s[32] == '9' && s[33] == '9'
      && s[34] == ',' && s[35] == '9' && s[36] == '9' && s[37] == '.' && s[38] == '9'
      && s[39] == '9' && s[40] == '*'
    ensures BodyEnd(s, 30) == 40
  {
    assert BodyEnd(s, 40) == 40;
    assert BodyEnd(s, 39) == 40;
    assert BodyEnd(s, 38) == 40;
    assert BodyEnd(s, 37) == 40;
    assert BodyEnd(s, 36) == 40;
    assert BodyEnd(s, 35) == 40;
    assert BodyEnd(s, 34) == 40;
    assert BodyEnd(s, 33) == 40;
    assert BodyEnd(s, 32) == 40;
    assert BodyEnd(s, 31) == 40;
    assert BodyEnd(s, 30) == 40;
  }

  lemma CheckGsaEmptyBody1(s: string)
    requires |s| == 43 && s[20] == ',' && s[21] == ',' && s[22] == ',' && s[23] == '9'
      && s[24] == '9' && s[25] == '.' && s[26] == '9' && s[27] == '9' && s[28] == ','
      && s[29] == '9' && BodyEnd(s, 30) == 40
    ensures BodyEnd(s, 20) == 40
  {
    assert BodyEnd(s, 30) == 40;
    assert BodyEnd(s, 29) == 40;
    assert BodyEnd(s, 28) == 40;
    assert BodyEnd(s, 27) == 40;
    assert BodyEnd(s, 26) == 40;
    assert BodyEnd(s, 25) == 40;
    assert BodyEnd(s, 24) == 40;
    assert BodyEnd(s, 23) == 40;
    assert BodyEnd(s, 22) == 40;
    assert BodyEnd(s, 21) == 40;
    assert BodyEnd(s, 20) == 40;
  }

  lemma CheckGsaEmptyBody2(s: string)
    requires |s| == 43 && s[10] == ',' && s[11] == ',' && s[12] == ',' && s[13] == ','
      && s[14] == ',' && s[15] == ',' && s[16] == ',' && s[17] == ',' && s[18] == ','
      && s[19] == ',' && BodyEnd(s, 20) == 40
    ensures BodyEnd(s, 10) == 40
  {
    assert BodyEnd(s, 20) == 40;
    assert BodyEnd(s, 19) == 40;
    assert BodyEnd(s, 18) == 40;
    assert BodyEnd(s, 17) == 40;
    assert BodyEnd(s, 16) == 40;
    assert BodyEnd(s, 15) == 40;
    assert BodyEnd(s, 14) == 40;
    assert BodyEnd(s, 13) == 40;
    assert BodyEnd(s, 12) == 40;
    assert BodyEnd(s, 11) == 40;
    assert BodyEnd(s, 10) == 40;
  }

  lemma CheckGsaEmptyBody3(s: string)
    requires |s| == 43 && s[1] == 'G' && s[2] == 'P' && s[3] == 'G' && s[4] == 'S'
      && s[5] == 'A' && s[6] == ',' && s[7] == 'A' && s[8] == ',' && s[9] == '1'
      && BodyEnd(s, 10) == 40
    ensures BodyEnd(s, 1) == 40
  {
    assert BodyEnd(s, 10) == 40;
    assert BodyEnd(s, 9) == 40;
    assert BodyEnd(s, 8) == 40;
    assert BodyEnd(s, 7) == 40;
    assert BodyEnd(s, 6) == 40;
    assert BodyEnd(s, 5) == 40;
    assert BodyEnd(s, 4) == 40;
    assert BodyEnd(s, 3) == 40;
    assert BodyEnd(s, 2) == 40;
    assert BodyEnd(s, 1) == 40;
  }

  lemma CheckGsaEmptySum0(s: string)
    requires |s| == 43 && s[30] == '9' && s[31] == '.' && s[32] == '9' && s[33] == '9'
      && s[34] == ',' && s[35] == '9' && s[36] == '9' && s[37] == '.' && s[38] == '9'
      && s[39] == '9'
    ensures XorRange(s, 30, 40) == 0x15
  {
    assert XorRange(s, 40, 40) == 0;
    assert XorRange(s, 39, 40) == 0x39;
    assert XorRange(s, 38, 40) == 0x00;
    assert XorRange(s, 37, 40) == 0x2E;
    assert XorRange(s, 36, 40) == 0x17;
    assert XorRange(s, 35, 40) == 0x2E;
    assert XorRange(s, 34, 40) == 0x02;
    assert XorRange(s, 33, 40) == 0x3B;
    assert XorRange(s, 32, 40) == 0x02;
    assert XorRange(s, 31, 40) == 0x2C;
  }

  lemma CheckGsaEmptySum1(s: string)
    requires |s| == 43 && s[20] == ',' && s[21] == ',' && s[22] == ',' && s[23] == '9'
      && s[24] == '9' && s[25] == '.' && s[26] == '9' && s[27] == '9' && s[28] == ','
      && s[29] == '9'
    ensures XorRange(s, 20, 30) == 0x17
  {
    assert XorRange(s, 30, 30) == 0;
    assert XorRange(s, 29, 30) == 0x39;
    assert XorRange(s, 28, 30) == 0x15;
    assert XorRange(s, 27, 30) == 0x2C;
    assert XorRange(s, 26, 30) == 0x15;
    assert XorRange(s, 25, 30) == 0x3B;
    assert XorRange(s, 24, 30) == 0x02;
    assert XorRange(s, 23, 30) == 0x3B;
    assert XorRange(s, 22, 30) == 0x17;
    assert XorRange(s, 21, 30) == 0x3B;
  }

  lemma CheckGsaEmptySum2(s: string)
    requires |s| == 43 && s[10] == ',' && s[11] == ',' && s[12] == ',' && s[13] == ','
      && s[14] == ',' && s[15] == ',' && s[16] == ',' && s[17] == ',' && s[18] == ','
      && s[19] == ','
    ensures XorRange(s, 10, 20) == 0x00
  {
    assert XorRange(s, 20, 20) == 0;
    assert XorRange(s, 19, 20) == 0x2C;
    assert XorRange(s, 18, 20) == 0x00;
    assert XorRange(s, 17, 20) == 0x2C;
    assert XorRange(s, 16, 20) == 0x00;
    assert XorRange(s, 15, 20) == 0x2C;
    assert XorRange(s, 14, 20) == 0x00;
    assert XorRange(s, 13, 20) == 0x2C;
    assert XorRange(s, 12, 20) == 0x00;
    assert XorRange(s, 11, 20) == 0x2C;
  }

  lemma CheckGsaEmptySum3(s: string)
    requires |s| == 43 && s[1] == 'G' && s[2] == 'P' && s[3] == 'G' && s[4] == 'S'
      && s[5] == 'A' && s[6] == ',' && s[7] == 'A' && s[8] == ',' && s[9] == '1'
    ensures XorRange(s, 1, 10) == 0x32
  {
    assert XorRange(s, 10, 10) == 0;
    assert XorRange(s, 9, 10) == 0x31;
    assert XorRange(s, 8, 10) == 0x1D;
    assert XorRange(s, 7, 10) == 0x5C;
    assert XorRange(s, 6, 10) == 0x70;
    assert XorRange(s, 5, 10) == 0x31;
    assert XorRange(s, 4, 10) == 0x62;
    assert XorRange(s, 3, 10) == 0x25;
    assert XorRange(s, 2, 10) == 0x75;
  }

  /** Accepted. */
  lemma CheckGsaEmpty(s: string)
    requires s == "$GPGSA,A,1,,,,,,,,,,,,,99.99,99.99,99.99*30"
    ensures Check(s)
  {
    var p0, p1 := "$GPGSA,A,1,,,,,,,,,,,,,9", "9.99,99.99,99.99*30";
    CheckGsaEmptyPieces(s, p0, p1);
    CheckGsaEmptyLength(s, p0, p1);
    CheckGsaEmptyChars0(s, p0, p1);
    CheckGsaEmptyChars1(s, p0, p1);
    CheckGsaEmptyChars2(s, p0, p1);
    CheckGsaEmptyChars3(s, p0, p1);
    CheckGsaEmptyChars4(s, p0, p1);
    CheckGsaEmptyChars5(s, p0, p1);
    CheckGsaEmptyChars6(s, p0, p1);
    CheckGsaEmptyChars7(s, p0, p1);
    CheckGsaEmptyChars8(s, p0, p1);
    CheckGsaEmptyBody0(s);
    CheckGsaEmptyBody1(s);
    CheckGsaEmptyBody2(s);
    CheckGsaEmptyBody3(s);
    CheckGsaEmptySum0(s);
    CheckGsaEmptySum1(s);
    XorRangeSplit(s, 20, 30, 40);
    CheckGsaEmptySum2(s);
    XorRangeSplit(s, 10, 20, 40);
    CheckGsaEmptySum3(s);
    XorRangeSplit(s, 1, 10, 40);
    assert XorRange(s, 1, 40) == 0x30;
    assert s[40..] == "*30";
  }

  lemma CheckGllEmptyLength(s: string)
    requires s == "$GPGLL,,,,,,V,N*64"
    ensures |s| == 18
  {
  }

  lemma CheckGllEmptyChars0(s: string)
    requires s == "$GPGLL,,,,,,V,N*64"
    ensures s[0] == '$' && s[1] == 'G' && s[2] == 'P' && s[3] == 'G' && s[4] == 'L'
  {
  }

  lemma CheckGllEmptyChars1(s: string)
    requires s == "$GPGLL,,,,,,V,N*64"
    ensures s[5] == 'L' && s[6] == ',' && s[7] == ',' && s[8] == ',' && s[9] == ','
  {
  }

  lemma CheckGllEmptyChars2(s: string)
    requires s == "$GPGLL,,,,,,V,N*64"
    ensures s[10] == ',' && s[11] == ',' && s[12] == 'V' && s[13] == ',' && s[14] == 'N'
  {
  }

  lemma CheckGllEmptyChars3(s: string)
    requires s == "$GPGLL,,,,,,V,N*64"
    ensures s[15] == '*' && s[16] == '6' && s[17] == '4'
  {
  }

  lemma CheckGllEmptyBody0(s: string)
    requires |s| == 18 && s[5] == 'L' && s[6] == ',' && s[7] == ',' && s[8] == ','
      && s[9] == ',' && s[10] == ',' && s[11] == ',' && s[12] == 'V' && s[13] == ','
      && s[14] == 'N' && s[15] == '*'
    ensures BodyEnd(s, 5) == 15
  {
    assert BodyEnd(s, 15) == 15;
    assert BodyEnd(s, 14) == 15;
    assert BodyEnd(s, 13) == 15;
    assert BodyEnd(s, 12) == 15;
    assert BodyEnd(s, 11) == 15;
    assert BodyEnd(s, 10) == 15;
    assert BodyEnd(s, 9) == 15;
    assert BodyEnd(s, 8) == 15;
    assert BodyEnd(s, 7) == 15;
    assert BodyEnd(s, 6) == 15;
    assert BodyEnd(s, 5) == 15;
  }

  lemma CheckGllEmptyBody1(s: string)
    requires |s| == 18 && s[1] == 'G' && s[2] == 'P' && s[3] == 'G' && s[4] == 'L'
      && BodyEnd(s, 5) == 15
    ensures BodyEnd(s, 1) == 15
  {
    assert BodyEnd(s, 5) == 15;
    assert BodyEnd(s, 4) == 15;
    assert BodyEnd(s, 3) == 15;
    assert BodyEnd(s, 2) == 15;
    assert BodyEnd(s, 1) == 15;
  }

  lemma CheckGllEmptySum0(s: string)
    requires |s| == 18 && s[5] == 'L' && s[6] == ',' && s[7] == ',' && s[8] == ','
      && s[9] == ',' && s[10] == ',' && s[11] == ',' && s[12] == 'V' && s[13] == ','
      && s[14] == 'N'
    ensures XorRange(s, 5, 15) == 0x78
  {
    assert XorRange(s, 15, 15) == 0;
    assert XorRange(s, 14, 15) == 0x4E;
    assert XorRange(s, 13, 15) == 0x62;
    assert XorRange(s, 12, 15) == 0x34;
    assert XorRange(s, 11, 15) == 0x18;
    assert XorRange(s, 10, 15) == 0x34;
    assert XorRange(s, 9, 15) == 0x18;
    assert XorRange(s, 8, 15) == 0x34;
    assert XorRange(s, 7, 15) == 0x18;
    assert XorRange(s, 6, 15) == 0x34;
  }

  lemma CheckGllEmptySum1(s: string)
    requires |s| == 18 && s[1] == 'G' && s[2] == 'P' && s[3] == 'G' && s[4] == 'L'
    ensures XorRange(s, 1, 5) == 0x1C
  {
    assert XorRange(s, 5, 5) == 0;
    assert XorRange(s, 4, 5) == 0x4C;
    assert XorRange(s, 3, 5) == 0x0B;
    assert XorRange(s, 2, 5) == 0x5B;
  }

  /** Accepted. */
  lemma CheckGllEmpty(s: string)
    requires s == "$GPGLL,,,,,,V,N*64"
    ensures Check(s)
  {
    CheckGllEmptyLength(s);
    CheckGllEmptyChars0(s);
    CheckGllEmptyChars1(s);
    CheckGllEmptyChars2(s);
    CheckGllEmptyChars3(s);
    CheckGllEmptyBody0(s);
    CheckGllEmptyBody1(s);
    CheckGllEmptySum0(s);
    CheckGllEmptySum1(s);
    XorRangeSplit(s, 1, 5, 15);
    assert XorRange(s, 1, 15) == 0x64;
    assert s[15..] == "*64";
  }

  lemma CheckRmcSentencePieces(s: string, p0: string, p1: string, p2: string)
    requires s == "$GPRMC,081836.75,A,3751.65,S,14507.36,E,000.0,360.0,130998,011.3,E"
    requires p0 == "$GPRMC,081836.75,A,3751." && p1 == "65,S,14507.36,E,000.0,36"
      && p2 == "0.0,130998,011.3,E"
    ensures s == p0 + p1 + p2
  {
  }

  lemma CheckRmcSentenceLength(s: string, p0: string, p1: string, p2: string)
    requires p0 == "$GPRMC,081836.75,A,3751." && p1 == "65,S,14507.36,E,000.0,36"
      && p2 == "0.0,130998,011.3,E"
    requires s == p0 + p1 + p2
    ensures |s| == 66
  {
  }

  lemma CheckRmcSentenceChars0(s: string, p0: string, p1: string, p2: string)
    requires p0 == "$GPRMC,081836.75,A,3751." && p1 == "65,S,14507.36,E,000.0,36"
      && p2 == "0.0,130998,011.3,E"
    requires s == p0 + p1 + p2
    ensures s[0] == '$' && s[1] == 'G' && s[2] == 'P' && s[3] == 'R' && s[4] == 'M'
  {
  }

  lemma CheckRmcSentenceChars1(s: string, p0: string, p1: string, p2: string)
    requires p0 == "$GPRMC,081836.75,A,3751." && p1 == "65,S,14507.36,E,000.0,36"
      && p2 == "0.0,130998,011.3,E"
    requires s == p0 + p1 + p2
    ensures s[5] == 'C' && s[6] == ',' && s[7] == '0' && s[8] == '8' && s[9] == '1'
  {
  }

  lemma CheckRmcSentenceChars2(s: string, p0: string, p1: string, p2: string)
    requires p0 == "$GPRMC,081836.75,A,3751." && p1 == "65,S,14507.36,E,000.0,36"
      && p2 == "0.0,130998,011.3,E"
    requires s == p0 + p1 + p2
    ensures s[10] == '8' && s[11] == '3' && s[12] == '6' && s[13] == '.' && s[14] == '7'
  {
  }

  lemma CheckRmcSentenceChars3(s: string, p0: string, p1: string, p2: string)
    requires p0 == "$GPRMC,081836.75,A,3751." && p1 == "65,S,14507.36,E,000.0,36"
      && p2 == "0.0,130998,011.3,E"
    requires s == p0 + p1 + p2
    ensures s[15] == '5' && s[16] == ',' && s[17] == 'A' && s[18] == ',' && s[19] == '3'
  {
  }

  lemma CheckRmcSentenceChars4(s: string, p0: string, p1: string, p2: string)
    requires p0 == "$GPRMC,081836.75,A,3751." && p1 == "65,S,14507.36,E,000.0,36"
      && p2 == "0.0,130998,011.3,E"
    requires s == p0 + p1 + p2
    ensures s[20] == '7' && s[21] == '5' && s[22] == '1' && s[23] == '.' && s[24] == '6'
  {
  }

  lemma CheckRmcSentenceChars5(s: string, p0: string, p1: string, p2: string)
    requires p0 == "$GPRMC,081836.75,A,3751." && p1 == "65,S,14507.36,E,000.0,36"
      && p2 == "0.0,130998,011.3,E"
    requires s == p0 + p1 + p2
    ensures s[25] == '5' && s[26] == ',' && s[27] == 'S' && s[28] == ',' && s[29] == '1'
  {
  }

  lemma CheckRmcSentenceChars6(s: string, p0: string, p1: string, p2: string)
    requires p0 == "$GPRMC,081836.75,A,3751." && p1 == "65,S,14507.36,E,000.0,36"
      && p2 == "0.0,130998,011.3,E"
    requires s == p0 + p1 + p2
    ensures s[30] == '4' && s[31] == '5' && s[32] == '0' && s[33] == '7' && s[34] == '.'
  {
  }

  lemma CheckRmcSentenceChars7(s: string, p0: string, p1: string, p2: string)
    requires p0 == "$GPRMC,081836.75,A,3751." && p1 == "65,S,14507.36,E,000.0,36"
      && p2 == "0.0,130998,011.3,E"
    requires s == p0 + p1 + p2
    ensures s[35] == '3' && s[36] == '6' && s[37] == ',' && s[38] == 'E' && s[39] == ','
  {
  }

  lemma CheckRmcSentenceChars8(s: string, p0: string, p1: string, p2: string)
    requires p0 == "$GPRMC,081836.75,A,3751." && p1 == "65,S,14507.36,E,000.0,36"
      && p2 == "0.0,130998,011.3,E"
    requires s == p0 + p1 + p2
    ensures s[40] == '0' && s[41] == '0' && s[42] == '0' && s[43] == '.' && s[44] == '0'
  {
  }

  lemma CheckRmcSentenceChars9(s: string, p0: string, p1: string, p2: string)
    requires p0 == "$GPRMC,081836.75,A,3751." && p1 == "65,S,14507.36,E,000.0,36"
      && p2 == "0.0,130998,011.3,E"
    requires s == p0 + p1 + p2
    ensures s[45] == ',' && s[46] == '3' && s[47] == '6' && s[48] == '0' && s[49] == '.'
  {
  }

  lemma CheckRmcSentenceChars10(s: string, p0: string, p1: string, p2: string)
    requires p0 == "$GPRMC,081836.75,A,3751." && p1 == "65,S,14507.36,E,000.0,36"
      && p2 == "0.0,130998,011.3,E"
    requires s == p0 + p1 + p2
    ensures s[50] == '0' && s[51] == ',' && s[52] == '1' && s[53] == '3' && s[54] == '0'
  {
  }

  lemma CheckRmcSentenceChars11(s: string, p0: string, p1: string, p2: string)
    requires p0 == "$GPRMC,081836.75,A,3751." && p1 == "65,S,14507.36,E,000.0,36"
      && p2 == "0.0,130998,011.3,E"
    requires s == p0 + p1 + p2
    ensures s[55] == '9' && s[56] == '9' && s[57] == '8' && s[58] == ',' && s[59] == '0'
  {
  }

  lemma CheckRmcSentenceChars12(s: string, p0: string, p1: string, p2: string)
    requires p0 == "$GPRMC,081836.75,A,3751." && p1 == "65,S,14507.36,E,000.0,36"
      && p2 == "0.0,130998,011.3,E"
    requires s == p0 + p1 + p2
    ensures s[60] == '1' && s[61] == '1' && s[62] == '.' && s[63] == '3' && s[64] == ','
  {
  }

  lemma CheckRmcSentenceChars13(s: string, p0: string, p1: string, p2: string)
    requires p0 == "$GPRMC,081836.75,A,3751." && p1 == "65,S,14507.36,E,000.0,36"
      && p2 == "0.0,130998,011.3,E"
    requires s == p0 + p1 + p2
    ensures s[65] == 'E'
  {
  }

  lemma CheckRmcSentenceBody0(s: string)
    requires |s| == 66 && s[56] == '9' && s[57] == '8' && s[58] == ',' && s[59] == '0'
      && s[60] == '1' && s[61] == '1' && s[62] == '.' && s[63] == '3' && s[64] == ','
      && s[65] == 'E'
    ensures BodyEnd(s, 56) == 66
  {
    assert BodyEnd(s, 66) == 66;
    assert BodyEnd(s, 65) == 66;
    assert BodyEnd(s, 64) == 66;
    assert BodyEnd(s, 63) == 66;
    assert BodyEnd(s, 62) == 66;
    assert BodyEnd(s, 61) == 66;
    assert BodyEnd(s, 60) == 66;
    assert BodyEnd(s, 59) == 66;
    assert BodyEnd(s, 58) == 66;
    assert BodyEnd(s, 57) == 66;
    assert BodyEnd(s, 56) == 66;
  }

  lemma CheckRmcSentenceBody1(s: string)
    requires |s| == 66 && s[46] == '3' && s[47] == '6' && s[48] == '0' && s[49] == '.'
      && s[50] == '0' && s[51] == ',' && s[52] == '1' && s[53] == '3' && s[54] == '0'
      && s[55] == '9' && BodyEnd(s, 56) == 66
    ensures BodyEnd(s, 46) == 66
  {
    assert BodyEnd(s, 56) == 66;
    assert BodyEnd(s, 55) == 66;
    assert BodyEnd(s, 54) == 66;
    assert BodyEnd(s, 53) == 66;
    assert BodyEnd(s, 52) == 66;
    assert BodyEnd(s, 51) == 66;
    assert BodyEnd(s, 50) == 66;
    assert BodyEnd(s, 49) == 66;
    assert BodyEnd(s, 48) == 66;
    assert BodyEnd(s, 47) == 66;
    assert BodyEnd(s, 46) == 66;
  }

  lemma CheckRmcSentenceBody2(s: string)
    requires |s| == 66 && s[36] == '6' && s[37] == ',' && s[38] == 'E' && s[39] == ','
      && s[40] == '0' && s[41] == '0' && s[42] == '0' && s[43] == '.' && s[44] == '0'
      && s[45] == ',' && BodyEnd(s, 46) == 66
    ensures BodyEnd(s, 36) == 66
  {
    assert BodyEnd(s, 46) == 66;
    assert BodyEnd(s, 45) == 66;
    assert BodyEnd(s, 44) == 66;
    assert BodyEnd(s, 43) == 66;
    assert BodyEnd(s, 42) == 66;
    assert BodyEnd(s, 41) == 66;
    assert BodyEnd(s, 40) == 66;
    assert BodyEnd(s, 39) == 66;
    assert BodyEnd(s, 38) == 66;
    assert BodyEnd(s, 37) == 66;
    assert BodyEnd(s, 36) == 66;
  }

  lemma CheckRmcSentenceBody3(s: string)
    requires |s| == 66 && s[26] == ',' && s[27] == 'S' && s[28] == ',' && s[29] == '1'
      && s[30] == '4' && s[31] == '5' && s[32] == '0' && s[33] == '7' && s[34] == '.'
      && s[35] == '3' && BodyEnd(s, 36) == 66
    ensures BodyEnd(s, 26) == 66
  {
    assert BodyEnd(s, 36) == 66;
    assert BodyEnd(s, 35) == 66;
    assert BodyEnd(s, 34) == 66;
    assert BodyEnd(s, 33) == 66;
    assert BodyEnd(s, 32) == 66;
    assert BodyEnd(s, 31) == 66;
    assert BodyEnd(s, 30) == 66;
    assert BodyEnd(s, 29) == 66;
    assert BodyEnd(s, 28) == 66;
    assert BodyEnd(s, 27) == 66;
    assert BodyEnd(s, 26) == 66;
  }

  lemma CheckRmcSentenceBody4(s: string)
    requires |s| == 66 && s[16] == ',' && s[17] == 'A' && s[18] == ',' && s[19] == '3'
      && s[20] == '7' && s[21] == '5' && s[22] == '1' && s[23] == '.' && s[24] == '6'
      && s[25] == '5' && BodyEnd(s, 26) == 66
    ensures BodyEnd(s, 16) == 66
  {
    assert BodyEnd(s, 26) == 66;
    assert BodyEnd(s, 25) == 66;
    assert BodyEnd(s, 24) == 66;
    assert BodyEnd(s, 23) == 66;
    assert BodyEnd(s, 22) == 66;
    assert BodyEnd(s, 21) == 66;
    assert BodyEnd(s, 20) == 66;
    assert BodyEnd(s, 19) == 66;
    assert BodyEnd(s, 18) == 66;
    assert BodyEnd(s, 17) == 66;
    assert BodyEnd(s, 16) == 66;
  }

  lemma CheckRmcSentenceBody5(s: string)
    requires |s| == 66 && s[6] == ',' && s[7] == '0' && s[8] == '8' && s[9] == '1'
      && s[10] == '8' && s[11] == '3' && s[12] == '6' && s[13] == '.' && s[14] == '7'
      && s[15] == '5' && BodyEnd(s, 16) == 66
    ensures BodyEnd(s, 6) == 66
  {
    assert BodyEnd(s, 16) == 66;
    assert BodyEnd(s, 15) == 66;
    assert BodyEnd(s, 14) == 66;
    assert BodyEnd(s, 13) == 66;
    assert BodyEnd(s, 12) == 66;
    assert BodyEnd(s, 11) == 66;
    assert BodyEnd(s, 10) == 66;
    assert BodyEnd(s, 9) == 66;
    assert BodyEnd(s, 8) == 66;
    assert BodyEnd(s, 7) == 66;
    assert BodyEnd(s, 6) == 66;
  }

  lemma CheckRmcSentenceBody6(s: string)
    requires |s| == 66 && s[1] == 'G' && s[2] == 'P' && s[3] == 'R' && s[4] == 'M'
      && s[5] == 'C' && BodyEnd(s, 6) == 66
    ensures BodyEnd(s, 1) == 66
  {
    assert BodyEnd(s, 6) == 66;
    assert BodyEnd(s, 5) == 66;
    assert BodyEnd(s, 4) == 66;
    assert BodyEnd(s, 3) == 66;
    assert BodyEnd(s, 2) == 66;
    assert BodyEnd(s, 1) == 66;
  }

  /** tests.c:259-282: accepted without a checksum. */
  lemma CheckRmcSentence(s: string)
    requires s == "$GPRMC,081836.75,A,3751.65,S,14507.36,E,000.0,360.0,130998,011.3,E"
    ensures Check(s)
  {
    var p0, p1, p2 := "$GPRMC,081836.75,A,3751.", "65,S,14507.36,E,000.0,36", "0.0,130998,011.3,E";
    CheckRmcSentencePieces(s, p0, p1, p2);
    CheckRmcSentenceLength(s, p0, p1, p2);
    CheckRmcSentenceChars0(s, p0, p1, p2);
    CheckRmcSentenceChars1(s, p0, p1, p2);
    CheckRmcSentenceChars2(s, p0, p1, p2);
    CheckRmcSentenceChars3(s, p0, p1, p2);
    CheckRmcSentenceChars4(s, p0, p1, p2);
    CheckRmcSentenceChars5(s, p0, p1, p2);
    CheckRmcSentenceChars6(s, p0, p1, p2);
    CheckRmcSentenceChars7(s, p0, p1, p2);
    CheckRmcSentenceChars8(s, p0, p1, p2);
    CheckRmcSentenceChars9(s, p0, p1, p2);
    CheckRmcSentenceChars10(s, p0, p1, p2);
    CheckRmcSentenceChars11(s, p0, p1, p2);
    CheckRmcSentenceChars12(s, p0, p1, p2);
    CheckRmcSentenceChars13(s, p0, p1, p2);
    CheckRmcSentenceBody0(s);
    CheckRmcSentenceBody1(s);
    CheckRmcSentenceBody2(s);
    CheckRmcSentenceBody3(s);
    CheckRmcSentenceBody4(s);
    CheckRmcSentenceBody5(s);
    CheckRmcSentenceBody6(s);
    assert s[66..] == "";
  }

  lemma CheckRmcSparseLength(s: string)
    requires s == "$GPRMC,,A,3751.65,N,14507.36,W,,,,,"
    ensures |s| == 35
  {
  }

  lemma CheckRmcSparseChars0(s: string)
    requires s == "$GPRMC,,A,3751.65,N,14507.36,W,,,,,"
    ensures s[0] == '$' && s[1] == 'G' && s[2] == 'P' && s[3] == 'R' && s[4] == 'M'
  {
  }

  lemma CheckRmcSparseChars1(s: string)
    requires s == "$GPRMC,,A,3751.65,N,14507.36,W,,,,,"
    ensures s[5] == 'C' && s[6] == ',' && s[7] == ',' && s[8] == 'A' && s[9] == ','
  {
  }

  lemma CheckRmcSparseChars2(s: string)
    requires s == "$GPRMC,,A,3751.65,N,14507.36,W,,,,,"
    ensures s[10] == '3' && s[11] == '7' && s[12] == '5' && s[13] == '1' && s[14] == '.'
  {
  }

  lemma CheckRmcSparseChars3(s: string)
    requires s == "$GPRMC,,A,3751.65,N,14507.36,W,,,,,"
    ensures s[15] == '6' && s[16] == '5' && s[17] == ',' && s[18] == 'N' && s[19] == ','
  {
  }

  lemma CheckRmcSparseChars4(s: string)
    requires s == "$GPRMC,,A,3751.65,N,14507.36,W,,,,,"
    ensures s[20] == '1' && s[21] == '4' && s[22] == '5' && s[23] == '0' && s[24] == '7'
  {
  }

  lemma CheckRmcSparseChars5(s: string)
    requires s == "$GPRMC,,A,3751.65,N,14507.36,W,,,,,"
    ensures s[25] == '.' && s[26] == '3' && s[27] == '6' && s[28] == ',' && s[29] == 'W'
  {
  }

  lemma CheckRmcSparseChars6(s: string)
    requires s == "$GPRMC,,A,3751.65,N,14507.36,W,,,,,"
    ensures s[30] == ',' && s[31] == ',' && s[32] == ',' && s[33] == ',' && s[34] == ','
  {
  }

  lemma CheckRmcSparseBody0(s: string)
    requires |s| == 35 && s[25] == '.' && s[26] == '3' && s[27] == '6' && s[28] == ','
      && s[29] == 'W' && s[30] == ',' && s[31] == ',' && s[32] == ',' && s[33] == ','
      && s[34] == ','
    ensures BodyEnd(s, 25) == 35
  {
    assert BodyEnd(s, 35) == 35;
    assert BodyEnd(s, 34) == 35;
    assert BodyEnd(s, 33) == 35;
    assert BodyEnd(s, 32) == 35;
    assert BodyEnd(s, 31) == 35;
    assert BodyEnd(s, 30) == 35;
    assert BodyEnd(s, 29) == 35;
    assert BodyEnd(s, 28) == 35;
    assert BodyEnd(s, 27) == 35;
    assert BodyEnd(s, 26) == 35;
    assert BodyEnd(s, 25) == 35;
  }

  lemma CheckRmcSparseBody1(s: string)
    requires |s| == 35 && s[15] == '6' && s[16] == '5' && s[17] == ',' && s[18] == 'N'
      && s[19] == ',' && s[20] == '1' && s[21] == '4' && s[22] == '5' && s[23] == '0'
      && s[24] == '7' && BodyEnd(s, 25) == 35
    ensures BodyEnd(s, 15) == 35
  {
    assert BodyEnd(s, 25) == 35;
    assert BodyEnd(s, 24) == 35;
    assert BodyEnd(s, 23) == 35;
    assert BodyEnd(s, 22) == 35;
    assert BodyEnd(s, 21) == 35;
    assert BodyEnd(s, 20) == 35;
    assert BodyEnd(s, 19) == 35;
    assert BodyEnd(s, 18) == 35;
    assert BodyEnd(s, 17) == 35;
    assert BodyEnd(s, 16) == 35;
    assert BodyEnd(s, 15) == 35;
  }

  lemma CheckRmcSparseBody2(s: string)
    requires |s| == 35 && s[5] == 'C' && s[6] == ',' && s[7] == ',' && s[8] == 'A'
      && s[9] == ',' && s[10] == '3' && s[11] == '7' && s[12] == '5' && s[13] == '1'
      && s[14] == '.' && BodyEnd(s, 15) == 35
    ensures BodyEnd(s, 5) == 35
  {
    assert BodyEnd(s, 15) == 35;
    assert BodyEnd(s, 14) == 35;
    assert BodyEnd(s, 13) == 35;
    assert BodyEnd(s, 12) == 35;
    assert BodyEnd(s, 11) == 35;
    assert BodyEnd(s, 10) == 35;
    assert BodyEnd(s, 9) == 35;
    assert BodyEnd(s, 8) == 35;
    assert BodyEnd(s, 7) == 35;
    assert BodyEnd(s, 6) == 35;
    assert BodyEnd(s, 5) == 35;
  }

  lemma CheckRmcSparseBody3(s: string)
    requires |s| == 35 && s[1] == 'G' && s[2] == 'P' && s[3] == 'R' && s[4] == 'M'
      && BodyEnd(s, 5) == 35
    ensures BodyEnd(s, 1) == 35
  {
    assert BodyEnd(s, 5) == 35;
    assert BodyEnd(s, 4) == 35;
    assert BodyEnd(s, 3) == 35;
    assert BodyEnd(s, 2) == 35;
    assert BodyEnd(s, 1) == 35;
  }

  /** tests.c:284-301: accepted without a checksum. */
  lemma CheckRmcSparse(s: string)
    requires s == "$GPRMC,,A,3751.65,N,14507.36,W,,,,,"
    ensures Check(s)
  {
    CheckRmcSparseLength(s);
    CheckRmcSparseChars0(s);
    CheckRmcSparseChars1(s);
    CheckRmcSparseChars2(s);
    CheckRmcSparseChars3(s);
    CheckRmcSparseChars4(s);
    CheckRmcSparseChars5(s);
    CheckRmcSparseChars6(s);
    CheckRmcSparseBody0(s);
    CheckRmcSparseBody1(s);
    CheckRmcSparseBody2(s);
    CheckRmcSparseBody3(s);
    assert s[35..] == "";
  }

  lemma CheckGgaSentencePieces(s: string, p0: string, p1: string, p2: string)
    requires s == "$GPGGA,123519,4807.038,N,01131.000,E,1,08,0.9,545.4,M,46.9,M,,*47"
    requires p0 == "$GPGGA,123519,4807.038,N" && p1 == ",01131.000,E,1,08,0.9,54"
      && p2 == "5.4,M,46.9,M,,*47"
    ensures s == p0 + p1 + p2
  {
  }

  lemma CheckGgaSentenceLength(s: string, p0: string, p1: string, p2: string)
    requires p0 == "$GPGGA,123519,4807.038,N" && p1 == ",01131.000,E,1,08,0.9,54"
      && p2 == "5.4,M,46.9,M,,*47"
    requires s == p0 + p1 + p2
    ensures |s| == 65
  {
  }

  lemma CheckGgaSentenceChars0(s: string, p0: string, p1: string, p2: string)
    requires p0 == "$GPGGA,123519,4807.038,N" && p1 == ",01131.000,E,1,08,0.9,54"
      && p2 == "5.4,M,46.9,M,,*47"
    requires s == p0 + p1 + p2
    ensures s[0] == '$' && s[1] == 'G' && s[2] == 'P' && s[3] == 'G' && s[4] == 'G'
  {
  }

  lemma CheckGgaSentenceChars1(s: string, p0: string, p1: string, p2: string)
    requires p0 == "$GPGGA,123519,4807.038,N" && p1 == ",01131.000,E,1,08,0.9,54"
      && p2 == "5.4,M,46.9,M,,*47"
    requires s == p0 + p1 + p2
    ensures s[5] == 'A' && s[6] == ',' && s[7] == '1' && s[8] == '2' && s[9] == '3'
  {
  }

  lemma CheckGgaSentenceChars2(s: string, p0: string, p1: string, p2: string)
    requires p0 == "$GPGGA,123519,4807.038,N" && p1 == ",01131.000,E,1,08,0.9,54"
      && p2 == "5.4,M,46.9,M,,*47"
    requires s == p0 + p1 + p2
    ensures s[10] == '5' && s[11] == '1' && s[12] == '9' && s[13] == ',' && s[14] == '4'
  {
  }

  lemma CheckGgaSentenceChars3(s: string, p0: string, p1: string, p2: string)
    requires p0 == "$GPGGA,123519,4807.038,N" && p1 == ",01131.000,E,1,08,0.9,54"
      && p2 == "5.4,M,46.9,M,,*47"
    requires s == p0 + p1 + p2
    ensures s[15] == '8' && s[16] == '0' && s[17] == '7' && s[18] == '.' && s[19] == '0'
  {
  }

  lemma CheckGgaSentenceChars4(s: string, p0: string, p1: string, p2: string)
    requires p0 == "$GPGGA,123519,4807.038,N" && p1 == ",01131.000,E,1,08,0.9,54"
      && p2 == "5.4,M,46.9,M,,*47"
    requires s == p0 + p1 + p2
    ensures s[20] == '3' && s[21] == '8' && s[22] == ',' && s[23] == 'N' && s[24] == ','
  {
  }

  lemma CheckGgaSentenceChars5(s: string, p0: string, p1: string, p2: string)
    requires p0 == "$GPGGA,123519,4807.038,N" && p1 == ",01131.000,E,1,08,0.9,54"
      && p2 == "5.4,M,46.9,M,,*47"
    requires s == p0 + p1 + p2
    ensures s[25] == '0' && s[26] == '1' && s[27] == '1' && s[28] == '3' && s[29] == '1'
  {
  }

  lemma CheckGgaSentenceChars6(s: string, p0: string, p1: string, p2: string)
    requires p0 == "$GPGGA,123519,4807.038,N" && p1 == ",01131.000,E,1,08,0.9,54"
      && p2 == "5.4,M,46.9,M,,*47"
    requires s == p0 + p1 + p2
    ensures s[30] == '.' && s[31] == '0' && s[32] == '0' && s[33] == '0' && s[34] == ','
  {
  }

  lemma CheckGgaSentenceChars7(s: string, p0: string, p1: string, p2: string)
    requires p0 == "$GPGGA,123519,4807.038,N" && p1 == ",01131.000,E,1,08,0.9,54"
      && p2 == "5.4,M,46.9,M,,*47"
    requires s == p0 + p1 + p2
    ensures s[35] == 'E' && s[36] == ',' && s[37] == '1' && s[38] == ',' && s[39] == '0'
  {
  }

  lemma CheckGgaSentenceChars8(s: string, p0: string, p1: string, p2: string)
    requires p0 == "$GPGGA,123519,4807.038,N" && p1 == ",01131.000,E,1,08,0.9,54"
      && p2 == "5.4,M,46.9,M,,*47"
    requires s == p0 + p1 + p2
    ensures s[40] == '8' && s[41] == ',' && s[42] == '0' && s[43] == '.' && s[44] == '9'
  {
  }

  lemma CheckGgaSentenceChars9(s: string, p0: string, p1: string, p2: string)
    requires p0 == "$GPGGA,123519,4807.038,N" && p1 == ",01131.000,E,1,08,0.9,54"
      && p2 == "5.4,M,46.9,M,,*47"
    requires s == p0 + p1 + p2
    ensures s[45] == ',' && s[46] == '5' && s[47] == '4' && s[48] == '5' && s[49] == '.'
  {
  }

  lemma CheckGgaSentenceChars10(s: string, p0: string, p1: string, p2: string)
    requires p0 == "$GPGGA,123519,4807.038,N" && p1 == ",01131.000,E,1,08,0.9,54"
      && p2 == "5.4,M,46.9,M,,*47"
    requires s == p0 + p1 + p2
    ensures s[50] == '4' && s[51] == ',' && s[52] == 'M' && s[53] == ',' && s[54] == '4'
  {
  }

  lemma CheckGgaSentenceChars11(s: string, p0: string, p1: string, p2: string)
    requires p0 == "$GPGGA,123519,4807.038,N" && p1 == ",01131.000,E,1,08,0.9,54"
      && p2 == "5.4,M,46.9,M,,*47"
    requires s == p0 + p1 + p2
    ensures s[55] == '6' && s[56] == '.' && s[57] == '9' && s[58] == ',' && s[59] == 'M'
  {
  }

  lemma CheckGgaSentenceChars12(s: string, p0: string, p1: string, p2: string)
    requires p0 == "$GPGGA,123519,4807.038,N" && p1 == ",01131.000,E,1,08,0.9,54"
      && p2 == "5.4,M,46.9,M,,*47"
    requires s == p0 + p1 + p2
    ensures s[60] == ',' && s[61] == ',' && s[62] == '*' && s[63] == '4' && s[64] == '7'
  {
  }

  lemma CheckGgaSentenceBody0(s: string)
    requires |s| == 65 && s[52] == 'M' && s[53] == ',' && s[54] == '4' && s[55] == '6'
      && s[56] == '.' && s[57] == '9' && s[58] == ',' && s[59] == 'M' && s[60] == ','
      && s[61] == ',' && s[62] == '*'
    ensures BodyEnd(s, 52) == 62
  {
    assert BodyEnd(s, 62) == 62;
    assert BodyEnd(s, 61) == 62;
    assert BodyEnd(s, 60) == 62;
    assert BodyEnd(s, 59) == 62;
    assert BodyEnd(s, 58) == 62;
    assert BodyEnd(s, 57) == 62;
    assert BodyEnd(s, 56) == 62;
    assert BodyEnd(s, 55) == 62;
    assert BodyEnd(s, 54) == 62;
    assert BodyEnd(s, 53) == 62;
    assert BodyEnd(s, 52) == 62;
  }

  lemma CheckGgaSentenceBody1(s: string)
    requires |s| == 65 && s[42] == '0' && s[43] == '.' && s[44] == '9' && s[45] == ','
      && s[46] == '5' && s[47] == '4' && s[48] == '5' && s[49] == '.' && s[50] == '4'
      && s[51] == ',' && BodyEnd(s, 52) == 62
    ensures BodyEnd(s, 42) == 62
  {
    assert BodyEnd(s, 52) == 62;
    assert BodyEnd(s, 51) == 62;
    assert BodyEnd(s, 50) == 62;
    assert BodyEnd(s, 49) == 62;
    assert BodyEnd(s, 48) == 62;
    assert BodyEnd(s, 47) == 62;
    assert BodyEnd(s, 46) == 62;
    assert BodyEnd(s, 45) == 62;
    assert BodyEnd(s, 44) == 62;
    assert BodyEnd(s, 43) == 62;
    assert BodyEnd(s, 42) == 62;
  }

  lemma CheckGgaSentenceBody2(s: string)
    requires |s| == 65 && s[32] == '0' && s[33] == '0' && s[34] == ',' && s[35] == 'E'
      && s[36] == ',' && s[37] == '1' && s[38] == ',' && s[39] == '0' && s[40] == '8'
      && s[41] == ',' && BodyEnd(s, 42) == 62
    ensures BodyEnd(s, 32) == 62
  {
    assert BodyEnd(s, 42) == 62;
    assert BodyEnd(s, 41) == 62;
    assert BodyEnd(s, 40) == 62;
    assert BodyEnd(s, 39) == 62;
    assert BodyEnd(s, 38) == 62;
    assert BodyEnd(s, 37) == 62;
    assert BodyEnd(s, 36) == 62;
    assert BodyEnd(s, 35) == 62;
    assert BodyEnd(s, 34) == 62;
    assert BodyEnd(s, 33) == 62;
    assert BodyEnd(s, 32) == 62;
  }

  lemma CheckGgaSentenceBody3(s: string)
    requires |s| == 65 && s[22] == ',' && s[23] == 'N' && s[24] == ',' && s[25] == '0'
      && s[26] == '1' && s[27] == '1' && s[28] == '3' && s[29] == '1' && s[30] == '.'
      && s[31] == '0' && BodyEnd(s, 32) == 62
    ensures BodyEnd(s, 22) == 62
  {
    assert BodyEnd(s, 32) == 62;
    assert BodyEnd(s, 31) == 62;
    assert BodyEnd(s, 30) == 62;
    assert BodyEnd(s, 29) == 62;
    assert BodyEnd(s, 28) == 62;
    assert BodyEnd(s, 27) == 62;
    assert BodyEnd(s, 26) == 62;
    assert BodyEnd(s, 25) == 62;
    assert BodyEnd(s, 24) == 62;
    assert BodyEnd(s, 23) == 62;
    assert BodyEnd(s, 22) == 62;
  }

  lemma CheckGgaSentenceBody4(s: string)
    requires |s| == 65 && s[12] == '9' && s[13] == ',' && s[14] == '4' && s[15] == '8'
      && s[16] == '0' && s[17] == '7' && s[18] == '.' && s[19] == '0' && s[20] == '3'
      && s[21] == '8' && BodyEnd(s, 22) == 62
    ensures BodyEnd(s, 12) == 62
  {
    assert BodyEnd(s, 22) == 62;
    assert BodyEnd(s, 21) == 62;
    assert BodyEnd(s, 20) == 62;
    assert BodyEnd(s, 19) == 62;
    assert BodyEnd(s, 18) == 62;
    assert BodyEnd(s, 17) == 62;
    assert BodyEnd(s, 16) == 62;
    assert BodyEnd(s, 15) == 62;
    assert BodyEnd(s, 14) == 62;
    assert BodyEnd(s, 13) == 62;
    assert BodyEnd(s, 12) == 62;
  }

  lemma CheckGgaSentenceBody5(s: string)
    requires |s| == 65 && s[2] == 'P' && s[3] == 'G' && s[4] == 'G' && s[5] == 'A'
      && s[6] == ',' && s[7] == '1' && s[8] == '2' && s[9] == '3' && s[10] == '5'
      && s[11] == '1' && BodyEnd(s, 12) == 62
    ensures BodyEnd(s, 2) == 62
  {
    assert BodyEnd(s, 12) == 62;
    assert BodyEnd(s, 11) == 62;
    assert BodyEnd(s, 10) == 62;
    assert BodyEnd(s, 9) == 62;
    assert BodyEnd(s, 8) == 62;
    assert BodyEnd(s, 7) == 62;
    assert BodyEnd(s, 6) == 62;
    assert BodyEnd(s, 5) == 62;
    assert BodyEnd(s, 4) == 62;
    assert BodyEnd(s, 3) == 62;
    assert BodyEnd(s, 2) == 62;
  }

  lemma CheckGgaSentenceBody6(s: string)
    requires |s| == 65 && s[1] == 'G' && BodyEnd(s, 2) == 62
    ensures BodyEnd(s, 1) == 62
  {
    assert BodyEnd(s, 2) == 62;
    assert BodyEnd(s, 1) == 62;
  }

  lemma CheckGgaSentenceSum0(s: string)
    requires |s| == 65 && s[52] == 'M' && s[53] == ',' && s[54] == '4' && s[55] == '6'
      && s[56] == '.' && s[57] == '9' && s[58] == ',' && s[59] == 'M' && s[60] == ','
      && s[61] == ','
    ensures XorRange(s, 52, 62) == 0x15
  {
    assert XorRange(s, 62, 62) == 0;
    assert XorRange(s, 61, 62) == 0x2C;
    assert XorRange(s, 60, 62) == 0x00;
    assert XorRange(s, 59, 62) == 0x4D;
    assert XorRange(s, 58, 62) == 0x61;
    assert XorRange(s, 57, 62) == 0x58;
    assert XorRange(s, 56, 62) == 0x76;
    assert XorRange(s, 55, 62) == 0x40;
    assert XorRange(s, 54, 62) == 0x74;
    assert XorRange(s, 53, 62) == 0x58;
  }

  lemma CheckGgaSentenceSum1(s: string)
    requires |s| == 65 && s[42] == '0' && s[43] == '.' && s[44] == '9' && s[45] == ','
      && s[46] == '5' && s[47] == '4' && s[48] == '5' && s[49] == '.' && s[50] == '4'
      && s[51] == ','
    ensures XorRange(s, 42, 52) == 0x09
  {
    assert XorRange(s, 52, 52) == 0;
    assert XorRange(s, 51, 52) == 0x2C;
    assert XorRange(s, 50, 52) == 0x18;
    assert XorRange(s, 49, 52) == 0x36;
    assert XorRange(s, 48, 52) == 0x03;
    assert XorRange(s, 47, 52) == 0x37;
    assert XorRange(s, 46, 52) == 0x02;
    assert XorRange(s, 45, 52) == 0x2E;
    assert XorRange(s, 44, 52) == 0x17;
    assert XorRange(s, 43, 52) == 0x39;
  }

  lemma CheckGgaSentenceSum2(s: string)
    requires |s| == 65 && s[32] == '0' && s[33] == '0' && s[34] == ',' && s[35] == 'E'
      && s[36] == ',' && s[37] == '1' && s[38] == ',' && s[39] == '0' && s[40] == '8'
      && s[41] == ','
    ensures XorRange(s, 32, 42) == 0x7C
  {
    assert XorRange(s, 42, 42) == 0;
    assert XorRange(s, 41, 42) == 0x2C;
    assert XorRange(s, 40, 42) == 0x14;
    assert XorRange(s, 39, 42) == 0x24;
    assert XorRange(s, 38, 42) == 0x08;
    assert XorRange(s, 37, 42) == 0x39;
    assert XorRange(s, 36, 42) == 0x15;
    assert XorRange(s, 35, 42) == 0x50;
    assert XorRange(s, 34, 42) == 0x7C;
    assert XorRange(s, 33, 42) == 0x4C;
  }

  lemma CheckGgaSentenceSum3(s: string)
    requires |s| == 65 && s[22] == ',' && s[23] == 'N' && s[24] == ',' && s[25] == '0'
      && s[26] == '1' && s[27] == '1' && s[28] == '3' && s[29] == '1' && s[30] == '.'
      && s[31] == '0'
    ensures XorRange(s, 22, 32) == 0x62
  {
    assert XorRange(s, 32, 32) == 0;
    assert XorRange(s, 31, 32) == 0x30;
    assert XorRange(s, 30, 32) == 0x1E;
    assert XorRange(s, 29, 32) == 0x2F;
    assert XorRange(s, 28, 32) == 0x1C;
    assert XorRange(s, 27, 32) == 0x2D;
    assert XorRange(s, 26, 32) == 0x1C;
    assert XorRange(s, 25, 32) == 0x2C;
    assert XorRange(s, 24, 32) == 0x00;
    assert XorRange(s, 23, 32) == 0x4E;
  }

  lemma CheckGgaSentenceSum4(s: string)
    requires |s| == 65 && s[12] == '9' && s[13] == ',' && s[14] == '4' && s[15] == '8'
      && s[16] == '0' && s[17] == '7' && s[18] == '.' && s[19] == '0' && s[20] == '3'
      && s[21] == '8'
    ensures XorRange(s, 12, 22) == 0x0B
  {
    assert XorRange(s, 22, 22) == 0;
    assert XorRange(s, 21, 22) == 0x38;
    assert XorRange(s, 20, 22) == 0x0B;
    assert XorRange(s, 19, 22) == 0x3B;
    assert XorRange(s, 18, 22) == 0x15;
    assert XorRange(s, 17, 22) == 0x22;
    assert XorRange(s, 16, 22) == 0x12;
    assert XorRange(s, 15, 22) == 0x2A;
    assert XorRange(s, 14, 22) == 0x1E;
    assert XorRange(s, 13, 22) == 0x32;
  }

  lemma CheckGgaSentenceSum5(s: string)
    requires |s| == 65 && s[2] == 'P' && s[3] == 'G' && s[4] == 'G' && s[5] == 'A'
      && s[6] == ',' && s[7] == '1' && s[8] == '2' && s[9] == '3' && s[10] == '5'
      && s[11] == '1'
    ensures XorRange(s, 2, 12) == 0x09
  {
    assert XorRange(s, 12, 12) == 0;
    assert XorRange(s, 11, 12) == 0x31;
    assert XorRange(s, 10, 12) == 0x04;
    assert XorRange(s, 9, 12) == 0x37;
    assert XorRange(s, 8, 12) == 0x05;
    assert XorRange(s, 7, 12) == 0x34;
    assert XorRange(s, 6, 12) == 0x18;
    assert XorRange(s, 5, 12) == 0x59;
    assert XorRange(s, 4, 12) == 0x1E;
    assert XorRange(s, 3, 12) == 0x59;
  }

  lemma CheckGgaSentenceSum6(s: string)
    requires |s| == 65 && s[1] == 'G'
    ensures XorRange(s, 1, 2) == 0x47
  {
    assert XorRange(s, 2, 2) == 0;
  }

  /** tests.c:303-329: accepted, 0x47 being the body's exclusive-or. */
  lemma CheckGgaSentence(s: string)
    requires s == "$GPGGA,123519,4807.038,N,01131.000,E,1,08,0.9,545.4,M,46.9,M,,*47"
    ensures Check(s)
  {
    var p0, p1, p2 := "$GPGGA,123519,4807.038,N", ",01131.000,E,1,08,0.9,54", "5.4,M,46.9,M,,*47";
    CheckGgaSentencePieces(s, p0, p1, p2);
    CheckGgaSentenceLength(s, p0, p1, p2);
    CheckGgaSentenceChars0(s, p0, p1, p2);
    CheckGgaSentenceChars1(s, p0, p1, p2);
    CheckGgaSentenceChars2(s, p0, p1, p2);
    CheckGgaSentenceChars3(s, p0, p1, p2);
    CheckGgaSentenceChars4(s, p0, p1, p2);
    CheckGgaSentenceChars5(s, p0, p1, p2);
    CheckGgaSentenceChars6(s, p0, p1, p2);
    CheckGgaSentenceChars7(s, p0, p1, p2);
    CheckGgaSentenceChars8(s, p0, p1, p2);
    CheckGgaSentenceChars9(s, p0, p1, p2);
    CheckGgaSentenceChars10(s, p0, p1, p2);
    CheckGgaSentenceChars11(s, p0, p1, p2);
    CheckGgaSentenceChars12(s, p0, p1, p2);
    CheckGgaSentenceBody0(s);
    CheckGgaSentenceBody1(s);
    CheckGgaSentenceBody2(s);
    CheckGgaSentenceBody3(s);
    CheckGgaSentenceBody4(s);
    CheckGgaSentenceBody5(s);
    CheckGgaSentenceBody6(s);
    CheckGgaSentenceSum0(s);
    CheckGgaSentenceSum1(s);
    XorRangeSplit(s, 42, 52, 62);
    CheckGgaSentenceSum2(s);
    XorRangeSplit(s, 32, 42, 62);
    CheckGgaSentenceSum3(s);
    XorRangeSplit(s, 22, 32, 62);
    CheckGgaSentenceSum4(s);
    XorRangeSplit(s, 12, 22, 62);
    CheckGgaSentenceSum5(s);
    XorRangeSplit(s, 2, 12, 62);
    CheckGgaSentenceSum6(s);
    XorRangeSplit(s, 1, 2, 62);
    assert XorRange(s, 1, 62) == 0x47;
    assert s[62..] == "*47";
  }

  lemma CheckRmcSummedPieces(s: string, p0: string, p1: string, p2: string)
    requires s == "$GPRMC,081836,A,3751.65,S,14507.36,E,000.0,360.0,130998,011.3,E*62"
    requires p0 == "$GPRMC,081836,A,3751.65," && p1 == "S,14507.36,E,000.0,360.0"
      && p2 == ",130998,011.3,E*62"
    ensures s == p0 + p1 + p2
  {
  }

  lemma CheckRmcSummedLength(s: string, p0: string, p1: string, p2: string)
    requires p0 == "$GPRMC,081836,A,3751.65," && p1 == "S,14507.36,E,000.0,360.0"
      && p2 == ",130998,011.3,E*62"
    requires s == p0 + p1 + p2
    ensures |s| == 66
  {
  }

  lemma CheckRmcSummedChars0(s: string, p0: string, p1: string, p2: string)
    requires p0 == "$GPRMC,081836,A,3751.65," && p1 == "S,14507.36,E,000.0,360.0"
      && p2 == ",130998,011.3,E*62"
    requires s == p0 + p1 + p2
    ensures s[0] == '$' && s[1] == 'G' && s[2] == 'P' && s[3] == 'R' && s[4] == 'M'
  {
  }

  lemma CheckRmcSummedChars1(s: string, p0: string, p1: string, p2: string)
    requires p0 == "$GPRMC,081836,A,3751.65," && p1 == "S,14507.36,E,000.0,360.0"
      && p2 == ",130998,011.3,E*62"
    requires s == p0 + p1 + p2
    ensures s[5] == 'C' && s[6] == ',' && s[7] == '0' && s[8] == '8' && s[9] == '1'
  {
  }

  lemma CheckRmcSummedChars2(s: string, p0: string, p1: string, p2: string)
    requires p0 == "$GPRMC,081836,A,3751.65," && p1 == "S,14507.36,E,000.0,360.0"
      && p2 == ",130998,011.3,E*62"
    requires s == p0 + p1 + p2
    ensures s[10] == '8' && s[11] == '3' && s[12] == '6' && s[13] == ',' && s[14] == 'A'
  {
  }

  lemma CheckRmcSummedChars3(s: string, p0: string, p1: string, p2: string)
    requires p0 == "$GPRMC,081836,A,3751.65," && p1 == "S,14507.36,E,000.0,360.0"
      && p2 == ",130998,011.3,E*62"
    requires s == p0 + p1 + p2
    ensures s[15] == ',' && s[16] == '3' && s[17] == '7' && s[18] == '5' && s[19] == '1'
  {
  }

  lemma CheckRmcSummedChars4(s: string, p0: string, p1: string, p2: string)
    requires p0 == "$GPRMC,081836,A,3751.65," && p1 == "S,14507.36,E,000.0,360.0"
      && p2 == ",130998,011.3,E*62"
    requires s == p0 + p1 + p2
    ensures s[20] == '.' && s[21] == '6' && s[22] == '5' && s[23] == ',' && s[24] == 'S'
  {
  }

  lemma CheckRmcSummedChars5(s: string, p0: string, p1: string, p2: string)
    requires p0 == "$GPRMC,081836,A,3751.65," && p1 == "S,14507.36,E,000.0,360.0"
      && p2 == ",130998,011.3,E*62"
    requires s == p0 + p1 + p2
    ensures s[25] == ',' && s[26] == '1' && s[27] == '4' && s[28] == '5' && s[29] == '0'
  {
  }

  lemma CheckRmcSummedChars6(s: string, p0: string, p1: string, p2: string)
    requires p0 == "$GPRMC,081836,A,3751.65," && p1 == "S,14507.36,E,000.0,360.0"
      && p2 == ",130998,011.3,E*62"
    requires s == p0 + p1 + p2
    ensures s[30] == '7' && s[31] == '.' && s[32] == '3' && s[33] == '6' && s[34] == ','
  {
  }

  lemma CheckRmcSummedChars7(s: string, p0: string, p1: string, p2: string)
    requires p0 == "$GPRMC,081836,A,3751.65," && p1 == "S,14507.36,E,000.0,360.0"
      && p2 == ",130998,011.3,E*62"
    requires s == p0 + p1 + p2
    ensures s[35] == 'E' && s[36] == ',' && s[37] == '0' && s[38] == '0' && s[39] == '0'
  {
  }

  lemma CheckRmcSummedChars8(s: string, p0: string, p1: string, p2: string)
    requires p0 == "$GPRMC,081836,A,3751.65," && p1 == "S,14507.36,E,000.0,360.0"
      && p2 == ",130998,011.3,E*62"
    requires s == p0 + p1 + p2
    ensures s[40] == '.' && s[41] == '0' && s[42] == ',' && s[43] == '3' && s[44] == '6'
  {
  }

  lemma CheckRmcSummedChars9(s: string, p0: string, p1: string, p2: string)
    requires p0 == "$GPRMC,081836,A,3751.65," && p1 == "S,14507.36,E,000.0,360.0"
      && p2 == ",130998,011.3,E*62"
    requires s == p0 + p1 + p2
    ensures s[45] == '0' && s[46] == '.' && s[47] == '0' && s[48] == ',' && s[49] == '1'
  {
  }

  lemma CheckRmcSummedChars10(s: string, p0: string, p1: string, p2: string)
    requires p0 == "$GPRMC,081836,A,3751.65," && p1 == "S,14507.36,E,000.0,360.0"
      && p2 == ",130998,011.3,E*62"
    requires s == p0 + p1 + p2
    ensures s[50] == '3' && s[51] == '0' && s[52] == '9' && s[53] == '9' && s[54] == '8'
  {
  }

  lemma CheckRmcSummedChars11(s: string, p0: string, p1: string, p2: string)
    requires p0 == "$GPRMC,081836,A,3751.65," && p1 == "S,14507.36,E,000.0,360.0"
      && p2 == ",130998,011.3,E*62"
    requires s == p0 + p1 + p2
    ensures s[55] == ',' && s[56] == '0' && s[57] == '1' && s[58] == '1' && s[59] == '.'
  {
  }

  lemma CheckRmcSummedChars12(s: string, p0: string, p1: string, p2: string)
    requires p0 == "$GPRMC,081836,A,3751.65," && p1 == "S,14507.36,E,000.0,360.0"
      && p2 == ",130998,011.3,E*62"
    requires s == p0 + p1 + p2
    ensures s[60] == '3' && s[61] == ',' && s[62] == 'E' && s[63] == '*' && s[64] == '6'
  {
  }

  lemma CheckRmcSummedChars13(s: string, p0: string, p1: string, p2: string)
    requires p0 == "$GPRMC,081836,A,3751.65," && p1 == "S,14507.36,E,000.0,360.0"
      && p2 == ",130998,011.3,E*62"
    requires s == p0 + p1 + p2
    ensures s[65] == '2'
  {
  }

  lemma CheckRmcSummedBody0(s: string)
    requires |s| == 66 && s[53] == '9' && s[54] == '8' && s[55] == ',' && s[56] == '0'
      && s[57] == '1' && s[58] == '1' && s[59] == '.' && s[60] == '3' && s[61] == ','
      && s[62] == 'E' && s[63] == '*'
    ensures BodyEnd(s, 53) == 63
  {
    assert BodyEnd(s, 63) == 63;
    assert BodyEnd(s, 62) == 63;
    assert BodyEnd(s, 61) == 63;
    assert BodyEnd(s, 60) == 63;
    assert BodyEnd(s, 59) == 63;
    assert BodyEnd(s, 58) == 63;
    assert BodyEnd(s, 57) == 63;
    assert BodyEnd(s, 56) == 63;
    assert BodyEnd(s, 55) == 63;
    assert BodyEnd(s, 54) == 63;
    assert BodyEnd(s, 53) == 63;
  }

  lemma CheckRmcSummedBody1(s: string)
    requires |s| == 66 && s[43] == '3' && s[44] == '6' && s[45] == '0' && s[46] == '.'
      && s[47] == '0' && s[48] == ',' && s[49] == '1' && s[50] == '3' && s[51] == '0'
      && s[52] == '9' && BodyEnd(s, 53) == 63
    ensures BodyEnd(s, 43) == 63
  {
    assert BodyEnd(s, 53) == 63;
    assert BodyEnd(s, 52) == 63;
    assert BodyEnd(s, 51) == 63;
    assert BodyEnd(s, 50) == 63;
    assert BodyEnd(s, 49) == 63;
    assert BodyEnd(s, 48) == 63;
    assert BodyEnd(s, 47) == 63;
    assert BodyEnd(s, 46) == 63;
    assert BodyEnd(s, 45) == 63;
    assert BodyEnd(s, 44) == 63;
    assert BodyEnd(s, 43) == 63;
  }

  lemma CheckRmcSummedBody2(s: string)
    requires |s| == 66 && s[33] == '6' && s[34] == ',' && s[35] == 'E' && s[36] == ','
      && s[37] == '0' && s[38] == '0' && s[39] == '0' && s[40] == '.' && s[41] == '0'
      && s[42] == ',' && BodyEnd(s, 43) == 63
    ensures BodyEnd(s, 33) == 63
  {
    assert BodyEnd(s, 43) == 63;
    assert BodyEnd(s, 42) == 63;
    assert BodyEnd(s, 41) == 63;
    assert BodyEnd(s, 40) == 63;
    assert BodyEnd(s, 39) == 63;
    assert BodyEnd(s, 38) == 63;
    assert BodyEnd(s, 37) == 63;
    assert BodyEnd(s, 36) == 63;
    assert BodyEnd(s, 35) == 63;
    assert BodyEnd(s, 34) == 63;
    assert BodyEnd(s, 33) == 63;
  }

  lemma CheckRmcSummedBody3(s: string)
    requires |s| == 66 && s[23] == ',' && s[24] == 'S' && s[25] == ',' && s[26] == '1'
      && s[27] == '4' && s[28] == '5' && s[29] == '0' && s[30] == '7' && s[31] == '.'
      && s[32] == '3' && BodyEnd(s, 33) == 63
    ensures BodyEnd(s, 23) == 63
  {
    assert BodyEnd(s, 33) == 63;
    assert BodyEnd(s, 32) == 63;
    assert BodyEnd(s, 31) == 63;
    assert BodyEnd(s, 30) == 63;
    assert BodyEnd(s, 29) == 63;
    assert BodyEnd(s, 28) == 63;
    assert BodyEnd(s, 27) == 63;
    assert BodyEnd(s, 26) == 63;
    assert BodyEnd(s, 25) == 63;
    assert BodyEnd(s, 24) == 63;
    assert BodyEnd(s, 23) == 63;
  }

  lemma CheckRmcSummedBody4(s: string)
    requires |s| == 66 && s[13] == ',' && s[14] == 'A' && s[15] == ',' && s[16] == '3'
      && s[17] == '7' && s[18] == '5' && s[19] == '1' && s[20] == '.' && s[21] == '6'
      && s[22] == '5' && BodyEnd(s, 23) == 63
    ensures BodyEnd(s, 13) == 63
  {
    assert BodyEnd(s, 23) == 63;
    assert BodyEnd(s, 22) == 63;
    assert BodyEnd(s, 21) == 63;
    assert BodyEnd(s, 20) == 63;
    assert BodyEnd(s, 19) == 63;
    assert BodyEnd(s, 18) == 63;
    assert BodyEnd(s, 17) == 63;
    assert BodyEnd(s, 16) == 63;
    assert BodyEnd(s, 15) == 63;
    assert BodyEnd(s, 14) == 63;
    assert BodyEnd(s, 13) == 63;
  }

  lemma CheckRmcSummedBody5(s: string)
    requires |s| == 66 && s[3] == 'R' && s[4] == 'M' && s[5] == 'C' && s[6] == ','
      && s[7] == '0' && s[8] == '8' && s[9] == '1' && s[10] == '8' && s[11] == '3'
      && s[12] == '6' && BodyEnd(s, 13) == 63
    ensures BodyEnd(s, 3) == 63
  {
    assert BodyEnd(s, 13) == 63;
    assert BodyEnd(s, 12) == 63;
    assert BodyEnd(s, 11) == 63;
    assert BodyEnd(s, 10) == 63;
    assert BodyEnd(s, 9) == 63;
    assert BodyEnd(s, 8) == 63;
    assert BodyEnd(s, 7) == 63;
    assert BodyEnd(s, 6) == 63;
    assert BodyEnd(s, 5) == 63;
    assert BodyEnd(s, 4) == 63;
    assert BodyEnd(s, 3) == 63;
  }

  lemma CheckRmcSummedBody6(s: string)
    requires |s| == 66 && s[1] == 'G' && s[2] == 'P' && BodyEnd(s, 3) == 63
    ensures BodyEnd(s, 1) == 63
  {
    assert BodyEnd(s, 3) == 63;
    assert BodyEnd(s, 2) == 63;
    assert BodyEnd(s, 1) == 63;
  }

  lemma CheckRmcSummedSum0(s: string)
    requires |s| == 66 && s[53] == '9' && s[54] == '8' && s[55] == ',' && s[56] == '0'
      && s[57] == '1' && s[58] == '1' && s[59] == '.' && s[60] == '3' && s[61] == ','
      && s[62] == 'E'
    ensures XorRange(s, 53, 63) == 0x69
  {
    assert XorRange(s, 63, 63) == 0;
    assert XorRange(s, 62, 63) == 0x45;
    assert XorRange(s, 61, 63) == 0x69;
    assert XorRange(s, 60, 63) == 0x5A;
    assert XorRange(s, 59, 63) == 0x74;
    assert XorRange(s, 58, 63) == 0x45;
    assert XorRange(s, 57, 63) == 0x74;
    assert XorRange(s, 56, 63) == 0x44;
    assert XorRange(s, 55, 63) == 0x68;
    assert XorRange(s, 54, 63) == 0x50;
  }

  lemma CheckRmcSummedSum1(s: string)
    requires |s| == 66 && s[43] == '3' && s[44] == '6' && s[45] == '0' && s[46] == '.'
      && s[47] == '0' && s[48] == ',' && s[49] == '1' && s[50] == '3' && s[51] == '0'
      && s[52] == '9'
    ensures XorRange(s, 43, 53) == 0x0C
  {
    assert XorRange(s, 53, 53) == 0;
    assert XorRange(s, 52, 53) == 0x39;
    assert XorRange(s, 51, 53) == 0x09;
    assert XorRange(s, 50, 53) == 0x3A;
    assert XorRange(s, 49, 53) == 0x0B;
    assert XorRange(s, 48, 53) == 0x27;
    assert XorRange(s, 47, 53) == 0x17;
    assert XorRange(s, 46, 53) == 0x39;
    assert XorRange(s, 45, 53) == 0x09;
    assert XorRange(s, 44, 53) == 0x3F;
  }

  lemma CheckRmcSummedSum2(s: string)
    requires |s| == 66 && s[33] == '6' && s[34] == ',' && s[35] == 'E' && s[36] == ','
      && s[37] == '0' && s[38] == '0' && s[39] == '0' && s[40] == '.' && s[41] == '0'
      && s[42] == ','
    ensures XorRange(s, 33, 43) == 0x71
  {
    assert XorRange(s, 43, 43) == 0;
    assert XorRange(s, 42, 43) == 0x2C;
    assert XorRange(s, 41, 43) == 0x1C;
    assert XorRange(s, 40, 43) == 0x32;
    assert XorRange(s, 39, 43) == 0x02;
    assert XorRange(s, 38, 43) == 0x32;
    assert XorRange(s, 37, 43) == 0x02;
    assert XorRange(s, 36, 43) == 0x2E;
    assert XorRange(s, 35, 43) == 0x6B;
    assert XorRange(s, 34, 43) == 0x47;
  }

  lemma CheckRmcSummedSum3(s: string)
    requires |s| == 66 && s[23] == ',' && s[24] == 'S' && s[25] == ',' && s[26] == '1'
      && s[27] == '4' && s[28] == '5' && s[29] == '0' && s[30] == '7' && s[31] == '.'
      && s[32] == '3'
    ensures XorRange(s, 23, 33) == 0x79
  {
    assert XorRange(s, 33, 33) == 0;
    assert XorRange(s, 32, 33) == 0x33;
    assert XorRange(s, 31, 33) == 0x1D;
    assert XorRange(s, 30, 33) == 0x2A;
    assert XorRange(s, 29, 33) == 0x1A;
    assert XorRange(s, 28, 33) == 0x2F;
    assert XorRange(s, 27, 33) == 0x1B;
    assert XorRange(s, 26, 33) == 0x2A;
    assert XorRange(s, 25, 33) == 0x06;
    assert XorRange(s, 24, 33) == 0x55;
  }

  lemma CheckRmcSummedSum4(s: string)
    requires |s| == 66 && s[13] == ',' && s[14] == 'A' && s[15] == ',' && s[16] == '3'
      && s[17] == '7' && s[18] == '5' && s[19] == '1' && s[20] == '.' && s[21] == '6'
      && s[22] == '5'
    ensures XorRange(s, 13, 23) == 0x6C
  {
    assert XorRange(s, 23, 23) == 0;
    assert XorRange(s, 22, 23) == 0x35;
    assert XorRange(s, 21, 23) == 0x03;
    assert XorRange(s, 20, 23) == 0x2D;
    assert XorRange(s, 19, 23) == 0x1C;
    assert XorRange(s, 18, 23) == 0x29;
    assert XorRange(s, 17, 23) == 0x1E;
    assert XorRange(s, 16, 23) == 0x2D;
    assert XorRange(s, 15, 23) == 0x01;
    assert XorRange(s, 14, 23) == 0x40;
  }

  lemma CheckRmcSummedSum5(s: string)
    requires |s| == 66 && s[3] == 'R' && s[4] == 'M' && s[5] == 'C' && s[6] == ','
      && s[7] == '0' && s[8] == '8' && s[9] == '1' && s[10] == '8' && s[11] == '3'
      && s[12] == '6'
    ensures XorRange(s, 3, 13) == 0x74
  {
    assert XorRange(s, 13, 13) == 0;
    assert XorRange(s, 12, 13) == 0x36;
    assert XorRange(s, 11, 13) == 0x05;
    assert XorRange(s, 10, 13) == 0x3D;
    assert XorRange(s, 9, 13) == 0x0C;
    assert XorRange(s, 8, 13) == 0x34;
    assert XorRange(s, 7, 13) == 0x04;
    assert XorRange(s, 6, 13) == 0x28;
    assert XorRange(s, 5, 13) == 0x6B;
    assert XorRange(s, 4, 13) == 0x26;
  }

  lemma CheckRmcSummedSum6(s: string)
    requires |s| == 66 && s[1] == 'G' && s[2] == 'P'
    ensures XorRange(s, 1, 3) == 0x17
  {
    assert XorRange(s, 3, 3) == 0;
    assert XorRange(s, 2, 3) == 0x50;
  }

  /** tests.c:334: accepted, 0x62 being the body's exclusive-or. */
  lemma CheckRmcSummed(s: string)
    requires s == "$GPRMC,081836,A,3751.65,S,14507.36,E,000.0,360.0,130998,011.3,E*62"
    ensures Check(s)
  {
    var p0, p1, p2 := "$GPRMC,081836,A,3751.65,", "S,14507.36,E,000.0,360.0", ",130998,011.3,E*62";
    CheckRmcSummedPieces(s, p0, p1, p2);
    CheckRmcSummedLength(s, p0, p1, p2);
    CheckRmcSummedChars0(s, p0, p1, p2);
    CheckRmcSummedChars1(s, p0, p1, p2);
    CheckRmcSummedChars2(s, p0, p1, p2);
    CheckRmcSummedChars3(s, p0, p1, p2);
    CheckRmcSummedChars4(s, p0, p1, p2);
    CheckRmcSummedChars5(s, p0, p1, p2);
    CheckRmcSummedChars6(s, p0, p1, p2);
    CheckRmcSummedChars7(s, p0, p1, p2);
    CheckRmcSummedChars8(s, p0, p1, p2);
    CheckRmcSummedChars9(s, p0, p1, p2);
    CheckRmcSummedChars10(s, p0, p1, p2);
    CheckRmcSummedChars11(s, p0, p1, p2);
    CheckRmcSummedChars12(s, p0, p1, p2);
    CheckRmcSummedChars13(s, p0, p1, p2);
    CheckRmcSummedBody0(s);
    CheckRmcSummedBody1(s);
    CheckRmcSummedBody2(s);
    CheckRmcSummedBody3(s);
    CheckRmcSummedBody4(s);
    CheckRmcSummedBody5(s);
    CheckRmcSummedBody6(s);
    CheckRmcSummedSum0(s);
    CheckRmcSummedSum1(s);
    XorRangeSplit(s, 43, 53, 63);
    CheckRmcSummedSum2(s);
    XorRangeSplit(s, 33, 43, 63);
    CheckRmcSummedSum3(s);
    XorRangeSplit(s, 23, 33, 63);
    CheckRmcSummedSum4(s);
    XorRangeSplit(s, 13, 23, 63);
    CheckRmcSummedSum5(s);
    XorRangeSplit(s, 3, 13, 63);
    CheckRmcSummedSum6(s);
    XorRangeSplit(s, 1, 3, 63);
    assert XorRange(s, 1, 63) == 0x62;
    assert s[63..] == "*62";
  }

  /** Refused: longer than the cap. */
  lemma CheckRejectsTooLong(s: string)
    requires s == "$GPTXT,xxxxxxxxxxxxxxxxxxxxxxxxxxxxxxxxxxxxxxxxxxxxxxxxxxxxxxxxxxxxxxxxxxxxxxxxxxxxxxxxxxxxxxxxxx"
    ensures !Check(s)
  {
  }

  lemma CheckRejectsBadSumLength(s: string)
    requires s == "$GPTXT,01,01,02,ANTSTATUS=INIT*26"
    ensures |s| == 33
  {
  }

  lemma CheckRejectsBadSumChars0(s: string)
    requires s == "$GPTXT,01,01,02,ANTSTATUS=INIT*26"
    ensures s[0] == '$' && s[1] == 'G' && s[2] == 'P' && s[3] == 'T' && s[4] == 'X'
  {
  }

  lemma CheckRejectsBadSumChars1(s: string)
    requires s == "$GPTXT,01,01,02,ANTSTATUS=INIT*26"
    ensures s[5] == 'T' && s[6] == ',' && s[7] == '0' && s[8] == '1' && s[9] == ','
  {
  }

  lemma CheckRejectsBadSumChars2(s: string)
    requires s == "$GPTXT,01,01,02,ANTSTATUS=INIT*26"
    ensures s[10] == '0' && s[11] == '1' && s[12] == ',' && s[13] == '0' && s[14] == '2'
  {
  }

  lemma CheckRejectsBadSumChars3(s: string)
    requires s == "$GPTXT,01,01,02,ANTSTATUS=INIT*26"
    ensures s[15] == ',' && s[16] == 'A' && s[17] == 'N' && s[18] == 'T' && s[19] == 'S'
  {
  }

  lemma CheckRejectsBadSumChars4(s: string)
    requires s == "$GPTXT,01,01,02,ANTSTATUS=INIT*26"
    ensures s[20] == 'T' && s[21] == 'A' && s[22] == 'T' && s[23] == 'U' && s[24] == 'S'
  {
  }

  lemma CheckRejectsBadSumChars5(s: string)
    requires s == "$GPTXT,01,01,02,ANTSTATUS=INIT*26"
    ensures s[25] == '=' && s[26] == 'I' && s[27] == 'N' && s[28] == 'I' && s[29] == 'T'
  {
  }

  lemma CheckRejectsBadSumChars6(s: string)
    requires s == "$GPTXT,01,01,02,ANTSTATUS=INIT*26"
    ensures s[30] == '*' && s[31] == '2' && s[32] == '6'
  {
  }

  lemma CheckRejectsBadSumBody0(s: string)
    requires |s| == 33 && s[20] == 'T' && s[21] == 'A' && s[22] == 'T' && s[23] == 'U'
      && s[24] == 'S' && s[25] == '=' && s[26] == 'I' && s[27] == 'N' && s[28] == 'I'
      && s[29] == 'T' && s[30] == '*'
    ensures BodyEnd(s, 20) == 30
  {
    assert BodyEnd(s, 30) == 30;
    assert BodyEnd(s, 29) == 30;
    assert BodyEnd(s, 28) == 30;
    assert BodyEnd(s, 27) == 30;
    assert BodyEnd(s, 26) == 30;
    assert BodyEnd(s, 25) == 30;
    assert BodyEnd(s, 24) == 30;
    assert BodyEnd(s, 23) == 30;
    assert BodyEnd(s, 22) == 30;
    assert BodyEnd(s, 21) == 30;
    assert BodyEnd(s, 20) == 30;
  }

  lemma CheckRejectsBadSumBody1(s: string)
    requires |s| == 33 && s[10] == '0' && s[11] == '1' && s[12] == ',' && s[13] == '0'
      && s[14] == '2' && s[15] == ',' && s[16] == 'A' && s[17] == 'N' && s[18] == 'T'
      && s[19] == 'S' && BodyEnd(s, 20) == 30
    ensures BodyEnd(s, 10) == 30
  {
    assert BodyEnd(s, 20) == 30;
    assert BodyEnd(s, 19) == 30;
    assert BodyEnd(s, 18) == 30;
    assert BodyEnd(s, 17) == 30;
    assert BodyEnd(s, 16) == 30;
    assert BodyEnd(s, 15) == 30;
    assert BodyEnd(s, 14) == 30;
    assert BodyEnd(s, 13) == 30;
    assert BodyEnd(s, 12) == 30;
    assert BodyEnd(s, 11) == 30;
    assert BodyEnd(s, 10) == 30;
  }

  lemma CheckRejectsBadSumBody2(s: string)
    requires |s| == 33 && s[1] == 'G' && s[2] == 'P' && s[3] == 'T' && s[4] == 'X'
      && s[5] == 'T' && s[6] == ',' && s[7] == '0' && s[8] == '1' && s[9] == ','
      && BodyEnd(s, 10) == 30
    ensures BodyEnd(s, 1) == 30
  {
    assert BodyEnd(s, 10) == 30;
    assert BodyEnd(s, 9) == 30;
    assert BodyEnd(s, 8) == 30;
    assert BodyEnd(s, 7) == 30;
    assert BodyEnd(s, 6) == 30;
    assert BodyEnd(s, 5) == 30;
    assert BodyEnd(s, 4) == 30;
    assert BodyEnd(s, 3) == 30;
    assert BodyEnd(s, 2) == 30;
    assert BodyEnd(s, 1) == 30;
  }

  lemma CheckRejectsBadSumSum0(s: string)
    requires |s| == 33 && s[20] == 'T' && s[21] == 'A' && s[22] == 'T' && s[23] == 'U'
      && s[24] == 'S' && s[25] == '=' && s[26] == 'I' && s[27] == 'N' && s[28] == 'I'
      && s[29] == 'T'
    ensures XorRange(s, 20, 30) == 0x60
  {
    assert XorRange(s, 30, 30) == 0;
    assert XorRange(s, 29, 30) == 0x54;
    assert XorRange(s, 28, 30) == 0x1D;
    assert XorRange(s, 27, 30) == 0x53;
    assert XorRange(s, 26, 30) == 0x1A;
    assert XorRange(s, 25, 30) == 0x27;
    assert XorRange(s, 24, 30) == 0x74;
    assert XorRange(s, 23, 30) == 0x21;
    assert XorRange(s, 22, 30) == 0x75;
    assert XorRange(s, 21, 30) == 0x34;
  }

  lemma CheckRejectsBadSumSum1(s: string)
    requires |s| == 33 && s[10] == '0' && s[11] == '1' && s[12] == ',' && s[13] == '0'
      && s[14] == '2' && s[15] == ',' && s[16] == 'A' && s[17] == 'N' && s[18] == 'T'
      && s[19] == 'S'
    ensures XorRange(s, 10, 20) == 0x0B
  {
    assert XorRange(s, 20, 20) == 0;
    assert XorRange(s, 19, 20) == 0x53;
    assert XorRange(s, 18, 20) == 0x07;
    assert XorRange(s, 17, 20) == 0x49;
    assert XorRange(s, 16, 20) == 0x08;
    assert XorRange(s, 15, 20) == 0x24;
    assert XorRange(s, 14, 20) == 0x16;
    assert XorRange(s, 13, 20) == 0x26;
    assert XorRange(s, 12, 20) == 0x0A;
    assert XorRange(s, 11, 20) == 0x3B;
  }

  lemma CheckRejectsBadSumSum2(s: string)
    requires |s| == 33 && s[1] == 'G' && s[2] == 'P' && s[3] == 'T' && s[4] == 'X'
      && s[5] == 'T' && s[6] == ',' && s[7] == '0' && s[8] == '1' && s[9] == ','
    ensures XorRange(s, 1, 10) == 0x4E
  {
    assert XorRange(s, 10, 10) == 0;
    assert XorRange(s, 9, 10) == 0x2C;
    assert XorRange(s, 8, 10) == 0x1D;
    assert XorRange(s, 7, 10) == 0x2D;
    assert XorRange(s, 6, 10) == 0x01;
    assert XorRange(s, 5, 10) == 0x55;
    assert XorRange(s, 4, 10) == 0x0D;
    assert XorRange(s, 3, 10) == 0x59;
    assert XorRange(s, 2, 10) == 0x09;
  }

  /** Refused: the body's exclusive-or is 0x25. */
  lemma CheckRejectsBadSum(s: string)
    requires s == "$GPTXT,01,01,02,ANTSTATUS=INIT*26"
    ensures !Check(s)
  {
    CheckRejectsBadSumLength(s);
    CheckRejectsBadSumChars0(s);
    CheckRejectsBadSumChars1(s);
    CheckRejectsBadSumChars2(s);
    CheckRejectsBadSumChars3(s);
    CheckRejectsBadSumChars4(s);
    CheckRejectsBadSumChars5(s);
    CheckRejectsBadSumChars6(s);
    CheckRejectsBadSumBody0(s);
    CheckRejectsBadSumBody1(s);
    CheckRejectsBadSumBody2(s);
    CheckRejectsBadSumSum0(s);
    CheckRejectsBadSumSum1(s);
    XorRangeSplit(s, 10, 20, 30);
    CheckRejectsBadSumSum2(s);
    XorRangeSplit(s, 1, 10, 30);
    assert XorRange(s, 1, 30) == 0x25;
    assert s[30..] == "*26";
  }

  lemma CheckRejectsThreeDigitsLength(s: string)
    requires s == "$GPRMC,,V,,,,,,,,,,N*532"
    ensures |s| == 24
  {
  }

  lemma CheckRejectsThreeDigitsChars0(s: string)
    requires s == "$GPRMC,,V,,,,,,,,,,N*532"
    ensures s[0] == '$' && s[1] == 'G' && s[2] == 'P' && s[3] == 'R' && s[4] == 'M'
  {
  }

  lemma CheckRejectsThreeDigitsChars1(s: string)
    requires s == "$GPRMC,,V,,,,,,,,,,N*532"
    ensures s[5] == 'C' && s[6] == ',' && s[7] == ',' && s[8] == 'V' && s[9] == ','
  {
  }

  lemma CheckRejectsThreeDigitsChars2(s: string)
    requires s == "$GPRMC,,V,,,,,,,,,,N*532"
    ensures s[10] == ',' && s[11] == ',' && s[12] == ',' && s[13] == ',' && s[14] == ','
  {
  }

  lemma CheckRejectsThreeDigitsChars3(s: string)
    requires s == "$GPRMC,,V,,,,,,,,,,N*532"
    ensures s[15] == ',' && s[16] == ',' && s[17] == ',' && s[18] == ',' && s[19] == 'N'
  {
  }

  lemma CheckRejectsThreeDigitsChars4(s: string)
    requires s == "$GPRMC,,V,,,,,,,,,,N*532"
    ensures s[20] == '*' && s[21] == '5' && s[22] == '3' && s[23] == '2'
  {
  }

  lemma CheckRejectsThreeDigitsBody0(s: string)
    requires |s| == 24 && s[10] == ',' && s[11] == ',' && s[12] == ',' && s[13] == ','
      && s[14] == ',' && s[15] == ',' && s[16] == ',' && s[17] == ',' && s[18] == ','
      && s[19] == 'N' && s[20] == '*'
    ensures BodyEnd(s, 10) == 20
  {
    assert BodyEnd(s, 20) == 20;
    assert BodyEnd(s, 19) == 20;
    assert BodyEnd(s, 18) == 20;
    assert BodyEnd(s, 17) == 20;
    assert BodyEnd(s, 16) == 20;
    assert BodyEnd(s, 15) == 20;
    assert BodyEnd(s, 14) == 20;
    assert BodyEnd(s, 13) == 20;
    assert BodyEnd(s, 12) == 20;
    assert BodyEnd(s, 11) == 20;
    assert BodyEnd(s, 10) == 20;
  }

  lemma CheckRejectsThreeDigitsBody1(s: string)
    requires |s| == 24 && s[1] == 'G' && s[2] == 'P' && s[3] == 'R' && s[4] == 'M'
      && s[5] == 'C' && s[6] == ',' && s[7] == ',' && s[8] == 'V' && s[9] == ','
      && BodyEnd(s, 10) == 20
    ensures BodyEnd(s, 1) == 20
  {
    assert BodyEnd(s, 10) == 20;
    assert BodyEnd(s, 9) == 20;
    assert BodyEnd(s, 8) == 20;
    assert BodyEnd(s, 7) == 20;
    assert BodyEnd(s, 6) == 20;
    assert BodyEnd(s, 5) == 20;
    assert BodyEnd(s, 4) == 20;
    assert BodyEnd(s, 3) == 20;
    assert BodyEnd(s, 2) == 20;
    assert BodyEnd(s, 1) == 20;
  }

  lemma CheckRejectsThreeDigitsSum0(s: string)
    requires |s| == 24 && s[10] == ',' && s[11] == ',' && s[12] == ',' && s[13] == ','
      && s[14] == ',' && s[15] == ',' && s[16] == ',' && s[17] == ',' && s[18] == ','
      && s[19] == 'N'
    ensures XorRange(s, 10, 20) == 0x62
  {
    assert XorRange(s, 20, 20) == 0;
    assert XorRange(s, 19, 20) == 0x4E;
    assert XorRange(s, 18, 20) == 0x62;
    assert XorRange(s, 17, 20) == 0x4E;
    assert XorRange(s, 16, 20) == 0x62;
    assert XorRange(s, 15, 20) == 0x4E;
    assert XorRange(s, 14, 20) == 0x62;
    assert XorRange(s, 13, 20) == 0x4E;
    assert XorRange(s, 12, 20) == 0x62;
    assert XorRange(s, 11, 20) == 0x4E;
  }

  lemma CheckRejectsThreeDigitsSum1(s: string)
    requires |s| == 24 && s[1] == 'G' && s[2] == 'P' && s[3] == 'R' && s[4] == 'M'
      && s[5] == 'C' && s[6] == ',' && s[7] == ',' && s[8] == 'V' && s[9] == ','
    ensures XorRange(s, 1, 10) == 0x31
  {
    assert XorRange(s, 10, 10) == 0;
    assert XorRange(s, 9, 10) == 0x2C;
    assert XorRange(s, 8, 10) == 0x7A;
    assert XorRange(s, 7, 10) == 0x56;
    assert XorRange(s, 6, 10) == 0x7A;
    assert XorRange(s, 5, 10) == 0x39;
    assert XorRange(s, 4, 10) == 0x74;
    assert XorRange(s, 3, 10) == 0x26;
    assert XorRange(s, 2, 10) == 0x76;
  }

  /** Refused: a third digit after the checksum. */
  lemma CheckRejectsThreeDigits(s: string)
    requires s == "$GPRMC,,V,,,,,,,,,,N*532"
    ensures !Check(s)
  {
    CheckRejectsThreeDigitsLength(s);
    CheckRejectsThreeDigitsChars0(s);
    CheckRejectsThreeDigitsChars1(s);
    CheckRejectsThreeDigitsChars2(s);
    CheckRejectsThreeDigitsChars3(s);
    CheckRejectsThreeDigitsChars4(s);
    CheckRejectsThreeDigitsBody0(s);
    CheckRejectsThreeDigitsBody1(s);
    CheckRejectsThreeDigitsSum0(s);
    CheckRejectsThreeDigitsSum1(s);
    XorRangeSplit(s, 1, 10, 20);
    assert XorRange(s, 1, 20) == 0x53;
    assert s[20..] == "*532";
  }

  lemma CheckRejectsHighByteLength(s: string)
    requires s == "$GPVTG,,,,\U{FF},,,,,N*30"
    ensures |s| == 20
  {
  }

  lemma CheckRejectsHighByteChars0(s: string)
    requires s == "$GPVTG,,,,\U{FF},,,,,N*30"
    ensures s[0] == '$' && s[1] == 'G' && s[2] == 'P' && s[3] == 'V' && s[4] == 'T'
  {
  }

  lemma CheckRejectsHighByteChars1(s: string)
    requires s == "$GPVTG,,,,\U{FF},,,,,N*30"
    ensures s[5] == 'G' && s[6] == ',' && s[7] == ',' && s[8] == ',' && s[9] == ','
  {
  }

  lemma CheckRejectsHighByteChars2(s: string)
    requires s == "$GPVTG,,,,\U{FF},,,,,N*30"
    ensures s[10] == '\U{FF}' && s[11] == ',' && s[12] == ',' && s[13] == ','
      && s[14] == ','
  {
  }

  lemma CheckRejectsHighByteChars3(s: string)
    requires s == "$GPVTG,,,,\U{FF},,,,,N*30"
    ensures s[15] == ',' && s[16] == 'N' && s[17] == '*' && s[18] == '3' && s[19] == '0'
  {
  }

  lemma CheckRejectsHighByteBody0(s: string)
    requires |s| == 20 && s[1] == 'G' && s[2] == 'P' && s[3] == 'V' && s[4] == 'T'
      && s[5] == 'G' && s[6] == ',' && s[7] == ',' && s[8] == ',' && s[9] == ','
      && s[10] == '\U{FF}'
    ensures BodyEnd(s, 1) == 10
  {
    assert BodyEnd(s, 10) == 10;
    assert BodyEnd(s, 9) == 10;
    assert BodyEnd(s, 8) == 10;
    assert BodyEnd(s, 7) == 10;
    assert BodyEnd(s, 6) == 10;
    assert BodyEnd(s, 5) == 10;
    assert BodyEnd(s, 4) == 10;
    assert BodyEnd(s, 3) == 10;
    assert BodyEnd(s, 2) == 10;
    assert BodyEnd(s, 1) == 10;
  }

  /** Refused: a byte outside printable ASCII. */
  lemma CheckRejectsHighByte(s: string)
    requires s == "$GPVTG,,,,\U{FF},,,,,N*30"
    ensures !Check(s)
  {
    CheckRejectsHighByteLength(s);
    CheckRejectsHighByteChars0(s);
    CheckRejectsHighByteChars1(s);
    CheckRejectsHighByteChars2(s);
    CheckRejectsHighByteChars3(s);
    CheckRejectsHighByteBody0(s);
    assert s[10..] == "\U{FF},,,,,N*30";
  }

  lemma CheckRejectsDoubleDollarLength(s: string)
    requires s == "$$GPGGA,,,,,,0,00,99.99,,,,,,*48"
    ensures |s| == 32
  {
  }

  lemma CheckRejectsDoubleDollarChars0(s: string)
    requires s == "$$GPGGA,,,,,,0,00,99.99,,,,,,*48"
    ensures s[0] == '$' && s[1] == '$' && s[2] == 'G' && s[3] == 'P' && s[4] == 'G'
  {
  }

  lemma CheckRejectsDoubleDollarChars1(s: string)
    requires s == "$$GPGGA,,,,,,0,00,99.99,,,,,,*48"
    ensures s[5] == 'G' && s[6] == 'A' && s[7] == ',' && s[8] == ',' && s[9] == ','
  {
  }

  lemma CheckRejectsDoubleDollarChars2(s: string)
    requires s == "$$GPGGA,,,,,,0,00,99.99,,,,,,*48"
    ensures s[10] == ',' && s[11] == ',' && s[12] == ',' && s[13] == '0' && s[14] == ','
  {
  }

  lemma CheckRejectsDoubleDollarChars3(s: string)
    requires s == "$$GPGGA,,,,,,0,00,99.99,,,,,,*48"
    ensures s[15] == '0' && s[16] == '0' && s[17] == ',' && s[18] == '9' && s[19] == '9'
  {
  }

  lemma CheckRejectsDoubleDollarChars4(s: string)
    requires s == "$$GPGGA,,,,,,0,00,99.99,,,,,,*48"
    ensures s[20] == '.' && s[21] == '9' && s[22] == '9' && s[23] == ',' && s[24] == ','
  {
  }

  lemma CheckRejectsDoubleDollarChars5(s: string)
    requires s == "$$GPGGA,,,,,,0,00,99.99,,,,,,*48"
    ensures s[25] == ',' && s[26] == ',' && s[27] == ',' && s[28] == ',' && s[29] == '*'
  {
  }

  lemma CheckRejectsDoubleDollarChars6(s: string)
    requires s == "$$GPGGA,,,,,,0,00,99.99,,,,,,*48"
    ensures s[30] == '4' && s[31] == '8'
  {
  }

  /** Refused: a second '$'. */
  lemma CheckRejectsDoubleDollar(s: string)
    requires s == "$$GPGGA,,,,,,0,00,99.99,,,,,,*48"
    ensures !Check(s)
  {
    CheckRejectsDoubleDollarLength(s);
    CheckRejectsDoubleDollarChars0(s);
    CheckRejectsDoubleDollarChars1(s);
    CheckRejectsDoubleDollarChars2(s);
    CheckRejectsDoubleDollarChars3(s);
    CheckRejectsDoubleDollarChars4(s);
    CheckRejectsDoubleDollarChars5(s);
    CheckRejectsDoubleDollarChars6(s);
    assert s[1..] == "$GPGGA,,,,,,0,00,99.99,,,,,,*48";
  }

  /** Refused: no leading '$'. */
  lemma CheckRejectsNoDollar(s: string)
    requires s == "GPGSA,A,1,,,,,,,,,,,,,99.99,99.99,99.99*30"
    ensures !Check(s)
  {
  }

  /** Refused: text before the '$'. */
  lemma CheckRejectsPrefix(s: string)
    requires s == "gps: $GPGLL,,,,,,V,N"
    ensures !Check(s)
  {
  }
}
