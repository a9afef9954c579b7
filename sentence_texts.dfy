/** The example sentences of the decoder tests, cut into the comma-separated chunks
    their field lists are proved from. Plain text facts, kept apart from the parser's
    definitions so that proving them does not involve those. */
module SentenceTexts {

  lemma GgaSentenceText(s: string, ja: string, jb: string, jc: string)
    requires s == "$GPGGA,123519,4807.038,N,01131.000,E,1,08,0.9,545.4,M,46.9,M,,*47"
    requires ja == "$GPGGA,123519,4807.038,N,01131.000,E,1" && jb == "08,0.9,545.4,M"
    requires jc == "46.9,M,,"
    ensures s == ja + "," + jb + "," + jc + "*47"
  {
  }

  lemma GgaHeadText(jab: string, ja: string, jb: string)
    requires jab == "$GPGGA,123519,4807.038,N,01131.000,E,1"
    requires ja == "$GPGGA,123519,4807.038" && jb == "N,01131.000,E,1"
    ensures jab == ja + "," + jb
  {
  }

  lemma RmcSentenceText(s: string, ja: string, jb: string, jc: string)
    requires s == "$GPRMC,081836.75,A,3751.65,S,14507.36,E,000.0,360.0,130998,011.3,E"
    requires ja == "$GPRMC,081836.75,A,3751.65,S"
    requires jb == "14507.36,E,000.0,360.0" && jc == "130998,011.3,E"
    ensures s == ja + "," + jb + "," + jc
  {
    assert s == ja + "," + jb + "," + jc + "";
  }

  lemma SparseSentenceText(s: string, ja: string, jb: string, jc: string)
    requires s == "$GPRMC,,A,3751.65,N,14507.36,W,,,,,"
    requires ja == "$GPRMC,,A,3751.65,N"
    requires jb == "14507.36,W,," && jc == ",,"
    ensures s == ja + "," + jb + "," + jc
  {
  }

  lemma UsageRmcText(s: string, ja: string, jb: string, jc: string)
    requires s == "$GPRMC,081836,A,3751.65,S,14507.36,E,000.0,360.0,130998,011.3,E*62"
    requires ja == "$GPRMC,081836,A,3751.65,S"
    requires jb == "14507.36,E,000.0,360.0" && jc == "130998,011.3,E"
    ensures s == ja + "," + jb + "," + jc + "*62"
  {
  }

  lemma GgaLineText(s: string, ja: string, jb: string, jc: string)
    requires s == "$GPGGA,123519,4807.038,N,01131.000,E,1,08,0.9,545.4,M,46.9,M,,*47\r\n"
    requires ja == "$GPGGA,123519,4807.038,N,01131.000,E,1" && jb == "08,0.9,545.4,M"
    requires jc == "46.9,M,,"
    ensures s == ja + "," + jb + "," + jc + "*47\r\n"
  {
  }

  lemma BwcSentenceText(s: string, ja: string, jb: string, jc: string)
    requires s == "$GPBWC,081837,,,,,,T,,M,,N,*13"
    requires ja == "$GPBWC,081837,," && jb == ",,,T,,M" && jc == ",N,"
    ensures s == ja + "," + jb + "," + jc + "*13"
  {
  }
}
