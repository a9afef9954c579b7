/** `minmea_scan`: walk the format string one directive at a time, each directive
    taking the next field of the sentence, and collect what the directives store. */
module Scanner {
  import opened Text
  import opened FixedPoint
  import opened FieldSplit
  import opened Directives

  /** Whether directive character `c` accepts field `f`. */
  predicate Accepts(c: char, f: string) {
    DirectiveOf(c).Some? && Apply(DirectiveOf(c).value, f).Some?
  }

  /** How many values a format stores: one per directive other than `_`. */
  function Stored(format: string): nat {
    if format == [] then 0 else (if format[0] == '_' then 0 else 1) + Stored(format[1..])
  }

  /** A format without `_` stores one value per directive. */
  lemma {:induction false} StoredAll(format: string)
    requires forall j :: 0 <= j < |format| ==> format[j] != '_'
    ensures Stored(format) == |format|
    decreases |format|
  {
    if format != [] {
      StoredAll(format[1..]);
    }
  }

  /** What two formats in a row store. */
  lemma {:induction false} StoredAppend(a: string, b: string)
    ensures Stored(a + b) == Stored(a) + Stored(b)
    decreases |a|
  {
    if a != [] {
      assert (a + b)[1..] == a[1..] + b;
      StoredAppend(a[1..], b);
    } else {
      assert a + b == b;
    }
  }

  /** A format whose only `_` is its last directive stores one value fewer than it has
      directives. */
  lemma StoredSkipLast(head: string, format: string)
    requires format == head + "_"
    requires forall j :: 0 <= j < |head| ==> head[j] != '_'
    ensures Stored(format) == |head|
  {
    StoredAll(head);
    StoredAppend(head, "_");
    assert "_"[1..] == [];
  }

  /** The directives of `format` applied to `fields` in order, one field each. */
  function ScanFields(fields: seq<string>, format: string): (r: Option<seq<Value>>)
    ensures r.Some? ==> |format| <= |fields|
    decreases |format|
  {
    if format == [] then Some([])
    else if fields == [] then None
    else
      var d := DirectiveOf(format[0]);
      if d.None? then None
      else
        var out := Apply(d.value, fields[0]);
        var rest := ScanFields(fields[1..], format[1..]);
        if out.None? || rest.None? then None
        else Some(out.value + rest.value)
  }

  /** A successful scan stores one value per directive other than `_`. */
  lemma {:induction false} ScanFieldsStored(fields: seq<string>, format: string)
    requires ScanFields(fields, format).Some?
    ensures |ScanFields(fields, format).value| == Stored(format)
    decreases |format|
  {
    if format != [] {
      ScanFieldsStored(fields[1..], format[1..]);
    }
  }

  /** The scan succeeds exactly when there is a field for every directive and every
      directive accepts its field. */
  lemma {:induction false} ScanFieldsSucceeds(fields: seq<string>, format: string)
    ensures ScanFields(fields, format).Some? <==>
      |format| <= |fields| && forall i :: 0 <= i < |format| ==> Accepts(format[i], fields[i])
    decreases |format|
  {
    if format != [] && fields != [] {
      ScanFieldsSucceeds(fields[1..], format[1..]);
      assert forall i :: 1 <= i < |format| ==> format[i] == format[1..][i - 1];
      assert forall i :: 1 <= i < |format| && i < |fields| ==> fields[i] == fields[1..][i - 1];
    }
  }

  /** `minmea_scan` on a whole sentence: a successful scan found a field for every
      directive and stores one value per directive other than `_`. */
  function Scan(sentence: string, format: string): (r: Option<seq<Value>>)
    ensures r.Some? ==> |format| <= |Fields(sentence)| && |r.value| == Stored(format)
  {
    ScanStored(Fields(sentence), format);
    ScanFields(Fields(sentence), format)
  }

  lemma ScanStored(fields: seq<string>, format: string)
    ensures ScanFields(fields, format).Some? ==> |ScanFields(fields, format).value| == Stored(format)
  {
    if ScanFields(fields, format).Some? {
      ScanFieldsStored(fields, format);
    }
  }

  /** Where no `_` comes before it, directive i stores value i, and that value is what
      the directive makes of field i. */
  lemma {:induction false} ScanFieldsAt(fields: seq<string>, format: string, i: nat)
    requires ScanFields(fields, format).Some?
    requires i < |format| && forall j :: 0 <= j <= i ==> format[j] != '_'
    ensures DirectiveOf(format[i]).Some?
    ensures var vs := ScanFields(fields, format).value;
      i < |vs| && Apply(DirectiveOf(format[i]).value, fields[i]) == Some([vs[i]])
    decreases i
  {
    var vs := ScanFields(fields, format).value;
    var out := Apply(DirectiveOf(format[0]).value, fields[0]).value;
    var rest := ScanFields(fields[1..], format[1..]).value;
    assert vs == out + rest;
    assert |out| == 1;
    if i == 0 {
      assert out == [vs[0]];
    } else {
      ScanFieldsAt(fields[1..], format[1..], i - 1);
      assert vs[i] == rest[i - 1];
    }
  }

  /** ScanFieldsAt for each kind of directive: what value i holds when directive i
      is that kind. */
  lemma TalkerAt(fields: seq<string>, format: string, i: nat)
    requires ScanFields(fields, format).Some?
    requires i < |format| && format[i] == 't' && forall j :: 0 <= j < i ==> format[j] != '_'
    ensures i < |fields| && i < |ScanFields(fields, format).value|
    ensures var vs := ScanFields(fields, format).value; ParseTalker(fields[i]).Some? && vs[i] == TextValue(ParseTalker(fields[i]).value)
  {
    ScanFieldsAt(fields, format, i);
    assert DirectiveOf(format[i]) == Some(Talker);
  }

  lemma VerbatimAt(fields: seq<string>, format: string, i: nat)
    requires ScanFields(fields, format).Some?
    requires i < |format| && format[i] == 's' && forall j :: 0 <= j < i ==> format[j] != '_'
    ensures i < |fields| && i < |ScanFields(fields, format).value|
    ensures var vs := ScanFields(fields, format).value; vs[i] == TextValue(fields[i])
  {
    ScanFieldsAt(fields, format, i);
    assert DirectiveOf(format[i]) == Some(Verbatim);
  }

  lemma TimeAt(fields: seq<string>, format: string, i: nat)
    requires ScanFields(fields, format).Some?
    requires i < |format| && format[i] == 'T' && forall j :: 0 <= j < i ==> format[j] != '_'
    ensures i < |fields| && i < |ScanFields(fields, format).value|
    ensures var vs := ScanFields(fields, format).value; vs[i] == TimeValue(ParseTime(fields[i]))
  {
    ScanFieldsAt(fields, format, i);
    assert DirectiveOf(format[i]) == Some(TimeStamp);
  }

  lemma DateAt(fields: seq<string>, format: string, i: nat)
    requires ScanFields(fields, format).Some?
    requires i < |format| && format[i] == 'D' && forall j :: 0 <= j < i ==> format[j] != '_'
    ensures i < |fields| && i < |ScanFields(fields, format).value|
    ensures var vs := ScanFields(fields, format).value; vs[i] == DateValue(ParseDate(fields[i]))
  {
    ScanFieldsAt(fields, format, i);
    assert DirectiveOf(format[i]) == Some(DateStamp);
  }

  lemma CharAt(fields: seq<string>, format: string, i: nat)
    requires ScanFields(fields, format).Some?
    requires i < |format| && format[i] == 'c' && forall j :: 0 <= j < i ==> format[j] != '_'
    ensures i < |fields| && i < |ScanFields(fields, format).value|
    ensures var vs := ScanFields(fields, format).value; vs[i] == CharValue(if fields[i] == [] then '\0' else fields[i][0])
  {
    ScanFieldsAt(fields, format, i);
    assert DirectiveOf(format[i]) == Some(Character);
  }

  lemma DecimalAt(fields: seq<string>, format: string, i: nat)
    requires ScanFields(fields, format).Some?
    requires i < |format| && format[i] == 'f' && forall j :: 0 <= j < i ==> format[j] != '_'
    ensures i < |fields| && i < |ScanFields(fields, format).value|
    ensures var vs := ScanFields(fields, format).value; ParseDecimal(fields[i]).Some? && vs[i] == FixedValue(ParseDecimal(fields[i]).value)
  {
    ScanFieldsAt(fields, format, i);
    assert DirectiveOf(format[i]) == Some(Decimal);
  }

  lemma DirectionAt(fields: seq<string>, format: string, i: nat)
    requires ScanFields(fields, format).Some?
    requires i < |format| && format[i] == 'd' && forall j :: 0 <= j < i ==> format[j] != '_'
    ensures i < |fields| && i < |ScanFields(fields, format).value|
    ensures var vs := ScanFields(fields, format).value; ParseDirection(fields[i]).Some? && vs[i] == IntValue(ParseDirection(fields[i]).value)
  {
    ScanFieldsAt(fields, format, i);
    assert DirectiveOf(format[i]) == Some(Direction);
  }

  lemma IntegerAt(fields: seq<string>, format: string, i: nat)
    requires ScanFields(fields, format).Some?
    requires i < |format| && format[i] == 'i' && forall j :: 0 <= j < i ==> format[j] != '_'
    ensures i < |fields| && i < |ScanFields(fields, format).value|
    ensures var vs := ScanFields(fields, format).value; ParseInteger(fields[i]).Some? && vs[i] == IntValue(ParseInteger(fields[i]).value)
  {
    ScanFieldsAt(fields, format, i);
    assert DirectiveOf(format[i]) == Some(Integer);
  }

  /** Whether directive `c` accepts field `f`, directive by directive: only `d`, `f`,
      `i` and `t` can refuse a field, and they refuse what their parsers refuse. */
  lemma AcceptsByParser(c: char, f: string)
    ensures Accepts(c, f) <==>
      || c in "csDT_"
      || (c == 'd' && ParseDirection(f).Some?)
      || (c == 'f' && ParseDecimal(f).Some?)
      || (c == 'i' && ParseInteger(f).Some?)
      || (c == 't' && ParseTalker(f).Some?)
  {
  }

  /** Where no `_` comes before it, value i is of the kind directive i stores. */
  lemma ScanFieldsFits(fields: seq<string>, format: string, i: nat)
    requires ScanFields(fields, format).Some?
    requires i < |format| && forall j :: 0 <= j <= i ==> format[j] != '_'
    ensures DirectiveOf(format[i]).Some?
    ensures i < |ScanFields(fields, format).value|
    ensures Fits(DirectiveOf(format[i]).value, ScanFields(fields, format).value[i])
  {
    ScanFieldsAt(fields, format, i);
  }

  /** A format starting with `t` stores first what the format "t" alone stores. */
  lemma ScanFieldsToken(fields: seq<string>, format: string)
    requires ScanFields(fields, format).Some? && |format| >= 1 && format[0] == 't'
    ensures ScanFields(fields, "t").Some?
    ensures ScanFields(fields, format).value[0] == ScanFields(fields, "t").value[0]
  {
    ScanFieldsAt(fields, format, 0);
    ScanFieldsAt(fields, "t", 0);
  }

  /** The scanner proper: a cursor over the sentence, one directive per iteration.
      It stops at the first directive that fails or finds no field left. */
  method ScanSentence(sentence: string, format: string) returns (ok: bool, values: seq<Value>)
    ensures ok <==> Scan(sentence, format).Some?
    ensures ok ==> values == Scan(sentence, format).value
  {
    var pos: nat := 0;
    var more := true;
    values := [];
    var i := 0;
    ScanStarts(sentence, format);
    while i < |format|
      invariant Scanning(sentence, format, pos, more, values, i)
    {
      if !more {
        ScanRunsOut(sentence, format, pos, values, i);
        ok := false;
        return;
      }
      var d := DirectiveOf(format[i]);
      if d.None? {
        ScanUnknown(sentence, format, pos, values, i);
        ok := false;
        return;
      }
      var e := FindFieldEnd(sentence, pos);
      var out := Apply(d.value, sentence[pos..e]);
      if out.None? {
        ScanRefused(sentence, format, pos, values, i);
        ok := false;
        return;
      }
      ghost var start, stored := pos, values;
      values := values + out.value;
      if e < |sentence| && sentence[e] == ',' {
        pos := e + 1;
      } else {
        more := false;
      }
      i := i + 1;
      CursorAdvances(sentence, start, i - 1, pos, more);
      StoreStep(Scan(sentence, format), Fields(sentence), format, i - 1, sentence[start..e], stored, values);
    }
    ScanFinishes(sentence, format, pos, more, values);
    ok := true;
  }

  /** The scanner's state before directive i: the cursor `pos` is at field i when
      `more` holds and the fields are used up otherwise, and the whole scan is the
      values stored so far followed by the scan of the remaining fields. */
  ghost predicate Scanning(sentence: string, format: string, pos: nat, more: bool, values: seq<Value>, i: nat) {
    var fields := Fields(sentence);
    && i <= |format|
    && (more ==> AtField(sentence, pos, fields, i))
    && (!more ==> i == |fields|)
    && Scan(sentence, format) == Prepend(values, ScanFields(fields[i..], format[i..]))
  }

  lemma ScanStarts(sentence: string, format: string)
    ensures Scanning(sentence, format, 0, true, [], 0)
  {
    var fields, n := Fields(sentence), LineEnd(sentence, 0);
    assert fields[0..] == fields && format[0..] == format;
    assert sentence[0..n] == sentence[..n];
    var whole := ScanFields(fields, format);
    assert whole.Some? ==> [] + whole.value == whole.value;
  }

  /** A directive left over once the fields are used up fails the scan. */
  lemma ScanRunsOut(sentence: string, format: string, pos: nat, values: seq<Value>, i: nat)
    requires Scanning(sentence, format, pos, false, values, i) && i < |format|
    ensures Scan(sentence, format).None?
  {
    var fields := Fields(sentence);
    assert fields[i..] == [] && format[i..] != [];
  }

  /** A character that names no directive fails the scan. */
  lemma ScanUnknown(sentence: string, format: string, pos: nat, values: seq<Value>, i: nat)
    requires Scanning(sentence, format, pos, true, values, i) && i < |format|
    requires DirectiveOf(format[i]).None?
    ensures Scan(sentence, format).None?
  {
    var fields := Fields(sentence);
    assert format[i..][0] == format[i] && fields[i..] != [];
  }

  /** The field at the cursor, which directive i reads. */
  lemma CursorField(sentence: string, format: string, pos: nat, values: seq<Value>, i: nat)
    requires Scanning(sentence, format, pos, true, values, i)
    ensures pos <= FieldEnd(sentence, pos) <= |sentence|
    ensures i < |Fields(sentence)| && Fields(sentence)[i] == sentence[pos..FieldEnd(sentence, pos)]
  {
    FieldWalk(sentence, pos, FieldEnd(sentence, pos), Fields(sentence), i);
  }

  /** A directive that refuses its field fails the scan. */
  lemma ScanRefused(sentence: string, format: string, pos: nat, values: seq<Value>, i: nat)
    requires Scanning(sentence, format, pos, true, values, i) && i < |format|
    requires DirectiveOf(format[i]).Some? && pos <= |sentence|
    requires Apply(DirectiveOf(format[i]).value, sentence[pos..FieldEnd(sentence, pos)]).None?
    ensures Scan(sentence, format).None?
  {
    CursorField(sentence, format, pos, values, i);
    ScanStep(Fields(sentence), format, i, sentence[pos..FieldEnd(sentence, pos)]);
  }

  /** The cursor after a field the scan accepted: past the ',' that follows the field,
      or, when none follows, nowhere, the fields being used up. */
  lemma CursorAdvances(sentence: string, pos: nat, i: nat, next: nat, more: bool)
    requires AtField(sentence, pos, Fields(sentence), i)
    requires var e := FieldEnd(sentence, pos);
      && more == (e < |sentence| && sentence[e] == ',')
      && next == (if more then e + 1 else pos)
    ensures Fields(sentence)[i] == sentence[pos..FieldEnd(sentence, pos)]
    ensures more ==> AtField(sentence, next, Fields(sentence), i + 1)
    ensures !more ==> i + 1 == |Fields(sentence)|
  {
    FieldWalk(sentence, pos, FieldEnd(sentence, pos), Fields(sentence), i);
  }

  /** The values stored so far grow by what directive i makes of its field. */
  lemma StoreStep(whole: Option<seq<Value>>, fields: seq<string>, format: string, i: nat,
    field: string, values: seq<Value>, stored: seq<Value>)
    requires i < |format| && i < |fields| && fields[i] == field && DirectiveOf(format[i]).Some?
    requires whole == Prepend(values, ScanFields(fields[i..], format[i..]))
    requires Apply(DirectiveOf(format[i]).value, field).Some?
    requires stored == values + Apply(DirectiveOf(format[i]).value, field).value
    ensures whole == Prepend(stored, ScanFields(fields[i + 1..], format[i + 1..]))
  {
    ScanStep(fields, format, i, field);
    PrependTwice(values, Apply(DirectiveOf(format[i]).value, field).value,
      ScanFields(fields[i + 1..], format[i + 1..]));
  }

  /** With the format used up, the scan stores what was stored. */
  lemma ScanFinishes(sentence: string, format: string, pos: nat, more: bool, values: seq<Value>)
    requires Scanning(sentence, format, pos, more, values, |format|)
    ensures Scan(sentence, format) == Some(values)
  {
    assert format[|format|..] == [];
    assert values + [] == values;
  }

  /** `values` stored so far, followed by what the rest of the scan stores. */
  function Prepend(values: seq<Value>, rest: Option<seq<Value>>): Option<seq<Value>> {
    if rest.None? then None else Some(values + rest.value)
  }

  lemma PrependTwice(a: seq<Value>, b: seq<Value>, rest: Option<seq<Value>>)
    ensures Prepend(a, Prepend(b, rest)) == Prepend(a + b, rest)
  {
    if rest.Some? {
      assert a + (b + rest.value) == (a + b) + rest.value;
    }
  }

  /** The scan of the remaining fields, one directive further on. */
  lemma ScanStep(fields: seq<string>, format: string, i: nat, field: string)
    requires i < |format| && i < |fields| && fields[i] == field && DirectiveOf(format[i]).Some?
    ensures var out := Apply(DirectiveOf(format[i]).value, field);
      ScanFields(fields[i..], format[i..]) ==
        if out.None? then None else Prepend(out.value, ScanFields(fields[i + 1..], format[i + 1..]))
  {
    assert fields[i..][1..] == fields[i + 1..];
    assert format[i..][1..] == format[i + 1..];
  }

  /** The end of the field at `pos`: the cursor moves over field characters. */
  method FindFieldEnd(sentence: string, pos: nat) returns (e: nat)
    requires pos <= |sentence|
    ensures e == FieldEnd(sentence, pos)
  {
    e := pos;
    while e < |sentence| && IsField(sentence[e])
      invariant pos <= e <= |sentence|
      invariant forall j :: pos <= j < e ==> IsField(sentence[j])
    {
      e := e + 1;
    }
    FieldEndUnique(sentence, pos, e);
  }

  /** FieldEnd is the one index where the run of field characters stops. */
  lemma {:induction false} FieldEndUnique(s: string, pos: nat, e: nat)
    requires pos <= e <= |s|
    requires forall j :: pos <= j < e ==> IsField(s[j])
    requires e < |s| ==> !IsField(s[e])
    ensures e == FieldEnd(s, pos)
    decreases e - pos
  {
    if pos < e {
      FieldEndUnique(s, pos + 1, e);
    }
  }

  /** A one-directive format is that directive applied to the first field. */
  lemma ScanFieldsSingle(fields: seq<string>, c: char)
    requires |fields| >= 1 && DirectiveOf(c).Some?
    ensures ScanFields(fields, [c]) == Apply(DirectiveOf(c).value, fields[0])
  {
    var format: string := [c];
    assert format[0] == c && format[1..] == [];
    assert ScanFields(fields[1..], format[1..]) == Some([]);
    var out := Apply(DirectiveOf(c).value, fields[0]);
    if out.Some? {
      assert out.value + [] == out.value;
    }
  }

  /** A format of `_` and one directive is that directive applied to the second field. */
  lemma ScanFieldsSkipOne(fields: seq<string>, format: string)
    requires |fields| >= 2 && |format| == 2 && format[0] == '_' && DirectiveOf(format[1]).Some?
    ensures ScanFields(fields, format) == Apply(DirectiveOf(format[1]).value, fields[1])
  {
    ScanFieldsSingle(fields[1..], format[1]);
    assert format[1..] == [format[1]];
    var rest := ScanFields(fields[1..], format[1..]);
    if rest.Some? {
      assert [] + rest.value == rest.value;
    }
  }

  /** The first field of a sentence: its field characters up to the first
      character that is not one. */
  lemma FirstField(sentence: string)
    ensures FieldEnd(sentence, 0) <= LineEnd(sentence, 0)
    ensures Fields(sentence)[0] == sentence[..FieldEnd(sentence, 0)]
  {
    FieldStep(sentence, 0);
    var n := LineEnd(sentence, 0);
    assert sentence[..n] == sentence[0..n];
  }

  /** What the format "t" makes of a sentence: it must open with '$' and five more
      field characters, which are the token. */
  lemma TalkerScan(sentence: string)
    ensures Scan(sentence, "t").Some? <==>
      |sentence| >= 6 && sentence[0] == '$' && forall j :: 1 <= j < 6 ==> IsField(sentence[j])
    ensures Scan(sentence, "t").Some? ==> Scan(sentence, "t").value == [TextValue(sentence[1..6])]
  {
    FirstField(sentence);
    var e := FieldEnd(sentence, 0);
    var field := sentence[..e];
    ScanFieldsSingle(Fields(sentence), 't');
    assert "t" == ['t'];
    assert Scan(sentence, "t") == Apply(Talker, field);
    if |sentence| >= 6 && sentence[0] == '$' && forall j :: 1 <= j < 6 ==> IsField(sentence[j]) {
      assert e >= 6;
      assert field[1..6] == sentence[1..6];
    }
    if e >= 6 {
      assert forall j :: 1 <= j < 6 ==> field[j] == sentence[j];
    }
  }

  /** The `t` directive writing into a caller's character buffer: the five-character
      token and its terminating NUL go to buf[0..6], and nothing at or past buf[6]
      is touched; a refused sentence leaves the buffer as it was. */
  method ScanTalkerInto(sentence: string, buf: array<char>) returns (ok: bool)
    requires buf.Length >= 6
    modifies buf
    ensures ok <==> Scan(sentence, "t").Some?
    ensures ok ==> Scan(sentence, "t") == Some([TextValue(buf[..5])]) && buf[5] == '\0'
    ensures forall k :: (if ok then 6 else 0) <= k < buf.Length ==> buf[k] == old(buf[k])
  {
    TalkerScan(sentence);
    if |sentence| < 6 || sentence[0] != '$' {
      return false;
    }
    var f := 1;
    while f < 6
      invariant 1 <= f <= 6
      invariant forall j :: 1 <= j < f ==> IsField(sentence[j])
    {
      if !IsField(sentence[f]) {
        assert !Scan(sentence, "t").Some?;
        return false;
      }
      f := f + 1;
    }
    f := 0;
    while f < 5
      invariant 0 <= f <= 5
      invariant buf[..f] == sentence[1..1 + f]
      invariant forall k :: 5 <= k < buf.Length ==> buf[k] == old(buf[k])
    {
      buf[f] := sentence[1 + f];
      f := f + 1;
    }
    buf[5] := '\0';
    assert buf[..5] == sentence[1..6];
    return true;
  }
}
