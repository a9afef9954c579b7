/** How `minmea_scan` sees a sentence: a run of comma-separated fields. A field is the
    run of field characters (printable, neither ',' nor '*') at a field start; the
    next field starts after a ',' ending that run, and anything else ending it (the
    '*' of a checksum, a line ending, the end of the string) ends the sentence. */
module FieldSplit {
  import opened Text

  /** `minmea_isfield`. */
  predicate IsField(c: char) {
    IsPrint(c) && c != ',' && c != '*'
  }

  /** The end of the field that starts at `pos`. */
  function FieldEnd(s: string, pos: nat): (e: nat)
    requires pos <= |s|
    ensures pos <= e <= |s|
    ensures forall j :: pos <= j < e ==> IsField(s[j])
    ensures e < |s| ==> !IsField(s[e])
    decreases |s| - pos
  {
    if pos == |s| || !IsField(s[pos]) then pos else FieldEnd(s, pos + 1)
  }

  predicate InLine(c: char) {
    IsField(c) || c == ','
  }

  /** The end of the stretch, from `pos` on, made only of field characters and commas. */
  function LineEnd(s: string, pos: nat): (n: nat)
    requires pos <= |s|
    ensures pos <= n <= |s|
    ensures forall j :: pos <= j < n ==> InLine(s[j])
    ensures n < |s| ==> !InLine(s[n])
    decreases |s| - pos
  {
    if pos == |s| || !InLine(s[pos]) then pos else LineEnd(s, pos + 1)
  }

  /** `x` cut at every ','. */
  function Split(x: string): (parts: seq<string>)
    ensures |parts| >= 1
    decreases |x|
  {
    var i := IndexOf(x, ',');
    if i == |x| then [x] else [x[..i]] + Split(x[i + 1..])
  }

  /** Cutting a stretch of field characters and commas gives parts made only of
      field characters. */
  lemma {:induction false} SplitFieldChars(x: string)
    requires forall j :: 0 <= j < |x| ==> InLine(x[j])
    ensures forall k, j :: 0 <= k < |Split(x)| && 0 <= j < |Split(x)[k]| ==> IsField(Split(x)[k][j])
    decreases |x|
  {
    var i := IndexOf(x, ',');
    IndexOfFirst(x, ',');
    if i < |x| {
      var rest := x[i + 1..];
      assert forall j :: 0 <= j < |rest| ==> rest[j] == x[i + 1 + j];
      SplitFieldChars(rest);
      var parts := Split(x);
      assert parts == [x[..i]] + Split(rest);
      forall k, j | 0 <= k < |parts| && 0 <= j < |parts[k]| ensures IsField(parts[k][j]) {
        if k == 0 {
          assert parts[0][j] == x[j];
        } else {
          assert parts[k] == Split(rest)[k - 1];
        }
      }
    }
  }

  /** The parts glued back together with ','. */
  function Join(parts: seq<string>): string
    requires |parts| >= 1
  {
    if |parts| == 1 then parts[0] else parts[0] + "," + Join(parts[1..])
  }

  predicate NoComma(x: string) {
    forall j :: 0 <= j < |x| ==> x[j] != ','
  }

  /** Cutting at commas loses nothing. */
  lemma {:induction false} JoinSplit(x: string)
    ensures Join(Split(x)) == x
    decreases |x|
  {
    var i := IndexOf(x, ',');
    if i < |x| {
      JoinSplit(x[i + 1..]);
      assert x == x[..i] + "," + x[i + 1..];
    }
  }

  /** Comma-free parts joined with commas are cut back into the same parts. */
  lemma {:induction false} SplitJoin(parts: seq<string>)
    requires |parts| >= 1
    requires forall k :: 0 <= k < |parts| ==> NoComma(parts[k])
    ensures Split(Join(parts)) == parts
    decreases |parts|
  {
    if |parts| == 1 {
      assert IndexOf(parts[0], ',') == |parts[0]|;
    } else {
      var p, rest := parts[0], Join(parts[1..]);
      var x := p + "," + rest;
      IndexOfAfter(p, ',', rest);
      assert x[..|p|] == p;
      assert x[|p| + 1..] == rest;
      SplitJoin(parts[1..]);
      assert parts == [p] + parts[1..];
    }
  }

  /** The fields of a sentence, first to last; in a sentence that opens with `$`, the
      first is the `$` token. */
  function Fields(s: string): (fs: seq<string>)
    ensures |fs| >= 1
    ensures s != [] && s[0] == '$' ==> fs[0] != [] && fs[0][0] == '$'
  {
    var x := s[..LineEnd(s, 0)];
    if s != [] && s[0] == '$' then
      SplitFirst(x);
      Split(x)
    else
      Split(x)
  }

  /** A text that does not open with ',' has a first part opening with its first character. */
  lemma SplitFirst(x: string)
    requires x != [] && x[0] != ','
    ensures Split(x)[0] != [] && Split(x)[0][0] == x[0]
  {
    IndexOfFirst(x, ',');
  }

  /** Parts made of field characters, joined with commas, make a stretch of field
      characters and commas. */
  lemma {:induction false} JoinInLine(parts: seq<string>)
    requires |parts| >= 1
    requires forall k, j :: 0 <= k < |parts| && 0 <= j < |parts[k]| ==> IsField(parts[k][j])
    ensures forall j :: 0 <= j < |Join(parts)| ==> InLine(Join(parts)[j])
    decreases |parts|
  {
    if |parts| > 1 {
      JoinInLine(parts[1..]);
      var p, rest := parts[0], Join(parts[1..]);
      assert Join(parts) == p + "," + rest;
      forall j | 0 <= j < |Join(parts)| ensures InLine(Join(parts)[j]) {
        if j < |p| {
          assert Join(parts)[j] == p[j];
        } else if j > |p| {
          assert Join(parts)[j] == rest[j - |p| - 1];
        }
      }
    }
  }

  /** A sentence written as its fields joined with commas, followed by anything that
      does not continue the line (a checksum, a line ending, nothing), has exactly
      those fields. */
  lemma FieldsOfJoin(parts: seq<string>, tail: string)
    requires |parts| >= 1
    requires forall k, j :: 0 <= k < |parts| && 0 <= j < |parts[k]| ==> IsField(parts[k][j])
    requires tail == [] || !InLine(tail[0])
    ensures Fields(Join(parts) + tail) == parts
  {
    var line := Join(parts);
    var s := line + tail;
    JoinInLine(parts);
    assert forall j :: 0 <= j < |line| ==> s[j] == line[j];
    if tail != [] {
      assert s[|line|] == tail[0];
    }
    assert LineEnd(s, 0) == |line| by {
      LineEndAt(s, 0, |line|);
    }
    assert s[..|line|] == line;
    forall k | 0 <= k < |parts| ensures NoComma(parts[k]) {
      forall j | 0 <= j < |parts[k]| ensures parts[k][j] != ',' {
        assert IsField(parts[k][j]);
      }
    }
    SplitJoin(parts);
  }

  /** The line ends at the first character that is neither a field character nor a ','. */
  lemma {:induction false} LineEndAt(s: string, pos: nat, n: nat)
    requires pos <= n <= |s|
    requires forall j :: pos <= j < n ==> InLine(s[j])
    requires n == |s| || !InLine(s[n])
    ensures LineEnd(s, pos) == n
    decreases n - pos
  {
    if pos < n {
      LineEndAt(s, pos + 1, n);
    }
  }

  /** Every field holds field characters only. */
  lemma FieldsChars(s: string)
    ensures forall k, j :: 0 <= k < |Fields(s)| && 0 <= j < |Fields(s)[k]| ==> IsField(Fields(s)[k][j])
  {
    SplitFieldChars(s[..LineEnd(s, 0)]);
  }

  /** One step of the scanner's walk: the field at `pos` is the first part of what
      remains of the line, and a ',' right after it is exactly when more parts follow. */
  lemma FieldStep(s: string, pos: nat)
    requires pos <= LineEnd(s, 0)
    ensures FieldEnd(s, pos) <= LineEnd(s, 0)
    ensures var e, n := FieldEnd(s, pos), LineEnd(s, 0);
      && (e < n <==> (e < |s| && s[e] == ','))
      && Split(s[pos..n]) == [s[pos..e]] + (if e < n then Split(s[e + 1..n]) else [])
  {
    var e, n := FieldEnd(s, pos), LineEnd(s, 0);
    assert e <= n;
    assert e < n <==> (e < |s| && s[e] == ',') by {
      if e < n {
        assert InLine(s[e]);
      }
    }
    assert Split(s[pos..n]) == [s[pos..e]] + (if e < n then Split(s[e + 1..n]) else []) by {
      FirstComma(s, pos, e, n);
      SplitAtComma(s, pos, e, n);
    }
  }

  /** Cutting s[pos..n] at its first ',', found at e (or nowhere, when e is n). */
  lemma SplitAtComma(s: string, pos: nat, e: nat, n: nat)
    requires pos <= e <= n <= |s| && IndexOf(s[pos..n], ',') == e - pos
    ensures Split(s[pos..n]) == [s[pos..e]] + (if e < n then Split(s[e + 1..n]) else [])
  {
    var x := s[pos..n];
    SplitOnce(x, e - pos);
    if e < n {
      SliceOfSlice(s, pos, e, n);
      var head, rest := x[..e - pos], x[e - pos + 1..];
      assert Split(x) == [head] + Split(rest);
    } else {
      assert x == s[pos..e];
    }
  }

  /** One cut of Split, at the first ','. */
  lemma SplitOnce(x: string, i: nat)
    requires i == IndexOf(x, ',')
    ensures i == |x| ==> Split(x) == [x]
    ensures i < |x| ==> Split(x) == [x[..i]] + Split(x[i + 1..])
  {
  }

  lemma SliceOfSlice(s: string, pos: nat, e: nat, n: nat)
    requires pos <= e < n <= |s|
    ensures s[pos..n][..e - pos] == s[pos..e] && s[pos..n][e - pos + 1..] == s[e + 1..n]
  {
  }

  /** Within the line, the first ',' after `pos` is where the field ends, if anywhere. */
  lemma FirstComma(s: string, pos: nat, e: nat, n: nat)
    requires pos <= e <= n <= |s| && e == FieldEnd(s, pos)
    requires e < n ==> s[e] == ','
    ensures IndexOf(s[pos..n], ',') == e - pos
  {
    var x := s[pos..n];
    forall j | 0 <= j < e - pos
      ensures x[j] != ','
    {
      assert x[j] == s[pos + j];
    }
    if e < n {
      assert x[e - pos] == ',';
    }
    IndexOfIs(x, ',', e - pos);
  }

  /** The scanner's cursor invariant: the line from `pos` on splits into fields[i..]. */
  predicate AtField(s: string, pos: nat, fields: seq<string>, i: nat) {
    pos <= LineEnd(s, 0) && i < |fields| && Split(s[pos..LineEnd(s, 0)]) == fields[i..]
  }

  /** The cursor invariant carried over one field: the field at `pos` is fields[i],
      and the line after its ',' (if there is one) splits into fields[i + 1..]. */
  lemma FieldWalk(s: string, pos: nat, e: nat, fields: seq<string>, i: nat)
    requires AtField(s, pos, fields, i) && e == FieldEnd(s, pos)
    ensures e <= LineEnd(s, 0) && fields[i] == s[pos..e]
    ensures e < |s| && s[e] == ',' ==> AtField(s, e + 1, fields, i + 1)
    ensures !(e < |s| && s[e] == ',') ==> i + 1 == |fields|
  {
    var n := LineEnd(s, 0);
    var next := if e < n then Split(s[e + 1..n]) else [];
    assert e <= n && (e < n <==> (e < |s| && s[e] == ',')) && fields[i..] == [s[pos..e]] + next by {
      FieldStep(s, pos);
    }
    assert fields[i..][0] == fields[i];
    assert fields[i..][1..] == fields[i + 1..];
  }


}
