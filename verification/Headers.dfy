/** Request header fields: the lines of a header section, and the scanner that finds one. */
module Headers {
  import opened Bytes

  const CR: byte := 13
  const LF: byte := 10
  const COLON: byte := 58
  const SP: byte := 32
  const TAB: byte := 9

  /** A CRLF starts at i. */
  predicate CrlfAt(t: seq<byte>, i: nat)
  {
    i + 2 <= |t| && t[i] == CR && t[i + 1] == LF
  }

  /** A header section: text free of NUL up to and including its blank line. */
  predicate Section(t: seq<byte>)
  {
    && |t| >= 4 && CrlfAt(t, |t| - 4) && CrlfAt(t, |t| - 2)
    && forall i :: 0 <= i < |t| ==> t[i] != 0
  }

  /** Where a line may start. */
  predicate LineStart(t: seq<byte>, i: nat)
  {
    i + 4 <= |t| || i + 2 == |t|
  }

  /** strstr(&t[i], "\r\n") on a section. */
  function NextCrlf(t: seq<byte>, i: nat): (j: nat)
    requires Section(t) && i + 2 <= |t|
    ensures i <= j && CrlfAt(t, j) && forall k :: i <= k < j ==> !CrlfAt(t, k)
    ensures i + 4 <= |t| ==> j + 4 <= |t|
    decreases |t| - i
  {
    if CrlfAt(t, i) then i else NextCrlf(t, i + 1)
  }

  /** The lines from i on, up to the first empty one. */
  function Lines(t: seq<byte>, i: nat): seq<seq<byte>>
    requires Section(t) && LineStart(t, i)
    decreases |t| - i
  {
    var j := NextCrlf(t, i);
    if j == i then [] else [t[i..j]] + Lines(t, j + 2)
  }

  /** The field lines: all lines but the request line. */
  function FieldLines(t: seq<byte>): seq<seq<byte>>
    requires Section(t)
  {
    Lines(t, NextCrlf(t, 0) + 2)
  }

  function ToLower(c: byte): byte
  {
    if 65 <= c <= 90 then c + 32 else c
  }

  /** The same octet, or the same letter in its two cases: 32 apart, the capital in 65..90. */
  predicate SameLetter(a: byte, b: byte)
  {
    a == b || (65 <= a <= 90 && b == a + 32) || (65 <= b <= 90 && a == b + 32)
  }

  predicate SameText(s: seq<byte>, t: seq<byte>)
  {
    |s| == |t| && forall i :: 0 <= i < |s| ==> SameLetter(s[i], t[i])
  }

  lemma LowerIsSame(a: byte, b: byte)
    ensures ToLower(a) == ToLower(b) <==> SameLetter(a, b)
  {
  }

  lemma SameAsSame(s: seq<byte>, t: seq<byte>, u: seq<byte>)
    requires SameText(t, u)
    ensures SameText(s, t) <==> SameText(s, u)
  {
  }

  /** The position of the first colon, or the length. */
  function Colon(l: seq<byte>): (c: nat)
    ensures c <= |l| && (c < |l| ==> l[c] == COLON) && forall k :: 0 <= k < c ==> l[k] != COLON
  {
    if |l| == 0 || l[0] == COLON then 0 else 1 + Colon(l[1..])
  }

  /** The text before the colon is the name, whatever its case. */
  predicate Names(l: seq<byte>, name: seq<byte>)
  {
    Colon(l) < |l| && SameText(l[..Colon(l)], name)
  }

  predicate Blank(c: byte)
  {
    c == SP || c == TAB
  }

  function TrimLeft(s: seq<byte>): seq<byte>
  {
    if |s| > 0 && Blank(s[0]) then TrimLeft(s[1..]) else s
  }

  function TrimRight(s: seq<byte>): seq<byte>
  {
    if |s| > 0 && Blank(s[|s| - 1]) then TrimRight(s[..|s| - 1]) else s
  }

  function ValueOf(l: seq<byte>): seq<byte>
    requires Colon(l) < |l|
  {
    TrimRight(TrimLeft(l[Colon(l) + 1..]))
  }

  /** The value of the first line that names the field. */
  function Field(lines: seq<seq<byte>>, name: seq<byte>): Option<seq<byte>>
  {
    if |lines| == 0 then None
    else if Names(lines[0], name) then Some(ValueOf(lines[0]))
    else Field(lines[1..], name)
  }

  /** The case of a name makes no difference. */
  lemma {:induction false} FieldAnyCase(lines: seq<seq<byte>>, name: seq<byte>, other: seq<byte>)
    requires SameText(name, other)
    ensures Field(lines, name) == Field(lines, other)
    ensures forall l :: Names(l, name) <==> Names(l, other)
  {
    hide SameText, ValueOf;
    forall l
      ensures Names(l, name) <==> Names(l, other)
    {
      SameAsSame(l[..Colon(l)], name, other);
    }
    if |lines| > 0 {
      FieldAnyCase(lines[1..], name, other);
    }
  }

  /** The names the server looks for. */
  predicate FieldName(name: seq<byte>)
  {
    forall i :: 0 <= i < |name| ==> name[i] != CR && name[i] != COLON
  }

  /** ascii_case_equal on the line that starts at i and ends at j: it stops at a mismatch, at the
      latest at the carriage return. */
  method CaseEqual(t: seq<byte>, i: nat, name: seq<byte>, ghost j: nat) returns (equal: bool)
    requires i <= j < |t| && t[j] == CR && FieldName(name)
    ensures equal <==> i + |name| <= j && SameText(t[i..i + |name|], name)
  {
    var k := 0;
    while k < |name|
      invariant 0 <= k <= |name| && i + k <= j
      invariant forall m :: 0 <= m < k ==> SameLetter(t[i + m], name[m])
    {
      LowerIsSame(t[i + k], name[k]);
      if ToLower(t[i + k]) != ToLower(name[k]) {
        assert i + |name| <= j ==> t[i..i + |name|][k] == t[i + k];
        return false;
      }
      k := k + 1;
    }
    equal := true;
  }

  lemma ColonIs(l: seq<byte>, n: nat, name: seq<byte>)
    requires FieldName(name) && n == |name| < |l| && SameText(l[..n], name) && l[n] == COLON
    ensures Colon(l) == n
  {
    forall k | 0 <= k < n
      ensures l[k] != COLON
    {
      assert SameLetter(l[..n][k], name[k]);
    }
  }

  lemma NamesByPrefix(l: seq<byte>, name: seq<byte>)
    requires FieldName(name)
    ensures Names(l, name) <==> |name| < |l| && SameText(l[..|name|], name) && l[|name|] == COLON
  {
    if |name| < |l| && SameText(l[..|name|], name) && l[|name|] == COLON {
      ColonIs(l, |name|, name);
    }
  }

  lemma FieldStep(t: seq<byte>, i: nat, name: seq<byte>)
    requires Section(t) && i + 4 <= |t| && !CrlfAt(t, i)
    ensures var j := NextCrlf(t, i);
      LineStart(t, j + 2) &&
      Field(Lines(t, i), name) ==
        if Names(t[i..j], name) then Some(ValueOf(t[i..j])) else Field(Lines(t, j + 2), name)
  {
    var j := NextCrlf(t, i);
    assert Lines(t, i) == [t[i..j]] + Lines(t, j + 2);
    assert Lines(t, i)[1..] == Lines(t, j + 2);
  }

  /** find_header_value: the position of the value after its leading blanks. */
  method FindHeaderValue(t: seq<byte>, name: seq<byte>) returns (value: Option<nat>)
    requires Section(t) && FieldName(name)
    ensures value.None? <==> Field(FieldLines(t), name).None?
    ensures value.Some? ==>
      value.value + 4 <= |t| &&
      Field(FieldLines(t), name) == Some(TrimRight(t[value.value..NextCrlf(t, value.value)]))
  {
    hide Names, ValueOf, TrimRight, Lines, Field;
    var line := NextCrlf(t, 0);
    while true
      invariant line + 4 <= |t| && CrlfAt(t, line)
      invariant Field(FieldLines(t), name) == Field(Lines(t, line + 2), name)
      decreases |t| - line
    {
      line := line + 2;
      if CrlfAt(t, line) {
        NoLines(t, line, name);
        return None;
      }
      FieldStep(t, line, name);
      value := MatchLine(t, line, name);
      if value.Some? {
        return;
      }
      line := NextCrlf(t, line);
    }
  }

  lemma NoLines(t: seq<byte>, i: nat, name: seq<byte>)
    requires Section(t) && LineStart(t, i) && CrlfAt(t, i)
    ensures Field(Lines(t, i), name) == None
  {
  }

  /** The test of one line, and the pointer returned if it matches. */
  method MatchLine(t: seq<byte>, line: nat, name: seq<byte>) returns (value: Option<nat>)
    requires Section(t) && FieldName(name) && line + 4 <= |t| && !CrlfAt(t, line)
    ensures var j := NextCrlf(t, line);
      && (value.Some? <==> Names(t[line..j], name))
      && (value.Some? ==> value.value <= j && NextCrlf(t, value.value) == j &&
                          TrimRight(t[value.value..j]) == ValueOf(t[line..j]))
  {
    hide SameText, TrimLeft, TrimRight;
    ghost var j := NextCrlf(t, line);
    ghost var l := t[line..j];
    NamesByPrefix(l, name);
    var equal := CaseEqual(t, line, name, j);
    assert |name| <= |l| ==> l[..|name|] == t[line..line + |name|];
    assert |name| < |l| ==> l[|name|] == t[line + |name|];
    assert t[j] == CR;
    if equal && t[line + |name|] == COLON {
      assert Colon(l) == |name| by { ColonIs(l, |name|, name); }
      assert l[|name| + 1..] == t[line + |name| + 1..j];
      var v := SkipBlanks(t, line + |name| + 1, j);
      return Some(v);
    }
    value := None;
  }

  /** The skip over leading blanks, which stops at the end of the line. */
  method SkipBlanks(t: seq<byte>, from: nat, ghost j: nat) returns (v: nat)
    requires Section(t) && from <= j && j + 4 <= |t| && CrlfAt(t, j)
    requires forall k :: from <= k < j ==> !CrlfAt(t, k)
    ensures from <= v <= j && TrimLeft(t[from..j]) == t[v..j] && NextCrlf(t, v) == j
  {
    v := from;
    while t[v] == SP || t[v] == TAB
      invariant from <= v <= j
      invariant TrimLeft(t[from..j]) == TrimLeft(t[v..j])
      decreases j - v
    {
      assert t[v..j][1..] == t[v + 1..j];
      v := v + 1;
    }
  }

  /** header_value_len: the value up to its trailing blanks. */
  method HeaderValueLen(t: seq<byte>, value: nat) returns (len: nat)
    requires Section(t) && value + 2 <= |t|
    ensures value + len <= |t| && t[value..value + len] == TrimRight(t[value..NextCrlf(t, value)])
  {
    var end := NextCrlf(t, value);
    ghost var line := t[value..end];
    while end > value && (t[end - 1] == SP || t[end - 1] == TAB)
      invariant value <= end <= |t| && TrimRight(line) == TrimRight(t[value..end])
    {
      assert t[value..end][..end - value - 1] == t[value..end - 1];
      end := end - 1;
    }
    len := end - value;
  }
}
