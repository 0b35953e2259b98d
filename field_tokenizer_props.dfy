/** What the older `splitToTokens` guarantees about the fields it returns and the lines it refuses. */
module FieldTokenizerProperties {
  import opened Common
  import opened JsText
  import opened Token
  import opened FieldTokenizer

  /**
   * The first field returned is the leading run of characters that are
   * neither white space nor a comma of the trimmed line, and it is never
   * empty; a trimmed line that does not start with such a character is
   * refused.
   */
  lemma FirstFieldIsLeadingRun(line: string, lineNumber: int)
    ensures var t := Trim(line);
      var k := Run(t, 0, IsFieldChar);
      (k == 0 ==> SplitToTokensSpec(line, lineNumber).Failed?)
      && (SplitToTokensSpec(line, lineNumber).Fields? ==>
            k >= 1 && |SplitToTokensSpec(line, lineNumber).fields| >= 1
            && SplitToTokensSpec(line, lineNumber).fields[0] == t[..k])
  {
    var t := Trim(line);
    var k := Run(t, 0, IsFieldChar);
    var r := SplitToTokensSpec(line, lineNumber);
    if k == 0 {
      assert FirstField(t).None?;
      assert HeadFields(line).None?;
    }
    if r.Fields? {
      assert FirstField(t).Some?;
      assert FirstField(t).value.0 == t[..k];
      var h := HeadFields(line).value;
      assert h.0[0] == t[..k];
      assert r.fields == h.0 + OperandTokens(h.1).value;
      assert r.fields[0] == h.0[0];
    }
  }

  /** A blank line (every character white space, the empty line included) is refused. */
  lemma BlankLineFails(line: string, lineNumber: int)
    requires forall i | 0 <= i < |line| :: IsWhiteSpace(line[i])
    ensures SplitToTokensSpec(line, lineNumber) == Failed(SplitError(lineNumber))
  {
    TrimEmptyIffBlank(line);
    assert Run(Trim(line), 0, IsFieldChar) == 0;
  }

  /** A line whose first non-blank character is a comma is refused. */
  lemma LeadingCommaFails(line: string, lineNumber: int)
    requires Trim(line) != [] && Trim(line)[0] == ','
    ensures SplitToTokensSpec(line, lineNumber) == Failed(SplitError(lineNumber))
  {
    assert Run(Trim(line), 0, IsFieldChar) == 0;
  }

  /** A comma directly after the first field, blanks aside, is refused. */
  lemma CommaAfterFirstFieldFails(line: string, lineNumber: int)
    requires var t := Trim(line);
      var rest := Trim(t[Run(t, 0, IsFieldChar)..]);
      rest != [] && rest[0] == ','
    ensures SplitToTokensSpec(line, lineNumber) == Failed(SplitError(lineNumber))
  {
  }

  /**
   * The second field, when the text after the first field has one followed
   * by blanks, is that field; the fields after it are the kept tokens of the
   * rest.
   */
  lemma SecondField(line: string, lineNumber: int)
    requires HeadFields(line).Some? && |HeadFields(line).value.0| == 2
    requires SplitToTokensSpec(line, lineNumber).Fields?
    ensures var t := Trim(line);
      var rest := Trim(t[Run(t, 0, IsFieldChar)..]);
      var f := Run(rest, 0, IsFieldChar);
      1 <= f < |rest| && IsWhiteSpace(rest[f])
      && SplitToTokensSpec(line, lineNumber).fields[1] == rest[..f]
      && SplitToTokensSpec(line, lineNumber).fields[2..] == OperandTokens(HeadFields(line).value.1).value
  {
    var h := HeadFields(line).value;
    var fs := SplitToTokensSpec(line, lineNumber).fields;
    assert fs == h.0 + OperandTokens(h.1).value;
    assert fs[2..] == OperandTokens(h.1).value;
  }

  /**
   * A token that starts with white space or a comma is one the scan drops:
   * the label and register patterns need a letter, and the space and comma
   * patterns come before every literal pattern in the table.
   */
  lemma SeparatorIsDropped(s: string)
    requires s != [] && (IsWhiteSpace(s[0]) || s[0] == ',')
    ensures NextPiece(s).Some? && Dropped(NextPiece(s).value.tokenType)
  {
    var defs := TokenDefinitions;
    assert Match(defs[0].pattern, s).None?;
    assert Match(defs[1].pattern, s).None?;
    if IsWhiteSpace(s[0]) {
      assert Match(defs[2].pattern, s).Some?;
      FirstMatchIndexIs(defs, s, 2);
    } else {
      assert Run(s, 0, IsWhiteSpace) == 0;
      assert Match(defs[2].pattern, s).None?;
      assert Match(defs[3].pattern, s).Some?;
      FirstMatchIndexIs(defs, s, 3);
    }
  }

  /** No kept token is empty or starts with white space or a comma: comma and space tokens never reach the output. */
  lemma {:induction false} NoSeparatorTokens(s: string)
    requires Pieces(s).Some?
    ensures forall t | t in Kept(Pieces(s).value) :: t != [] && !IsWhiteSpace(t[0]) && t[0] != ','
    decreases |s|
  {
    if s != [] {
      var p := NextPiece(s).value;
      var rest := s[|p.text|..];
      NoSeparatorTokens(rest);
      assert Pieces(s).value == [p] + Pieces(rest).value;
      if !Dropped(p.tokenType) {
        if IsWhiteSpace(s[0]) || s[0] == ',' {
          SeparatorIsDropped(s);
        }
        assert p.text[0] == s[0];
      }
      assert Pieces(s).value[1..] == Pieces(rest).value;
    }
  }

  /** The scanned tokens, dropped ones included, cover the operand text exactly and in order, none of them empty. */
  lemma {:induction false} PiecesCover(s: string)
    requires Pieces(s).Some?
    ensures Concat(Pieces(s).value) == s
    ensures forall i | 0 <= i < |Pieces(s).value| :: Pieces(s).value[i].text != []
    decreases |s|
  {
    if s != [] {
      var p := NextPiece(s).value;
      var rest := s[|p.text|..];
      PiecesCover(rest);
      var ps := Pieces(s).value;
      assert ps == [p] + Pieces(rest).value;
      assert ps[1..] == Pieces(rest).value;
      assert Concat(ps) == p.text + rest;
      assert p.text + rest == s;
    }
  }

  /** Operand text the scan refuses has a position where no definition matches. */
  lemma {:induction false} UnmatchedPositionFails(s: string)
    requires OperandTokens(s).None?
    ensures exists k | 0 <= k < |s| :: NextPiece(s[k..]).None?
    decreases |s|
  {
    assert s != [];
    if NextPiece(s).None? {
      assert s[0..] == s;
    } else {
      var n := |NextPiece(s).value.text|;
      UnmatchedPositionFails(s[n..]);
      var k :| 0 <= k < |s[n..]| && NextPiece(s[n..][k..]).None?;
      assert s[n..][k..] == s[n + k..];
    }
  }

  /** Every returned field is non-empty. */
  lemma FieldsNonEmpty(line: string, lineNumber: int)
    requires SplitToTokensSpec(line, lineNumber).Fields?
    ensures forall t | t in SplitToTokensSpec(line, lineNumber).fields :: t != []
  {
    FieldsOfSplit(line, lineNumber);
    var h := HeadFields(line).value;
    KeptNonEmpty(h.1);
    HeadNonEmpty(h.0);
    AppendNonEmpty(h.0, OperandTokens(h.1).value);
  }

  /** A successful split is the head fields followed by the kept operand tokens. */
  lemma FieldsOfSplit(line: string, lineNumber: int)
    requires SplitToTokensSpec(line, lineNumber).Fields?
    ensures HeadFields(line).Some? && OperandTokens(HeadFields(line).value.1).Some?
    ensures SplitToTokensSpec(line, lineNumber).fields == HeadFields(line).value.0 + OperandTokens(HeadFields(line).value.1).value
  {
  }

  lemma HeadNonEmpty(head: seq<string>)
    requires 1 <= |head| <= 2 && head[0] != [] && (|head| == 2 ==> head[1] != [])
    ensures forall t | t in head :: t != []
  {
  }

  lemma AppendNonEmpty(a: seq<string>, b: seq<string>)
    requires forall t | t in a :: t != []
    requires forall t | t in b :: t != []
    ensures forall t | t in a + b :: t != []
  {
  }

  /** The kept tokens of operand text that scans are all non-empty. */
  lemma KeptNonEmpty(arg: string)
    requires OperandTokens(arg).Some?
    ensures forall t | t in OperandTokens(arg).value :: t != []
  {
    NoSeparatorTokens(arg);
  }
}
