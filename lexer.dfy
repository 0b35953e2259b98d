/**
 * `splitToTokens`: cuts one source line into tokens, left to right, by
 * trying the definition table at each position; the first definition that
 * matches wins.
 */
module Lexer {
  import opened Common
  import opened Diagnostics
  import opened Token
  import opened JsText

  /** `Expected<TokenInfo[], Diagnostic>`; `errors` is empty where the source leaves it undefined. */
  datatype LexResult = LexResult(success: bool, value: seq<TokenInfo>, errors: seq<Diagnostic>)

  /** Outcome of the scan from some position on: all text consumed, or stuck at a position. */
  datatype Split = Done(tokens: seq<TokenInfo>) | Stuck(tokens: seq<TokenInfo>, at: nat)

  function Prepend(t: TokenInfo, s: Split): Split
  {
    match s
    case Done(ts) => Done([t] + ts)
    case Stuck(ts, at) => Stuck([t] + ts, at)
  }

  function PrependAll(ts: seq<TokenInfo>, s: Split): Split
  {
    match s
    case Done(us) => Done(ts + us)
    case Stuck(us, at) => Stuck(ts + us, at)
  }

  /** The token that the first matching definition makes at `index`, if any. */
  function TokenAt(defs: seq<TokenDefinition>, line: string, lineNumber: int, index: nat): (r: Option<TokenInfo>)
    requires index < |line|
    ensures r.Some? ==> r.value.startIndex == index && index < r.value.endIndex <= |line|
    ensures r.Some? ==> r.value.value == line[index..r.value.endIndex] && r.value.line == lineNumber
  {
    match FirstMatchIndex(defs, line[index..])
    case None => None
    case Some(j) =>
      var len := Match(defs[j].pattern, line[index..]).value;
      Some(TokenInfo(line[index..index + len], defs[j].tokenType, lineNumber, index, index + len))
  }

  /** The scan from `index` to the end of the line. */
  function SplitFrom(defs: seq<TokenDefinition>, line: string, lineNumber: int, index: nat): Split
    requires index <= |line|
    decreases |line| - index
  {
    if index == |line| then Done([])
    else match TokenAt(defs, line, lineNumber, index)
      case None => Stuck([], index)
      case Some(t) => Prepend(t, SplitFrom(defs, line, lineNumber, t.endIndex))
  }

  function ToResult(s: Split, lineNumber: int): LexResult
  {
    match s
    case Done(ts) => LexResult(true, ts, [])
    case Stuck(ts, at) => LexResult(false, ts, [PlainDiagnostic(lineNumber, at, MaxValue, InvalidInstructionLine)])
  }

  /** What `splitToTokens(line, lineNumber)` returns. */
  function SplitToTokensSpec(defs: seq<TokenDefinition>, line: string, lineNumber: int): LexResult
  {
    ToResult(SplitFrom(defs, line, lineNumber, 0), lineNumber)
  }

  /** `tryMatch`: tries the definitions in order and builds the token of the first that matches. */
  method TryMatch(defs: seq<TokenDefinition>, line: string, currentIndex: nat, lineNumber: int)
    returns (matched: bool, newIndex: nat, token: TokenInfo)
    requires currentIndex < |line|
    ensures matched <==> TokenAt(defs, line, lineNumber, currentIndex).Some?
    ensures matched ==> token == TokenAt(defs, line, lineNumber, currentIndex).value && newIndex == token.endIndex
    ensures !matched ==> newIndex == currentIndex
  {
    var rest := line[currentIndex..];
    token := TokenInfo([], TUNKNOWN, lineNumber, -1, -1);
    for i := 0 to |defs|
      invariant forall k :: 0 <= k < i ==> Match(defs[k].pattern, rest).None?
    {
      var m := Match(defs[i].pattern, rest);
      if m.Some? {
        assert FirstMatchIndex(defs, rest) == Some(i);
        var len := m.value;
        token := TokenInfo(rest[..len], defs[i].tokenType, lineNumber, currentIndex, currentIndex + len);
        assert rest[..len] == line[currentIndex..currentIndex + len];
        return true, currentIndex + len, token;
      }
    }
    return false, currentIndex, token;
  }

  /** `splitToTokens` */
  method SplitToTokens(defs: seq<TokenDefinition>, line: string, lineNumber: int) returns (r: LexResult)
    ensures r == SplitToTokensSpec(defs, line, lineNumber)
  {
    var result: seq<TokenInfo> := [];
    var index: nat := 0;
    while index < |line|
      invariant index <= |line|
      invariant PrependAll(result, SplitFrom(defs, line, lineNumber, index)) == SplitFrom(defs, line, lineNumber, 0)
      decreases |line| - index
    {
      var matched, newIndex, token := TryMatch(defs, line, index, lineNumber);
      if matched {
        ghost var tail := SplitFrom(defs, line, lineNumber, newIndex);
        assert SplitFrom(defs, line, lineNumber, index) == Prepend(token, tail);
        assert PrependAll(result + [token], tail) == PrependAll(result, Prepend(token, tail)) by {
          match tail {
            case Done(us) => assert result + [token] + us == result + ([token] + us);
            case Stuck(us, at) => assert result + [token] + us == result + ([token] + us);
          }
        }
        result := result + [token];
        index := newIndex;
      } else {
        assert result + [] == result;
        return LexResult(false, result, [PlainDiagnostic(lineNumber, index, MaxValue, InvalidInstructionLine)]);
      }
    }
    assert result + [] == result;
    return LexResult(true, result, []);
  }

  function Concat(ts: seq<TokenInfo>): string
  {
    if ts == [] then [] else ts[0].value + Concat(ts[1..])
  }

  /**
   * The tokens `ts` cover `line[from..to]` exactly: each one starts where the
   * previous one ended, its text is the line between its bounds, it carries
   * the line number, and its kind and length are those of the first
   * definition that matches at its start.
   */
  ghost predicate CoversSpan(defs: seq<TokenDefinition>, line: string, lineNumber: int, ts: seq<TokenInfo>, from: nat, to: nat)
  {
    Chained(defs, line, lineNumber, ts, from, to) && Concat(ts) == line[from..to]
  }

  /** `CoversSpan` without the text: the spans chain from `from` to `to`, each token made by the first matching definition. */
  ghost predicate Chained(defs: seq<TokenDefinition>, line: string, lineNumber: int, ts: seq<TokenInfo>, from: nat, to: nat)
  {
    from <= to <= |line| &&
    (ts == [] ==> from == to) &&
    (ts != [] ==> ts[0].startIndex == from && ts[|ts| - 1].endIndex == to) &&
    (forall i :: 0 <= i < |ts| - 1 ==> ts[i + 1].startIndex == ts[i].endIndex) &&
    (forall i :: 0 <= i < |ts| ==> 0 <= ts[i].startIndex < |line| && TokenAt(defs, line, lineNumber, ts[i].startIndex) == Some(ts[i]))
  }

  lemma ConsCovers(defs: seq<TokenDefinition>, line: string, lineNumber: int, t: TokenInfo, ts: seq<TokenInfo>, from: nat, to: nat)
    requires from < |line| && TokenAt(defs, line, lineNumber, from) == Some(t)
    requires CoversSpan(defs, line, lineNumber, ts, t.endIndex, to)
    ensures CoversSpan(defs, line, lineNumber, [t] + ts, from, to)
  {
    var us := [t] + ts;
    assert us[1..] == ts;
    assert t.value == line[from..t.endIndex];
    assert line[from..to] == line[from..t.endIndex] + line[t.endIndex..to];
    forall i | 0 <= i < |us| - 1 ensures us[i + 1].startIndex == us[i].endIndex {
      if i > 0 { assert us[i + 1] == ts[i] && us[i] == ts[i - 1]; }
    }
    forall i | 0 <= i < |us| ensures 0 <= us[i].startIndex < |line| && TokenAt(defs, line, lineNumber, us[i].startIndex) == Some(us[i]) {
      if i > 0 { assert us[i] == ts[i - 1]; }
    }
  }

  /** What the scan from `index` produces, in either outcome. */
  lemma {:induction false} SplitFromCovers(defs: seq<TokenDefinition>, line: string, lineNumber: int, index: nat)
    requires index <= |line|
    ensures SplitFrom(defs, line, lineNumber, index).Done? ==>
      CoversSpan(defs, line, lineNumber, SplitFrom(defs, line, lineNumber, index).tokens, index, |line|)
    ensures SplitFrom(defs, line, lineNumber, index).Stuck? ==>
      var at := SplitFrom(defs, line, lineNumber, index).at;
      index <= at < |line| && TokenAt(defs, line, lineNumber, at).None? &&
      CoversSpan(defs, line, lineNumber, SplitFrom(defs, line, lineNumber, index).tokens, index, at)
    decreases |line| - index
  {
    if index < |line| {
      match TokenAt(defs, line, lineNumber, index)
      case None =>
      case Some(t) =>
        SplitFromCovers(defs, line, lineNumber, t.endIndex);
        var tail := SplitFrom(defs, line, lineNumber, t.endIndex);
        match tail {
          case Done(us) => ConsCovers(defs, line, lineNumber, t, us, index, |line|);
          case Stuck(us, at) => ConsCovers(defs, line, lineNumber, t, us, index, at);
        }
    }
  }

  /**
   * A successful split covers the whole line: token texts concatenate to the
   * line, the first token starts at 0, each starts where the previous ended,
   * the last ends at the line's length, every token carries `lineNumber`,
   * and each takes the kind of the first definition matching at its start.
   */
  lemma SplitSuccess(defs: seq<TokenDefinition>, line: string, lineNumber: int)
    requires SplitToTokensSpec(defs, line, lineNumber).success
    ensures var r := SplitToTokensSpec(defs, line, lineNumber);
      r.errors == [] && CoversSpan(defs, line, lineNumber, r.value, 0, |line|) && Concat(r.value) == line
    ensures forall t :: t in SplitToTokensSpec(defs, line, lineNumber).value ==>
      t.line == lineNumber && t.endIndex == t.startIndex + |t.value|
  {
    SplitFromCovers(defs, line, lineNumber, 0);
    assert line[0..|line|] == line;
    CoveredTokensCarryLine(defs, line, lineNumber, SplitToTokensSpec(defs, line, lineNumber).value, 0, |line|);
  }

  /** Tokens covering a span carry the line number, and each ends its own text's length after its start. */
  lemma CoveredTokensCarryLine(defs: seq<TokenDefinition>, line: string, lineNumber: int, ts: seq<TokenInfo>, from: nat, to: nat)
    requires CoversSpan(defs, line, lineNumber, ts, from, to)
    ensures forall t :: t in ts ==> t.line == lineNumber && t.endIndex == t.startIndex + |t.value|
  {
    forall t | t in ts ensures t.line == lineNumber && t.endIndex == t.startIndex + |t.value| {
      var i :| 0 <= i < |ts| && ts[i] == t;
    }
  }

  /**
   * A failed split reports exactly one `Invalid_instruction_line` diagnostic
   * that starts at the first position where no definition matches and ends
   * at `Number.MAX_VALUE`; `value` holds the tokens before that position.
   */
  lemma SplitFailure(defs: seq<TokenDefinition>, line: string, lineNumber: int)
    requires !SplitToTokensSpec(defs, line, lineNumber).success
    ensures var r := SplitToTokensSpec(defs, line, lineNumber);
      |r.errors| == 1 &&
      var at := r.errors[0].startIndex;
      0 <= at < |line| &&
      (forall k :: 0 <= k < |defs| ==> Match(defs[k].pattern, line[at..]).None?) &&
      CoversSpan(defs, line, lineNumber, r.value, 0, at) &&
      r.errors[0] == CreateDiagnostic(lineNumber, at, MaxValue, InvalidInstructionLine, []) &&
      r.errors[0].endIndex == MaxValue && r.errors[0].code == InvalidInstructionLine.code
  {
    SplitFromCovers(defs, line, lineNumber, 0);
    var r := SplitToTokensSpec(defs, line, lineNumber);
    PlainIsCreated(lineNumber, r.errors[0].startIndex, MaxValue, InvalidInstructionLine);
  }

  /** An empty line splits into no token at all. */
  lemma SplitEmptyLine(defs: seq<TokenDefinition>, lineNumber: int)
    ensures SplitToTokensSpec(defs, "", lineNumber) == LexResult(true, [], [])
  {
  }

  /** The first definition that matches is the one at `j` when it matches and none before it does. */
  lemma FirstMatchAt(defs: seq<TokenDefinition>, rest: string, j: nat)
    requires j < |defs| && Match(defs[j].pattern, rest).Some?
    requires forall k :: 0 <= k < j ==> Match(defs[k].pattern, rest).None?
    ensures FirstMatchIndex(defs, rest) == Some(j)
  {
  }

  /**
   * A definition list with a comment definition and a mnemonic definition
   * ahead of the table of token.ts, so that a mnemonic is not taken as a
   * label.
   */
  const CommentMnemonicDefinitions: seq<TokenDefinition> :=
    [TokenDefinition(TCOMMENT, CommentPattern), TokenDefinition(TINSTRUCTION, MnemonicPattern(["LAD"]))] + TokenDefinitions

  const LabelMnemonicLine: string := "L1 LAD ;C"

  /**
   * The converse of `SplitFromCovers` for a scan that reaches the end:
   * tokens chained from `from` to the end of the line, each made by the
   * first definition matching at its start, are exactly what the scan
   * returns.
   */
  lemma {:induction false} CoverIsSplit(defs: seq<TokenDefinition>, line: string, lineNumber: int, ts: seq<TokenInfo>, from: nat)
    requires Chained(defs, line, lineNumber, ts, from, |line|)
    ensures SplitFrom(defs, line, lineNumber, from) == Done(ts)
    decreases |ts|
  {
    if ts != [] {
      var t, us := ts[0], ts[1..];
      assert TokenAt(defs, line, lineNumber, from) == Some(t);
      forall i | 0 <= i < |us| - 1 ensures us[i + 1].startIndex == us[i].endIndex {
        assert us[i + 1] == ts[i + 2] && us[i] == ts[i + 1];
      }
      forall i | 0 <= i < |us| ensures 0 <= us[i].startIndex < |line| && TokenAt(defs, line, lineNumber, us[i].startIndex) == Some(us[i]) {
        assert us[i] == ts[i + 1];
      }
      if us != [] {
        assert us[0].startIndex == t.endIndex;
        assert us[|us| - 1] == ts[|ts| - 1];
      }
      CoverIsSplit(defs, line, lineNumber, us, t.endIndex);
    }
  }

  /** A split succeeds with `ts` exactly when `ts` covers the whole line by first-match tokens. */
  lemma SplitIffCovers(defs: seq<TokenDefinition>, line: string, lineNumber: int, ts: seq<TokenInfo>)
    ensures SplitToTokensSpec(defs, line, lineNumber) == LexResult(true, ts, []) <==> CoversSpan(defs, line, lineNumber, ts, 0, |line|)
  {
    if SplitToTokensSpec(defs, line, lineNumber) == LexResult(true, ts, []) {
      SplitSuccess(defs, line, lineNumber);
    }
    if CoversSpan(defs, line, lineNumber, ts, 0, |line|) {
      CoverIsSplit(defs, line, lineNumber, ts, 0);
    }
  }

  const LabelMnemonicTokens: seq<TokenInfo> := [
    TokenInfo("L1", TLABEL, 1, 0, 2), TokenInfo(" ", TSPACE, 1, 2, 3), TokenInfo("LAD", TINSTRUCTION, 1, 3, 6),
    TokenInfo(" ", TSPACE, 1, 6, 7), TokenInfo(";C", TCOMMENT, 1, 7, 9)]

  /**
   * With such a list, a line holding a label, a mnemonic and a comment
   * splits into TLABEL, TSPACE, TINSTRUCTION, TSPACE and TCOMMENT tokens,
   * the comment running to the end of the line.
   */
  lemma LabelMnemonicComment()
    ensures SplitToTokensSpec(CommentMnemonicDefinitions, LabelMnemonicLine, 1) == LexResult(true, LabelMnemonicTokens, [])
    ensures |LabelMnemonicTokens| == 5 && LabelMnemonicTokens[0].tokenType == TLABEL
    ensures LabelMnemonicTokens[2].tokenType == TINSTRUCTION && LabelMnemonicTokens[4].tokenType == TCOMMENT
  {
    var defs, line, ts := CommentMnemonicDefinitions, LabelMnemonicLine, LabelMnemonicTokens;
    LabelMnemonicLabel();
    LabelMnemonicSpace(2);
    LabelMnemonicMnemonic();
    LabelMnemonicSpace(6);
    LabelMnemonicTail();
    forall i | 0 <= i < |ts| ensures 0 <= ts[i].startIndex < |line| && TokenAt(defs, line, 1, ts[i].startIndex) == Some(ts[i]) {
      assert i == 0 || i == 1 || i == 2 || i == 3 || i == 4;
    }
    CoverIsSplit(defs, line, 1, ts, 0);
  }

  lemma LabelMnemonicLabel()
    ensures TokenAt(CommentMnemonicDefinitions, LabelMnemonicLine, 1, 0) == Some(LabelMnemonicTokens[0])
  {
    var defs, line := CommentMnemonicDefinitions, LabelMnemonicLine;
    assert line[0..] == line;
    assert Match(defs[0].pattern, line) == None;
    assert MnemonicAt(["LAD"], line) == None;
    assert Match(defs[2].pattern, line) == Some(2) by {
      assert Run(line, 1, IsUpperOrDigit) == 1 + Run(line, 2, IsUpperOrDigit);
      assert Run(line, 2, IsUpperOrDigit) == 0;
    }
    FirstMatchAt(defs, line, 2);
    assert line[0..2] == "L1";
  }

  /** A single white-space character before a non-space one is taken by the space definition. */
  lemma OneSpace(rest: string)
    requires |rest| >= 2 && rest[0] == ' ' && rest[1] != ' ' && !IsWhiteSpace(rest[1])
    ensures FirstMatchIndex(CommentMnemonicDefinitions, rest) == Some(4)
    ensures Match(CommentMnemonicDefinitions[4].pattern, rest) == Some(1)
  {
    var defs := CommentMnemonicDefinitions;
    assert MnemonicAt(["LAD"], rest) == None;
    assert Match(defs[4].pattern, rest) == Some(1) by {
      assert Run(rest, 0, IsWhiteSpace) == 1 + Run(rest, 1, IsWhiteSpace);
      assert Run(rest, 1, IsWhiteSpace) == 0;
    }
    FirstMatchAt(defs, rest, 4);
  }

  lemma LabelMnemonicSpace(i: nat)
    requires i == 2 || i == 6
    ensures TokenAt(CommentMnemonicDefinitions, LabelMnemonicLine, 1, i) == Some(LabelMnemonicTokens[if i == 2 then 1 else 3])
  {
    var line := LabelMnemonicLine;
    OneSpace(line[i..]);
    assert line[i..i + 1] == " ";
  }
  lemma LabelMnemonicMnemonic()
    ensures TokenAt(CommentMnemonicDefinitions, LabelMnemonicLine, 1, 3) == Some(LabelMnemonicTokens[2])
  {
    var defs, line := CommentMnemonicDefinitions, LabelMnemonicLine;
    assert line[3..] == "LAD ;C";
    assert Match(defs[0].pattern, line[3..]) == None;
    var rest := line[3..];
    assert rest[..3] == "LAD" && WordBoundary(rest, 3);
    assert Match(defs[1].pattern, rest) == Some(3);
    FirstMatchAt(defs, rest, 1);
    assert line[3..6] == "LAD";
  }

  lemma LabelMnemonicTail()
    ensures TokenAt(CommentMnemonicDefinitions, LabelMnemonicLine, 1, 7) == Some(LabelMnemonicTokens[4])
  {
    var defs, line := CommentMnemonicDefinitions, LabelMnemonicLine;
    assert line[7..] == ";C";
    var rest := line[7..];
    assert Run(rest, 1, IsNotLineTerminator) == 1 + Run(rest, 2, IsNotLineTerminator);
    assert Match(defs[0].pattern, rest) == Some(2);
    FirstMatchAt(defs, rest, 0);
    assert line[7..9] == ";C";
  }
}
