/**
 * The older `splitToTokens` of the field-splitting front end: it takes the
 * first field and the mnemonic field with two anchored patterns, then scans
 * the operand text with the token definition table, keeping the matched text
 * of every token except commas and white space.
 */
module FieldTokenizer {
  import opened Common
  import opened JsText
  import opened LexerResults
  import opened Token

  /** `[^\s,]` */
  predicate IsFieldChar(c: char)
  {
    !IsWhiteSpace(c) && c != ','
  }

  /** The characters `.` does not match: line feed, carriage return, line and paragraph separators. */
  predicate IsLineTerminator(c: char)
  {
    c == '\n' || c == '\r' || c == '\U{2028}' || c == '\U{2029}'
  }

  predicate NoLineTerminator(s: string)
  {
    forall i | 0 <= i < |s| :: !IsLineTerminator(s[i])
  }

  /** One scanned token of the operand text: its matched text and the kind of the definition that matched. */
  datatype Piece = Piece(text: string, tokenType: TokenType)

  /** The comma and white-space tokens are matched but not kept. */
  predicate Dropped(t: TokenType)
  {
    t == TCOMMA || t == TSPACE
  }

  /** The token at the start of `s`: the text and kind of the first definition that matches there. */
  function NextPiece(s: string): (r: Option<Piece>)
    ensures r.Some? ==> 1 <= |r.value.text| <= |s| && r.value.text == s[..|r.value.text|]
  {
    match FirstMatchIndex(TokenDefinitions, s)
    case None => None
    case Some(j) => Some(Piece(s[..Match(TokenDefinitions[j].pattern, s).value], TokenDefinitions[j].tokenType))
  }

  /** The scan of the operand text from its start; `None` when it reaches a position no definition matches. */
  function Pieces(s: string): (r: Option<seq<Piece>>)
    decreases |s|
  {
    if s == [] then Some([])
    else match NextPiece(s)
      case None => None
      case Some(p) =>
        match Pieces(s[|p.text|..])
        case None => None
        case Some(rest) => Some([p] + rest)
  }

  /** The texts of the kept pieces, in order. */
  function Kept(ps: seq<Piece>): seq<string>
  {
    if ps == [] then []
    else (if Dropped(ps[0].tokenType) then [] else [ps[0].text]) + Kept(ps[1..])
  }

  function Concat(ps: seq<Piece>): string
  {
    if ps == [] then [] else ps[0].text + Concat(ps[1..])
  }

  datatype Split = Fields(fields: seq<string>) | Failed(error: FrontError)

  function SplitError(lineNumber: int): FrontError
  {
    FrontError(lineNumber, "cannot split to tokens", None)
  }

  /**
   * The mnemonic field: `^([^\s,]+)\s+(.*)$` on the text after the first
   * field. When it matches, the field and the trimmed remainder; otherwise
   * no field and the whole text as operands.
   */
  function InstructionField(rest: string): (r: (seq<string>, string))
    ensures |r.0| <= 1
    ensures r.0 == [] ==> r.1 == rest
    ensures |r.0| == 1 ==> r.0[0] != []
  {
    var f := Run(rest, 0, IsFieldChar);
    if 1 <= f < |rest| && IsWhiteSpace(rest[f]) && NoLineTerminator(rest[f + Run(rest, f, IsWhiteSpace)..]) then
      ([rest[..f]], Trim(rest[f + Run(rest, f, IsWhiteSpace)..]))
    else ([], rest)
  }

  /**
   * The first anchored match, `^([^\s,]+)(.*)$`, on the trimmed line: the
   * leading field and the trimmed text after it; `None` when the line does
   * not start with a field character.
   */
  function FirstField(trim: string): (r: Option<(string, string)>)
    ensures r.Some? ==> 1 <= |r.value.0| <= |trim| && r.value.0 == trim[..|r.value.0|]
  {
    var k := Run(trim, 0, IsFieldChar);
    if k == 0 || !NoLineTerminator(trim[k..]) then None
    else Some((trim[..k], Trim(trim[k..])))
  }

  /**
   * The first two anchored matches: the label or mnemonic field, the
   * mnemonic field when one follows, and the operand text; `None` when the
   * line has no first field or a comma follows it.
   */
  function HeadFields(line: string): (r: Option<(seq<string>, string)>)
    ensures r.Some? ==> 1 <= |r.value.0| <= 2 && r.value.0[0] != [] && (|r.value.0| == 2 ==> r.value.0[1] != [])
  {
    match FirstField(Trim(line))
    case None => None
    case Some((first, rest)) =>
      if rest != [] && rest[0] == ',' then None
      else Some(([first] + InstructionField(rest).0, InstructionField(rest).1))
  }

  /** `splitToTokens(line, lineNumber)` as a function. */
  function SplitToTokensSpec(line: string, lineNumber: int): Split
  {
    match HeadFields(line)
    case None => Failed(SplitError(lineNumber))
    case Some((head, arg)) =>
      match OperandTokens(arg)
      case None => Failed(SplitError(lineNumber))
      case Some(tokens) => Fields(head + tokens)
  }

  /** The kept tokens of the operand text, `None` when some position matches no definition. */
  function OperandTokens(arg: string): Option<seq<string>>
  {
    match Pieces(arg)
    case None => None
    case Some(ps) => Some(Kept(ps))
  }

  /** `tryMatch`: the first definition that matches at `index`, and the index after its match. */
  method TryMatch(str: string, index: nat) returns (matched: bool, newIndex: nat, token: Option<string>)
    requires index < |str|
    ensures matched <==> NextPiece(str[index..]).Some?
    ensures matched ==>
      var p := NextPiece(str[index..]).value;
      newIndex == index + |p.text| && newIndex <= |str|
      && token == (if Dropped(p.tokenType) then None else Some(p.text))
  {
    var rest := str[index..];
    for i := 0 to |TokenDefinitions|
      invariant forall k | 0 <= k < i :: Match(TokenDefinitions[k].pattern, rest).None?
    {
      var m := Match(TokenDefinitions[i].pattern, rest);
      if m.Some? {
        FirstMatchIndexIs(TokenDefinitions, rest, i);
        var t := rest[..m.value];
        if Dropped(TokenDefinitions[i].tokenType) {
          return true, index + m.value, None;
        }
        return true, index + m.value, Some(t);
      }
    }
    return false, index, None;
  }

  /** The first definition that matches is the one `FirstMatchIndex` names. */
  lemma {:induction false} FirstMatchIndexIs(defs: seq<TokenDefinition>, rest: string, i: nat)
    requires i < |defs| && Match(defs[i].pattern, rest).Some?
    requires forall k | 0 <= k < i :: Match(defs[k].pattern, rest).None?
    ensures FirstMatchIndex(defs, rest) == Some(i)
  {
    if i > 0 {
      FirstMatchIndexIs(defs[1..], rest, i - 1);
    }
  }

  /** `splitToTokens`: the two anchored matches, then the scanning loop over the operand text. */
  method SplitToTokens(line: string, lineNumber: int) returns (r: Split)
    ensures r == SplitToTokensSpec(line, lineNumber)
  {
    var head := MatchHead(line);
    if head.None? {
      return Failed(SplitError(lineNumber));
    }
    var (result, arg) := head.value;
    if |arg| > 0 {
      var tokens := ScanOperands(arg);
      if tokens.None? {
        return Failed(SplitError(lineNumber));
      }
      result := result + tokens.value;
    } else {
      assert OperandTokens(arg) == Some([]);
      assert result + [] == result;
    }
    return Fields(result);
  }

  /** The first two anchored matches of `splitToTokens`, with the early returns for a line they reject. */
  method MatchHead(line: string) returns (r: Option<(seq<string>, string)>)
    ensures r == HeadFields(line)
  {
    var m1 := FirstField(Trim(line));
    if m1.None? {
      return None;
    }
    var (first, rest) := m1.value;
    var result: seq<string> := [first];
    if rest != [] && rest[0] == ',' {
      return None;
    }
    var m2 := InstructionField(rest);
    if m2.0 != [] {
      result := result + m2.0;
    } else {
      assert result + m2.0 == result;
    }
    return Some((result, m2.1));
  }

  /** The scanning loop: `tryMatch` from index 0 until the end of the text or a position nothing matches. */
  method ScanOperands(arg: string) returns (tokens: Option<seq<string>>)
    ensures tokens == OperandTokens(arg)
  {
    var result: seq<string> := [];
    var index := 0;
    assert arg[index..] == arg;
    assert OperandTokens(arg).Some? ==> [] + OperandTokens(arg).value == OperandTokens(arg).value;
    while index < |arg|
      invariant index <= |arg|
      invariant OperandTokens(arg) == Prepend(result, OperandTokens(arg[index..]))
      decreases |arg| - index
    {
      var matched, newIndex, token := TryMatch(arg, index);
      if !matched {
        TokensStep(arg, index);
        return None;
      }
      ScanStep(arg, index, newIndex, token, result);
      if token.Some? {
        result := result + [token.value];
      } else {
        assert result + [] == result;
      }
      index := newIndex;
    }
    TokensStep(arg, index);
    assert result + [] == result;
    return Some(result);
  }

  /** One matched token of the scan keeps the loop's account of the tokens: what is pushed now plus the tokens after it. */
  lemma ScanStep(arg: string, index: nat, newIndex: nat, token: Option<string>, result: seq<string>)
    requires index < |arg| && NextPiece(arg[index..]).Some?
    requires newIndex == index + |NextPiece(arg[index..]).value.text|
    requires token == (if Dropped(NextPiece(arg[index..]).value.tokenType) then None else Some(NextPiece(arg[index..]).value.text))
    requires OperandTokens(arg) == Prepend(result, OperandTokens(arg[index..]))
    ensures newIndex <= |arg|
    ensures OperandTokens(arg) == Prepend(result + (if token.Some? then [token.value] else []), OperandTokens(arg[newIndex..]))
  {
    var p := NextPiece(arg[index..]).value;
    var pushed := if Dropped(p.tokenType) then [] else [p.text];
    assert pushed == (if token.Some? then [token.value] else []);
    TokensStepAt(arg, index, p, newIndex);
    PrependChain(OperandTokens(arg), OperandTokens(arg[index..]), OperandTokens(arg[newIndex..]), result, pushed);
  }

  /** `TokensStep` for a token already at hand, ending at `next`. */
  lemma TokensStepAt(s: string, index: nat, p: Piece, next: nat)
    requires index < |s| && NextPiece(s[index..]) == Some(p) && next == index + |p.text|
    ensures next <= |s|
    ensures OperandTokens(s[index..]) == Prepend(if Dropped(p.tokenType) then [] else [p.text], OperandTokens(s[next..]))
  {
    TokensStep(s, index);
    assert NextPiece(s[index..]).value == p;
    assert s[index + |p.text|..] == s[next..];
  }

  lemma PrependChain(x: Option<seq<string>>, y: Option<seq<string>>, z: Option<seq<string>>, a: seq<string>, b: seq<string>)
    requires x == Prepend(a, y) && y == Prepend(b, z)
    ensures x == Prepend(a + b, z)
  {
    PrependTwice(a, b, z);
  }

  /** `front` pushed before the tokens of the rest of the text, when that text splits. */
  function Prepend(front: seq<string>, tokens: Option<seq<string>>): Option<seq<string>>
  {
    match tokens
    case None => None
    case Some(t) => Some(front + t)
  }

  /**
   * One step of the scan: at the end of the text no tokens remain; where no
   * definition matches there are none at all; otherwise the tokens from
   * `index` are the kept text of the matched token followed by the tokens
   * after it.
   */
  lemma TokensStep(s: string, index: nat)
    requires index <= |s|
    ensures index == |s| ==> OperandTokens(s[index..]) == Some([])
    ensures index < |s| && NextPiece(s[index..]).None? ==> OperandTokens(s[index..]).None?
    ensures index < |s| && NextPiece(s[index..]).Some? ==>
      var p := NextPiece(s[index..]).value;
      index + |p.text| <= |s|
      && OperandTokens(s[index..])
         == Prepend(if Dropped(p.tokenType) then [] else [p.text], OperandTokens(s[index + |p.text|..]))
  {
    if index < |s| && NextPiece(s[index..]).Some? {
      var p := NextPiece(s[index..]).value;
      assert s[index..][|p.text|..] == s[index + |p.text|..];
    }
  }

  /** Pushing onto the front of what is already pushed. */
  lemma PrependTwice(a: seq<string>, b: seq<string>, tokens: Option<seq<string>>)
    ensures Prepend(a, Prepend(b, tokens)) == Prepend(a + b, tokens)
  {
    if tokens.Some? {
      assert a + (b + tokens.value) == (a + b) + tokens.value;
    }
  }
}
