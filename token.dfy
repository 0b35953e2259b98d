/**
 * Token kinds, token records and the token definition table: each definition
 * pairs a kind with one of the fixed patterns, and a pattern is matched at
 * the start of the remaining text only.
 */
module Token {
  import opened Common
  import opened JsText

  datatype TokenType =
    | TINSTRUCTION | TGR | TLABEL | TSPACE | TCOMMA
    | TDECIMALLITERAL | THEXLITERAL | TSTRINGLITERAL
    | TDECIMAL | THEX | TSTRING | TCOMMENT | TUNKNOWN

  /** A token: its text, its kind, its line and its column span `[startIndex, endIndex)`. */
  datatype TokenInfo = TokenInfo(value: string, tokenType: TokenType, line: int, startIndex: int, endIndex: int)

  /** The regular expressions of the definition table, one constructor each. */
  datatype Pattern =
    | LabelPattern          // [A-Z][0-9A-Z]*
    | GrPattern             // GR\d
    | SpacePattern          // \s+
    | CommaPattern          // ,
    | DecimalLiteralPattern // =-?\d+
    | HexLiteralPattern     // =#[0-9A-F]+
    | StringLiteralPattern  // ='(('')|[^'])+?'
    | DecimalPattern        // -?\d+
    | HexPattern            // #[0-9A-F]+
    | StringPattern         // '(('')|[^'])+?'
    | CommentPattern        // ;.*
    | MnemonicPattern(names: seq<string>) // (n0|n1|…)\b

  datatype TokenDefinition = TokenDefinition(tokenType: TokenType, pattern: Pattern)

  /** The definition table, in priority order. The `=`-decimal form is registered as TDECIMAL. */
  const TokenDefinitions: seq<TokenDefinition> := [
    TokenDefinition(TLABEL, LabelPattern),
    TokenDefinition(TGR, GrPattern),
    TokenDefinition(TSPACE, SpacePattern),
    TokenDefinition(TCOMMA, CommaPattern),
    TokenDefinition(TDECIMAL, DecimalLiteralPattern),
    TokenDefinition(THEXLITERAL, HexLiteralPattern),
    TokenDefinition(TSTRINGLITERAL, StringLiteralPattern),
    TokenDefinition(TDECIMAL, DecimalPattern),
    TokenDefinition(THEX, HexPattern),
    TokenDefinition(TSTRING, StringPattern)]

  /** Number of characters of `s` from position `i` on that satisfy `p`, up to the first that does not. */
  function Run(s: string, i: nat, p: char -> bool): (k: nat)
    requires i <= |s|
    ensures i + k <= |s|
    ensures forall j :: i <= j < i + k ==> p(s[j])
    ensures i + k < |s| ==> !p(s[i + k])
    decreases |s| - i
  {
    if i < |s| && p(s[i]) then 1 + Run(s, i + 1, p) else 0
  }

  /** Position of the first quote at or after `i`. */
  function FirstQuote(s: string, i: nat): (r: Option<nat>)
    requires i <= |s|
    ensures r.Some? ==> i <= r.value < |s| && s[r.value] == '\''
    ensures r.Some? ==> forall j :: i <= j < r.value ==> s[j] != '\''
    ensures r.None? ==> forall j :: i <= j < |s| ==> s[j] != '\''
    decreases |s| - i
  {
    if i == |s| then None else if s[i] == '\'' then Some(i) else FirstQuote(s, i + 1)
  }

  /** Length of a match of `-?\d+` starting at `i`. */
  function DecimalAt(s: string, i: nat): (r: Option<nat>)
    requires i <= |s|
    ensures r.Some? ==> 1 <= r.value <= |s| - i
  {
    if i < |s| && s[i] == '-' && Run(s, i + 1, IsDigit) >= 1 then Some(1 + Run(s, i + 1, IsDigit))
    else if Run(s, i, IsDigit) >= 1 then Some(Run(s, i, IsDigit))
    else None
  }

  /**
   * Length of a match of the lazy string pattern `'(('')|[^'])+?'` starting
   * at `i`: the first repetition is either a doubled quote or one non-quote
   * character, and the match then ends at the next quote.
   */
  function StringAt(s: string, i: nat): (r: Option<nat>)
    requires i <= |s|
    ensures r.Some? ==> 3 <= r.value <= |s| - i
  {
    if i + 1 < |s| && s[i] == '\'' && s[i + 1] != '\'' then
      match FirstQuote(s, i + 2)
      case Some(q) => Some(q - i + 1)
      case None => None
    else if i + 2 < |s| && s[i] == '\'' && s[i + 1] == '\'' && s[i + 2] == '\'' then
      match FirstQuote(s, i + 3)
      case Some(q) => Some(q - i + 1)
      case None => None
    else None
  }

  /**
   * Length of a match of the alternation `(n0|n1|…)\b` at the start of `s`:
   * the first alternative, in list order, that `s` starts with and that is
   * followed by a word boundary. An empty alternative is skipped, since it
   * would give an empty token.
   */
  function MnemonicAt(names: seq<string>, s: string): (r: Option<nat>)
    ensures r.Some? ==> 1 <= r.value <= |s| && s[..r.value] in names && WordBoundary(s, r.value)
    ensures r.None? ==> forall k :: 0 <= k < |names| && 1 <= |names[k]| && names[k] <= s ==> !WordBoundary(s, |names[k]|)
  {
    if names == [] then None
    else if 1 <= |names[0]| && names[0] <= s && WordBoundary(s, |names[0]|) then
      assert s[..|names[0]|] == names[0];
      Some(|names[0]|)
    else
      var r := MnemonicAt(names[1..], s);
      assert forall k :: 1 <= k < |names| ==> names[k] == names[1..][k - 1];
      r
  }

  /**
   * `TokenDefinition.match` as the lexer uses it: the length of the match
   * that starts at index 0 of `s`, or `None` (`undefined`) when there is none.
   */
  function Match(p: Pattern, s: string): (r: Option<nat>)
    ensures r.Some? ==> 1 <= r.value <= |s|
  {
    match p
    case LabelPattern =>
      if |s| >= 1 && IsUpper(s[0]) then Some(1 + Run(s, 1, IsUpperOrDigit)) else None
    case GrPattern =>
      if |s| >= 3 && s[0] == 'G' && s[1] == 'R' && IsDigit(s[2]) then Some(3) else None
    case SpacePattern =>
      if Run(s, 0, IsWhiteSpace) >= 1 then Some(Run(s, 0, IsWhiteSpace)) else None
    case CommaPattern =>
      if |s| >= 1 && s[0] == ',' then Some(1) else None
    case DecimalLiteralPattern =>
      if |s| >= 1 && s[0] == '=' then
        match DecimalAt(s, 1) case Some(n) => Some(1 + n) case None => None
      else None
    case HexLiteralPattern =>
      if |s| >= 2 && s[0] == '=' && s[1] == '#' && Run(s, 2, IsUpperHexDigit) >= 1 then Some(2 + Run(s, 2, IsUpperHexDigit))
      else None
    case StringLiteralPattern =>
      if |s| >= 1 && s[0] == '=' then
        match StringAt(s, 1) case Some(n) => Some(1 + n) case None => None
      else None
    case DecimalPattern => DecimalAt(s, 0)
    case HexPattern =>
      if |s| >= 1 && s[0] == '#' && Run(s, 1, IsUpperHexDigit) >= 1 then Some(1 + Run(s, 1, IsUpperHexDigit)) else None
    case StringPattern => StringAt(s, 0)
    case CommentPattern =>
      if |s| >= 1 && s[0] == ';' then Some(1 + Run(s, 1, IsNotLineTerminator)) else None
    case MnemonicPattern(names) => MnemonicAt(names, s)
  }

  /** Index of the first definition, in list order, whose pattern matches at the start of `rest`. */
  function FirstMatchIndex(defs: seq<TokenDefinition>, rest: string): (r: Option<nat>)
    ensures r.Some? ==> r.value < |defs| && Match(defs[r.value].pattern, rest).Some?
    ensures r.Some? ==> forall k :: 0 <= k < r.value ==> Match(defs[k].pattern, rest).None?
    ensures r.None? ==> forall k :: 0 <= k < |defs| ==> Match(defs[k].pattern, rest).None?
  {
    if defs == [] then None
    else if Match(defs[0].pattern, rest).Some? then Some(0)
    else match FirstMatchIndex(defs[1..], rest)
      case Some(j) => Some(j + 1)
      case None => None
  }

  /** Every pattern of the table is tried in the fixed order of its kinds. */
  lemma DefinitionOrder()
    ensures |TokenDefinitions| == 10
    ensures forall i :: 0 <= i < |TokenDefinitions| ==>
      TokenDefinitions[i].tokenType ==
        [TLABEL, TGR, TSPACE, TCOMMA, TDECIMAL, THEXLITERAL, TSTRINGLITERAL, TDECIMAL, THEX, TSTRING][i]
  {
  }

  /**
   * An upper-case letter always starts a TLABEL token, whatever follows: the
   * label definition comes first, so `GR1` is a TLABEL of length 3 and the
   * GR definition never wins.
   */
  lemma UpperCaseIsLabel(rest: string)
    requires |rest| >= 1 && IsUpper(rest[0])
    ensures FirstMatchIndex(TokenDefinitions, rest) == Some(0)
    ensures Match(TokenDefinitions[0].pattern, rest) == Some(1 + Run(rest, 1, IsUpperOrDigit))
  {
  }

  /** No text ever lexes as TGR with this table. */
  lemma NeverGr(rest: string)
    ensures FirstMatchIndex(TokenDefinitions, rest).Some? ==>
      TokenDefinitions[FirstMatchIndex(TokenDefinitions, rest).value].tokenType != TGR
  {
    if |rest| >= 1 && IsUpper(rest[0]) {
      UpperCaseIsLabel(rest);
    }
  }

  /**
   * Text that starts with `=` is taken by one of the `=` literal definitions
   * or by none: the bare decimal, hex and string forms never see it, and
   * `=` followed by a decimal number is a TDECIMAL token.
   */
  lemma EqualsPrefixedLiterals(rest: string)
    requires |rest| >= 1 && rest[0] == '='
    ensures FirstMatchIndex(TokenDefinitions, rest).Some? ==>
      FirstMatchIndex(TokenDefinitions, rest).value in {4, 5, 6}
    ensures DecimalAt(rest, 1).Some? ==>
      (FirstMatchIndex(TokenDefinitions, rest) == Some(4) && TokenDefinitions[4].tokenType == TDECIMAL)
  {
    var defs := TokenDefinitions;
    forall k | 0 <= k < |defs| && k !in {4, 5, 6}
      ensures Match(defs[k].pattern, rest).None?
    {
      EqualsMisses(defs[k].pattern, rest);
    }
    if DecimalAt(rest, 1).Some? {
      assert Match(defs[4].pattern, rest).Some?;
    }
  }

  /** Apart from a mnemonic alternation, only the three `=` literal patterns can match text that starts with `=`. */
  lemma EqualsMisses(p: Pattern, s: string)
    requires |s| >= 1 && s[0] == '='
    requires !p.DecimalLiteralPattern? && !p.HexLiteralPattern? && !p.StringLiteralPattern? && !p.MnemonicPattern?
    ensures Match(p, s).None?
  {
    assert !IsWhiteSpace(s[0]) && !IsDigit(s[0]);
    if p.SpacePattern? {
      assert Run(s, 0, IsWhiteSpace) == 0;
    } else if p.DecimalPattern? {
      assert Run(s, 0, IsDigit) == 0;
    }
  }
}
