/**
 * The lexer of the earlier front end (`Lexer.tokenize`): it cuts a line into
 * comment, label, mnemonic and operand fields and classifies the operands
 * with hand-written tests in place of its regular expressions. JavaScript's
 * truthiness is kept where the source relies on it, so GR0, the number 0 and
 * NaN count as absent in the places the source writes `!x` or `if (x)`.
 */
module FieldLexer {
  import opened Common
  import opened JsText
  import opened Records
  import opened LexerResults
  import Token

  // ---------------------------------------------------------------------
  // The string tests.

  /** `w` occurs at `i` of `s` as a whole word: `\bw\b` for a word made of word characters. */
  predicate WordAt(s: string, i: int, w: string)
  {
    0 <= i && i + |w| <= |s| && s[i..i + |w|] == w
    && (i == 0 || !IsWordChar(s[i - 1]))
    && (i + |w| == |s| || !IsWordChar(s[i + |w|]))
  }

  /** `/\b(w1|w2|...)\b/` matches somewhere in `s`. */
  predicate HasWord(s: string, words: seq<string>)
  {
    exists k, i | 0 <= k < |words| && 0 <= i <= |s| :: WordAt(s, i, words[k])
  }

  /** The 36 mnemonics of the `isInstruction` pattern. */
  const Mnemonics: seq<string> := [
    "START", "END", "DS", "DC", "IN", "OUT", "RPUSH", "RPOP", "LD", "ST", "LAD", "ADDA",
    "ADDL", "SUBA", "SUBL", "AND", "OR", "XOR", "CPA", "CPL", "SLA", "SRA", "SLL", "SRL",
    "JPL", "JMI", "JNZ", "JZE", "JOV", "JUMP", "PUSH", "POP", "CALL", "RET", "SVC", "NOP"]

  /** The register names `isGR` accepts: GR0 to GR7, and GR8 with the option. */
  function GrNames(useGR8: bool): (r: seq<string>)
    ensures "GR8" in r <==> useGR8
  {
    ["GR0", "GR1", "GR2", "GR3", "GR4", "GR5", "GR6", "GR7"] + (if useGR8 then ["GR8"] else [])
  }

  /** A match of `\b[A-Z][A-Z0-9]*\b` starting at `i`: the run of capitals and digits must end at a boundary. */
  predicate LabelAt(s: string, i: int)
  {
    0 <= i < |s| && IsUpper(s[i]) && (i == 0 || !IsWordChar(s[i - 1]))
    && var j := i + 1 + Token.Run(s, i + 1, IsUpperOrDigit);
       j == |s| || !IsWordChar(s[j])
  }

  /** `isLabel`: the label pattern matches somewhere in `s`, and `s` has at most 8 characters. */
  predicate IsLabel(s: string)
  {
    (exists i | 0 <= i < |s| :: LabelAt(s, i)) && |s| <= 8
  }

  predicate IsInstruction(s: string)
  {
    HasWord(s, Mnemonics)
  }

  predicate IsGR(useGR8: bool, s: string)
  {
    HasWord(s, GrNames(useGR8))
  }

  /** `toGR`: the exact register names; anything else throws. */
  function ToGR(useGR8: bool, s: string): (r: Outcome<GR>)
    ensures r.Ok? <==> s in GrNames(useGR8)
    ensures r.Ok? ==> r.value < |GrNames(useGR8)| && GrNames(useGR8)[r.value] == s
  {
    if s == "GR0" then Ok(0)
    else if s == "GR1" then Ok(1)
    else if s == "GR2" then Ok(2)
    else if s == "GR3" then Ok(3)
    else if s == "GR4" then Ok(4)
    else if s == "GR5" then Ok(5)
    else if s == "GR6" then Ok(6)
    else if s == "GR7" then Ok(7)
    else if useGR8 && s == "GR8" then Ok(8)
    else Crash
  }

  /** `str.startsWith(c)` for one character. */
  predicate StartsWith(s: string, c: char)
  {
    s != [] && s[0] == c
  }

  /**
   * `toConst`: a truthy decimal, a truthy `#` hex value, a quoted string of
   * more than two characters, or a label; anything else is `undefined`.
   * Zero in either radix is falsy and falls through.
   */
  function ToConst(s: string): (r: Option<Value>)
    ensures r.Some? ==> r.value.Number? ==> r.value.n != 0
    ensures r.Some? ==> !r.value.NaN?
  {
    var d := ParseInt(s, 10);
    if d.Some? && d.value != 0 then Some(Number(d.value))
    else if StartsWith(s, '#') && ParseInt(s[1..], 16).Some? && ParseInt(s[1..], 16).value != 0 then
      Some(Number(ParseInt(s[1..], 16).value))
    else if |s| > 2 && s[0] == '\'' && s[|s| - 1] == '\'' then Some(Text(s))
    else if IsLabel(s) then Some(Text(s))
    else None
  }

  /**
   * `toAddress`: a label or an `=` literal stays text; a `#` operand whose hex
   * part does NOT parse gives NaN (the test is inverted), one that parses falls
   * through; a leading `-` is refused; then a decimal prefix, or `undefined`.
   */
  function ToAddress(s: string): (r: Option<Value>)
  {
    if IsLabel(s) then Some(Text(s))
    else if StartsWith(s, '=') then Some(Text(s))
    else if StartsWith(s, '#') && ParseInt(s[1..], 16).None? then Some(NaN)
    else if StartsWith(s, '-') then None
    else match ParseInt(s, 10)
      case None => None
      case Some(n) => Some(Number(n))
  }

  /** `str.match(/^\s*$/)`: only white space. */
  predicate Blank(s: string)
  {
    forall i | 0 <= i < |s| :: IsWhiteSpace(s[i])
  }

  /** `s.indexOf(c)` */
  function IndexOf(s: string, c: char): (r: Option<nat>)
    ensures r.Some? ==> r.value < |s| && s[r.value] == c && c !in s[..r.value]
    ensures r.None? ==> c !in s
  {
    if s == [] then None
    else if s[0] == c then Some(0)
    else match IndexOf(s[1..], c)
      case Some(k) => assert s[..k + 1] == [s[0]] + s[1..][..k]; Some(k + 1)
      case None => assert s == [s[0]] + s[1..]; None
  }

  // ---------------------------------------------------------------------
  // `split(/\s+|,\s+/)`

  /** Length of the separator `\s+|,\s+` that matches at `q`, trying white space first. */
  function SeparatorAt(s: string, q: nat): (r: Option<nat>)
    requires q < |s|
    ensures r.Some? ==> 1 <= r.value <= |s| - q
    ensures r.None? <==> !IsWhiteSpace(s[q]) && !(s[q] == ',' && q + 1 < |s| && IsWhiteSpace(s[q + 1]))
  {
    if IsWhiteSpace(s[q]) then Some(Token.Run(s, q, IsWhiteSpace))
    else if s[q] == ',' && q + 1 < |s| && IsWhiteSpace(s[q + 1]) then Some(1 + Token.Run(s, q + 1, IsWhiteSpace))
    else None
  }

  /** The fields of `s[p..]`, the current field starting at `p` and the search at `q`. */
  function SplitFrom(s: string, p: nat, q: nat): (r: seq<string>)
    requires p <= q <= |s|
    ensures |r| >= 1
    decreases |s| - q
  {
    if q == |s| then [s[p..]]
    else match SeparatorAt(s, q)
      case Some(n) => [s[p..q]] + SplitFrom(s, q + n, q + n)
      case None => SplitFrom(s, p, q + 1)
  }

  /** `s.split(/\s+|,\s+/)`: never empty; an empty string gives one empty field. */
  function SplitFields(s: string): (r: seq<string>)
    ensures |r| >= 1
  {
    SplitFrom(s, 0, 0)
  }

  /** A text with no white space in it. */
  predicate NoWhiteSpace(t: string)
  {
    forall j | 0 <= j < |t| :: !IsWhiteSpace(t[j])
  }

  /** No field of the split contains white space. */
  lemma {:induction false} SplitFromNoWhiteSpace(s: string, p: nat, q: nat)
    requires p <= q <= |s|
    requires NoWhiteSpace(s[p..q])
    ensures forall f | f in SplitFrom(s, p, q) :: NoWhiteSpace(f)
    decreases |s| - q
  {
    if q == |s| {
      assert s[p..q] == s[p..];
    } else {
      SplitFromStep(s, p, q);
      match SeparatorAt(s, q)
      case Some(n) =>
        var next := q + n;
        SplitFromNoWhiteSpace(s, next, next);
        ConsNoWhiteSpace(s[p..q], SplitFrom(s, next, next));
      case None =>
        ExtendNoWhiteSpace(s, p, q);
        SplitFromNoWhiteSpace(s, p, q + 1);
    }
  }

  /** One step of `SplitFrom`: a separator at `q` ends the current field, anything else extends it. */
  lemma SplitFromStep(s: string, p: nat, q: nat)
    requires p <= q < |s|
    ensures SeparatorAt(s, q).Some? ==>
      q + SeparatorAt(s, q).value <= |s| &&
      SplitFrom(s, p, q) == [s[p..q]] + SplitFrom(s, q + SeparatorAt(s, q).value, q + SeparatorAt(s, q).value)
    ensures SeparatorAt(s, q).None? ==> !IsWhiteSpace(s[q]) && SplitFrom(s, p, q) == SplitFrom(s, p, q + 1)
  {
  }

  lemma ExtendNoWhiteSpace(s: string, p: nat, q: nat)
    requires p <= q < |s| && NoWhiteSpace(s[p..q]) && !IsWhiteSpace(s[q])
    ensures NoWhiteSpace(s[p..q + 1])
  {
    var t, u := s[p..q + 1], s[p..q];
    forall j | 0 <= j < |t|
      ensures !IsWhiteSpace(t[j])
    {
      if j < |u| {
        assert t[j] == u[j];
      }
    }
  }

  lemma ConsNoWhiteSpace(f: string, fs: seq<string>)
    requires NoWhiteSpace(f)
    requires forall g | g in fs :: NoWhiteSpace(g)
    ensures forall g | g in [f] + fs :: NoWhiteSpace(g)
  {
  }

  lemma SplitFieldsNoWhiteSpace(s: string)
    ensures forall f, j | f in SplitFields(s) && 0 <= j < |f| :: !IsWhiteSpace(f[j])
  {
    SplitFromNoWhiteSpace(s, 0, 0);
    forall f, j | f in SplitFields(s) && 0 <= j < |f| ensures !IsWhiteSpace(f[j]) {
      assert NoWhiteSpace(f);
    }
  }

  // ---------------------------------------------------------------------
  // `tokenize`

  datatype LexOutcome = Lexed(result: LexerResult) | Rejected(error: FrontError)

  /** The part of a line before its first `;` and the comment from there on. */
  function CodePart(line: string): string
  {
    match IndexOf(line, ';')
    case Some(k) => line[..k]
    case None => line
  }

  function CommentPart(line: string): Option<string>
  {
    match IndexOf(line, ';')
    case Some(k) => Some(line[k..])
    case None => None
  }

  /** `consts`: the constant of every operand, or `None` as soon as one is not a constant. */
  function Consts(args: seq<string>): (r: Option<seq<Value>>)
    ensures r.Some? ==> |r.value| == |args| && forall i | 0 <= i < |args| :: Some(r.value[i]) == ToConst(args[i])
    ensures r.None? <==> exists i | 0 <= i < |args| :: ToConst(args[i]).None?
  {
    if args == [] then Some([])
    else
      var last := ToConst(args[|args| - 1]);
      match Consts(args[..|args| - 1])
      case None => None
      case Some(cs) => if last.None? then None else Some(cs + [last.value])
  }

  /** One more operand that is a constant extends the constants of the operands before it. */
  lemma ConstsStep(args: seq<string>, i: nat)
    requires i < |args| && Consts(args[..i]).Some? && ToConst(args[i]).Some?
    ensures Consts(args[..i + 1]) == Some(Consts(args[..i]).value + [ToConst(args[i]).value])
  {
    assert args[..i + 1][..i] == args[..i];
  }

  /** One operand that is not a constant refuses them all. */
  lemma ConstsRefuses(args: seq<string>, i: nat)
    requires i < |args| && ToConst(args[i]).None?
    ensures Consts(args).None?
  {
  }

  /** `tokenize` as a function of the line, the option and the line number. */
  function TokenizeSpec(useGR8: bool, line: string, lineNumber: int): Outcome<LexOutcome>
  {
    var comment := CommentPart(line);
    var str := CodePart(line);
    if comment.Some? && Blank(str) then Ok(Lexed(NewLexerResult(None, None, None, None, None, comment)))
    else FieldsSpec(useGR8, lineNumber, SplitFields(Trim(str)), comment)
  }

  /** The rest of `tokenize` once the line is not a comment line: label, mnemonic, then the operands. */
  function FieldsSpec(useGR8: bool, lineNumber: int, split: seq<string>, comment: Option<string>): Outcome<LexOutcome>
    requires |split| >= 1
  {
    var first := split[0];
    if IsInstruction(first) then Operands(useGR8, lineNumber, None, first, split, 1, comment)
    else if !IsLabel(first) || IsGR(useGR8, first) then Ok(Rejected(InvalidLabelError(lineNumber)))
    else if |split| < 2 then Crash  // `isInstruction(undefined)` throws a TypeError
    else if !IsInstruction(split[1]) then Ok(Rejected(InvalidInstructionError(lineNumber)))
    else Operands(useGR8, lineNumber, Some(first), split[1], split, 2, comment)
  }

  /** The operand part of `tokenize`, from field `index` on, after the label and the mnemonic. */
  function Operands(useGR8: bool, lineNumber: int, labelName: Option<string>, instruction: string,
                    split: seq<string>, index: nat, comment: Option<string>): (o: Outcome<LexOutcome>)
    requires index <= |split|
    ensures o.Ok? && o.value.Lexed? && o.value.result.r1.Some? ==>
      index < |split| && ToGR(useGR8, split[index]) == Ok(o.value.result.r1.value)
    ensures o.Ok? && o.value.Lexed? && o.value.result.r2.Some? ==>
      exists j | index < j < |split| :: ToGR(useGR8, split[j]) == Ok(o.value.result.r2.value)
  {
    var argCount := |split| - index;
    if instruction == "DC" then
      if argCount == 0 then Ok(Rejected(ArgumentError(lineNumber)))
      else
        match Consts(split[index..])
        case None => Ok(Rejected(ArgumentError(lineNumber)))
        case Some(cs) => Ok(Lexed(NewLexerResult(labelName, Some(instruction), None, None, None, comment, None, Some(cs))))
    else if instruction == "IN" || instruction == "OUT" then
      if argCount != 2 then Ok(Rejected(ArgumentError(lineNumber)))
      else Ok(Lexed(NewLexerResult(labelName, Some(instruction), None, None, ToAddress(split[index]), comment,
                                    None, None, ToAddress(split[index + 1]))))
    else if argCount == 0 then Ok(Lexed(NewLexerResult(labelName, Some(instruction), None, None, None, comment)))
    else RegisterOperands(useGR8, lineNumber, labelName, instruction, split, index, comment)
  }

  /** The register and address operands of every other mnemonic. */
  function RegisterOperands(useGR8: bool, lineNumber: int, labelName: Option<string>, instruction: string,
                            split: seq<string>, index: nat, comment: Option<string>): (o: Outcome<LexOutcome>)
    requires index < |split|
    ensures o.Ok? && o.value.Lexed? ==>
      o.value.result.labelName == labelName && o.value.result.instruction == Some(instruction)
      && o.value.result.comment == comment && !o.value.result.isCommentLine
    ensures o.Ok? && o.value.Rejected? ==> o.value.error == ArgumentError(lineNumber)
    ensures o.Ok? && o.value.Lexed? && o.value.result.r1.Some? ==> ToGR(useGR8, split[index]) == Ok(o.value.result.r1.value)
    ensures o.Ok? && o.value.Lexed? && o.value.result.r2.Some? ==>
      exists j | index < j < |split| :: ToGR(useGR8, split[j]) == Ok(o.value.result.r2.value)
    ensures o.Ok? && o.value.Lexed? && o.value.result.wordCount.Some? ==>
      instruction == "DS" && |split| == index + 1 && !IsGR(useGR8, split[index]) && !StartsWith(split[index], '#')
      && ToAddress(split[index]) == Some(Number(o.value.result.wordCount.value))
  {
    if IsGR(useGR8, split[index]) then RegisterFirst(useGR8, lineNumber, labelName, instruction, split, index, comment)
    else AddressFirst(useGR8, lineNumber, labelName, instruction, split, index, comment)
  }

  /** `GR`, `GR, GR` and `GR, adr[, GR]`: the first operand is a register. */
  function RegisterFirst(useGR8: bool, lineNumber: int, labelName: Option<string>, instruction: string,
                         split: seq<string>, index: nat, comment: Option<string>): (o: Outcome<LexOutcome>)
    requires index < |split|
    ensures o.Ok? && o.value.Lexed? ==>
      o.value.result.labelName == labelName && o.value.result.instruction == Some(instruction)
      && o.value.result.comment == comment && o.value.result.wordCount.None?
      && o.value.result.r1.Some? && ToGR(useGR8, split[index]) == Ok(o.value.result.r1.value)
    ensures o.Ok? && o.value.Lexed? && o.value.result.r2.Some? ==>
      exists j | index < j < |split| :: ToGR(useGR8, split[j]) == Ok(o.value.result.r2.value)
    ensures o.Ok? && o.value.Rejected? ==> o.value.error == ArgumentError(lineNumber)
  {
    var argCount := |split| - index;
    var r1 :- ToGR(useGR8, split[index]);
    if argCount == 1 then Ok(Lexed(NewLexerResult(labelName, Some(instruction), Some(r1), None, None, comment)))
    else if IsGR(useGR8, split[index + 1]) then
      var r2 :- ToGR(useGR8, split[index + 1]);
      Ok(Lexed(NewLexerResult(labelName, Some(instruction), Some(r1), Some(r2), None, comment)))
    else
      var adr := ToAddress(split[index + 1]);
      if !Truthy(adr) then Ok(Rejected(ArgumentError(lineNumber)))
      else if argCount != 3 then Ok(Lexed(NewLexerResult(labelName, Some(instruction), Some(r1), None, adr, comment)))
      else if !IsGR(useGR8, split[index + 2]) then Ok(Rejected(ArgumentError(lineNumber)))
      else
        var r2 :- ToGR(useGR8, split[index + 2]);
        Ok(Lexed(NewLexerResult(labelName, Some(instruction), Some(r1), Some(r2), adr, comment)))
  }

  /** `adr` (with DS's word count) and `adr, GR`: the first operand is not a register. */
  function AddressFirst(useGR8: bool, lineNumber: int, labelName: Option<string>, instruction: string,
                        split: seq<string>, index: nat, comment: Option<string>): (o: Outcome<LexOutcome>)
    requires index < |split|
    ensures o.Ok? && o.value.Lexed? ==>
      o.value.result.labelName == labelName && o.value.result.instruction == Some(instruction)
      && o.value.result.comment == comment && o.value.result.r1.None?
      && o.value.result.address == ToAddress(split[index]) && o.value.result.address.Some?
    ensures o.Ok? && o.value.Lexed? && o.value.result.r2.Some? ==>
      index + 1 < |split| && ToGR(useGR8, split[index + 1]) == Ok(o.value.result.r2.value)
    ensures o.Ok? && o.value.Lexed? && o.value.result.wordCount.Some? ==>
      instruction == "DS" && |split| == index + 1 && !StartsWith(split[index], '#')
      && ToAddress(split[index]) == Some(Number(o.value.result.wordCount.value))
    ensures o.Ok? && o.value.Rejected? ==> o.value.error == ArgumentError(lineNumber)
  {
    var argCount := |split| - index;
    var adr := ToAddress(split[index]);
    if adr.None? then Ok(Rejected(ArgumentError(lineNumber)))
    else if argCount == 1 then
      if instruction != "DS" then Ok(Lexed(NewLexerResult(labelName, Some(instruction), None, None, adr, comment)))
      else if !adr.value.Number? || StartsWith(split[index], '#') then Ok(Rejected(ArgumentError(lineNumber)))
      else Ok(Lexed(NewLexerResult(labelName, Some(instruction), None, None, adr, comment, Some(adr.value.n))))
    else if !IsGR(useGR8, split[index + 1]) then Ok(Rejected(ArgumentError(lineNumber)))
    else
      var r2 :- ToGR(useGR8, split[index + 1]);
      Ok(Lexed(NewLexerResult(labelName, Some(instruction), None, Some(r2), adr, comment)))
  }

  /** `Lexer`: the option is fixed at construction; `tokenize` reassigns its locals field by field. */
  class Lexer {
    const useGR8: bool

    constructor(useGR8: bool)
      ensures this.useGR8 == useGR8
    {
      this.useGR8 := useGR8;
    }

    method Tokenize(line: string, lineNumber: int) returns (r: Outcome<LexOutcome>)
      ensures r == TokenizeSpec(useGR8, line, lineNumber)
    {
      var comment: Option<string> := None;
      var str := line;
      var semicolonIndex := IndexOf(line, ';');
      if semicolonIndex.Some? {
        comment := Some(line[semicolonIndex.value..]);
        str := line[..semicolonIndex.value];
        if Blank(str) {
          assert comment == CommentPart(line) && str == CodePart(line);
          return Ok(Lexed(NewLexerResult(None, None, None, None, None, comment)));
        }
      }
      assert comment == CommentPart(line) && str == CodePart(line);
      r := LexFields(lineNumber, SplitFields(Trim(str)), comment);
    }

    /** `tokenize` from the split fields on: the optional label, the mnemonic and the operands. */
    method LexFields(lineNumber: int, split: seq<string>, comment: Option<string>) returns (r: Outcome<LexOutcome>)
      requires |split| >= 1
      ensures r == FieldsSpec(useGR8, lineNumber, split, comment)
    {
      var labelName: Option<string> := None;
      var instruction: string;
      var index := 0;
      var first := split[index];
      if IsInstruction(first) {
        instruction := first;
        index := index + 1;
        assert FieldsSpec(useGR8, lineNumber, split, comment) == Operands(useGR8, lineNumber, None, first, split, 1, comment);
      } else {
        if !IsLabel(first) {
          return Ok(Rejected(InvalidLabelError(lineNumber)));
        }
        if IsGR(useGR8, first) {
          return Ok(Rejected(InvalidLabelError(lineNumber)));
        }
        labelName := Some(first);
        index := index + 1;
        if index >= |split| {
          return Crash;
        }
        var inst := split[index];
        if !IsInstruction(inst) {
          return Ok(Rejected(InvalidInstructionError(lineNumber)));
        }
        instruction := inst;
        index := index + 1;
        assert FieldsSpec(useGR8, lineNumber, split, comment) == Operands(useGR8, lineNumber, Some(first), inst, split, 2, comment);
      }
      r := LexOperands(lineNumber, labelName, instruction, split, index, comment);
    }

    /** The operand fields after the mnemonic: DC constants, the two IN/OUT addresses, or registers and an address. */
    method LexOperands(lineNumber: int, labelName: Option<string>, instruction: string,
                       split: seq<string>, index: nat, comment: Option<string>) returns (r: Outcome<LexOutcome>)
      requires index <= |split|
      ensures r == Operands(useGR8, lineNumber, labelName, instruction, split, index, comment)
    {
      var consts: Option<seq<Value>> := None;
      var address: Option<Value> := None;
      var lengthAddress: Option<Value> := None;
      var argCount := |split| - index;
      if instruction == "DC" {
        if argCount == 0 {
          return Ok(Rejected(ArgumentError(lineNumber)));
        }
        consts := CollectConsts(split[index..]);
        if consts.None? {
          return Ok(Rejected(ArgumentError(lineNumber)));
        }
      } else if instruction == "IN" || instruction == "OUT" {
        if argCount != 2 {
          return Ok(Rejected(ArgumentError(lineNumber)));
        }
        address := ToAddress(split[index]);
        lengthAddress := ToAddress(split[index + 1]);
      } else if argCount > 0 {
        r := LexRegisterOperands(lineNumber, labelName, instruction, split, index, comment);
        return;
      }
      return Ok(Lexed(NewLexerResult(labelName, Some(instruction), None, None, address, comment, None, consts, lengthAddress)));
    }

    /** The DC loop: each operand must be a constant; the constants are pushed in order. */
    static method CollectConsts(args: seq<string>) returns (consts: Option<seq<Value>>)
      ensures consts == Consts(args)
    {
      consts := None;
      for i := 0 to |args|
        invariant Consts(args[..i]).Some?
        invariant consts.Some? <==> i > 0
        invariant consts.Some? ==> consts.value == Consts(args[..i]).value
      {
        var c := ToConst(args[i]);
        if c.None? {
          ConstsRefuses(args, i);
          return None;
        }
        if consts.None? {
          consts := Some([]);
        }
        ConstsStep(args, i);
        consts := Some(consts.value + [c.value]);
      }
      assert args[..|args|] == args;
      if consts.None? {
        consts := Some([]);
      }
    }

    /** The register-and-address branch: `GR[, GR]`, `GR, adr[, GR]`, `adr[, GR]` and the DS word count. */
    method LexRegisterOperands(lineNumber: int, labelName: Option<string>, instruction: string,
                               split: seq<string>, index: nat, comment: Option<string>) returns (r: Outcome<LexOutcome>)
      requires index < |split|
      ensures r == RegisterOperands(useGR8, lineNumber, labelName, instruction, split, index, comment)
    {
      var r1: Option<GR> := None;
      var r2: Option<GR> := None;
      var address: Option<Value> := None;
      var wordCount: Option<int> := None;
      var argCount := |split| - index;
      var next := index;
      var arg1 := split[next];
      next := next + 1;
      if IsGR(useGR8, arg1) {
        assert RegisterOperands(useGR8, lineNumber, labelName, instruction, split, index, comment)
          == RegisterFirst(useGR8, lineNumber, labelName, instruction, split, index, comment);
        var g :- ToGR(useGR8, arg1);
        r1 := Some(g);
        if argCount > 1 {
          var arg2 := split[next];
          next := next + 1;
          if IsGR(useGR8, arg2) {
            var g2 :- ToGR(useGR8, arg2);
            r2 := Some(g2);
          } else {
            var adr := ToAddress(arg2);
            if !Truthy(adr) {
              return Ok(Rejected(ArgumentError(lineNumber)));
            }
            address := adr;
            if argCount == 3 {
              var arg3 := split[next];
              if !IsGR(useGR8, arg3) {
                return Ok(Rejected(ArgumentError(lineNumber)));
              }
              var g3 :- ToGR(useGR8, arg3);
              r2 := Some(g3);
            }
          }
        }
      } else {
        assert RegisterOperands(useGR8, lineNumber, labelName, instruction, split, index, comment)
          == AddressFirst(useGR8, lineNumber, labelName, instruction, split, index, comment);
        var adr := ToAddress(arg1);
        if adr.None? {
          return Ok(Rejected(ArgumentError(lineNumber)));
        }
        address := adr;
        if argCount == 1 {
          if instruction == "DS" {
            if !adr.value.Number? || StartsWith(arg1, '#') {
              return Ok(Rejected(ArgumentError(lineNumber)));
            }
            wordCount := Some(adr.value.n);
          }
        } else {
          var arg2 := split[next];
          if !IsGR(useGR8, arg2) {
            return Ok(Rejected(ArgumentError(lineNumber)));
          }
          var g2 :- ToGR(useGR8, arg2);
          r2 := Some(g2);
        }
      }
      return Ok(Lexed(NewLexerResult(labelName, Some(instruction), r1, r2, address, comment, wordCount)));
    }
  }

  /** The static `Lexer.tokenize`: a shared instance built without options, so GR8 is not a register. */
  method TokenizeLine(line: string, lineNumber: int) returns (r: Outcome<LexOutcome>)
    ensures r == TokenizeSpec(false, line, lineNumber)
  {
    var lexer := new Lexer(false);
    r := lexer.Tokenize(line, lineNumber);
  }
}
