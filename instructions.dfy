/**
 * `Instructions` of the earlier front end: it turns one `LexerResult` into
 * instruction records. `create` sorts the mnemonic into its operand group
 * with word-boundary patterns and checks the operands with JavaScript
 * truthiness; `createDS` expands a block into NOPs (or a label-only OLBL);
 * `createDC` expands constants into one MDC per word, a string constant into
 * one MDC per character.
 *
 * Records are built with the argument order this front end was written for
 * (name, code, label, registers, address) and no line number.
 */
module Instructions {
  import opened Common
  import opened Records
  import opened LexerResults
  import FieldLexer
  import Parsing
  import EscapeString

  /**
   * `Instructions.InstMap.get(inst)`: the opcode of each machine mnemonic
   * and of RPUSH/RPOP; `undefined` for any other name.
   */
  function Code(inst: string): Option<Opcode>
  {
    match inst
    case "LD" => Some(0x10)
    case "ST" => Some(0x11)
    case "LAD" => Some(0x12)
    case "ADDA" => Some(0x20)
    case "ADDL" => Some(0x22)
    case "SUBA" => Some(0x21)
    case "SUBL" => Some(0x23)
    case "AND" => Some(0x30)
    case "OR" => Some(0x31)
    case "XOR" => Some(0x32)
    case "CPA" => Some(0x40)
    case "CPL" => Some(0x41)
    case "SLA" => Some(0x50)
    case "SRA" => Some(0x51)
    case "SLL" => Some(0x52)
    case "SRL" => Some(0x53)
    case "JPL" => Some(0x65)
    case "JMI" => Some(0x61)
    case "JNZ" => Some(0x62)
    case "JZE" => Some(0x63)
    case "JOV" => Some(0x66)
    case "JUMP" => Some(0x64)
    case "PUSH" => Some(0x70)
    case "POP" => Some(0x71)
    case "CALL" => Some(0x80)
    case "RET" => Some(0x81)
    case "SVC" => Some(0xF0)
    case "NOP" => Some(0x00)
    case "RPUSH" => Some(0xA0)
    case "RPOP" => Some(0xA1)
    case _ => None
  }

  // The operand groups, one word-boundary pattern each, tested in this order.
  const NopLike: seq<string> := ["END", "RPUSH", "RPOP", "RET", "NOP"]
  const PopLike: seq<string> := ["POP"]
  const JumpLike: seq<string> := ["JPL", "JMI", "JNZ", "JZE", "JOV", "JUMP", "PUSH", "CALL", "SVC"]
  const LadLike: seq<string> := ["ST", "LAD", "SLA", "SRA", "SLL", "SRL"]
  const AddaLike: seq<string> := ["LD", "ADDA", "ADDL", "SUBA", "SUBL", "AND", "OR", "XOR", "CPA", "CPL"]
  const StartLike: seq<string> := ["START"]

  /** What a `create*` call returns: one record, several, or the error it returns (not throws). */
  datatype Created = One(inst: Instruction) | Many(insts: seq<Instruction>) | Failed(error: FrontError)

  /** A lexer value as a record operand; a NaN cannot be held by a record. */
  function ToOperand(v: Value): (r: Outcome<Operand>)
    ensures r.Ok? <==> !v.NaN?
    ensures v.Text? ==> r == Ok(Sym(v.text))
    ensures v.Number? ==> r == Ok(Num(v.n))
  {
    match v
    case Text(s) => Ok(Sym(s))
    case Number(n) => Ok(Num(n))
    case NaN => Crash
  }

  function OptOperand(v: Option<Value>): (r: Outcome<Option<Operand>>)
    ensures r.Ok? <==> v.None? || !v.value.NaN?
    ensures v.None? ==> r == Ok(None)
    ensures v.Some? && r.Ok? ==> r.value.Some? && Ok(r.value.value) == ToOperand(v.value)
  {
    match v
    case None => Ok(None)
    case Some(x) => var op :- ToOperand(x); Ok(Some(op))
  }

  /** A base record as this front end builds it: no line number. */
  function BaseRecord(inst: string, code: Option<Opcode>, labelName: Option<string>, r1: Option<GR>, r2: Option<GR>, address: Option<Operand>): (r: Instruction)
    ensures r.Valid() && r.kind.Base? && r.lineNumber.None?
    ensures r.name == inst && r.code == code && r.labelName == labelName
    ensures r.r1 == r1 && r.r2 == r2 && r.address == address
  {
    NewInstruction(inst, None, code, labelName, r1, r2, address)
  }

  /**
   * `Instructions.create`. A missing mnemonic, an ADDA-like register form
   * without two truthy registers, a NaN address kept in a record and a
   * mnemonic of no group (DS and DC included) are throws (`Crash`); an
   * operand check that fails returns an `ArgumentError`.
   */
  function Create(result: LexerResult, lineNumber: int): (r: Outcome<Created>)
    ensures r.Ok? ==> r.value.One? || r.value == Failed(ArgumentError(lineNumber))
    ensures r.Ok? && r.value.One? ==>
      Some(r.value.inst.name) == result.instruction && r.value.inst.labelName == result.labelName
      && r.value.inst.Valid() && r.value.inst.lineNumber.None?
  {
    if result.instruction.None? then Crash
    else
      var inst := result.instruction.value;
      var argumentError := Ok(Failed(ArgumentError(lineNumber)));
      if FieldLexer.HasWord(inst, NopLike) then
        if TruthyGR(result.r1) || TruthyGR(result.r2) || Truthy(result.address) then argumentError
        else Ok(One(BaseRecord(inst, Code(inst), result.labelName, None, None, None)))
      else if FieldLexer.HasWord(inst, PopLike) then
        if !TruthyGR(result.r1) || TruthyGR(result.r2) || Truthy(result.address) then argumentError
        else Ok(One(BaseRecord(inst, Code(inst), result.labelName, result.r1, None, None)))
      else if FieldLexer.HasWord(inst, JumpLike) then
        if !Truthy(result.address) || TruthyGR(result.r1) then argumentError
        else
          var adr :- OptOperand(result.address);
          Ok(One(BaseRecord(inst, Code(inst), result.labelName, None, result.r2, adr)))
      else if FieldLexer.HasWord(inst, LadLike) then
        if !TruthyGR(result.r1) || !Truthy(result.address) then argumentError
        else
          var adr :- OptOperand(result.address);
          Ok(One(BaseRecord(inst, Code(inst), result.labelName, result.r1, result.r2, adr)))
      else if FieldLexer.HasWord(inst, AddaLike) then
        CreateAddaLike(inst, result, lineNumber)
      else if FieldLexer.HasWord(inst, StartLike) then
        if TruthyGR(result.r1) || TruthyGR(result.r2) then argumentError
        else
          var adr :- OptOperand(result.address);
          Ok(One(BaseRecord(inst, Code(inst), result.labelName, None, None, adr)))
      else if inst == "IN" then
        var rec :- CreateIn(result);
        Ok(One(rec))
      else if inst == "OUT" then
        var rec :- CreateOut(result);
        Ok(One(rec))
      else Crash
  }

  /**
   * The ADDA-like branch of `create`: with a truthy address the table code
   * and a defined r1; without one both registers must be truthy (or it
   * throws) and the code is the table code plus 4, which throws as NaN for a
   * name without table entry.
   */
  function CreateAddaLike(inst: string, result: LexerResult, lineNumber: int): (r: Outcome<Created>)
    ensures r.Ok? ==> r.value.One? || r.value == Failed(ArgumentError(lineNumber))
    ensures r.Ok? && r.value.One? ==>
      r.value.inst.name == inst && r.value.inst.labelName == result.labelName
      && r.value.inst.Valid() && r.value.inst.lineNumber.None?
  {
    if Truthy(result.address) then
      if result.r1.None? then Ok(Failed(ArgumentError(lineNumber)))
      else
        var adr :- OptOperand(result.address);
        Ok(One(BaseRecord(inst, Code(inst), result.labelName, result.r1, result.r2, adr)))
    else if !(TruthyGR(result.r1) && TruthyGR(result.r2)) then Crash
    else if Code(inst).None? || Code(inst).value + 4 >= 256 then Crash
    else Ok(One(BaseRecord(inst, Some(Code(inst).value + 4), result.labelName, result.r1, result.r2, None)))
  }

  /** `createIN`: both operands must be defined; the record keeps them as buffer and length buffer. */
  function CreateIn(result: LexerResult): (r: Outcome<Instruction>)
    ensures r.Ok? ==> result.instruction == Some("IN") && result.address.Some? && result.lengthAddress.Some?
    ensures r.Ok? ==> r.value.name == "IN" && r.value.code == Some(0x90) && r.value.labelName == result.labelName
    ensures r.Ok? ==>
      r.value.address.Some? && Ok(r.value.address.value) == ToOperand(result.address.value)
      && r.value.kind.InOut? && Ok(r.value.kind.lengthAddress) == ToOperand(result.lengthAddress.value)
  {
    if result.instruction != Some("IN") then Crash
    else if result.address.None? || result.lengthAddress.None? then Crash
    else
      var buffer :- ToOperand(result.address.value);
      var length :- ToOperand(result.lengthAddress.value);
      Ok(NewIn(None, result.labelName, buffer, length))
  }

  /** `createOUT`: both operands must be defined; the record keeps them as buffer and length buffer. */
  function CreateOut(result: LexerResult): (r: Outcome<Instruction>)
    ensures r.Ok? ==> result.instruction == Some("OUT") && result.address.Some? && result.lengthAddress.Some?
    ensures r.Ok? ==> r.value.name == "OUT" && r.value.code == Some(0x91) && r.value.labelName == result.labelName
    ensures r.Ok? ==>
      r.value.address.Some? && Ok(r.value.address.value) == ToOperand(result.address.value)
      && r.value.kind.InOut? && Ok(r.value.kind.lengthAddress) == ToOperand(result.lengthAddress.value)
  {
    if result.instruction != Some("OUT") then Crash
    else if result.address.None? || result.lengthAddress.None? then Crash
    else
      var buffer :- ToOperand(result.address.value);
      var length :- ToOperand(result.lengthAddress.value);
      Ok(NewOut(None, result.labelName, buffer, length))
  }

  // ---------------------------------------------------------------------
  // DS

  /** A NOP word of a DS block. */
  function Nop(labelName: Option<string>): (r: Instruction)
    ensures r.name == "NOP" && r.code == Some(0x00) && r.labelName == labelName && r.ByteLength() == Some(2)
  {
    BaseRecord("NOP", Code("NOP"), labelName, None, None, None)
  }

  /** `createDS` as a function: OLBL for zero words, otherwise the NOPs, at least one. */
  function CreateDsSpec(result: LexerResult): Outcome<Created>
  {
    if result.instruction != Some("DS") || result.wordCount.None? then Crash
    else if result.wordCount.value == 0 then Ok(One(BaseRecord("OLBL", None, result.labelName, None, None, None)))
    else Ok(Many([Nop(result.labelName)] + seq(Max(result.wordCount.value, 1) - 1, _ => Nop(None))))
  }

  function Max(a: int, b: int): int
  {
    if a < b then b else a
  }

  /** `createDS`: the first NOP carries the label, the loop adds the unlabelled rest. */
  method CreateDs(result: LexerResult) returns (r: Outcome<Created>)
    ensures r == CreateDsSpec(result)
  {
    if result.instruction != Some("DS") || result.wordCount.None? {
      return Crash;
    }
    var wordCount := result.wordCount.value;
    if wordCount == 0 {
      return Ok(One(BaseRecord("OLBL", None, result.labelName, None, None, None)));
    }
    var nops := [Nop(result.labelName)];
    var i := 1;
    while i < wordCount
      invariant 1 <= i <= Max(wordCount, 1)
      invariant nops == [Nop(result.labelName)] + seq(i - 1, _ => Nop(None))
      decreases wordCount - i
    {
      nops := nops + [Nop(None)];
      i := i + 1;
    }
    return Ok(Many(nops));
  }

  // ---------------------------------------------------------------------
  // DC

  /** The MDC records of one constant, or the error of a string constant that does not unescape. */
  datatype Mdcs = Mdcs(records: seq<Instruction>) | BadString(error: FrontError)

  /** `isStringLiteral`: a text that starts with a single quote. */
  predicate IsStringLiteral(c: Value)
  {
    c.Text? && |c.text| >= 1 && c.text[0] == '\''
  }

  function QuoteError(lineNumber: int): FrontError
  {
    FrontError(lineNumber, "Single quotes are not collectly escaped.", None)
  }

  /**
   * The records of one constant: a string is unescaped and split into one
   * MDC per character (the label on the first; an empty string still gives
   * one MDC with an empty character); any other constant is one MDC with
   * the value as its address.
   */
  function ConstMdcs(c: Value, labelName: Option<string>, lineNumber: int): Outcome<Mdcs>
  {
    if IsStringLiteral(c) then
      match EscapeString.EscapeStringConstant(Parsing.Inner(c.text))
      case None => Ok(BadString(QuoteError(lineNumber)))
      case Some(escaped) => Ok(Mdcs(Parsing.StringMdcs(escaped, labelName, None)))
    else
      var op :- ToOperand(c);
      Ok(Mdcs([NewMdc(labelName, None, Some(op), None)]))
  }

  /** The records of `cs[..n]`, the label on the first constant; the first failure ends the expansion. */
  function DcPrefix(cs: seq<Value>, labelName: Option<string>, lineNumber: int, n: nat): Outcome<Mdcs>
    requires 1 <= n <= |cs|
  {
    if n == 1 then ConstMdcs(cs[0], labelName, lineNumber)
    else
      var front :- DcPrefix(cs, labelName, lineNumber, n - 1);
      Then(front, ConstMdcs(cs[n - 1], None, lineNumber))
  }

  /** Records so far followed by those of the next constant, unless either has failed. */
  function Then(front: Mdcs, next: Outcome<Mdcs>): Outcome<Mdcs>
  {
    match front
    case BadString(e) => Ok(BadString(e))
    case Mdcs(rs) =>
      match next
      case Crash => Crash
      case Ok(BadString(e)) => Ok(BadString(e))
      case Ok(Mdcs(more)) => Ok(Mdcs(rs + more))
  }

  /**
   * `createDC` as a function. A single non-string constant is one MDC; an
   * empty constant list reads `consts[0]` as `undefined` and gives one MDC
   * without value; otherwise the constants are expanded in order.
   */
  function CreateDcSpec(result: LexerResult, lineNumber: int): Outcome<Created>
  {
    if result.instruction != Some("DC") || result.consts.None? then Crash
    else
      var cs := result.consts.value;
      if |cs| == 1 && !IsStringLiteral(cs[0]) then
        var op :- ToOperand(cs[0]);
        Ok(One(NewMdc(result.labelName, None, Some(op), None)))
      else if cs == [] then Ok(Many([NewMdc(result.labelName, None, None, None)]))
      else
        var all :- DcPrefix(cs, result.labelName, lineNumber, |cs|);
        match all
        case BadString(e) => Ok(Failed(e))
        case Mdcs(rs) => Ok(Many(rs))
  }

  /** `splitStringLiteralToMdcs`: validate, then one MDC per character in a loop. */
  method SplitStringLiteral(literal: string, labelName: Option<string>, lineNumber: int) returns (r: Mdcs)
    requires IsStringLiteral(Text(literal))
    ensures Ok(r) == ConstMdcs(Text(literal), labelName, lineNumber)
  {
    var escaped := EscapeString.EscapeStringConstant(Parsing.Inner(literal));
    if escaped.None? {
      return BadString(QuoteError(lineNumber));
    }
    var s := escaped.value;
    var mdcs := [NewMdc(labelName, None, None, Some(Parsing.CharAt(s, 0)))];
    ghost var first := mdcs;
    if |s| > 1 {
      var i := 1;
      while i < |s|
        invariant 1 <= i <= |s|
        invariant mdcs == first + Parsing.CharMdcs(s[1..i])
      {
        assert s[1..i + 1][..|s[1..i + 1]| - 1] == s[1..i];
        mdcs := mdcs + [Parsing.CharMdc(s[i])];
        i := i + 1;
      }
      assert s[1..i] == s[1..];
    } else {
      assert Parsing.CharMdcs(if s == [] then [] else s[1..]) == [];
      assert mdcs == first + [];
    }
    return Mdcs(mdcs);
  }

  /** The records of one constant, as `createDC` pushes them. */
  method ConstRecords(c: Value, labelName: Option<string>, lineNumber: int) returns (r: Outcome<Mdcs>)
    ensures r == ConstMdcs(c, labelName, lineNumber)
  {
    if IsStringLiteral(c) {
      var m := SplitStringLiteral(c.text, labelName, lineNumber);
      return Ok(m);
    }
    var op :- ToOperand(c);
    return Ok(Mdcs([NewMdc(labelName, None, Some(op), None)]));
  }

  /** Once the expansion has failed, later constants do not change the outcome. */
  lemma {:induction false} DcPrefixFailureSticks(cs: seq<Value>, labelName: Option<string>, lineNumber: int, n: nat, m: nat)
    requires 1 <= n <= m <= |cs|
    requires DcPrefix(cs, labelName, lineNumber, n).Crash? || DcPrefix(cs, labelName, lineNumber, n).value.BadString?
    ensures DcPrefix(cs, labelName, lineNumber, m) == DcPrefix(cs, labelName, lineNumber, n)
    decreases m
  {
    if m > n {
      DcPrefixFailureSticks(cs, labelName, lineNumber, n, m - 1);
    }
  }

  /** `createDC`: the single-constant forms, then the first constant with the label and a loop over the rest. */
  method CreateDc(result: LexerResult, lineNumber: int) returns (r: Outcome<Created>)
    ensures r == CreateDcSpec(result, lineNumber)
  {
    if result.instruction != Some("DC") || result.consts.None? {
      return Crash;
    }
    var cs := result.consts.value;
    if |cs| == 1 {
      var c := cs[0];
      if IsStringLiteral(c) {
        var m := SplitStringLiteral(c.text, result.labelName, lineNumber);
        if m.BadString? {
          return Ok(Failed(m.error));
        }
        return Ok(Many(m.records));
      }
      var op :- ToOperand(c);
      return Ok(One(NewMdc(result.labelName, None, Some(op), None)));
    }
    if |cs| == 0 {
      return Ok(Many([NewMdc(result.labelName, None, None, None)]));
    }
    var all := ExpandConsts(cs, result.labelName, lineNumber);
    if all.Crash? {
      return Crash;
    }
    match all.value
    case BadString(e) => return Ok(Failed(e));
    case Mdcs(rs) => return Ok(Many(rs));
  }

  /** The loop of `createDC` over several constants: each one's MDCs in order, the label on the first, stopping at the first failure. */
  method ExpandConsts(cs: seq<Value>, labelName: Option<string>, lineNumber: int) returns (r: Outcome<Mdcs>)
    requires |cs| >= 1
    ensures r == DcPrefix(cs, labelName, lineNumber, |cs|)
  {
    var first := ConstRecords(cs[0], labelName, lineNumber);
    if first.Crash? {
      DcPrefixFailureSticks(cs, labelName, lineNumber, 1, |cs|);
      return Crash;
    }
    if first.value.BadString? {
      DcPrefixFailureSticks(cs, labelName, lineNumber, 1, |cs|);
      return first;
    }
    var mdcs := first.value.records;
    for i := 1 to |cs|
      invariant DcPrefix(cs, labelName, lineNumber, i) == Ok(Mdcs(mdcs))
    {
      var next := ConstRecords(cs[i], None, lineNumber);
      if next.Crash? {
        DcPrefixFailureSticks(cs, labelName, lineNumber, i + 1, |cs|);
        return Crash;
      }
      if next.value.BadString? {
        DcPrefixFailureSticks(cs, labelName, lineNumber, i + 1, |cs|);
        return next;
      }
      mdcs := mdcs + next.value.records;
    }
    return Ok(Mdcs(mdcs));
  }

  /** `createDSDC` as a function. */
  function CreateDsDcSpec(result: LexerResult, lineNumber: int): Outcome<Created>
  {
    if result.instruction == Some("DS") then CreateDsSpec(result)
    else if result.instruction == Some("DC") then CreateDcSpec(result, lineNumber)
    else Crash
  }

  /** `createDSDC`: DS and DC, the two directives that may give several records; anything else throws. */
  method CreateDsDc(result: LexerResult, lineNumber: int) returns (r: Outcome<Created>)
    ensures r == CreateDsDcSpec(result, lineNumber)
  {
    if result.instruction == Some("DS") {
      r := CreateDs(result);
    } else if result.instruction == Some("DC") {
      r := CreateDc(result, lineNumber);
    } else {
      r := Crash;
    }
  }
}
