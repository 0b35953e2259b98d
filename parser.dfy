/**
 * The parser as the source runs it: `parse` allocates a `Scanner`, keeps
 * the current token, a diagnostics list and the record it builds in local
 * variables its closures update, and `parseAll` loops over the lines. Here
 * those locals are the fields of a `LineParser`, its closures the methods,
 * and every method is proved to leave the state that the corresponding
 * function of `Parsing` computes.
 */
module Parser {
  import opened Common
  import opened JsText
  import opened Diagnostics
  import opened Token
  import opened Records
  import opened InstructionMaps
  import opened EscapeString
  import opened Scanning
  import opened Parsing

  class LineParser {
    const tokens: seq<TokenInfo>
    const line: int
    const scanner: Scanner
    const inRange: string -> bool
    var current: TokenInfo
    var diagnostics: seq<Diagnostic>
    /** The `instruction` local: the one record of an ordinary line. */
    var instruction: Option<Instruction>
    /** What DS and DC push straight into the output list. */
    var emitted: seq<Instruction>

    ghost predicate Valid()
      reads scanner
    {
      scanner.tokens == tokens && scanner.index <= |tokens|
    }

    function Records(): seq<Instruction>
      reads this
    {
      if instruction.Some? then emitted + [instruction.value] else emitted
    }

    ghost function State(): PState
      reads this, scanner
    {
      PState(scanner.index, current, diagnostics, Records())
    }

    /** `const scanner = new Scanner(tokens)`, `line = tokens[0].line`, and the first `scan`. */
    constructor(tokens: seq<TokenInfo>, inRange: string -> bool)
      requires tokens != []
      ensures Valid() && fresh(scanner)
      ensures this.tokens == tokens && this.inRange == inRange && line == tokens[0].line
      ensures State() == Advance(tokens, Initial)
      ensures instruction.None? && emitted == []
    {
      this.tokens := tokens;
      this.inRange := inRange;
      line := tokens[0].line;
      var s := new Scanner(tokens);
      var t := s.Scan();
      scanner := s;
      current := t;
      diagnostics := [];
      instruction := None;
      emitted := [];
    }

    method NextToken() returns (t: TokenInfo)
      requires Valid()
      modifies this, scanner
      ensures Valid() && State() == Advance(tokens, old(State())) && t == current
      ensures instruction == old(instruction) && emitted == old(emitted)
    {
      t := scanner.Scan();
      current := t;
    }

    method ConsumeToken(t: TokenType, pushError: bool) returns (r: bool)
      requires Valid() && HasName(t)
      modifies this, scanner
      ensures Valid() && Step(State(), r) == Parsing.ConsumeToken(tokens, line, old(State()), t, pushError)
      ensures instruction == old(instruction) && emitted == old(emitted)
    {
      var token := NextToken();
      r := token.tokenType == t;
      if !r && pushError {
        diagnostics := diagnostics + [ExpectedAt(line, token.startIndex, TokenToString(t))];
      }
    }

    method ConsumeAdr() returns (r: bool)
      requires Valid()
      modifies this, scanner
      ensures Valid() && Step(State(), r) == Parsing.ConsumeAdr(tokens, line, old(State()))
      ensures instruction == old(instruction) && emitted == old(emitted)
    {
      var token := NextToken();
      r := IsAddressToken(token.tokenType);
      if !r {
        diagnostics := diagnostics + [ExpectedAt(line, token.startIndex, "アドレス")];
      }
    }

    method ConsumeConstant() returns (r: bool)
      requires Valid()
      modifies this, scanner
      ensures Valid() && Step(State(), r) == Parsing.ConsumeConstant(tokens, line, old(State()))
      ensures instruction == old(instruction) && emitted == old(emitted)
    {
      var token := NextToken();
      r := IsConstantToken(token.tokenType);
      if !r {
        diagnostics := diagnostics + [ExpectedAt(line, token.startIndex, "定数")];
      }
    }

    method ConsumeCommaSpace(pushError: bool) returns (r: bool)
      requires Valid()
      modifies this, scanner
      ensures Valid() && Step(State(), r) == Parsing.ConsumeCommaSpace(tokens, line, old(State()), pushError)
      ensures instruction == old(instruction) && emitted == old(emitted)
    {
      r := ConsumeToken(TCOMMA, pushError);
      if r && scanner.GetNext().tokenType == TSPACE {
        r := ConsumeToken(TSPACE, pushError);
      }
    }

    method AllScan(reportError: bool) returns (r: bool)
      requires Valid()
      modifies this
      ensures Valid() && Step(State(), r) == Parsing.AllScan(tokens, line, old(State()), reportError)
      ensures instruction == old(instruction) && emitted == old(emitted)
    {
      ghost var s := State();
      var next, nextNext := scanner.GetNext(), scanner.GetNextNext();
      r := scanner.AllScan()
        || next.tokenType == TCOMMENT
        || (next.tokenType == TSPACE && (nextNext.tokenType == TCOMMENT || nextNext.tokenType == TUNKNOWN));
      assert r == NothingLeft(tokens, s.index);
      if !r && reportError {
        diagnostics := diagnostics + [PlainDiagnostic(line, current.startIndex, MaxValue, UnnecessaryOperand)];
        assert State() == Push(s, PlainDiagnostic(line, s.current.startIndex, MaxValue, UnnecessaryOperand));
      } else {
        assert State() == s;
      }
    }

    method AdrAdr(labelName: Option<string>, info: InstructionInfo) returns (crashed: bool)
      requires Valid() && instruction.None?
      modifies this, scanner
      ensures Valid()
      ensures crashed <==> Parsing.AdrAdr(tokens, line, old(State()), labelName, info).Crash?
      ensures !crashed ==> State() == Parsing.AdrAdr(tokens, line, old(State()), labelName, info).value
    {
      crashed := false;
      var a := ConsumeAdr();
      if a {
        var adr1 := ToAddress(current);
        if adr1.Crash? { return true; }
        var c := ConsumeCommaSpace(true);
        if c {
          var a2 := ConsumeAdr();
          if a2 {
            var adr2 := ToAddress(current);
            if adr2.Crash? { return true; }
            var e := AllScan(true);
            if e {
              if info.instructionName == "IN" {
                instruction := Some(NewIn(Some(line), labelName, adr1.value, adr2.value));
              } else if info.instructionName == "OUT" {
                instruction := Some(NewOut(Some(line), labelName, adr1.value, adr2.value));
              } else {
                return true;
              }
            }
          }
        }
      }
    }

    method AdrR2(info: InstructionInfo) returns (crashed: bool)
      requires Valid() && instruction.None?
      modifies this, scanner
      ensures Valid()
      ensures crashed <==> Parsing.AdrR2(tokens, line, old(State()), info).Crash?
      ensures !crashed ==> State() == Parsing.AdrR2(tokens, line, old(State()), info).value
    {
      crashed := false;
      var a := ConsumeAdr();
      if a {
        var adr := ToAddress(current);
        if adr.Crash? { return true; }
        var e := AllScan(false);
        if e {
          instruction := Some(BaseRecord(info, line, info.code, None, None, None, Some(adr.value)));
        } else {
          var c := ConsumeCommaSpace(true);
          if c {
            var g := ConsumeToken(TGR, true);
            if g {
              var r2 := StringToGR(current.value);
              if r2.Crash? { return true; }
              var e2 := AllScan(true);
              if e2 {
                instruction := Some(BaseRecord(info, line, info.code, None, None, Some(r2.value), Some(adr.value)));
              }
            }
          }
        }
      }
    }

    method NoOperand(labelName: Option<string>, info: InstructionInfo)
      requires Valid() && instruction.None?
      modifies this, scanner
      ensures Valid()
      ensures Parsing.NoOperand(tokens, line, old(State()), labelName, info) == Ok(State())
    {
      ghost var s := State();
      var e := AllScan(true);
      if e {
        var x := BaseRecord(info, line, info.code, labelName, None, None, None);
        instruction := Some(x);
        assert Records() == s.records + [x];
      }
    }

    method Start(labelName: Option<string>, info: InstructionInfo) returns (crashed: bool)
      requires Valid() && instruction.None?
      modifies this, scanner
      ensures Valid()
      ensures crashed <==> Parsing.Start(tokens, line, old(State()), labelName, info).Crash?
      ensures !crashed ==> State() == Parsing.Start(tokens, line, old(State()), labelName, info).value
    {
      crashed := false;
      var e := AllScan(false);
      if !e {
        var sp := ConsumeToken(TSPACE, true);
        if sp {
          var lb := ConsumeToken(TLABEL, true);
          if lb {
            var e2 := AllScan(true);
            if e2 {
              var address := ToAddress(current);
              if address.Crash? { return true; }
              instruction := Some(BaseRecord(info, line, info.code, labelName, None, None, Some(address.value)));
            }
          }
        }
      } else {
        instruction := Some(BaseRecord(info, line, info.code, labelName, None, None, None));
      }
    }

    method Ds(labelName: Option<string>) returns (crashed: bool)
      requires Valid() && instruction.None?
      modifies this, scanner
      ensures Valid() && instruction.None?
      ensures crashed <==> Parsing.Ds(tokens, line, old(State()), labelName).Crash?
      ensures !crashed ==> State() == Parsing.Ds(tokens, line, old(State()), labelName).value
    {
      crashed := false;
      ghost var s0 := State();
      var d := ConsumeToken(TDECIMAL, true);
      ghost var s1 := State();
      assert Parsing.ConsumeToken(tokens, line, s0, TDECIMAL, true) == Step(s1, d);
      if !d {
        assert Parsing.Ds(tokens, line, s0, labelName) == Ok(s1);
        return;
      }
      assert Parsing.Ds(tokens, line, s0, labelName) == Parsing.DsCount(line, s1, labelName);
      crashed := DsCount(labelName);
      DsCountUnfold(line, s1, labelName);
    }

    method DsCount(labelName: Option<string>) returns (crashed: bool)
      modifies this
      ensures crashed <==> ParseIntAuto(current.value).None?
      ensures !crashed ==> emitted == old(emitted) + DsExpansion(line, labelName, ParseIntAuto(current.value).value)
      ensures instruction == old(instruction) && current == old(current) && diagnostics == old(diagnostics)
    {
      var wordCount := ParseIntAuto(current.value);
      if wordCount.None? { return true; }
      crashed := false;
      PushDs(labelName, wordCount.value);
    }

    method PushDs(labelName: Option<string>, wordCount: int)
      modifies this
      ensures emitted == old(emitted) + DsExpansion(line, labelName, wordCount)
      ensures instruction == old(instruction) && current == old(current) && diagnostics == old(diagnostics)
    {
      if wordCount == 0 {
        emitted := emitted + [NewOlbl(line, labelName)];
      } else {
        PushNops(NopInfo, labelName, wordCount);
      }
    }

    /** The NOP records of `DS n`: the first with the label and line, then one per `i` in `1 .. n-1`. */
    method PushNops(nop: InstructionInfo, labelName: Option<string>, wordCount: int)
      modifies this
      ensures emitted == old(emitted) + NopRecords(nop, line, labelName, wordCount)
      ensures instruction == old(instruction) && current == old(current) && diagnostics == old(diagnostics)
    {
      var rest := NewInstruction(nop.instructionName, Some(-1), nop.code, None, None, None, None);
      var first := BaseRecord(nop, line, nop.code, labelName, None, None, None);
      emitted := emitted + [first];
      var i := 1;
      while i < wordCount
        invariant 1 <= i <= NopCount(wordCount)
        invariant emitted == old(emitted) + [first] + Repeat(rest, i - 1)
        invariant instruction == old(instruction) && current == old(current) && diagnostics == old(diagnostics)
        decreases wordCount - i
      {
        assert Repeat(rest, i) == Repeat(rest, i - 1) + [rest];
        emitted := emitted + [rest];
        i := i + 1;
      }
      assert emitted == old(emitted) + ([first] + Repeat(rest, NopCount(wordCount) - 1));
    }

    /** `validateStringConstant` */
    method ValidateString(tok: TokenInfo) returns (escaped: Option<string>)
      requires Valid()
      modifies this
      ensures Valid() && (State(), escaped) == Parsing.ValidateString(line, old(State()), tok, inRange)
      ensures instruction == old(instruction) && emitted == old(emitted)
    {
      ghost var s := State();
      escaped := EscapeStringConstant(Inner(tok.value));
      if escaped.None? {
        var d := PlainDiagnostic(line, tok.startIndex, tok.endIndex, CannotEscapeSingleQuotes);
        diagnostics := diagnostics + [d];
        assert State() == Push(s, d);
        return;
      }
      if !inRange(escaped.value) {
        var d := PlainDiagnostic(line, tok.startIndex, tok.endIndex, JisX0201OutOfRange);
        diagnostics := diagnostics + [d];
        assert State() == Push(s, d);
        return None;
      }
      assert State() == s;
    }

    /** `splitStringLiteralToMdcs`: an MDC with the label and line, then one per further character. */
    method SplitStringLiteralToMdcs(tok: TokenInfo, labelName: Option<string>, lineNo: Option<int>, mdcs: seq<Instruction>)
      returns (mdcs': seq<Instruction>)
      requires Valid()
      modifies this
      ensures Valid() && instruction == old(instruction) && emitted == old(emitted)
      ensures var (s, e) := Parsing.ValidateString(line, old(State()), tok, inRange);
        State() == s && mdcs' == if e.None? then mdcs else mdcs + StringMdcs(e.value, labelName, lineNo)
    {
      var escaped := ValidateString(tok);
      if escaped.None? { return mdcs; }
      var e := escaped.value;
      mdcs' := mdcs + [NewMdc(labelName, lineNo, None, Some(CharAt(e, 0)))];
      if e != [] {
        mdcs' := AppendCharMdcs(e, mdcs');
      }
    }

    method AddMdc(constant: Operand, labelName: Option<string>, lineNo: Option<int>, mdcs: seq<Instruction>)
      returns (mdcs': seq<Instruction>)
      requires Valid()
      modifies this
      ensures Valid() && instruction == old(instruction) && emitted == old(emitted)
      ensures (State(), mdcs') == Parsing.AddMdc(line, old(State()), constant, labelName, lineNo, mdcs, inRange)
    {
      if current.tokenType == TSTRING {
        mdcs' := SplitStringLiteralToMdcs(current, labelName, lineNo, mdcs);
      } else {
        mdcs' := mdcs + [NewMdc(labelName, lineNo, Some(constant), None)];
      }
    }

    method Dc(labelName: Option<string>) returns (crashed: bool)
      requires Valid() && instruction.None?
      modifies this, scanner
      ensures Valid() && instruction.None?
      ensures crashed <==> Parsing.Dc(tokens, line, old(State()), labelName, inRange).Crash?
      ensures !crashed ==> State() == Parsing.Dc(tokens, line, old(State()), labelName, inRange).value
    {
      ghost var s := State();
      crashed := false;
      var k := ConsumeConstant();
      if !k { return; }
      ghost var sk := State();
      var constant := ToConst(current);
      if constant.Crash? { return true; }
      var mdcs := AddMdc(constant.value, labelName, Some(line), []);
      ghost var s1 := State();
      assert (s1, mdcs) == Parsing.AddMdc(line, sk, constant.value, labelName, Some(line), [], inRange);
      ghost var e0 := emitted;
      assert s1.records == e0;
      var mdcs' := [];
      crashed, mdcs' := DcLoop(mdcs);
      if !crashed {
        ghost var s2 := State();
        assert (s2, mdcs') == DcRest(tokens, line, s1, mdcs, inRange).value;
        emitted := emitted + mdcs';
        assert State() == s2.(records := s2.records + mdcs');
      }
    }

    /** `while (consumeCommaSpace(false))`: one more constant per comma, without label and line. */
    method DcLoop(mdcs: seq<Instruction>) returns (crashed: bool, mdcs': seq<Instruction>)
      requires Valid()
      modifies this, scanner
      ensures Valid() && instruction == old(instruction) && emitted == old(emitted)
      ensures crashed <==> DcRest(tokens, line, old(State()), mdcs, inRange).Crash?
      ensures !crashed ==> (State(), mdcs') == DcRest(tokens, line, old(State()), mdcs, inRange).value
    {
      crashed := false;
      mdcs' := mdcs;
      while true
        invariant Valid() && instruction == old(instruction) && emitted == old(emitted)
        invariant DcRest(tokens, line, old(State()), mdcs, inRange) == DcRest(tokens, line, State(), mdcs', inRange)
        decreases |tokens| - scanner.index
      {
        ghost var s := State();
        var c := ConsumeCommaSpace(false);
        if !c { return; }
        var k := ConsumeConstant();
        if !k { return; }
        var constant := ToConst(current);
        if constant.Crash? { return true, mdcs'; }
        mdcs' := AddMdc(constant.value, None, None, mdcs');
      }
    }

    method R(labelName: Option<string>, info: InstructionInfo) returns (crashed: bool)
      requires Valid() && instruction.None?
      modifies this, scanner
      ensures Valid()
      ensures crashed <==> Parsing.R(tokens, line, old(State()), labelName, info).Crash?
      ensures !crashed ==> State() == Parsing.R(tokens, line, old(State()), labelName, info).value
    {
      crashed := false;
      var g := ConsumeToken(TGR, true);
      if g {
        var e := AllScan(true);
        if e {
          var r1 := StringToGR(current.value);
          if r1.Crash? { return true; }
          instruction := Some(BaseRecord(info, line, info.code, labelName, Some(r1.value), None, None));
        }
      }
    }

    method AddressTail(labelName: Option<string>, info: InstructionInfo, r1: GR) returns (crashed: bool)
      requires Valid() && instruction.None?
      modifies this, scanner
      ensures Valid()
      ensures crashed <==> Parsing.AddressTail(tokens, line, old(State()), labelName, info, r1).Crash?
      ensures !crashed ==> State() == Parsing.AddressTail(tokens, line, old(State()), labelName, info, r1).value
    {
      ghost var s := State();
      crashed := false;
      var address := ToAddress(current);
      if address.Crash? { return true; }
      var e := AllScan(false);
      if e {
        instruction := Some(BaseRecord(info, line, info.code, labelName, Some(r1), None, Some(address.value)));
        return;
      }
      var c := ConsumeCommaSpace(true);
      if !c { return; }
      var g := ConsumeToken(TGR, true);
      if !g { return; }
      ghost var sg := State();
      var e2 := AllScan(true);
      if !e2 { return; }
      var r2 := StringToGR(current.value);
      if r2.Crash? { return true; }
      var x := BaseRecord(info, line, info.code, labelName, Some(r1), Some(r2.value), Some(address.value));
      assert Parsing.AddressTail(tokens, line, s, labelName, info, r1) == Ok(Emit(sg, x));
      instruction := Some(x);
    }

    method R1AdrR2(labelName: Option<string>, info: InstructionInfo) returns (crashed: bool)
      requires Valid() && instruction.None?
      modifies this, scanner
      ensures Valid()
      ensures crashed <==> Parsing.R1AdrR2(tokens, line, old(State()), labelName, info).Crash?
      ensures !crashed ==> State() == Parsing.R1AdrR2(tokens, line, old(State()), labelName, info).value
    {
      crashed := false;
      var g := ConsumeToken(TGR, true);
      if g {
        var r1 := StringToGR(current.value);
        if r1.Crash? { return true; }
        var c := ConsumeCommaSpace(true);
        if c {
          var a := ConsumeAdr();
          if a {
            crashed := AddressTail(labelName, info, r1.value);
          }
        }
      }
    }

    method R1R2OrR1AdrR2(labelName: Option<string>, info: InstructionInfo) returns (crashed: bool)
      requires Valid() && instruction.None?
      requires InstructionTable(info.instructionName) == Some(info) && info.argumentType == ArgR1R2OrR1AdrR2
      modifies this, scanner
      ensures Valid()
      ensures crashed <==> Parsing.R1R2OrR1AdrR2(tokens, line, old(State()), labelName, info).Crash?
      ensures !crashed ==> State() == Parsing.R1R2OrR1AdrR2(tokens, line, old(State()), labelName, info).value
    {
      TableWellFormed(info.instructionName);
      crashed := false;
      var g := ConsumeToken(TGR, true);
      if g {
        var r1 := StringToGR(current.value);
        if r1.Crash? { return true; }
        var c := ConsumeCommaSpace(true);
        if c {
          if IsAddressToken(scanner.GetNext().tokenType) {
            var a := ConsumeAdr();
            if !a { return true; }
            crashed := AddressTail(labelName, info, r1.value);
          } else {
            var g2 := ConsumeToken(TGR, true);
            if g2 {
              var e := AllScan(true);
              if e {
                var r2 := StringToGR(current.value);
                if r2.Crash? { return true; }
                instruction := Some(BaseRecord(info, line, Some(info.code.value + 4), labelName, Some(r1.value), Some(r2.value), None));
              }
            }
          }
        }
      }
    }

    method Operands(labelName: Option<string>, info: InstructionInfo) returns (crashed: bool)
      requires Valid() && instruction.None?
      requires InstructionTable(info.instructionName) == Some(info)
      modifies this, scanner
      ensures Valid()
      ensures crashed <==> Parsing.Operands(tokens, line, old(State()), labelName, info, inRange).Crash?
      ensures !crashed ==> State() == Parsing.Operands(tokens, line, old(State()), labelName, info, inRange).value
    {
      crashed := false;
      if info.argumentType == ArgAdrAdr {
        crashed := AdrAdr(labelName, info);
      } else if info.argumentType == ArgAdrR2 {
        crashed := AdrR2(info);
      } else if info.argumentType == ArgNone {
        NoOperand(labelName, info);
      } else if info.argumentType == ArgOther {
        if info.instructionName == "START" {
          crashed := Start(labelName, info);
        } else if info.instructionName == "DS" {
          crashed := Ds(labelName);
        } else if info.instructionName == "DC" {
          crashed := Dc(labelName);
        } else {
          crashed := true;
        }
      } else if info.argumentType == ArgR {
        crashed := R(labelName, info);
      } else if info.argumentType == ArgR1AdrR2 {
        crashed := R1AdrR2(labelName, info);
      } else if info.argumentType == ArgR1R2OrR1AdrR2 {
        crashed := R1R2OrR1AdrR2(labelName, info);
      } else {
        crashed := true;
      }
    }

    method CreateInstruction(labelName: Option<string>) returns (crashed: bool)
      requires Valid() && instruction.None?
      modifies this, scanner
      ensures Valid()
      ensures crashed <==> Parsing.CreateInstruction(tokens, line, old(State()), labelName, inRange).Crash?
      ensures !crashed ==> State() == Parsing.CreateInstruction(tokens, line, old(State()), labelName, inRange).value
    {
      crashed := false;
      var t := ConsumeToken(TINSTRUCTION, true);
      if t {
        var info := InstructionTable(current.value);
        if info.None? { return true; }
        TableWellFormed(current.value);
        if !(info.value.argumentType == ArgNone || info.value.instructionName == "START") {
          var sp := ConsumeToken(TSPACE, true);
          if !sp { return; }
        }
        crashed := Operands(labelName, info.value);
      }
    }

    /** The body of `parse` after the first `scan`. */
    method Run() returns (crashed: bool)
      requires Valid() && instruction.None? && emitted == []
      requires tokens != [] && line == tokens[0].line && State() == Advance(tokens, Initial)
      modifies this, scanner
      ensures Valid()
      ensures crashed <==> ParseLine(tokens, inRange).Crash?
      ensures !crashed ==> State() == ParseLine(tokens, inRange).value
    {
      ghost var s0 := State();
      crashed := false;
      var a := AllScan(false);
      ghost var sa := State();
      assert Parsing.AllScan(tokens, line, s0, false) == Step(sa, a);
      if a {
      } else if current.tokenType == TSPACE {
        crashed := CreateInstruction(None);
      } else if current.tokenType == TLABEL || current.tokenType == TINSTRUCTION {
        var labelName := current.value;
        var next := NextToken();
        ghost var s1 := State();
        assert s1 == Advance(tokens, sa);
        if next.tokenType == TSPACE {
          crashed := CreateInstruction(Some(labelName));
        } else {
          var d := ExpectedAt(line, current.startIndex, TokenToString(TSPACE));
          diagnostics := diagnostics + [d];
          assert State() == Push(s1, d);
        }
      } else {
        var d := ExpectedAt(line, current.startIndex, TokenToString(TLABEL) + "または" + TokenToString(TINSTRUCTION));
        diagnostics := diagnostics + [d];
        assert State() == Push(sa, d);
      }
    }
  }

  /** The loop of `splitStringLiteralToMdcs` over every character after the first. */
  method AppendCharMdcs(e: string, acc: seq<Instruction>) returns (r: seq<Instruction>)
    requires e != []
    ensures r == acc + CharMdcs(e[1..])
  {
    r := acc;
    var i := 1;
    while i < |e|
      invariant 1 <= i <= |e|
      invariant r == acc + CharMdcs(e[1..i])
    {
      assert e[1..i + 1][..i - 1] == e[1..i];
      r := r + [CharMdc(e[i])];
      i := i + 1;
    }
    assert e[1..i] == e[1..];
  }

  /** `parse(tokens)`: the records and diagnostics one line contributes. */
  method Parse(tokens: seq<TokenInfo>, inRange: string -> bool) returns (r: Outcome<(seq<Instruction>, seq<Diagnostic>)>)
    ensures r.Crash? <==> ParseLine(tokens, inRange).Crash?
    ensures r.Ok? ==> r.value == (ParseLine(tokens, inRange).value.records, ParseLine(tokens, inRange).value.diags)
  {
    if tokens == [] {
      return Crash;
    }
    var p := new LineParser(tokens, inRange);
    var crashed := p.Run();
    if crashed {
      return Crash;
    }
    return Ok((p.Records(), p.diagnostics));
  }

  /** A line that throws makes the whole list throw. */
  lemma {:induction false} ParseLinesCrash(lines: seq<seq<TokenInfo>>, i: nat, inRange: string -> bool)
    requires i <= |lines| && ParseLines(lines[..i], inRange).Crash?
    ensures ParseLines(lines, inRange).Crash?
    decreases |lines| - i
  {
    if i < |lines| {
      assert lines[..i + 1][..i] == lines[..i];
      ParseLinesCrash(lines, i + 1, inRange);
    } else {
      assert lines[..i] == lines;
    }
  }

  /** `parseAll`: every line in turn, then success exactly when no diagnostic was collected. */
  method ParseAll(tokensList: seq<seq<TokenInfo>>, inRange: string -> bool) returns (r: Outcome<ParseResult>)
    ensures r == ParseAllResult(tokensList, inRange)
  {
    var allDiagnostics: seq<Diagnostic> := [];
    var instructions: seq<Instruction> := [];
    for i := 0 to |tokensList|
      invariant ParseLines(tokensList[..i], inRange) == Ok((instructions, allDiagnostics))
    {
      var x := Parse(tokensList[i], inRange);
      assert tokensList[..i + 1][..i] == tokensList[..i];
      if x.Crash? {
        ParseLinesCrash(tokensList, i + 1, inRange);
        return Crash;
      }
      instructions := instructions + x.value.0;
      allDiagnostics := allDiagnostics + x.value.1;
    }
    assert tokensList[..|tokensList|] == tokensList;
    return Ok(ParseResult(|allDiagnostics| == 0, instructions, allDiagnostics));
  }
}
