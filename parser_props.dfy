/**
 * Properties of the line parser: every record it builds is well formed (its
 * confirmed flag agrees with its address and it has a byte length), lines
 * with nothing to parse give nothing, the DS and DC expansions, the two
 * forms of the LD-like mnemonics, and how `parseAll` combines the lines.
 */
module ParserProperties {
  import opened Common
  import opened JsText
  import opened Diagnostics
  import opened Token
  import opened Records
  import opened InstructionMaps
  import opened EscapeString
  import opened Scanning
  import opened Parsing

  /** A record the later phases can rely on: the record invariant holds and the byte length is defined. */
  predicate Sound(x: Instruction)
  {
    x.Valid() && x.ByteLength().Some?
  }

  predicate AllSound(rs: seq<Instruction>)
  {
    forall i :: 0 <= i < |rs| ==> Sound(rs[i])
  }

  lemma AppendSound(rs: seq<Instruction>, xs: seq<Instruction>)
    requires AllSound(rs) && AllSound(xs)
    ensures AllSound(rs + xs)
  {
    forall i | 0 <= i < |rs + xs| ensures Sound((rs + xs)[i]) {
      if i >= |rs| { assert (rs + xs)[i] == xs[i - |rs|]; }
    }
  }

  /**
   * Every code the parser takes from the table has a byte length, and so
   * has code + 4 for LD-like mnemonics; with the byte-length table as
   * written, exactly RPUSH and RPOP have none.
   */
  lemma TableCodesSized(name: string)
    requires InstructionTable(name).Some?
    ensures var info := InstructionTable(name).value;
      (info.argumentType != ArgAdrAdr ==> StoredByteLength(info.code, ByteLengthEntryCorrected).Some?)
      && (info.argumentType != ArgAdrAdr ==>
            (StoredByteLength(info.code, ByteLengthEntry).None? <==> name == "RPUSH" || name == "RPOP"))
      && (info.argumentType == ArgR1R2OrR1AdrR2 ==>
            info.code.Some? && info.code.value + 4 < 256
            && StoredByteLength(Some(info.code.value + 4), ByteLengthEntryCorrected).Some?)
  {
    TableCodesAsWritten(name);
  }

  /** With the byte-length table as written, RPUSH and RPOP are the table's only non-I/O mnemonics without a length. */
  lemma TableCodesAsWritten(name: string)
    requires InstructionTable(name).Some?
    ensures var info := InstructionTable(name).value;
      info.argumentType != ArgAdrAdr ==>
        (StoredByteLength(info.code, ByteLengthEntry).None? <==> name == "RPUSH" || name == "RPOP")
  {
  }

  lemma BaseRecordSound(info: InstructionInfo, line: int, labelName: Option<string>, r1: Option<GR>, r2: Option<GR>, address: Option<Operand>)
    requires InstructionTable(info.instructionName) == Some(info) && info.argumentType != ArgAdrAdr
    ensures Sound(BaseRecord(info, line, info.code, labelName, r1, r2, address))
  {
    TableCodesSized(info.instructionName);
  }

  lemma EmitSound(s: PState, x: Instruction)
    requires AllSound(s.records) && Sound(x)
    ensures AllSound(Emit(s, x).records)
  {
    AppendSound(s.records, [x]);
  }

  lemma AdrAdrSound(ts: seq<TokenInfo>, line: int, s: PState, labelName: Option<string>, info: InstructionInfo)
    requires AllSound(s.records)
    ensures AdrAdr(ts, line, s, labelName, info).Ok? ==> AllSound(AdrAdr(ts, line, s, labelName, info).value.records)
  {
    var a := ConsumeAdr(ts, line, s);
    if a.ok && ToAddress(a.st.current).Ok? {
      var c := ConsumeCommaSpace(ts, line, a.st, true);
      if c.ok {
        var a2 := ConsumeAdr(ts, line, c.st);
        if a2.ok && ToAddress(a2.st.current).Ok? {
          var e := AllScan(ts, line, a2.st, true);
          assert e.st.records == s.records;
          if e.ok && (info.instructionName == "IN" || info.instructionName == "OUT") {
            var adr1, adr2 := ToAddress(a.st.current).value, ToAddress(a2.st.current).value;
            var x := if info.instructionName == "IN" then NewIn(Some(line), labelName, adr1, adr2)
              else NewOut(Some(line), labelName, adr1, adr2);
            assert AdrAdr(ts, line, s, labelName, info) == Ok(Emit(e.st, x));
            EmitSound(e.st, x);
          }
        }
      }
    }
  }

  lemma AdrR2Sound(ts: seq<TokenInfo>, line: int, s: PState, info: InstructionInfo)
    requires AllSound(s.records)
    requires InstructionTable(info.instructionName) == Some(info) && info.argumentType == ArgAdrR2
    ensures AdrR2(ts, line, s, info).Ok? ==> AllSound(AdrR2(ts, line, s, info).value.records)
  {
    TableCodesSized(info.instructionName);
    var r := AdrR2(ts, line, s, info);
    if r.Ok? && |r.value.records| > |s.records| {
      var x := r.value.records[|s.records|];
      assert r.value.records == s.records + [x];
      AppendSound(s.records, [x]);
    }
  }

  lemma NoOperandSound(ts: seq<TokenInfo>, line: int, s: PState, labelName: Option<string>, info: InstructionInfo)
    requires AllSound(s.records)
    requires InstructionTable(info.instructionName) == Some(info) && info.argumentType == ArgNone
    ensures NoOperand(ts, line, s, labelName, info).Ok? && AllSound(NoOperand(ts, line, s, labelName, info).value.records)
  {
    BaseRecordSound(info, line, labelName, None, None, None);
    EmitSound(AllScan(ts, line, s, true).st, BaseRecord(info, line, info.code, labelName, None, None, None));
  }

  lemma StartSound(ts: seq<TokenInfo>, line: int, s: PState, labelName: Option<string>, info: InstructionInfo)
    requires AllSound(s.records)
    requires InstructionTable(info.instructionName) == Some(info) && info.instructionName == "START"
    ensures Start(ts, line, s, labelName, info).Ok? ==> AllSound(Start(ts, line, s, labelName, info).value.records)
  {
    TableCodesSized(info.instructionName);
    var r := Start(ts, line, s, labelName, info);
    if r.Ok? && |r.value.records| > |s.records| {
      var x := r.value.records[|s.records|];
      assert r.value.records == s.records + [x];
      AppendSound(s.records, [x]);
    }
  }

  lemma DsExpansionSound(line: int, labelName: Option<string>, wordCount: int)
    ensures AllSound(DsExpansion(line, labelName, wordCount))
  {
    TableCodesSized("NOP");
    var e := DsExpansion(line, labelName, wordCount);
    if wordCount != 0 {
      var rest := NewInstruction(NopInfo.instructionName, Some(-1), NopInfo.code, None, None, None, None);
      assert Sound(rest);
      forall i | 0 <= i < |e| ensures Sound(e[i]) {
        if i > 0 { assert e[i] == Repeat(rest, NopCount(wordCount) - 1)[i - 1]; }
      }
    }
  }

  lemma DsSound(ts: seq<TokenInfo>, line: int, s: PState, labelName: Option<string>)
    requires AllSound(s.records)
    ensures Parsing.Ds(ts, line, s, labelName).Ok? ==> AllSound(Parsing.Ds(ts, line, s, labelName).value.records)
  {
    var d := ConsumeToken(ts, line, s, TDECIMAL, true);
    if d.ok {
      DsCountUnfold(line, d.st, labelName);
      var w := ParseIntAuto(d.st.current.value);
      if w.Some? {
        DsExpansionSound(line, labelName, w.value);
        AppendSound(s.records, DsExpansion(line, labelName, w.value));
      }
    }
  }

  lemma StringMdcsSound(escaped: string, labelName: Option<string>, lineNo: Option<int>)
    ensures AllSound(StringMdcs(escaped, labelName, lineNo))
  {
    CharMdcsShape(if escaped == [] then [] else escaped[1..]);
  }

  /** One MDC per character, each holding that character. */
  lemma {:induction false} CharMdcsShape(s: string)
    ensures |CharMdcs(s)| == |s|
    ensures forall i :: 0 <= i < |s| ==> CharMdcs(s)[i] == CharMdc(s[i])
    ensures AllSound(CharMdcs(s))
  {
    if s != [] {
      CharMdcsShape(s[..|s| - 1]);
    }
  }

  lemma AddMdcSound(line: int, s: PState, constant: Operand, labelName: Option<string>, lineNo: Option<int>,
                    mdcs: seq<Instruction>, inRange: string -> bool)
    requires AllSound(mdcs)
    ensures AllSound(AddMdc(line, s, constant, labelName, lineNo, mdcs, inRange).1)
  {
    if s.current.tokenType == TSTRING {
      var (s1, escaped) := ValidateString(line, s, s.current, inRange);
      if escaped.Some? {
        StringMdcsSound(escaped.value, labelName, lineNo);
        AppendSound(mdcs, StringMdcs(escaped.value, labelName, lineNo));
      }
    } else {
      AppendSound(mdcs, [NewMdc(labelName, lineNo, Some(constant), None)]);
    }
  }

  lemma {:induction false} DcRestSound(ts: seq<TokenInfo>, line: int, s: PState, mdcs: seq<Instruction>, inRange: string -> bool)
    requires s.index <= |ts| && AllSound(mdcs)
    ensures DcRest(ts, line, s, mdcs, inRange).Ok? ==>
      AllSound(DcRest(ts, line, s, mdcs, inRange).value.1) && DcRest(ts, line, s, mdcs, inRange).value.0.records == s.records
    decreases |ts| - s.index
  {
    var c := ConsumeCommaSpace(ts, line, s, false);
    if c.ok {
      var k := ConsumeConstant(ts, line, c.st);
      if k.ok {
        var constant := ToConst(k.st.current);
        if constant.Ok? {
          AddMdcSound(line, k.st, constant.value, None, None, mdcs, inRange);
          var (s2, mdcs2) := AddMdc(line, k.st, constant.value, None, None, mdcs, inRange);
          DcRestSound(ts, line, s2, mdcs2, inRange);
        }
      }
    }
  }

  lemma DcSound(ts: seq<TokenInfo>, line: int, s: PState, labelName: Option<string>, inRange: string -> bool)
    requires s.index <= |ts| && AllSound(s.records)
    ensures Dc(ts, line, s, labelName, inRange).Ok? ==> AllSound(Dc(ts, line, s, labelName, inRange).value.records)
  {
    var k := ConsumeConstant(ts, line, s);
    if k.ok {
      var constant := ToConst(k.st.current);
      if constant.Ok? {
        AddMdcSound(line, k.st, constant.value, labelName, Some(line), [], inRange);
        var (s1, mdcs) := AddMdc(line, k.st, constant.value, labelName, Some(line), [], inRange);
        DcRestSound(ts, line, s1, mdcs, inRange);
        var rest := DcRest(ts, line, s1, mdcs, inRange);
        if rest.Ok? {
          AppendSound(s.records, rest.value.1);
        }
      }
    }
  }

  lemma RSound(ts: seq<TokenInfo>, line: int, s: PState, labelName: Option<string>, info: InstructionInfo)
    requires AllSound(s.records)
    requires InstructionTable(info.instructionName) == Some(info) && info.argumentType == ArgR
    ensures R(ts, line, s, labelName, info).Ok? ==> AllSound(R(ts, line, s, labelName, info).value.records)
  {
    TableCodesSized(info.instructionName);
    var r := R(ts, line, s, labelName, info);
    if r.Ok? && |r.value.records| > |s.records| {
      var x := r.value.records[|s.records|];
      assert r.value.records == s.records + [x];
      AppendSound(s.records, [x]);
    }
  }

  lemma AddressTailSound(ts: seq<TokenInfo>, line: int, s: PState, labelName: Option<string>, info: InstructionInfo, r1: GR)
    requires AllSound(s.records)
    requires InstructionTable(info.instructionName) == Some(info) && info.argumentType != ArgAdrAdr
    ensures AddressTail(ts, line, s, labelName, info, r1).Ok? ==> AllSound(AddressTail(ts, line, s, labelName, info, r1).value.records)
  {
    TableCodesSized(info.instructionName);
    var r := AddressTail(ts, line, s, labelName, info, r1);
    if r.Ok? && |r.value.records| > |s.records| {
      var x := r.value.records[|s.records|];
      assert r.value.records == s.records + [x];
      AppendSound(s.records, [x]);
    }
  }

  lemma R1AdrR2Sound(ts: seq<TokenInfo>, line: int, s: PState, labelName: Option<string>, info: InstructionInfo)
    requires AllSound(s.records)
    requires InstructionTable(info.instructionName) == Some(info) && info.argumentType == ArgR1AdrR2
    ensures R1AdrR2(ts, line, s, labelName, info).Ok? ==> AllSound(R1AdrR2(ts, line, s, labelName, info).value.records)
  {
    var g := ConsumeToken(ts, line, s, TGR, true);
    if g.ok {
      var c := ConsumeCommaSpace(ts, line, g.st, true);
      if c.ok {
        var a := ConsumeAdr(ts, line, c.st);
        if a.ok && StringToGR(g.st.current.value).Ok? {
          AddressTailSound(ts, line, a.st, labelName, info, StringToGR(g.st.current.value).value);
        }
      }
    }
  }

  lemma R1R2OrR1AdrR2Sound(ts: seq<TokenInfo>, line: int, s: PState, labelName: Option<string>, info: InstructionInfo)
    requires AllSound(s.records)
    requires InstructionTable(info.instructionName) == Some(info) && info.argumentType == ArgR1R2OrR1AdrR2
    ensures R1R2OrR1AdrR2(ts, line, s, labelName, info).Ok? ==> AllSound(R1R2OrR1AdrR2(ts, line, s, labelName, info).value.records)
  {
    TableCodesSized(info.instructionName);
    var g := ConsumeToken(ts, line, s, TGR, true);
    if g.ok && StringToGR(g.st.current.value).Ok? {
      var r1 := StringToGR(g.st.current.value).value;
      var c := ConsumeCommaSpace(ts, line, g.st, true);
      if c.ok {
        if IsAddressToken(NextAt(ts, c.st.index).tokenType) {
          var a := ConsumeAdr(ts, line, c.st);
          AddressTailSound(ts, line, a.st, labelName, info, r1);
        } else {
          var r := R1R2OrR1AdrR2(ts, line, s, labelName, info);
          if r.Ok? && |r.value.records| > |s.records| {
            var x := r.value.records[|s.records|];
            assert r.value.records == s.records + [x];
            AppendSound(s.records, [x]);
          }
        }
      }
    }
  }

  lemma OperandsSound(ts: seq<TokenInfo>, line: int, s: PState, labelName: Option<string>, info: InstructionInfo, inRange: string -> bool)
    requires AllSound(s.records) && s.index <= |ts|
    requires InstructionTable(info.instructionName) == Some(info)
    ensures Operands(ts, line, s, labelName, info, inRange).Ok? ==> AllSound(Operands(ts, line, s, labelName, info, inRange).value.records)
  {
    if info.argumentType == ArgAdrAdr {
      AdrAdrSound(ts, line, s, labelName, info);
    } else if info.argumentType == ArgAdrR2 {
      AdrR2Sound(ts, line, s, info);
    } else if info.argumentType == ArgNone {
      NoOperandSound(ts, line, s, labelName, info);
    } else if info.argumentType == ArgOther {
      if info.instructionName == "START" {
        StartSound(ts, line, s, labelName, info);
      } else if info.instructionName == "DS" {
        DsSound(ts, line, s, labelName);
      } else if info.instructionName == "DC" {
        DcSound(ts, line, s, labelName, inRange);
      }
    } else if info.argumentType == ArgR {
      RSound(ts, line, s, labelName, info);
    } else if info.argumentType == ArgR1AdrR2 {
      R1AdrR2Sound(ts, line, s, labelName, info);
    } else if info.argumentType == ArgR1R2OrR1AdrR2 {
      R1R2OrR1AdrR2Sound(ts, line, s, labelName, info);
    }
  }

  lemma CreateInstructionSound(ts: seq<TokenInfo>, line: int, s: PState, labelName: Option<string>, inRange: string -> bool)
    requires AllSound(s.records) && s.index <= |ts|
    ensures CreateInstruction(ts, line, s, labelName, inRange).Ok? ==>
      AllSound(CreateInstruction(ts, line, s, labelName, inRange).value.records)
  {
    var t := ConsumeToken(ts, line, s, TINSTRUCTION, true);
    if t.ok {
      var info := InstructionTable(t.st.current.value);
      if info.Some? {
        TableWellFormed(t.st.current.value);
        if !(info.value.argumentType == ArgNone || info.value.instructionName == "START") {
          var sp := ConsumeToken(ts, line, t.st, TSPACE, true);
          OperandsSound(ts, line, sp.st, labelName, info.value, inRange);
        } else {
          OperandsSound(ts, line, t.st, labelName, info.value, inRange);
        }
      }
    }
  }

  /** Every record that one line yields is well formed. */
  lemma ParseLineSound(ts: seq<TokenInfo>, inRange: string -> bool)
    ensures ParseLine(ts, inRange).Ok? ==> AllSound(ParseLine(ts, inRange).value.records)
  {
    if ts != [] {
      var line := ts[0].line;
      var s0 := Advance(ts, Initial);
      var a := AllScan(ts, line, s0, false);
      if !a.ok {
        if a.st.current.tokenType == TSPACE {
          CreateInstructionSound(ts, line, a.st, None, inRange);
        } else if a.st.current.tokenType == TLABEL || a.st.current.tokenType == TINSTRUCTION {
          var s1 := Advance(ts, a.st);
          CreateInstructionSound(ts, line, s1, Some(a.st.current.value), inRange);
        }
      }
    }
  }

  /** Every record that `parseAll` yields is well formed. */
  lemma {:induction false} ParseLinesSound(lines: seq<seq<TokenInfo>>, inRange: string -> bool)
    ensures ParseLines(lines, inRange).Ok? ==> AllSound(ParseLines(lines, inRange).value.0)
  {
    if lines != [] {
      ParseLinesSound(lines[..|lines| - 1], inRange);
      ParseLineSound(lines[|lines| - 1], inRange);
      var prev := ParseLines(lines[..|lines| - 1], inRange);
      var last := ParseLine(lines[|lines| - 1], inRange);
      if prev.Ok? && last.Ok? {
        AppendSound(prev.value.0, last.value.records);
      }
    }
  }

  // ---------------------------------------------------------------------
  // What the shapes produce.

  /** A line with nothing after its first token, or only a comment or a space and a comment, yields nothing. */
  lemma NothingToParse(ts: seq<TokenInfo>, inRange: string -> bool)
    requires ts != [] && NothingLeft(ts, 1)
    ensures ParseLine(ts, inRange).Ok?
    ensures ParseLine(ts, inRange).value.records == [] && ParseLine(ts, inRange).value.diags == []
  {
  }

  /**
   * `DS 0` is one zero-length OLBL record with the label; `DS n` for n > 0
   * is n NOP records with the label and line on the first only. A negative
   * count still gives the first NOP.
   */
  lemma DsExpansionShape(line: int, labelName: Option<string>, n: int)
    ensures var e := DsExpansion(line, labelName, n);
      && (n == 0 ==> |e| == 1 && e[0].name == "OLBL" && e[0].labelName == labelName
                     && e[0].lineNumber == Some(line) && e[0].ByteLength() == Some(0) && e[0].ToHex() == Ok([]))
      && (n != 0 ==> |e| == (if n > 0 then n else 1))
      && (n != 0 ==> forall i :: 0 <= i < |e| ==>
            e[i].name == "NOP" && e[i].code == Some(0) && e[i].ByteLength() == Some(2)
            && e[i].labelName == (if i == 0 then labelName else None)
            && e[i].lineNumber == Some(if i == 0 then line else -1))
  {
    var e := DsExpansion(line, labelName, n);
    if n != 0 {
      var rest := NewInstruction("NOP", Some(-1), Some(0), None, None, None, None);
      forall i | 0 < i < |e|
        ensures e[i] == rest
      {
        assert e[i] == Repeat(rest, NopCount(n) - 1)[i - 1];
      }
    }
  }

  /** One MDC per character of a non-empty string, each holding its character; label and line on the first only. */
  lemma StringMdcsShape(escaped: string, labelName: Option<string>, lineNo: Option<int>)
    requires escaped != []
    ensures var m := StringMdcs(escaped, labelName, lineNo);
      |m| == |escaped|
      && (forall i :: 0 <= i < |m| ==>
            (m[i].kind == Mdc(Some([escaped[i]])) && m[i].name == "MDC"
             && m[i].labelName == (if i == 0 then labelName else None)
             && m[i].lineNumber == (if i == 0 then lineNo else None)))
  {
    var m := StringMdcs(escaped, labelName, lineNo);
    CharMdcsShape(escaped[1..]);
    forall i | 1 <= i < |m|
      ensures m[i] == CharMdc(escaped[i])
    {
      assert m[i] == CharMdcs(escaped[1..])[i - 1];
    }
  }

  /** A numeric or label constant adds exactly one MDC holding it. */
  lemma AddMdcConstant(line: int, s: PState, constant: Operand, labelName: Option<string>, lineNo: Option<int>,
                       mdcs: seq<Instruction>, inRange: string -> bool)
    requires s.current.tokenType != TSTRING
    ensures var r := AddMdc(line, s, constant, labelName, lineNo, mdcs, inRange);
      r.0 == s && |r.1| == |mdcs| + 1 && r.1[..|mdcs|] == mdcs
      && r.1[|mdcs|].kind == Mdc(None) && r.1[|mdcs|].address == Some(constant)
      && r.1[|mdcs|].labelName == labelName && r.1[|mdcs|].lineNumber == lineNo
  {
    var r := AddMdc(line, s, constant, labelName, lineNo, mdcs, inRange);
    assert r.1 == mdcs + [NewMdc(labelName, lineNo, Some(constant), None)];
  }

  /** A string constant that decodes and is in range adds one MDC per character. */
  lemma AddMdcString(line: int, s: PState, constant: Operand, labelName: Option<string>, lineNo: Option<int>,
                     mdcs: seq<Instruction>, inRange: string -> bool)
    requires s.current.tokenType == TSTRING
    requires EscapeStringConstant(Inner(s.current.value)).Some?
    requires inRange(EscapeStringConstant(Inner(s.current.value)).value)
    ensures var e := EscapeStringConstant(Inner(s.current.value)).value;
      var r := AddMdc(line, s, constant, labelName, lineNo, mdcs, inRange);
      r.0 == s && r.1 == mdcs + StringMdcs(e, labelName, lineNo)
  {
  }

  /**
   * A string constant whose `''` escaping is broken, or that leaves the
   * JIS X 0201 range, adds no record and exactly one diagnostic: code 14
   * for the escaping, code 15 for the range.
   */
  lemma BadStringNoRecords(line: int, s: PState, constant: Operand, labelName: Option<string>, lineNo: Option<int>,
                           mdcs: seq<Instruction>, inRange: string -> bool)
    requires s.current.tokenType == TSTRING
    requires EscapeStringConstant(Inner(s.current.value)).None? || !inRange(EscapeStringConstant(Inner(s.current.value)).value)
    ensures var r := AddMdc(line, s, constant, labelName, lineNo, mdcs, inRange);
      r.1 == mdcs && r.0.records == s.records
      && |r.0.diags| == |s.diags| + 1 && r.0.diags[..|s.diags|] == s.diags
      && r.0.diags[|s.diags|].code == (if EscapeStringConstant(Inner(s.current.value)).None? then 14 else 15)
      && r.0.diags[|s.diags|].startIndex == s.current.startIndex && r.0.diags[|s.diags|].endIndex == s.current.endIndex
  {
    var r := AddMdc(line, s, constant, labelName, lineNo, mdcs, inRange);
    assert r.0.diags[..|s.diags|] == s.diags;
  }

  /**
   * `out` extends `mdcs` with MDC records only, the first of which carries
   * `labelName` and `lineNo` and every later one neither.
   */
  predicate MdcTail(out: seq<Instruction>, mdcs: seq<Instruction>, labelName: Option<string>, lineNo: Option<int>)
  {
    |out| >= |mdcs| && out[..|mdcs|] == mdcs
    && forall i :: |mdcs| <= i < |out| ==>
         out[i].kind.Mdc? && out[i].labelName == (if i == |mdcs| then labelName else None)
         && out[i].lineNumber == (if i == |mdcs| then lineNo else None)
  }

  lemma MdcTailTrans(a: seq<Instruction>, b: seq<Instruction>, c: seq<Instruction>, labelName: Option<string>, lineNo: Option<int>)
    requires MdcTail(b, a, labelName, lineNo) && MdcTail(c, b, None, None)
    ensures |b| > |a| ==> MdcTail(c, a, labelName, lineNo)
    ensures |b| == |a| ==> MdcTail(c, a, None, None)
  {
    assert c[..|a|] == c[..|b|][..|a|];
  }

  /** The MDC records of the comma loop come after the ones before it and carry neither label nor line. */
  lemma {:induction false} DcRestAppends(ts: seq<TokenInfo>, line: int, s: PState, mdcs: seq<Instruction>, inRange: string -> bool)
    requires s.index <= |ts|
    ensures var r := DcRest(ts, line, s, mdcs, inRange);
      r.Ok? ==>
        (MdcTail(r.value.1, mdcs, None, None) && r.value.0.records == s.records
         && |r.value.0.diags| >= |s.diags|)
    decreases |ts| - s.index
  {
    var c := ConsumeCommaSpace(ts, line, s, false);
    if !c.ok {
      assert mdcs[..|mdcs|] == mdcs;
    } else {
      var k := ConsumeConstant(ts, line, c.st);
      if !k.ok {
        assert mdcs[..|mdcs|] == mdcs;
      } else {
        var constant := ToConst(k.st.current);
        if constant.Ok? {
          var (s2, mdcs2) := AddMdc(line, k.st, constant.value, None, None, mdcs, inRange);
          AddMdcLabels(line, k.st, constant.value, None, None, mdcs, inRange);
          DcRestAppends(ts, line, s2, mdcs2, inRange);
          assert DcRest(ts, line, s, mdcs, inRange) == DcRest(ts, line, s2, mdcs2, inRange);
          var r := DcRest(ts, line, s2, mdcs2, inRange);
          if r.Ok? {
            MdcTailTrans(mdcs, mdcs2, r.value.1, None, None);
          }
        }
      }
    }
  }

  /** What `AddMdc` appends are MDC records carrying the given label and line on the first only; a rejected string adds a diagnostic instead. */
  lemma AddMdcLabels(line: int, s: PState, constant: Operand, labelName: Option<string>, lineNo: Option<int>,
                     mdcs: seq<Instruction>, inRange: string -> bool)
    ensures var r := AddMdc(line, s, constant, labelName, lineNo, mdcs, inRange);
      MdcTail(r.1, mdcs, labelName, lineNo)
      && |r.0.diags| >= |s.diags|
      && (|r.1| > |mdcs| || |r.0.diags| > |s.diags|)
  {
    var r := AddMdc(line, s, constant, labelName, lineNo, mdcs, inRange);
    if s.current.tokenType == TSTRING {
      var (s1, escaped) := ValidateString(line, s, s.current, inRange);
      if escaped.Some? {
        assert r.1 == mdcs + StringMdcs(escaped.value, labelName, lineNo);
        StringMdcsTail(mdcs, escaped.value, labelName, lineNo);
      } else {
        assert r.1[..|mdcs|] == mdcs;
      }
    } else {
      assert r.1 == mdcs + [NewMdc(labelName, lineNo, Some(constant), None)];
      assert r.1[..|mdcs|] == mdcs;
    }
  }

  /** A string constant's MDC records, appended, carry the label and line on the first only. */
  lemma StringMdcsTail(mdcs: seq<Instruction>, e: string, labelName: Option<string>, lineNo: Option<int>)
    ensures MdcTail(mdcs + StringMdcs(e, labelName, lineNo), mdcs, labelName, lineNo)
  {
    var m := StringMdcs(e, labelName, lineNo);
    var out := mdcs + m;
    assert out[..|mdcs|] == mdcs;
    CharMdcsShape(if e == [] then [] else e[1..]);
    forall i | |mdcs| <= i < |out|
      ensures out[i].kind.Mdc? && out[i].labelName == (if i == |mdcs| then labelName else None)
      && out[i].lineNumber == (if i == |mdcs| then lineNo else None)
    {
      assert out[i] == m[i - |mdcs|];
      if i > |mdcs| {
        assert m[i - |mdcs|] == CharMdcs(if e == [] then [] else e[1..])[i - |mdcs| - 1];
      }
    }
  }

  /**
   * `DC`: the records pushed are MDC records only, pushed after the ones
   * already there; when the line gave no diagnostic the first carries the
   * label and the line and every later one neither.
   */
  lemma DcLabelOnFirst(ts: seq<TokenInfo>, line: int, s: PState, labelName: Option<string>, inRange: string -> bool)
    requires s.index <= |ts|
    ensures var r := Dc(ts, line, s, labelName, inRange);
      r.Ok? && r.value.diags == s.diags ==> MdcTail(r.value.records, s.records, labelName, Some(line))
  {
    var r := Dc(ts, line, s, labelName, inRange);
    var k := ConsumeConstant(ts, line, s);
    if k.ok {
      var constant := ToConst(k.st.current);
      if constant.Ok? {
        AddMdcLabels(line, k.st, constant.value, labelName, Some(line), [], inRange);
        var (s1, mdcs) := AddMdc(line, k.st, constant.value, labelName, Some(line), [], inRange);
        DcRestAppends(ts, line, s1, mdcs, inRange);
        var rest := DcRest(ts, line, s1, mdcs, inRange);
        if rest.Ok? {
          var out := rest.value.1;
          assert r == Ok(rest.value.0.(records := rest.value.0.records + out));
          if r.value.diags == s.diags {
            assert |mdcs| > 0;
            MdcTailTrans([], mdcs, out, labelName, Some(line));
            MdcTailAfter(s.records, out, labelName, Some(line));
          }
        }
      }
    }
  }

  lemma MdcTailAfter(rs: seq<Instruction>, out: seq<Instruction>, labelName: Option<string>, lineNo: Option<int>)
    requires MdcTail(out, [], labelName, lineNo)
    ensures MdcTail(rs + out, rs, labelName, lineNo)
  {
    assert (rs + out)[..|rs|] == rs;
    forall i | |rs| <= i < |rs + out|
      ensures (rs + out)[i] == out[i - |rs|]
    {
    }
  }

  /** The part after the address keeps the table code and the address. */
  lemma AddressTailCode(ts: seq<TokenInfo>, line: int, s: PState, labelName: Option<string>, info: InstructionInfo, r1: GR)
    ensures var r := AddressTail(ts, line, s, labelName, info, r1);
      r.Ok? && |r.value.records| > |s.records| ==>
        |r.value.records| == |s.records| + 1 && r.value.records[|s.records|].r1 == Some(r1)
        && r.value.records[|s.records|].address.Some? && r.value.records[|s.records|].code == info.code
        && r.value.records[|s.records|].ByteLength() == StoredByteLength(info.code, ByteLengthEntryCorrected)
  {
  }

  /**
   * `r1, r2` uses the table code + 4 and has no address; `r1, adr[, x]`
   * keeps the table code and has the address. The two codes have byte
   * lengths 2 and 4.
   */
  lemma RegisterFormCode(ts: seq<TokenInfo>, line: int, s: PState, labelName: Option<string>, info: InstructionInfo)
    requires InstructionTable(info.instructionName) == Some(info) && info.argumentType == ArgR1R2OrR1AdrR2
    ensures var r := R1R2OrR1AdrR2(ts, line, s, labelName, info);
      r.Ok? && |r.value.records| > |s.records| ==>
        var x := r.value.records[|s.records|];
        |r.value.records| == |s.records| + 1 && x.r1.Some?
        && ((x.address.None? && x.r2.Some? && info.code.Some? && x.code == Some(info.code.value + 4) && x.ByteLength() == Some(2))
            || (x.address.Some? && x.code == info.code && x.ByteLength() == Some(4)))
  {
    TableWellFormed(info.instructionName);
    LdLikeFormLengths(info.instructionName);
    var c4 := info.code.value + 4;
    assert StoredByteLength(Some(c4), ByteLengthEntryCorrected) == Some(2);
    assert StoredByteLength(info.code, ByteLengthEntryCorrected) == Some(4);
    var r := R1R2OrR1AdrR2(ts, line, s, labelName, info);
    var g := ConsumeToken(ts, line, s, TGR, true);
    if g.ok && StringToGR(g.st.current.value).Ok? {
      var r1 := StringToGR(g.st.current.value).value;
      var c := ConsumeCommaSpace(ts, line, g.st, true);
      if c.ok {
        if IsAddressToken(NextAt(ts, c.st.index).tokenType) {
          var a := ConsumeAdr(ts, line, c.st);
          assert r == AddressTail(ts, line, a.st, labelName, info, r1);
          AddressTailCode(ts, line, a.st, labelName, info, r1);
        } else {
          var g2 := ConsumeToken(ts, line, c.st, TGR, true);
          if g2.ok {
            var e := AllScan(ts, line, g2.st, true);
            if e.ok && StringToGR(e.st.current.value).Ok? {
              var x := BaseRecord(info, line, Some(c4), labelName, Some(r1), Some(StringToGR(e.st.current.value).value), None);
              assert r == Ok(Emit(e.st, x));
              assert e.st.records == s.records;
              assert x.ByteLength() == Some(2);
            }
          }
        }
      }
    }
  }

  /** A token left after a complete no-operand shape gives the Message-category diagnostic and no record. */
  lemma UnnecessaryOperandNoRecord(ts: seq<TokenInfo>, line: int, s: PState, labelName: Option<string>, info: InstructionInfo)
    requires !NothingLeft(ts, s.index)
    ensures var r := NoOperand(ts, line, s, labelName, info);
      r.Ok? && r.value.records == s.records && |r.value.diags| == |s.diags| + 1
      && r.value.diags[|s.diags|].code == 20 && r.value.diags[|s.diags|].category == Message
  {
  }

  // ---------------------------------------------------------------------
  // Whole lines.

  /** The result of each line on its own, in order. */
  function LineResults(lines: seq<seq<TokenInfo>>, inRange: string -> bool): (rs: seq<Outcome<PState>>)
    ensures |rs| == |lines|
  {
    seq(|lines|, i requires 0 <= i < |lines| => ParseLine(lines[i], inRange))
  }

  /** How `parseAll` joins per-line results: records and diagnostics concatenated in order, any throw propagated. */
  function Combine(rs: seq<Outcome<PState>>): Outcome<(seq<Instruction>, seq<Diagnostic>)>
  {
    if rs == [] then Ok(([], []))
    else
      var prev :- Combine(rs[..|rs| - 1]);
      var last :- rs[|rs| - 1];
      Ok((prev.0 + last.records, prev.1 + last.diags))
  }

  lemma {:induction false} ParseLinesCombine(lines: seq<seq<TokenInfo>>, inRange: string -> bool)
    ensures ParseLines(lines, inRange) == Combine(LineResults(lines, inRange))
  {
    if lines != [] {
      var n := |lines| - 1;
      ParseLinesCombine(lines[..n], inRange);
      assert LineResults(lines, inRange)[..n] == LineResults(lines[..n], inRange);
    }
  }

  /** Joining succeeds iff every part does, and gives no diagnostic iff no part gave one. */
  lemma {:induction false} CombineAll(rs: seq<Outcome<PState>>)
    ensures Combine(rs).Ok? <==> forall i :: 0 <= i < |rs| ==> rs[i].Ok?
    ensures Combine(rs).Ok? ==> (Combine(rs).value.1 == [] <==> forall i :: 0 <= i < |rs| ==> rs[i].Ok? && rs[i].value.diags == [])
  {
    if rs != [] {
      var n := |rs| - 1;
      CombineAll(rs[..n]);
      assert forall i :: 0 <= i < n ==> rs[..n][i] == rs[i];
    }
  }

  /** Every line is parsed, whatever the earlier ones gave; a throw on any line is a throw of the call. */
  lemma ParseLinesAll(lines: seq<seq<TokenInfo>>, inRange: string -> bool)
    ensures ParseLines(lines, inRange).Ok? <==> forall i :: 0 <= i < |lines| ==> LineResults(lines, inRange)[i].Ok?
  {
    ParseLinesCombine(lines, inRange);
    CombineAll(LineResults(lines, inRange));
  }

  /** `parseAll` succeeds iff no line produced a diagnostic of any category. */
  lemma ParseAllSuccess(lines: seq<seq<TokenInfo>>, inRange: string -> bool)
    requires ParseAllResult(lines, inRange).Ok?
    ensures ParseAllResult(lines, inRange).value.success <==>
      forall i :: 0 <= i < |lines| ==> LineResults(lines, inRange)[i].Ok? && LineResults(lines, inRange)[i].value.diags == []
  {
    var rs := LineResults(lines, inRange);
    ParseAllOfCombine(lines, inRange);
    CombineAll(rs);
  }

  lemma ParseAllOfCombine(lines: seq<seq<TokenInfo>>, inRange: string -> bool)
    ensures var c := Combine(LineResults(lines, inRange));
      ParseAllResult(lines, inRange) == if c.Ok? then Ok(ParseResult(|c.value.1| == 0, c.value.0, c.value.1)) else Crash
  {
    ParseLinesCombine(lines, inRange);
  }

  // ---------------------------------------------------------------------
  // Whole lines, worked through.

  /** The tokens of `    LD    GR1, GR2` on line 1. */
  const LdRegisterLine: seq<TokenInfo> := [
    TokenInfo("    ", TSPACE, 1, 0, 4), TokenInfo("LD", TINSTRUCTION, 1, 4, 6), TokenInfo("    ", TSPACE, 1, 6, 10),
    TokenInfo("GR1", TGR, 1, 10, 13), TokenInfo(",", TCOMMA, 1, 13, 14), TokenInfo(" ", TSPACE, 1, 14, 15),
    TokenInfo("GR2", TGR, 1, 15, 18)]

  /** The state after `LD` and the space after it. */
  const LdOperandState: PState := PState(3, LdRegisterLine[2], [], [])

  /** The state after the leading space. */
  const LdStartState: PState := PState(1, LdRegisterLine[0], [], [])

  lemma LdRegisterLineStart(inRange: string -> bool)
    ensures ParseLine(LdRegisterLine, inRange) == CreateInstruction(LdRegisterLine, 1, LdStartState, None, inRange)
  {
    assert Advance(LdRegisterLine, Initial) == LdStartState;
    assert !NothingLeft(LdRegisterLine, 1);
  }

  const LdInfo: InstructionInfo := Machine("LD", ArgR1R2OrR1AdrR2, 0x10)

  lemma LdEntry()
    ensures InstructionTable("LD") == Some(LdInfo)
  {
  }

  lemma LdRegisterLineMnemonic(inRange: string -> bool)
    ensures CreateInstruction(LdRegisterLine, 1, LdStartState, None, inRange)
      == Operands(LdRegisterLine, 1, LdOperandState, None, LdInfo, inRange)
  {
    LdEntry();
    var ts := LdRegisterLine;
    var s2 := PState(2, ts[1], [], []);
    assert ConsumeToken(ts, 1, LdStartState, TINSTRUCTION, true) == Step(s2, true);
    assert ConsumeToken(ts, 1, s2, TSPACE, true) == Step(LdOperandState, true);
  }

  lemma LdRegisterLineShape(inRange: string -> bool)
    ensures Operands(LdRegisterLine, 1, LdOperandState, None, LdInfo, inRange)
      == R1R2OrR1AdrR2(LdRegisterLine, 1, LdOperandState, None, LdInfo)
  {
    LdEntry();
    LdLikeOperands(LdRegisterLine, 1, LdOperandState, None, LdInfo, inRange);
  }

  /** The operand switch sends an LD-like mnemonic to its own shape. */
  lemma LdLikeOperands(ts: seq<TokenInfo>, line: int, s: PState, labelName: Option<string>, info: InstructionInfo, inRange: string -> bool)
    requires InstructionTable(info.instructionName) == Some(info) && s.index <= |ts|
    requires info.argumentType == ArgR1R2OrR1AdrR2
    ensures Operands(ts, line, s, labelName, info, inRange) == R1R2OrR1AdrR2(ts, line, s, labelName, info)
  {
  }

  lemma LdRegisterLineOperands()
    ensures InstructionTable(LdInfo.instructionName) == Some(LdInfo)
    ensures R1R2OrR1AdrR2(LdRegisterLine, 1, LdOperandState, None, LdInfo)
      == Ok(Emit(PState(7, LdRegisterLine[6], [], []), LdRegisterRecord))
  {
    LdEntry();
    LdRegisterSteps();
    assert StringToGR("GR1") == Ok(1);
    assert StringToGR("GR2") == Ok(2);
  }

  /** The steps of `LD GR1, GR2` after the mnemonic: a register, a comma and a space, a register, and nothing left. */
  lemma LdRegisterSteps()
    ensures var ts := LdRegisterLine;
      var s4, s6, s7 := PState(4, ts[3], [], []), PState(6, ts[5], [], []), PState(7, ts[6], [], []);
      ConsumeToken(ts, 1, LdOperandState, TGR, true) == Step(s4, true)
      && ConsumeCommaSpace(ts, 1, s4, true) == Step(s6, true)
      && !IsAddressToken(NextAt(ts, 6).tokenType)
      && ConsumeToken(ts, 1, s6, TGR, true) == Step(s7, true)
      && AllScan(ts, 1, s7, true) == Step(s7, true)
  {
    LdFirstRegister();
    LdCommaSpace();
    LdSecondRegister();
  }

  lemma LdFirstRegister()
    ensures ConsumeToken(LdRegisterLine, 1, LdOperandState, TGR, true) == Step(PState(4, LdRegisterLine[3], [], []), true)
  {
    assert Advance(LdRegisterLine, LdOperandState) == PState(4, LdRegisterLine[3], [], []);
  }

  lemma LdSecondRegister()
    ensures var ts := LdRegisterLine;
      var s7 := PState(7, ts[6], [], []);
      !IsAddressToken(NextAt(ts, 6).tokenType)
      && ConsumeToken(ts, 1, PState(6, ts[5], [], []), TGR, true) == Step(s7, true)
      && AllScan(ts, 1, s7, true) == Step(s7, true)
  {
    var ts := LdRegisterLine;
    assert NextAt(ts, 6).tokenType == TGR;
    assert Advance(ts, PState(6, ts[5], [], [])) == PState(7, ts[6], [], []);
  }

  lemma LdCommaSpace()
    ensures ConsumeCommaSpace(LdRegisterLine, 1, PState(4, LdRegisterLine[3], [], []), true)
      == Step(PState(6, LdRegisterLine[5], [], []), true)
  {
    var ts := LdRegisterLine;
    var s5 := PState(5, ts[4], [], []);
    assert ConsumeToken(ts, 1, PState(4, ts[3], [], []), TCOMMA, true) == Step(s5, true);
    assert NextAt(ts, 5).tokenType == TSPACE;
    assert ConsumeToken(ts, 1, s5, TSPACE, true) == Step(PState(6, ts[5], [], []), true);
  }

  /** The record `LD GR1, GR2` is parsed into. */
  const LdRegisterRecord: Instruction := NewInstruction("LD", Some(1), Some(0x14), None, Some(1), Some(2), None)

  /** `LD GR1, GR2` parses to one record with code 0x14 that encodes as 0x1412. */
  lemma LdRegisterLineParses(inRange: string -> bool)
    ensures ParseLine(LdRegisterLine, inRange) == Ok(Emit(PState(7, LdRegisterLine[6], [], []), LdRegisterRecord))
    ensures LdRegisterRecord.code == Some(0x14) && LdRegisterRecord.ToHex() == Ok([0x1412])
  {
    LdRegisterLineStart(inRange);
    LdRegisterLineMnemonic(inRange);
    LdRegisterLineShape(inRange);
    LdRegisterLineOperands();
    Records.LdRegisterRegister();
  }

  /** The tokens of `    RPUSH` on line 1. */
  const RpushLine: seq<TokenInfo> := [TokenInfo("    ", TSPACE, 1, 0, 4), TokenInfo("RPUSH", TINSTRUCTION, 1, 4, 9)]

  /** The record `RPUSH` is parsed into. */
  const RpushRecord: Instruction := NewInstruction("RPUSH", Some(1), Some(0xA0), None, None, None, None)

  /**
   * `    RPUSH` parses to one record with opcode 0xA0 and no diagnostic;
   * with the byte-length table as written that record has no byte length.
   */
  lemma RpushLineParses(inRange: string -> bool)
    ensures ParseLine(RpushLine, inRange) == Ok(Emit(PState(2, RpushLine[1], [], []), RpushRecord))
    ensures RpushRecord.code == Some(0xA0) && RpushRecord.kind == Base
    ensures RpushRecord.AsWrittenByteLength().None? && RpushRecord.ByteLength() == Some(2)
  {
    RpushLineStart(inRange);
    RpushLineMnemonic(inRange);
    RpushLineOperands();
    assert ByteLengthEntry(0xA0).None?;
  }

  lemma RpushLineStart(inRange: string -> bool)
    ensures ParseLine(RpushLine, inRange) == CreateInstruction(RpushLine, 1, PState(1, RpushLine[0], [], []), None, inRange)
  {
    assert Advance(RpushLine, Initial) == PState(1, RpushLine[0], [], []);
    assert !NothingLeft(RpushLine, 1);
  }

  lemma RpushLineMnemonic(inRange: string -> bool)
    ensures InstructionTable("RPUSH") == Some(InstructionInfo("", "RPUSH", "macro", ArgNone, Some(0xA0)))
    ensures CreateInstruction(RpushLine, 1, PState(1, RpushLine[0], [], []), None, inRange)
      == NoOperand(RpushLine, 1, PState(2, RpushLine[1], [], []), None, InstructionInfo("", "RPUSH", "macro", ArgNone, Some(0xA0)))
  {
    var ts := RpushLine;
    assert ConsumeToken(ts, 1, PState(1, ts[0], [], []), TINSTRUCTION, true) == Step(PState(2, ts[1], [], []), true);
  }

  lemma RpushLineOperands()
    ensures NoOperand(RpushLine, 1, PState(2, RpushLine[1], [], []), None, InstructionInfo("", "RPUSH", "macro", ArgNone, Some(0xA0)))
      == Ok(Emit(PState(2, RpushLine[1], [], []), RpushRecord))
  {
  }
}
