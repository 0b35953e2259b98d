/**
 * The parser of one token line, written as functions over an explicit
 * parser state: the scanner cursor, the current token, the diagnostics
 * pushed so far and the records produced so far. Each function mirrors one
 * closure of `parse` (or one operand shape of `createInstruction`) and
 * returns the state it leaves behind; `Crash` is a thrown error, which ends
 * the whole `parseAll` call.
 *
 * The range check on string constants belongs to a package that is not part
 * of this model, so it is the parameter `inRange`.
 */
module Parsing {
  import opened Common
  import opened JsText
  import opened Diagnostics
  import opened Token
  import opened Records
  import opened InstructionMaps
  import opened EscapeString
  import opened Scanning

  datatype PState = PState(index: nat, current: TokenInfo, diags: seq<Diagnostic>, records: seq<Instruction>)

  /** A consuming step: the state after it and whether the expected token was there. */
  datatype Step = Step(st: PState, ok: bool)

  /** `Expected<Array<InstructionBase>, Diagnostic>` */
  datatype ParseResult = ParseResult(success: bool, value: seq<Instruction>, errors: seq<Diagnostic>)

  // ---------------------------------------------------------------------
  // Token helpers.

  /** The token kinds that have a display name. */
  predicate HasName(t: TokenType)
  {
    t != TCOMMENT && t != TUNKNOWN
  }

  /** `tokenToString`: the display name used in "expected" diagnostics. */
  function TokenToString(t: TokenType): (s: string)
    requires HasName(t)
    ensures s != []
  {
    match t
    case TINSTRUCTION => "命令"
    case TGR => "GR"
    case TLABEL => "ラベル"
    case TSPACE => "空白"
    case TCOMMA => ","
    case TDECIMALLITERAL => "10進定数リテラル"
    case THEXLITERAL => "16進定数リテラル"
    case TSTRINGLITERAL => "文字定数リテラル"
    case TDECIMAL => "10進定数"
    case THEX => "16進定数"
    case TSTRING => "文字定数"
  }

  /** `isAddressToken` */
  predicate IsAddressToken(t: TokenType)
  {
    t == TLABEL || t == TINSTRUCTION || t == TDECIMAL || t == THEX
    || t == TDECIMALLITERAL || t == THEXLITERAL || t == TSTRINGLITERAL
  }

  /** The address tokens whose text is kept as a label (or literal) operand. */
  predicate IsSymbolicToken(t: TokenType)
  {
    t == TLABEL || t == TINSTRUCTION || t == TDECIMALLITERAL || t == THEXLITERAL || t == TSTRINGLITERAL
  }

  /** The token kinds `consumeConstant` accepts. */
  predicate IsConstantToken(t: TokenType)
  {
    t == TDECIMAL || t == THEX || t == TSTRING || t == TLABEL
  }

  /** `stringToGR`: `GR0` .. `GR8` (GR8 is the stack pointer); anything else throws. */
  function StringToGR(s: string): (r: Outcome<GR>)
    ensures r.Ok? <==> |s| == 3 && s[..2] == "GR" && '0' <= s[2] <= '8'
    ensures r.Ok? ==> r.value == s[2] as int - '0' as int
  {
    match s
    case "GR0" => Ok(0)
    case "GR1" => Ok(1)
    case "GR2" => Ok(2)
    case "GR3" => Ok(3)
    case "GR4" => Ok(4)
    case "GR5" => Ok(5)
    case "GR6" => Ok(6)
    case "GR7" => Ok(7)
    case "GR8" => Ok(8)
    case _ => RegisterNames(s); Crash
  }

  lemma RegisterNames(s: string)
    ensures |s| == 3 && s[..2] == "GR" && '0' <= s[2] <= '8' ==>
      s == "GR0" || s == "GR1" || s == "GR2" || s == "GR3" || s == "GR4"
      || s == "GR5" || s == "GR6" || s == "GR7" || s == "GR8"
  {
    if |s| == 3 && s[..2] == "GR" && '0' <= s[2] <= '8' {
      assert s == "GR" + [s[2]];
    }
  }

  /**
   * `toAddress`: a label or literal token keeps its text; any other address
   * token is read with `parseInt(_, 10)`, which fails on a `#` hex text and
   * on an `=`-prefixed decimal, so both throw. A `#` text whose hex digits
   * do not parse is returned as NaN by the source; that case is a `Crash`
   * here.
   */
  function ToAddress(tok: TokenInfo): (r: Outcome<Operand>)
    ensures r.Ok? ==> IsAddressToken(tok.tokenType)
    ensures IsSymbolicToken(tok.tokenType) ==> r == Ok(Sym(tok.value))
    ensures r.Ok? && r.value.Sym? ==> IsSymbolicToken(tok.tokenType)
  {
    if !IsAddressToken(tok.tokenType) then Crash
    else if IsSymbolicToken(tok.tokenType) then Ok(Sym(tok.value))
    else
      var str := tok.value;
      if str != [] && str[0] == '#' && ParseInt(str[1..], 16).None? then Crash
      else
        var address :- OrCrash(ParseInt(str, 10));
        Ok(Num(address))
  }

  /** `toConst`: a decimal or `#` hex constant is read as a number, a string or label keeps its text. */
  function ToConst(tok: TokenInfo): (r: Outcome<Operand>)
    ensures r.Ok? ==> IsConstantToken(tok.tokenType)
    ensures tok.tokenType == TSTRING || tok.tokenType == TLABEL ==> r == Ok(Sym(tok.value))
    ensures tok.tokenType == TDECIMAL ==> r == (match ParseInt(tok.value, 10) case Some(d) => Ok(Num(d)) case None => Crash)
  {
    if tok.tokenType == TDECIMAL then
      var d :- OrCrash(ParseInt(tok.value, 10));
      Ok(Num(d))
    else if tok.tokenType == THEX then
      var h :- OrCrash(ParseInt(if tok.value == [] then [] else tok.value[1..], 16));
      Ok(Num(h))
    else if tok.tokenType == TSTRING || tok.tokenType == TLABEL then Ok(Sym(tok.value))
    else Crash
  }

  // ---------------------------------------------------------------------
  // The closures of `parse`.

  /** `nextToken`: scan one token and make it the current one. */
  function Advance(ts: seq<TokenInfo>, s: PState): (r: PState)
    ensures r.diags == s.diags && r.records == s.records
    ensures (r.current, r.index) == ScanAt(ts, s.index)
  {
    var (t, j) := ScanAt(ts, s.index);
    s.(index := j, current := t)
  }

  function Push(s: PState, d: Diagnostic): PState
  {
    s.(diags := s.diags + [d])
  }

  function Emit(s: PState, x: Instruction): PState
  {
    s.(records := s.records + [x])
  }

  /**
   * The "{0} が必要です。" diagnostic from `start` to the end of the line,
   * its placeholder already filled in (`ExpectedAtIsCreated` shows it is
   * what `createDiagnostic` builds).
   */
  function ExpectedAt(line: int, start: int, what: string): Diagnostic
  {
    Diagnostic(line, start, MaxValue, what + " が必要です。", Expected.category, Expected.code)
  }

  /** `ExpectedAt` is `createDiagnostic(line, start, Number.MAX_VALUE, Diagnostics._0_expected, what)`. */
  lemma ExpectedAtIsCreated(line: int, start: int, what: string)
    ensures ExpectedAt(line, start, what) == CreateDiagnostic(line, start, MaxValue, Expected, [what])
  {
    ExpectedText(line, start, what);
  }

  /** `consumeToken(t, pushError)` */
  function ConsumeToken(ts: seq<TokenInfo>, line: int, s: PState, t: TokenType, pushError: bool): (r: Step)
    requires HasName(t)
    ensures r.ok ==> s.index < |ts| && r.st.index == s.index + 1 && r.st.current == ts[s.index] && ts[s.index].tokenType == t
    ensures r.ok || !pushError ==> r.st == Advance(ts, s)
    ensures !r.ok && pushError ==> r.st == Push(Advance(ts, s), ExpectedAt(line, Advance(ts, s).current.startIndex, TokenToString(t)))
  {
    var s1 := Advance(ts, s);
    var ok := s1.current.tokenType == t;
    Step(if !ok && pushError then Push(s1, ExpectedAt(line, s1.current.startIndex, TokenToString(t))) else s1, ok)
  }

  /** `consumeAdr` */
  function ConsumeAdr(ts: seq<TokenInfo>, line: int, s: PState): (r: Step)
    ensures r.ok <==> IsAddressToken(Advance(ts, s).current.tokenType)
    ensures r.ok ==> s.index < |ts| && r.st == Advance(ts, s)
    ensures !r.ok ==> r.st == Push(Advance(ts, s), ExpectedAt(line, Advance(ts, s).current.startIndex, "アドレス"))
  {
    var s1 := Advance(ts, s);
    var ok := IsAddressToken(s1.current.tokenType);
    Step(if !ok then Push(s1, ExpectedAt(line, s1.current.startIndex, "アドレス")) else s1, ok)
  }

  /** `consumeConstant` */
  function ConsumeConstant(ts: seq<TokenInfo>, line: int, s: PState): (r: Step)
    ensures r.ok <==> IsConstantToken(Advance(ts, s).current.tokenType)
    ensures r.ok ==> s.index < |ts| && r.st == Advance(ts, s)
    ensures !r.ok ==> r.st == Push(Advance(ts, s), ExpectedAt(line, Advance(ts, s).current.startIndex, "定数"))
  {
    var s1 := Advance(ts, s);
    var ok := IsConstantToken(s1.current.tokenType);
    Step(if !ok then Push(s1, ExpectedAt(line, s1.current.startIndex, "定数")) else s1, ok)
  }

  /** `consumeCommaSpace(pushError)`: a comma, then a space if one follows. */
  function ConsumeCommaSpace(ts: seq<TokenInfo>, line: int, s: PState, pushError: bool): (r: Step)
    ensures r.ok ==> s.index < |ts| && ts[s.index].tokenType == TCOMMA && r.st.index > s.index
    ensures s.index <= |ts| ==> s.index <= r.st.index <= |ts|
    ensures !pushError ==> r.st.diags == s.diags
    ensures r.st.records == s.records
  {
    var c := ConsumeToken(ts, line, s, TCOMMA, pushError);
    if !c.ok then c
    else if NextAt(ts, c.st.index).tokenType == TSPACE then ConsumeToken(ts, line, c.st, TSPACE, pushError)
    else c
  }

  /**
   * The test of `allScan`: nothing is left to scan, or what is left starts
   * with a comment, or is one space followed by a comment or by nothing.
   */
  predicate NothingLeft(ts: seq<TokenInfo>, i: nat)
  {
    i >= |ts|
    || NextAt(ts, i).tokenType == TCOMMENT
    || (NextAt(ts, i).tokenType == TSPACE
        && (NextNextAt(ts, i).tokenType == TCOMMENT || NextNextAt(ts, i).tokenType == TUNKNOWN))
  }

  /** `allScan(reportError)`: an operand left over is reported at the current token. */
  function AllScan(ts: seq<TokenInfo>, line: int, s: PState, reportError: bool): (r: Step)
    ensures r.ok <==> NothingLeft(ts, s.index)
    ensures r.ok || !reportError ==> r.st == s
    ensures !r.ok && reportError ==>
      r.st == Push(s, PlainDiagnostic(line, s.current.startIndex, MaxValue, UnnecessaryOperand))
  {
    var ok := NothingLeft(ts, s.index);
    Step(if !ok && reportError then Push(s, PlainDiagnostic(line, s.current.startIndex, MaxValue, UnnecessaryOperand)) else s, ok)
  }

  // ---------------------------------------------------------------------
  // The operand shapes of `createInstruction`.

  /** A record of the base kind for mnemonic `info` on this line. */
  function BaseRecord(info: InstructionInfo, line: int, code: Option<Opcode>, labelName: Option<string>,
                r1: Option<GR>, r2: Option<GR>, address: Option<Operand>): Instruction
  {
    NewInstruction(info.instructionName, Some(line), code, labelName, r1, r2, address)
  }

  /** `adr1, adr2` (IN and OUT). */
  function AdrAdr(ts: seq<TokenInfo>, line: int, s: PState, labelName: Option<string>, info: InstructionInfo): Outcome<PState>
  {
    var a := ConsumeAdr(ts, line, s);
    if !a.ok then Ok(a.st)
    else
      var adr1 :- ToAddress(a.st.current);
      var c := ConsumeCommaSpace(ts, line, a.st, true);
      if !c.ok then Ok(c.st)
      else
        var a2 := ConsumeAdr(ts, line, c.st);
        if !a2.ok then Ok(a2.st)
        else
          var adr2 :- ToAddress(a2.st.current);
          var e := AllScan(ts, line, a2.st, true);
          if !e.ok then Ok(e.st)
          else if info.instructionName == "IN" then Ok(Emit(e.st, NewIn(Some(line), labelName, adr1, adr2)))
          else if info.instructionName == "OUT" then Ok(Emit(e.st, NewOut(Some(line), labelName, adr1, adr2)))
          else Crash
  }

  /** `adr[, x]` (jumps, PUSH, CALL, SVC); the record is built without the line's label. */
  function AdrR2(ts: seq<TokenInfo>, line: int, s: PState, info: InstructionInfo): Outcome<PState>
  {
    var a := ConsumeAdr(ts, line, s);
    if !a.ok then Ok(a.st)
    else
      var adr :- ToAddress(a.st.current);
      var e := AllScan(ts, line, a.st, false);
      if e.ok then Ok(Emit(e.st, BaseRecord(info, line, info.code, None, None, None, Some(adr))))
      else
        var c := ConsumeCommaSpace(ts, line, e.st, true);
        if !c.ok then Ok(c.st)
        else
          var g := ConsumeToken(ts, line, c.st, TGR, true);
          if !g.ok then Ok(g.st)
          else
            var r2 :- StringToGR(g.st.current.value);
            var e2 := AllScan(ts, line, g.st, true);
            if !e2.ok then Ok(e2.st)
            else Ok(Emit(e2.st, BaseRecord(info, line, info.code, None, None, Some(r2), Some(adr))))
  }

  /** No operand. */
  function NoOperand(ts: seq<TokenInfo>, line: int, s: PState, labelName: Option<string>, info: InstructionInfo): Outcome<PState>
  {
    var e := AllScan(ts, line, s, true);
    if !e.ok then Ok(e.st)
    else Ok(Emit(e.st, BaseRecord(info, line, info.code, labelName, None, None, None)))
  }

  /** `START [label]` */
  function Start(ts: seq<TokenInfo>, line: int, s: PState, labelName: Option<string>, info: InstructionInfo): Outcome<PState>
  {
    var e := AllScan(ts, line, s, false);
    if e.ok then Ok(Emit(e.st, BaseRecord(info, line, info.code, labelName, None, None, None)))
    else
      var sp := ConsumeToken(ts, line, e.st, TSPACE, true);
      if !sp.ok then Ok(sp.st)
      else
        var lb := ConsumeToken(ts, line, sp.st, TLABEL, true);
        if !lb.ok then Ok(lb.st)
        else
          var e2 := AllScan(ts, line, lb.st, true);
          if !e2.ok then Ok(e2.st)
          else
            var address :- ToAddress(e2.st.current);
            Ok(Emit(e2.st, BaseRecord(info, line, info.code, labelName, None, None, Some(address))))
  }

  /**
   * The number of NOP records `DS n` expands to: the first is always
   * pushed, then one more for each `i` in `1 .. n-1`.
   */
  function NopCount(wordCount: int): nat
  {
    if wordCount > 1 then wordCount else 1
  }

  /** `DS n` with `n != 0`: a NOP with the label and line, then NOPs with line -1 and no label. */
  function NopRecords(nop: InstructionInfo, line: int, labelName: Option<string>, wordCount: int): seq<Instruction>
  {
    [BaseRecord(nop, line, nop.code, labelName, None, None, None)]
    + Repeat(NewInstruction(nop.instructionName, Some(-1), nop.code, None, None, None, None), NopCount(wordCount) - 1)
  }

  /**
   * The NOP entry of the instruction list (found by name there; it is the
   * table's NOP entry, see `TableWellFormed`).
   */
  const NopInfo: InstructionInfo := Machine("NOP", ArgNone, 0x00)

  /** `DS n`: zero gives one OLBL record, anything else NOP records. */
  function Ds(ts: seq<TokenInfo>, line: int, s: PState, labelName: Option<string>): Outcome<PState>
  {
    var d := ConsumeToken(ts, line, s, TDECIMAL, true);
    if !d.ok then Ok(d.st) else DsCount(line, d.st, labelName)
  }

  /** The word count just consumed, read as `parseInt(value)`, and what it expands to. */
  function DsCount(line: int, s: PState, labelName: Option<string>): Outcome<PState>
  {
    var wordCount :- OrCrash(ParseIntAuto(s.current.value));
    Ok(s.(records := s.records + DsExpansion(line, labelName, wordCount)))
  }

  lemma DsCountUnfold(line: int, s: PState, labelName: Option<string>)
    ensures DsCount(line, s, labelName).Crash? <==> ParseIntAuto(s.current.value).None?
    ensures DsCount(line, s, labelName).Ok? ==>
      DsCount(line, s, labelName).value == s.(records := s.records + DsExpansion(line, labelName, ParseIntAuto(s.current.value).value))
  {
  }

  /** What `DS n` pushes: one OLBL for zero, NOP records otherwise. */
  function DsExpansion(line: int, labelName: Option<string>, wordCount: int): seq<Instruction>
  {
    if wordCount == 0 then [NewOlbl(line, labelName)] else NopRecords(NopInfo, line, labelName, wordCount)
  }

  /** `escaped.charAt(i)` */
  function CharAt(s: string, i: nat): string
  {
    if i < |s| then [s[i]] else ""
  }

  /** The MDC of one character after the first: no label, no line. */
  function CharMdc(c: char): Instruction
  {
    NewMdc(None, None, None, Some([c]))
  }

  function CharMdcs(s: string): seq<Instruction>
  {
    if s == [] then [] else CharMdcs(s[..|s| - 1]) + [CharMdc(s[|s| - 1])]
  }

  /** `splitStringLiteralToMdcs` after validation: one MDC per character, the label and line on the first. */
  function StringMdcs(escaped: string, labelName: Option<string>, lineNo: Option<int>): seq<Instruction>
  {
    [NewMdc(labelName, lineNo, None, Some(CharAt(escaped, 0)))] + CharMdcs(if escaped == [] then [] else escaped[1..])
  }

  /** `literal.slice(1, literal.length - 1)` */
  function Inner(literal: string): string
  {
    if |literal| >= 2 then literal[1..|literal| - 1] else ""
  }

  /** `validateStringConstant`: undo `''` escaping, then check the range. */
  function ValidateString(line: int, s: PState, tok: TokenInfo, inRange: string -> bool): (r: (PState, Option<string>))
  {
    match EscapeStringConstant(Inner(tok.value))
    case None => (Push(s, PlainDiagnostic(line, tok.startIndex, tok.endIndex, CannotEscapeSingleQuotes)), None)
    case Some(e) =>
      if !inRange(e) then (Push(s, PlainDiagnostic(line, tok.startIndex, tok.endIndex, JisX0201OutOfRange)), None)
      else (s, Some(e))
  }

  /** `addMDC`: a string constant is split per character, any other constant gives one MDC. */
  function AddMdc(line: int, s: PState, constant: Operand, labelName: Option<string>, lineNo: Option<int>,
                  mdcs: seq<Instruction>, inRange: string -> bool): (r: (PState, seq<Instruction>))
    ensures r.0.index == s.index && r.0.current == s.current && r.0.records == s.records
  {
    if s.current.tokenType == TSTRING then
      var (s1, escaped) := ValidateString(line, s, s.current, inRange);
      if escaped.None? then (s1, mdcs) else (s1, mdcs + StringMdcs(escaped.value, labelName, lineNo))
    else (s, mdcs + [NewMdc(labelName, lineNo, Some(constant), None)])
  }

  /** The comma loop of `DC`: further constants, without label and line. */
  function DcRest(ts: seq<TokenInfo>, line: int, s: PState, mdcs: seq<Instruction>, inRange: string -> bool): Outcome<(PState, seq<Instruction>)>
    requires s.index <= |ts|
    decreases |ts| - s.index
  {
    var c := ConsumeCommaSpace(ts, line, s, false);
    if !c.ok then Ok((c.st, mdcs))
    else
      var k := ConsumeConstant(ts, line, c.st);
      if !k.ok then Ok((k.st, mdcs))
      else
        var constant :- ToConst(k.st.current);
        var (s2, mdcs2) := AddMdc(line, k.st, constant, None, None, mdcs, inRange);
        DcRest(ts, line, s2, mdcs2, inRange)
  }

  /** `DC c[, c]...`: the MDC records are pushed once the loop ends. */
  function Dc(ts: seq<TokenInfo>, line: int, s: PState, labelName: Option<string>, inRange: string -> bool): Outcome<PState>
    requires s.index <= |ts|
  {
    var k := ConsumeConstant(ts, line, s);
    if !k.ok then Ok(k.st)
    else
      var constant :- ToConst(k.st.current);
      var (s1, mdcs) := AddMdc(line, k.st, constant, labelName, Some(line), [], inRange);
      var (s2, mdcs2) :- DcRest(ts, line, s1, mdcs, inRange);
      Ok(s2.(records := s2.records + mdcs2))
  }

  /** `r` (POP). */
  function R(ts: seq<TokenInfo>, line: int, s: PState, labelName: Option<string>, info: InstructionInfo): Outcome<PState>
  {
    var g := ConsumeToken(ts, line, s, TGR, true);
    if !g.ok then Ok(g.st)
    else
      var e := AllScan(ts, line, g.st, true);
      if !e.ok then Ok(e.st)
      else
        var r1 :- StringToGR(e.st.current.value);
        Ok(Emit(e.st, BaseRecord(info, line, info.code, labelName, Some(r1), None, None)))
  }

  /** The part of `r1, adr[, x]` after the address token, shared by both shapes that have it. */
  function AddressTail(ts: seq<TokenInfo>, line: int, s: PState, labelName: Option<string>, info: InstructionInfo, r1: GR): Outcome<PState>
  {
    var address :- ToAddress(s.current);
    var e := AllScan(ts, line, s, false);
    if e.ok then Ok(Emit(e.st, BaseRecord(info, line, info.code, labelName, Some(r1), None, Some(address))))
    else
      var c := ConsumeCommaSpace(ts, line, e.st, true);
      if !c.ok then Ok(c.st)
      else
        var g := ConsumeToken(ts, line, c.st, TGR, true);
        if !g.ok then Ok(g.st)
        else
          var e2 := AllScan(ts, line, g.st, true);
          if !e2.ok then Ok(e2.st)
          else
            var r2 :- StringToGR(e2.st.current.value);
            Ok(Emit(e2.st, BaseRecord(info, line, info.code, labelName, Some(r1), Some(r2), Some(address))))
  }

  /** `r1, adr[, x]` (ST, LAD, shifts). */
  function R1AdrR2(ts: seq<TokenInfo>, line: int, s: PState, labelName: Option<string>, info: InstructionInfo): Outcome<PState>
  {
    var g := ConsumeToken(ts, line, s, TGR, true);
    if !g.ok then Ok(g.st)
    else
      var r1 :- StringToGR(g.st.current.value);
      var c := ConsumeCommaSpace(ts, line, g.st, true);
      if !c.ok then Ok(c.st)
      else
        var a := ConsumeAdr(ts, line, c.st);
        if !a.ok then Ok(a.st)
        else AddressTail(ts, line, a.st, labelName, info, r1)
  }

  /** `r1, r2` or `r1, adr[, x]` (LD and the arithmetic, logical and compare mnemonics). */
  function R1R2OrR1AdrR2(ts: seq<TokenInfo>, line: int, s: PState, labelName: Option<string>, info: InstructionInfo): Outcome<PState>
    requires InstructionTable(info.instructionName) == Some(info) && info.argumentType == ArgR1R2OrR1AdrR2
  {
    TableWellFormed(info.instructionName);
    var g := ConsumeToken(ts, line, s, TGR, true);
    if !g.ok then Ok(g.st)
    else
      var r1 :- StringToGR(g.st.current.value);
      var c := ConsumeCommaSpace(ts, line, g.st, true);
      if !c.ok then Ok(c.st)
      else if IsAddressToken(NextAt(ts, c.st.index).tokenType) then
        var a := ConsumeAdr(ts, line, c.st);
        AddressTail(ts, line, a.st, labelName, info, r1)
      else
        var g2 := ConsumeToken(ts, line, c.st, TGR, true);
        if !g2.ok then Ok(g2.st)
        else
          var e := AllScan(ts, line, g2.st, true);
          if !e.ok then Ok(e.st)
          else
            var r2 :- StringToGR(e.st.current.value);
            Ok(Emit(e.st, BaseRecord(info, line, Some(info.code.value + 4), labelName, Some(r1), Some(r2), None)))
  }

  /** The `switch (info.argumentType)` of `createInstruction`. */
  function Operands(ts: seq<TokenInfo>, line: int, s: PState, labelName: Option<string>, info: InstructionInfo, inRange: string -> bool): Outcome<PState>
    requires InstructionTable(info.instructionName) == Some(info)
    requires s.index <= |ts|
  {
    if info.argumentType == ArgAdrAdr then AdrAdr(ts, line, s, labelName, info)
    else if info.argumentType == ArgAdrR2 then AdrR2(ts, line, s, info)
    else if info.argumentType == ArgNone then NoOperand(ts, line, s, labelName, info)
    else if info.argumentType == ArgOther then
      if info.instructionName == "START" then Start(ts, line, s, labelName, info)
      else if info.instructionName == "DS" then Ds(ts, line, s, labelName)
      else if info.instructionName == "DC" then Dc(ts, line, s, labelName, inRange)
      else Crash
    else if info.argumentType == ArgR then R(ts, line, s, labelName, info)
    else if info.argumentType == ArgR1AdrR2 then R1AdrR2(ts, line, s, labelName, info)
    else if info.argumentType == ArgR1R2OrR1AdrR2 then R1R2OrR1AdrR2(ts, line, s, labelName, info)
    else Crash
  }

  /** `createInstruction(label)`: the mnemonic, the space after it (except for no-operand ones and START), the operands. */
  function CreateInstruction(ts: seq<TokenInfo>, line: int, s: PState, labelName: Option<string>, inRange: string -> bool): Outcome<PState>
    requires s.index <= |ts|
  {
    var t := ConsumeToken(ts, line, s, TINSTRUCTION, true);
    if !t.ok then Ok(t.st)
    else
      var info :- OrCrash(InstructionTable(t.st.current.value));
      TableWellFormed(t.st.current.value);
      if !(info.argumentType == ArgNone || info.instructionName == "START") then
        var sp := ConsumeToken(ts, line, t.st, TSPACE, true);
        if !sp.ok then Ok(sp.st) else Operands(ts, line, sp.st, labelName, info, inRange)
      else Operands(ts, line, t.st, labelName, info, inRange)
  }

  /** The state before the first `scan` of a line. */
  const Initial: PState := PState(0, UnknownToken, [], [])

  /** `parse(tokens)`: the records and diagnostics of one line, in the final state. */
  function ParseLine(ts: seq<TokenInfo>, inRange: string -> bool): Outcome<PState>
  {
    if ts == [] then Crash
    else
      var line := ts[0].line;
      var s0 := Advance(ts, Initial);
      var a := AllScan(ts, line, s0, false);
      if a.ok then Ok(a.st)
      else if a.st.current.tokenType == TSPACE then CreateInstruction(ts, line, a.st, None, inRange)
      else if a.st.current.tokenType == TLABEL || a.st.current.tokenType == TINSTRUCTION then
        var labelName := a.st.current.value;
        var s1 := Advance(ts, a.st);
        if s1.current.tokenType == TSPACE then CreateInstruction(ts, line, s1, Some(labelName), inRange)
        else Ok(Push(s1, ExpectedAt(line, s1.current.startIndex, TokenToString(TSPACE))))
      else
        Ok(Push(a.st, ExpectedAt(line, a.st.current.startIndex,
          TokenToString(TLABEL) + "または" + TokenToString(TINSTRUCTION))))
  }

  /** Every line in order; a throw on any line is a throw of the whole call. */
  function ParseLines(lines: seq<seq<TokenInfo>>, inRange: string -> bool): Outcome<(seq<Instruction>, seq<Diagnostic>)>
  {
    if lines == [] then Ok(([], []))
    else
      var prev :- ParseLines(lines[..|lines| - 1], inRange);
      var last :- ParseLine(lines[|lines| - 1], inRange);
      Ok((prev.0 + last.records, prev.1 + last.diags))
  }

  /** `parseAll` */
  function ParseAllResult(lines: seq<seq<TokenInfo>>, inRange: string -> bool): Outcome<ParseResult>
  {
    var r :- ParseLines(lines, inRange);
    Ok(ParseResult(|r.1| == 0, r.0, r.1))
  }
}
