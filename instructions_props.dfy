/** What `Instructions.create`, `createDS` and `createDC` guarantee about the records they build. */
module InstructionsProperties {
  import opened Common
  import opened JsText
  import opened Records
  import opened LexerResults
  import opened FieldLexer
  import opened Instructions
  import InstructionMaps
  import Parsing
  import EscapeString
  import ParserProperties

  // ---------------------------------------------------------------------
  // The mnemonic groups.

  /**
   * For a name made only of word characters, the word-boundary pattern of a
   * group matches exactly when the name is one of the group's words: a word
   * inside such a name has no boundary on at least one side.
   */
  lemma WholeWord(s: string, words: seq<string>)
    requires forall j | 0 <= j < |s| :: IsWordChar(s[j])
    ensures HasWord(s, words) <==> s in words
  {
    if HasWord(s, words) {
      var k, i :| 0 <= k < |words| && 0 <= i <= |s| && WordAt(s, i, words[k]);
      var w := words[k];
      assert s == s[0..|w|] == w;
    }
    if s in words {
      var k :| 0 <= k < |words| && words[k] == s;
      assert s[0..|s|] == s;
      assert WordAt(s, 0, words[k]);
    }
  }

  /** Every name of every group, and IN, OUT, DS and DC, is made of capitals. */
  lemma NamesAreUpper(m: string)
    requires m in NopLike || m in PopLike || m in JumpLike || m in LadLike || m in AddaLike || m in StartLike
      || m == "IN" || m == "OUT" || m == "DS" || m == "DC"
    ensures forall j | 0 <= j < |m| :: IsWordChar(m[j])
  {
    if m in NopLike { GroupUpper(NopLike, m); }
    else if m in PopLike { GroupUpper(PopLike, m); }
    else if m in JumpLike { GroupUpper(JumpLike, m); }
    else if m in LadLike { GroupUpper(LadLike, m); }
    else if m in AddaLike { GroupUpper(AddaLike, m); }
    else if m in StartLike { GroupUpper(StartLike, m); }
    else { GroupUpper(["IN", "OUT", "DS", "DC"], m); }
  }

  /** The names of one group are made of capitals. */
  lemma GroupUpper(words: seq<string>, m: string)
    requires words in [NopLike, PopLike, JumpLike, LadLike, AddaLike, StartLike, ["IN", "OUT", "DS", "DC"]]
    requires m in words
    ensures forall j | 0 <= j < |m| :: IsWordChar(m[j])
  {
    forall n | n in words
      ensures forall j | 0 <= j < |n| :: 'A' <= n[j] <= 'Z'
    {
    }
  }

  /** The group tests `create` runs, for a mnemonic of the table or a directive: plain membership. */
  lemma GroupTests(m: string)
    requires m in NopLike || m in PopLike || m in JumpLike || m in LadLike || m in AddaLike || m in StartLike
      || m == "IN" || m == "OUT" || m == "DS" || m == "DC"
    ensures HasWord(m, NopLike) <==> m in NopLike
    ensures HasWord(m, PopLike) <==> m in PopLike
    ensures HasWord(m, JumpLike) <==> m in JumpLike
    ensures HasWord(m, LadLike) <==> m in LadLike
    ensures HasWord(m, AddaLike) <==> m in AddaLike
    ensures HasWord(m, StartLike) <==> m in StartLike
  {
    NamesAreUpper(m);
    WholeWord(m, NopLike);
    WholeWord(m, PopLike);
    WholeWord(m, JumpLike);
    WholeWord(m, LadLike);
    WholeWord(m, AddaLike);
    WholeWord(m, StartLike);
  }

  /**
   * The table holds every group name except END and START, and each holds
   * the same code in the instruction map the parser consults.
   */
  lemma InstMapAgreesWithTable(m: string)
    ensures Code(m).Some? <==> (m in NopLike && m != "END") || m in PopLike || m in JumpLike || m in LadLike || m in AddaLike
    ensures Code(m).Some? ==>
      InstructionMaps.InstructionTable(m).Some? && InstructionMaps.InstructionTable(m).value.code == Code(m)
  {
    CodedGroups(m);
    CodesInTable(m);
  }

  lemma CodedGroups(m: string)
    ensures Code(m).Some? <==> (m in NopLike && m != "END") || m in PopLike || m in JumpLike || m in LadLike || m in AddaLike
  {
  }

  lemma CodesInTable(m: string)
    ensures Code(m).Some? ==>
      InstructionMaps.InstructionTable(m).Some? && InstructionMaps.InstructionTable(m).value.code == Code(m)
  {
  }

  /**
   * For each ADDA-like mnemonic the table code is the address form, four
   * bytes long, and the code plus 4 the register form, two bytes long.
   */
  lemma AddaLikeLengths(m: string)
    requires m in AddaLike
    ensures Code(m).Some? && ByteLengthEntry(Code(m).value) == Some(4)
    ensures ByteLengthEntry(Code(m).value + 4) == Some(2)
    ensures Code(m).value + 4 < 0xA0
  {
    InstMapAgreesWithTable(m);
    assert InstructionMaps.InstructionTable(m).value.argumentType == InstructionMaps.ArgR1R2OrR1AdrR2;
    InstructionMaps.LdLikeFormLengths(m);
  }

  // ---------------------------------------------------------------------
  // create

  /** A no-operand mnemonic with any truthy register or address is an argument error; otherwise a bare record. */
  lemma CreateNopLike(result: LexerResult, lineNumber: int, m: string)
    requires result.instruction == Some(m) && m in NopLike
    ensures TruthyGR(result.r1) || TruthyGR(result.r2) || Truthy(result.address) <==>
      Create(result, lineNumber) == Ok(Failed(ArgumentError(lineNumber)))
    ensures !(TruthyGR(result.r1) || TruthyGR(result.r2) || Truthy(result.address)) ==>
      Create(result, lineNumber) == Ok(One(BaseRecord(m, Code(m), result.labelName, None, None, None)))
  {
    GroupTests(m);
  }

  /** POP needs a truthy r1 and no truthy r2 or address, and keeps r1 only. */
  lemma CreatePop(result: LexerResult, lineNumber: int)
    requires result.instruction == Some("POP")
    ensures !TruthyGR(result.r1) || TruthyGR(result.r2) || Truthy(result.address) <==>
      Create(result, lineNumber) == Ok(Failed(ArgumentError(lineNumber)))
    ensures TruthyGR(result.r1) && !TruthyGR(result.r2) && !Truthy(result.address) ==>
      Create(result, lineNumber) == Ok(One(BaseRecord("POP", Some(0x71), result.labelName, result.r1, None, None)))
  {
    GroupTests("POP");
  }

  /** As written, `POP GR0` is an argument error: GR0 is the number 0 and so falsy. */
  lemma PopGr0Rejected(result: LexerResult, lineNumber: int)
    requires result.instruction == Some("POP") && result.r1 == Some(0)
    ensures Create(result, lineNumber) == Ok(Failed(ArgumentError(lineNumber)))
  {
    CreatePop(result, lineNumber);
  }

  /** A jump-like mnemonic needs a truthy address and no truthy r1; r2 becomes the index register. */
  lemma CreateJumpLike(result: LexerResult, lineNumber: int, m: string)
    requires result.instruction == Some(m) && m in JumpLike
    ensures !Truthy(result.address) || TruthyGR(result.r1) <==>
      Create(result, lineNumber) == Ok(Failed(ArgumentError(lineNumber)))
    ensures Truthy(result.address) && !TruthyGR(result.r1) ==>
      Create(result, lineNumber) ==
        Ok(One(BaseRecord(m, Code(m), result.labelName, None, result.r2, Some(ToOperand(result.address.value).value))))
  {
    GroupTests(m);
    JumpLikeNotNopLike(m);
  }

  lemma JumpLikeNotNopLike(m: string)
    requires m in JumpLike
    ensures m !in NopLike && m !in PopLike
  {
  }

  /** ST, LAD and the shifts need a truthy r1 and a truthy address, and keep r1, r2 and the address. */
  lemma CreateLadLike(result: LexerResult, lineNumber: int, m: string)
    requires result.instruction == Some(m) && m in LadLike
    ensures !TruthyGR(result.r1) || !Truthy(result.address) <==>
      Create(result, lineNumber) == Ok(Failed(ArgumentError(lineNumber)))
    ensures TruthyGR(result.r1) && Truthy(result.address) ==>
      Create(result, lineNumber) ==
        Ok(One(BaseRecord(m, Code(m), result.labelName, result.r1, result.r2, Some(ToOperand(result.address.value).value))))
  {
    GroupTests(m);
    LadLikeNotNopLike(m);
    LadLikeNotJumpLike(m);
  }

  lemma LadLikeNotNopLike(m: string)
    requires m in LadLike
    ensures m !in NopLike && m !in PopLike
  {
  }

  lemma LadLikeNotJumpLike(m: string)
    requires m in LadLike
    ensures m !in JumpLike
  {
  }

  /** An ADDA-like mnemonic passes none of the earlier group tests, so `create` takes the ADDA-like branch. */
  lemma AddaLikeDispatch(result: LexerResult, lineNumber: int, m: string)
    requires result.instruction == Some(m) && m in AddaLike
    ensures Create(result, lineNumber) == Instructions.CreateAddaLike(m, result, lineNumber)
  {
    AddaLikeSkipsEarlierGroups(m);
  }

  lemma AddaLikeNotNopLike(m: string)
    requires m in AddaLike
    ensures m !in NopLike && m !in PopLike
  {
  }

  lemma AddaLikeNotJumpLike(m: string)
    requires m in AddaLike
    ensures m !in JumpLike
  {
  }

  lemma AddaLikeNotLadLike(m: string)
    requires m in AddaLike
    ensures m !in LadLike
  {
  }

  lemma AddaLikeSkipsEarlierGroups(m: string)
    requires m in AddaLike
    ensures !HasWord(m, NopLike) && !HasWord(m, PopLike) && !HasWord(m, JumpLike) && !HasWord(m, LadLike)
    ensures HasWord(m, AddaLike)
  {
    GroupTests(m);
    AddaLikeNotNopLike(m);
    AddaLikeNotJumpLike(m);
    AddaLikeNotLadLike(m);
  }

  /**
   * An ADDA-like mnemonic with a truthy address needs r1, keeps the table
   * code and so becomes a four-byte record with r1, r2 and the address.
   */
  lemma CreateAddaLikeAddress(result: LexerResult, lineNumber: int, m: string)
    requires result.instruction == Some(m) && m in AddaLike && Truthy(result.address)
    ensures result.r1.None? <==> Create(result, lineNumber) == Ok(Failed(ArgumentError(lineNumber)))
    ensures result.r1.Some? ==>
      var r := Create(result, lineNumber);
      r.Ok? && r.value.One? && Code(m).Some? && r.value.inst.code == Code(m) && r.value.inst.ByteLength() == Some(4)
      && r.value.inst.r1 == result.r1 && r.value.inst.r2 == result.r2
      && r.value.inst.address == Some(ToOperand(result.address.value).value)
  {
    AddaLikeDispatch(result, lineNumber, m);
    AddaLikeLengths(m);
  }

  /**
   * Without a truthy address an ADDA-like mnemonic needs two truthy
   * registers, or throws, and takes the table code plus 4: a two-byte record
   * with both registers and no address.
   */
  lemma CreateAddaLikeRegisters(result: LexerResult, lineNumber: int, m: string)
    requires result.instruction == Some(m) && m in AddaLike && !Truthy(result.address)
    ensures !(TruthyGR(result.r1) && TruthyGR(result.r2)) <==> Create(result, lineNumber).Crash?
    ensures TruthyGR(result.r1) && TruthyGR(result.r2) ==>
      var r := Create(result, lineNumber);
      r.Ok? && r.value.One? && Code(m).Some? && r.value.inst.code == Some(Code(m).value + 4) && r.value.inst.ByteLength() == Some(2)
      && r.value.inst.r1 == result.r1 && r.value.inst.r2 == result.r2 && r.value.inst.address.None?
  {
    AddaLikeDispatch(result, lineNumber, m);
    AddaLikeLengths(m);
  }

  /** START needs no truthy register and keeps its optional address. */
  lemma CreateStart(result: LexerResult, lineNumber: int)
    requires result.instruction == Some("START")
    requires result.address.None? || !result.address.value.NaN?
    ensures TruthyGR(result.r1) || TruthyGR(result.r2) <==>
      Create(result, lineNumber) == Ok(Failed(ArgumentError(lineNumber)))
    ensures !TruthyGR(result.r1) && !TruthyGR(result.r2) ==>
      Create(result, lineNumber) == Ok(One(BaseRecord("START", None, result.labelName, None, None, OptOperand(result.address).value)))
  {
    GroupTests("START");
    StartInNoOtherGroup();
  }

  lemma StartInNoOtherGroup()
    ensures "START" !in NopLike && "START" !in PopLike && "START" !in JumpLike && "START" !in LadLike && "START" !in AddaLike
  {
  }

  /** IN and OUT need both operands, and become the I/O records with buffer and length buffer. */
  lemma CreateInOut(result: LexerResult, lineNumber: int, m: string)
    requires result.instruction == Some(m) && (m == "IN" || m == "OUT")
    requires result.address.None? || !result.address.value.NaN?
    requires result.lengthAddress.None? || !result.lengthAddress.value.NaN?
    ensures result.address.None? || result.lengthAddress.None? <==> Create(result, lineNumber).Crash?
    ensures result.address.Some? && result.lengthAddress.Some? ==>
      var buffer := ToOperand(result.address.value).value;
      var length := ToOperand(result.lengthAddress.value).value;
      Create(result, lineNumber) ==
        Ok(One(if m == "IN" then NewIn(None, result.labelName, buffer, length) else NewOut(None, result.labelName, buffer, length)))
  {
    GroupTests(m);
    InOutInNoGroup(m);
  }

  lemma InOutInNoGroup(m: string)
    requires m == "IN" || m == "OUT"
    ensures m !in NopLike && m !in PopLike && m !in JumpLike && m !in LadLike && m !in AddaLike && m !in StartLike
  {
  }

  /** DS and DC are not for `create`: it throws on them. */
  lemma CreateRejectsDirectives(result: LexerResult, lineNumber: int, m: string)
    requires result.instruction == Some(m) && (m == "DS" || m == "DC")
    ensures Create(result, lineNumber).Crash?
  {
    GroupTests(m);
  }

  // ---------------------------------------------------------------------
  // createDS

  /** Zero words give one label-only OLBL record of no bytes. */
  lemma CreateDsZero(result: LexerResult)
    requires result.instruction == Some("DS") && result.wordCount == Some(0)
    ensures var r := CreateDsSpec(result);
      r.Ok? && r.value.One? && r.value.inst.name == "OLBL" && r.value.inst.code.None?
      && r.value.inst.labelName == result.labelName && r.value.inst.ByteLength() == Some(0)
  {
  }

  /**
   * A non-zero word count n gives max(n, 1) NOP records of two bytes each,
   * the label on the first only.
   */
  lemma CreateDsBlock(result: LexerResult)
    requires result.instruction == Some("DS") && result.wordCount.Some? && result.wordCount.value != 0
    ensures var r := CreateDsSpec(result);
      r.Ok? && r.value.Many? && |r.value.insts| == Max(result.wordCount.value, 1)
      && r.value.insts[0].labelName == result.labelName
      && (forall i | 1 <= i < |r.value.insts| :: r.value.insts[i].labelName.None?)
      && (forall i | 0 <= i < |r.value.insts| ::
            r.value.insts[i].name == "NOP" && r.value.insts[i].code == Some(0x00) && r.value.insts[i].ByteLength() == Some(2))
  {
    var rs := CreateDsSpec(result).value.insts;
    forall i | 1 <= i < |rs|
      ensures rs[i] == Nop(None)
    {
    }
  }

  /** A DS without a word count, or any other mnemonic, throws. */
  lemma CreateDsNeedsWordCount(result: LexerResult)
    requires result.instruction != Some("DS") || result.wordCount.None?
    ensures CreateDsSpec(result).Crash?
  {
  }

  // ---------------------------------------------------------------------
  // createDC

  /** The records carry `labelName` on the first and no label after it. */
  predicate LabelOnFirst(rs: seq<Instruction>, labelName: Option<string>)
  {
    |rs| >= 1 && rs[0].labelName == labelName && forall i | 1 <= i < |rs| :: rs[i].labelName.None?
  }

  predicate AllMdc(rs: seq<Instruction>)
  {
    forall i | 0 <= i < |rs| :: rs[i].name == "MDC" && rs[i].kind.Mdc?
  }

  /** A string constant whose quotes do not unescape. */
  predicate BadQuotes(c: Value)
  {
    IsStringLiteral(c) && EscapeString.EscapeStringConstant(Parsing.Inner(c.text)).None?
  }

  /**
   * One constant: a string gives one MDC per unescaped character (one MDC
   * for an empty string), any other value one MDC holding it; the label on
   * the first record only; an escaping failure is the quote error.
   */
  lemma ConstMdcsShape(c: Value, labelName: Option<string>, lineNumber: int)
    requires !c.NaN?
    ensures ConstMdcs(c, labelName, lineNumber).Ok?
    ensures ConstMdcs(c, labelName, lineNumber).value.BadString? <==> BadQuotes(c)
    ensures BadQuotes(c) ==> ConstMdcs(c, labelName, lineNumber).value.error == QuoteError(lineNumber)
    ensures !BadQuotes(c) ==>
      var rs := ConstMdcs(c, labelName, lineNumber).value.records;
      LabelOnFirst(rs, labelName) && AllMdc(rs)
    ensures !IsStringLiteral(c) ==>
      ConstMdcs(c, labelName, lineNumber).value.records == [NewMdc(labelName, None, Some(ToOperand(c).value), None)]
    ensures IsStringLiteral(c) && !BadQuotes(c) ==>
      var e := EscapeString.EscapeStringConstant(Parsing.Inner(c.text)).value;
      var rs := ConstMdcs(c, labelName, lineNumber).value.records;
      |rs| == Max(|e|, 1) && (forall i | 0 <= i < |e| :: rs[i].kind == Mdc(Some([e[i]])))
  {
    ConstMdcsOutcome(c, labelName, lineNumber);
    if IsStringLiteral(c) && !BadQuotes(c) {
      var e := EscapeString.EscapeStringConstant(Parsing.Inner(c.text)).value;
      if e != [] {
        ParserProperties.StringMdcsShape(e, labelName, None);
      }
    }
  }

  /**
   * Where every character of the unescaped string is one UTF-16 code unit,
   * one MDC per character is one MDC per unit of JavaScript's `length`, and
   * record i holds unit i, the one `charAt(i)` gives.
   */
  lemma ConstMdcsInBmp(c: Value, labelName: Option<string>, lineNumber: int)
    requires IsStringLiteral(c) && !BadQuotes(c)
    requires InBmp(EscapeString.EscapeStringConstant(Parsing.Inner(c.text)).value)
    ensures var e := EscapeString.EscapeStringConstant(Parsing.Inner(c.text)).value;
      var rs := ConstMdcs(c, labelName, lineNumber).value.records;
      |rs| == Max(Utf16Length(e), 1) &&
      forall i | 0 <= i < |e| :: rs[i].kind == Mdc(Some([e[i]])) && e[i] as int < 0x1_0000
  {
    ConstMdcsShape(c, labelName, lineNumber);
    Utf16LengthInBmp(EscapeString.EscapeStringConstant(Parsing.Inner(c.text)).value);
  }

  /** One constant never throws; it fails exactly on bad quotes, and otherwise gives MDCs labelled on the first. */
  lemma ConstMdcsOutcome(c: Value, labelName: Option<string>, lineNumber: int)
    requires !c.NaN?
    ensures ConstMdcs(c, labelName, lineNumber).Ok?
    ensures ConstMdcs(c, labelName, lineNumber).value.BadString? <==> BadQuotes(c)
    ensures BadQuotes(c) ==> ConstMdcs(c, labelName, lineNumber).value.error == QuoteError(lineNumber)
    ensures ConstMdcs(c, labelName, lineNumber).value.Mdcs? ==>
      var rs := ConstMdcs(c, labelName, lineNumber).value.records;
      LabelOnFirst(rs, labelName) && AllMdc(rs)
  {
    if IsStringLiteral(c) && !BadQuotes(c) {
      var e := EscapeString.EscapeStringConstant(Parsing.Inner(c.text)).value;
      if e != [] {
        ParserProperties.StringMdcsShape(e, labelName, None);
      }
    }
  }

  /**
   * The expansion of the first n constants: with no NaN among them it never
   * throws; it fails exactly when one of them is a badly quoted string, with
   * the quote error; otherwise every record is an MDC and only the first
   * carries the label.
   */
  lemma {:induction false} DcPrefixShape(cs: seq<Value>, labelName: Option<string>, lineNumber: int, n: nat)
    requires 1 <= n <= |cs|
    requires forall i | 0 <= i < |cs| :: !cs[i].NaN?
    ensures DcPrefix(cs, labelName, lineNumber, n).Ok?
    ensures DcPrefix(cs, labelName, lineNumber, n).value.BadString? <==> exists i | 0 <= i < n :: BadQuotes(cs[i])
    ensures DcPrefix(cs, labelName, lineNumber, n).value.BadString? ==>
      DcPrefix(cs, labelName, lineNumber, n).value.error == QuoteError(lineNumber)
    ensures DcPrefix(cs, labelName, lineNumber, n).value.Mdcs? ==>
      LabelOnFirst(DcPrefix(cs, labelName, lineNumber, n).value.records, labelName)
      && AllMdc(DcPrefix(cs, labelName, lineNumber, n).value.records)
  {
    DcPrefixWellShaped(cs, labelName, lineNumber, n);
    AnyBadQuotesAmong(cs, n);
  }

  /** Whether one of the first n constants is a badly quoted string. */
  predicate AnyBadQuotes(cs: seq<Value>, n: nat)
    requires n <= |cs|
  {
    n > 0 && (AnyBadQuotes(cs, n - 1) || BadQuotes(cs[n - 1]))
  }

  lemma {:induction false} AnyBadQuotesAmong(cs: seq<Value>, n: nat)
    requires n <= |cs|
    ensures AnyBadQuotes(cs, n) <==> exists i | 0 <= i < n :: BadQuotes(cs[i])
  {
    if n > 0 {
      AnyBadQuotesAmong(cs, n - 1);
      if AnyBadQuotes(cs, n) && !BadQuotes(cs[n - 1]) {
        var i :| 0 <= i < n - 1 && BadQuotes(cs[i]);
        assert 0 <= i < n && BadQuotes(cs[i]);
      }
      if exists i | 0 <= i < n :: BadQuotes(cs[i]) {
        var i :| 0 <= i < n && BadQuotes(cs[i]);
        if i < n - 1 { assert exists j | 0 <= j < n - 1 :: BadQuotes(cs[j]); }
      }
    }
  }

  /** The expansion of the first n constants is well shaped, and fails exactly on a badly quoted one. */
  lemma {:induction false} DcPrefixWellShaped(cs: seq<Value>, labelName: Option<string>, lineNumber: int, n: nat)
    requires 1 <= n <= |cs|
    requires forall i | 0 <= i < |cs| :: !cs[i].NaN?
    ensures DcPrefix(cs, labelName, lineNumber, n).Ok?
    ensures WellShaped(DcPrefix(cs, labelName, lineNumber, n).value, labelName, lineNumber)
    ensures DcPrefix(cs, labelName, lineNumber, n).value.BadString? <==> AnyBadQuotes(cs, n)
  {
    if n == 1 {
      ConstMdcsOutcome(cs[0], labelName, lineNumber);
    } else {
      DcPrefixWellShaped(cs, labelName, lineNumber, n - 1);
      ConstMdcsOutcome(cs[n - 1], None, lineNumber);
      var front := DcPrefix(cs, labelName, lineNumber, n - 1).value;
      var next := ConstMdcs(cs[n - 1], None, lineNumber).value;
      assert DcPrefix(cs, labelName, lineNumber, n) == Then(front, Ok(next));
      ThenShape(front, next, labelName, lineNumber);
    }
  }

  /** Records shaped as one constant's expansion: the quote error, or MDCs labelled on the first only. */
  predicate WellShaped(m: Mdcs, labelName: Option<string>, lineNumber: int)
  {
    (m.BadString? ==> m.error == QuoteError(lineNumber))
    && (m.Mdcs? ==> LabelOnFirst(m.records, labelName) && AllMdc(m.records))
  }

  /** Appending a further constant's unlabelled expansion keeps the shape; either failure is the result's. */
  lemma ThenShape(front: Mdcs, next: Mdcs, labelName: Option<string>, lineNumber: int)
    requires WellShaped(front, labelName, lineNumber) && WellShaped(next, None, lineNumber)
    ensures Then(front, Ok(next)).Ok? && WellShaped(Then(front, Ok(next)).value, labelName, lineNumber)
    ensures Then(front, Ok(next)).value.BadString? <==> front.BadString? || next.BadString?
  {
    if front.Mdcs? && next.Mdcs? {
      var rs := front.records + next.records;
      forall i | 1 <= i < |rs|
        ensures rs[i].labelName.None?
      {
        if i >= |front.records| {
          assert rs[i] == next.records[i - |front.records|];
        }
      }
    }
  }

  /**
   * `createDC` on constants without NaN: it fails exactly when some string
   * constant is badly quoted, with the quote error; otherwise every record
   * is an MDC and the label sits on the first record only.
   */
  lemma CreateDcShape(result: LexerResult, lineNumber: int)
    requires result.instruction == Some("DC") && result.consts.Some?
    requires forall i | 0 <= i < |result.consts.value| :: !result.consts.value[i].NaN?
    ensures var r := CreateDcSpec(result, lineNumber);
      r.Ok?
      && (r.value.Failed? <==> exists i | 0 <= i < |result.consts.value| :: BadQuotes(result.consts.value[i]))
      && (r.value.Failed? ==> r.value.error == QuoteError(lineNumber))
      && (r.value.One? ==> r.value.inst.labelName == result.labelName && r.value.inst.name == "MDC")
      && (r.value.Many? ==> LabelOnFirst(r.value.insts, result.labelName) && AllMdc(r.value.insts))
  {
    var cs := result.consts.value;
    if |cs| >= 1 && !(|cs| == 1 && !IsStringLiteral(cs[0])) {
      DcPrefixShape(cs, result.labelName, lineNumber, |cs|);
    }
  }

  /** Numeric and label constants, two or more: one MDC per constant, in order, each holding its value. */
  lemma {:induction false} DcPrefixValues(cs: seq<Value>, labelName: Option<string>, lineNumber: int, n: nat)
    requires 1 <= n <= |cs|
    requires forall i | 0 <= i < |cs| :: !cs[i].NaN? && !IsStringLiteral(cs[i])
    ensures DcPrefix(cs, labelName, lineNumber, n).Ok? && DcPrefix(cs, labelName, lineNumber, n).value.Mdcs?
    ensures var rs := DcPrefix(cs, labelName, lineNumber, n).value.records;
      |rs| == n && forall i | 0 <= i < n :: rs[i].address == Some(ToOperand(cs[i]).value)
  {
    if n > 1 {
      DcPrefixValues(cs, labelName, lineNumber, n - 1);
    }
  }

  lemma CreateDcValues(result: LexerResult, lineNumber: int)
    requires result.instruction == Some("DC") && result.consts.Some? && |result.consts.value| >= 2
    requires forall i | 0 <= i < |result.consts.value| :: !result.consts.value[i].NaN? && !IsStringLiteral(result.consts.value[i])
    ensures var r := CreateDcSpec(result, lineNumber);
      r.Ok? && r.value.Many? && |r.value.insts| == |result.consts.value|
      && forall i | 0 <= i < |r.value.insts| :: r.value.insts[i].address == Some(ToOperand(result.consts.value[i]).value)
  {
    DcPrefixValues(result.consts.value, result.labelName, lineNumber, |result.consts.value|);
  }
}
