/**
 * Properties of the earlier front end's lexer: comment lines, the label and
 * mnemonic fields, the operand shapes of DC, IN/OUT and DS, the address and
 * constant tests, and the GR8 option.
 */
module FieldLexerProperties {
  import opened Common
  import opened JsText
  import opened Records
  import opened LexerResults
  import opened FieldLexer

  /** Every result the operand stage builds carries the label, the mnemonic and the comment it was given. */
  lemma OperandsKeepHead(useGR8: bool, lineNumber: int, labelName: Option<string>, instruction: string,
                         split: seq<string>, index: nat, comment: Option<string>)
    requires index <= |split|
    ensures var o := Operands(useGR8, lineNumber, labelName, instruction, split, index, comment);
      o.Ok? && o.value.Lexed? ==>
        o.value.result.labelName == labelName && o.value.result.instruction == Some(instruction)
        && o.value.result.comment == comment && !o.value.result.isCommentLine
    ensures var o := Operands(useGR8, lineNumber, labelName, instruction, split, index, comment);
      o.Ok? && o.value.Rejected? ==> o.value.error == ArgumentError(lineNumber)
  {
    if instruction != "DC" && instruction != "IN" && instruction != "OUT" && |split| > index {
      var o := RegisterOperands(useGR8, lineNumber, labelName, instruction, split, index, comment);
      assert o.Ok? && o.value.Lexed? ==>
        o.value.result.labelName == labelName && o.value.result.instruction == Some(instruction);
    }
  }

  /**
   * A line is a comment line exactly when it has a `;` and only white space
   * before the first one; the comment is then the text from that `;` on.
   */
  lemma CommentLineIff(useGR8: bool, line: string, lineNumber: int)
    ensures var t := TokenizeSpec(useGR8, line, lineNumber);
      (t.Ok? && t.value.Lexed? && t.value.result.isCommentLine) <==> (';' in line && Blank(CodePart(line)))
    ensures var t := TokenizeSpec(useGR8, line, lineNumber);
      ';' in line && Blank(CodePart(line)) ==>
        t.Ok? && t.value.Lexed? && t.value.result.comment == CommentPart(line)
        && t.value.result.comment.Some? && t.value.result.comment.value[0] == ';'
  {
    TokenizeSpecParts(useGR8, line, lineNumber);
    FieldsSpecHead(useGR8, lineNumber, SplitFields(Trim(CodePart(line))), CommentPart(line));
  }

  /** `tokenize` either recognises a comment line or goes on with the fields of the code part. */
  lemma TokenizeSpecParts(useGR8: bool, line: string, lineNumber: int)
    ensures CommentPart(line).Some? <==> ';' in line
    ensures CommentPart(line).Some? ==> CommentPart(line).value != [] && CommentPart(line).value[0] == ';'
    ensures CommentPart(line).Some? && Blank(CodePart(line)) ==>
      TokenizeSpec(useGR8, line, lineNumber) == Ok(Lexed(NewLexerResult(None, None, None, None, None, CommentPart(line))))
    ensures !(CommentPart(line).Some? && Blank(CodePart(line))) ==>
      TokenizeSpec(useGR8, line, lineNumber) == FieldsSpec(useGR8, lineNumber, SplitFields(Trim(CodePart(line))), CommentPart(line))
  {
  }

  /**
   * The field stage: a first field that is not a mnemonic must be a label
   * that is not a register name, and the field after it a mnemonic; a lexed
   * result carries the fields that passed these tests and the comment, and
   * is not a comment line.
   */
  lemma FieldsSpecHead(useGR8: bool, lineNumber: int, split: seq<string>, comment: Option<string>)
    requires |split| >= 1
    ensures var t := FieldsSpec(useGR8, lineNumber, split, comment);
      (!IsInstruction(split[0]) && (!IsLabel(split[0]) || IsGR(useGR8, split[0])) ==> t == Ok(Rejected(InvalidLabelError(lineNumber))))
      && (!IsInstruction(split[0]) && IsLabel(split[0]) && !IsGR(useGR8, split[0]) && |split| >= 2 && !IsInstruction(split[1])
          ==> t == Ok(Rejected(InvalidInstructionError(lineNumber))))
    ensures var t := FieldsSpec(useGR8, lineNumber, split, comment);
      t.Ok? && t.value.Lexed? ==>
        !t.value.result.isCommentLine && t.value.result.comment == comment
        && t.value.result.instruction.Some? && IsInstruction(t.value.result.instruction.value)
        && (t.value.result.labelName.None? ==> t.value.result.instruction.value == split[0])
        && (t.value.result.labelName.Some? ==>
              t.value.result.labelName.value == split[0] && IsLabel(split[0]) && !IsGR(useGR8, split[0])
              && |split| >= 2 && t.value.result.instruction.value == split[1])
  {
    if IsInstruction(split[0]) {
      OperandsKeepHead(useGR8, lineNumber, None, split[0], split, 1, comment);
    } else if IsLabel(split[0]) && !IsGR(useGR8, split[0]) && |split| >= 2 && IsInstruction(split[1]) {
      OperandsKeepHead(useGR8, lineNumber, Some(split[0]), split[1], split, 2, comment);
    }
  }

  /**
   * The head of a line: a first field that is not a mnemonic must be a label
   * that is not a register name, and the field after it must be a mnemonic;
   * every other line gives `InvalidLabelError` or `InvalidInstructionError`.
   * A lexed line's label and mnemonic are the fields that passed these tests.
   */
  lemma HeadFields(useGR8: bool, line: string, lineNumber: int)
    requires !(';' in line && Blank(CodePart(line)))
    ensures var split := SplitFields(Trim(CodePart(line)));
      var t := TokenizeSpec(useGR8, line, lineNumber);
      (!IsInstruction(split[0]) && (!IsLabel(split[0]) || IsGR(useGR8, split[0])) ==> t == Ok(Rejected(InvalidLabelError(lineNumber))))
      && (!IsInstruction(split[0]) && IsLabel(split[0]) && !IsGR(useGR8, split[0]) && |split| >= 2 && !IsInstruction(split[1])
          ==> t == Ok(Rejected(InvalidInstructionError(lineNumber))))
    ensures var split := SplitFields(Trim(CodePart(line)));
      var t := TokenizeSpec(useGR8, line, lineNumber);
      t.Ok? && t.value.Lexed? ==>
        t.value.result.instruction.Some? && IsInstruction(t.value.result.instruction.value)
        && (t.value.result.labelName.None? ==> t.value.result.instruction.value == split[0])
        && (t.value.result.labelName.Some? ==>
              t.value.result.labelName.value == split[0] && IsLabel(split[0]) && !IsGR(useGR8, split[0])
              && |split| >= 2 && t.value.result.instruction.value == split[1])
  {
    TokenizeSpecParts(useGR8, line, lineNumber);
    FieldsSpecHead(useGR8, lineNumber, SplitFields(Trim(CodePart(line))), CommentPart(line));
  }

  /** `isLabel` refuses anything longer than eight characters. */
  lemma LongTextIsNoLabel(s: string)
    requires |s| > 8
    ensures !IsLabel(s)
  {
  }

  /** A plain name of at most eight capitals and digits, starting with a capital, is a label. */
  lemma PlainNameIsLabel(s: string)
    requires 1 <= |s| <= 8 && IsUpper(s[0])
    requires forall i | 1 <= i < |s| :: IsUpperOrDigit(s[i])
    ensures IsLabel(s)
  {
    assert LabelAt(s, 0);
  }

  /**
   * DC needs at least one operand and each must pass `toConst`; the
   * constants are kept one per operand, in source order.
   */
  lemma DcOperands(useGR8: bool, lineNumber: int, labelName: Option<string>,
                   split: seq<string>, index: nat, comment: Option<string>)
    requires index <= |split|
    ensures var o := Operands(useGR8, lineNumber, labelName, "DC", split, index, comment);
      o.Ok? && (o.value.Rejected? <==> (index == |split| || exists i | index <= i < |split| :: ToConst(split[i]).None?))
    ensures var o := Operands(useGR8, lineNumber, labelName, "DC", split, index, comment);
      o.Ok? && o.value.Lexed? ==>
        var cs := o.value.result.consts;
        cs.Some? && |cs.value| == |split| - index >= 1
        && (forall i | 0 <= i < |cs.value| :: Some(cs.value[i]) == ToConst(split[index + i]))
        && o.value.result.address.None? && o.value.result.r1.None? && o.value.result.r2.None?
  {
    var args := split[index..];
    if index < |split| && Consts(args).None? {
      var i :| 0 <= i < |args| && ToConst(args[i]).None?;
      assert ToConst(split[index + i]).None?;
    }
    if exists i | index <= i < |split| :: ToConst(split[i]).None? {
      var i :| index <= i < |split| && ToConst(split[i]).None?;
      assert ToConst(args[i - index]).None?;
    }
  }

  /** IN and OUT need exactly two operands; they become `address` and `lengthAddress` as `toAddress` reads them. */
  lemma InOutOperands(useGR8: bool, lineNumber: int, labelName: Option<string>, instruction: string,
                      split: seq<string>, index: nat, comment: Option<string>)
    requires index <= |split|
    requires instruction == "IN" || instruction == "OUT"
    ensures var o := Operands(useGR8, lineNumber, labelName, instruction, split, index, comment);
      o.Ok? && (o.value.Rejected? <==> |split| - index != 2)
    ensures var o := Operands(useGR8, lineNumber, labelName, instruction, split, index, comment);
      o.Ok? && o.value.Lexed? ==>
        o.value.result.address == ToAddress(split[index])
        && o.value.result.lengthAddress == ToAddress(split[index + 1])
        && o.value.result.r1.None? && o.value.result.r2.None?
  {
  }

  /**
   * A word count is set only for DS with exactly one operand that is not a
   * register, does not start with `#`, and reads as a number; conversely such
   * an operand always sets it.
   */
  lemma DsWordCount(useGR8: bool, lineNumber: int, labelName: Option<string>, instruction: string,
                    split: seq<string>, index: nat, comment: Option<string>)
    requires index <= |split|
    ensures var o := Operands(useGR8, lineNumber, labelName, instruction, split, index, comment);
      o.Ok? && o.value.Lexed? && o.value.result.wordCount.Some? ==>
        instruction == "DS" && |split| == index + 1 && !IsGR(useGR8, split[index])
        && !StartsWith(split[index], '#')
        && ToAddress(split[index]) == Some(Number(o.value.result.wordCount.value))
    ensures var o := Operands(useGR8, lineNumber, labelName, instruction, split, index, comment);
      instruction == "DS" && |split| == index + 1 && !IsGR(useGR8, split[index])
      && ToAddress(split[index]).Some? && ToAddress(split[index]).value.Number? && !StartsWith(split[index], '#') ==>
        o.Ok? && o.value.Lexed? && o.value.result.wordCount == Some(ToAddress(split[index]).value.n)
  {
  }

  /** An operand that is not a label and starts with `-` is never an address. */
  lemma MinusIsNoAddress(s: string)
    requires !IsLabel(s) && StartsWith(s, '-')
    ensures ToAddress(s).None?
  {
  }

  /** A string of decimal digits is the address of its value. */
  lemma DecimalAddress(d: string)
    requires |d| >= 1 && AllDigits(d, 10)
    ensures ToAddress(d) == Some(Number(DigitsValue(d, 10)))
  {
    DigitsAreNoLabel(d);
    ParseIntOfDecimalToken(d);
  }

  /** Decimal digits are neither a label nor a text that starts with `=`, `#` or `-`. */
  lemma DigitsAreNoLabel(d: string)
    requires |d| >= 1 && AllDigits(d, 10)
    ensures !IsLabel(d) && !StartsWith(d, '=') && !StartsWith(d, '#') && !StartsWith(d, '-')
  {
    assert forall i | 0 <= i < |d| :: !LabelAt(d, i) by {
      forall i | 0 <= i < |d| ensures !IsUpper(d[i]) {
        assert DigitValue(d[i], 10).Some?;
      }
    }
    assert DigitValue(d[0], 10).Some?;
  }

  /** GR8 is a register name only with the option, for `isGR` and `toGR` alike. */
  lemma Gr8OnlyWithOption()
    ensures IsGR(true, "GR8") && !IsGR(false, "GR8")
    ensures ToGR(true, "GR8") == Ok(8) && ToGR(false, "GR8") == Crash
  {
    assert WordAt("GR8", 0, GrNames(true)[8]);
    forall k, i | 0 <= k < |GrNames(false)| && 0 <= i <= 3
      ensures !WordAt("GR8", i, GrNames(false)[k])
    {
      assert |GrNames(false)[k]| == 3;
      if i == 0 {
        assert "GR8"[0..3] == "GR8";
      }
    }
  }

  /** Without the option, every register the lexer stores is GR0..GR7. */
  lemma NoGr8WithoutOption(line: string, lineNumber: int)
    ensures var t := TokenizeSpec(false, line, lineNumber);
      t.Ok? && t.value.Lexed? ==>
        (t.value.result.r1.Some? ==> t.value.result.r1.value < 8)
        && (t.value.result.r2.Some? ==> t.value.result.r2.value < 8)
  {
    assert |GrNames(false)| == 8;
    var comment := CommentPart(line);
    var split := SplitFields(Trim(CodePart(line)));
    if comment.Some? && Blank(CodePart(line)) {
    } else if IsInstruction(split[0]) {
      assert TokenizeSpec(false, line, lineNumber) == Operands(false, lineNumber, None, split[0], split, 1, comment);
    } else if IsLabel(split[0]) && !IsGR(false, split[0]) && |split| >= 2 && IsInstruction(split[1]) {
      assert TokenizeSpec(false, line, lineNumber) == Operands(false, lineNumber, Some(split[0]), split[1], split, 2, comment);
    }
  }

  /** Text without a capital letter never passes `isLabel`. */
  lemma NoCapitalNoLabel(s: string)
    requires forall i | 0 <= i < |s| :: !IsUpper(s[i])
    ensures !IsLabel(s)
  {
  }

  lemma ParseDecimalZero()
    ensures ParseInt("0", 10) == Some(0)
  {
    assert AllDigits("0", 10);
    ParseIntOfDecimalToken("0");
    assert DigitsValue("0", 10) == DigitsValue("", 10) * 10 + 0;
  }

  lemma HexValues()
    ensures DigitsValue("0000", 16) == 0 && DigitsValue("0005", 16) == 5
  {
    assert AllDigits("0", 16) && AllDigits("00", 16) && AllDigits("000", 16);
    assert "0000"[..3] == "000" && "0005"[..3] == "000" && "000"[..2] == "00" && "00"[..1] == "0" && "0"[..0] == "";
    assert DigitsValue("0", 16) == 0;
    assert DigitsValue("00", 16) == 0;
    assert DigitsValue("000", 16) == 0;
  }

  lemma ParseHexZeros()
    ensures ParseInt("0000", 16) == Some(0)
  {
    assert AllDigits("0000", 16);
    ParseIntOfHexDigits("0000");
    HexValues();
  }

  lemma ParseHexFive()
    ensures ParseInt("0005", 16) == Some(5)
  {
    assert AllDigits("0005", 16);
    ParseIntOfHexDigits("0005");
    HexValues();
  }

  /** Zero is falsy, so `0` is not a constant: `DC 0` is refused. */
  lemma ZeroIsNoConstant()
    ensures ToConst("0") == None
  {
    ParseDecimalZero();
    NoCapitalNoLabel("0");
  }

  /** The same for hex zero: `#0000` is not a constant either. */
  lemma HexZeroIsNoConstant()
    ensures ToConst("#0000") == None
  {
    var h := "#0000";
    assert forall i | 0 <= i < |h| :: h[i] == '#' || h[i] == '0';
    NoCapitalNoLabel(h);
    HashIsNoDecimal(h);
    assert h[1..] == "0000";
    ParseHexZeros();
  }

  /** Text starting with `#` has no decimal value. */
  lemma HashIsNoDecimal(s: string)
    requires StartsWith(s, '#')
    ensures ParseInt(s, 10).None?
  {
    ParseIntOfNonNumber(s, 10);
  }

  /** The inverted NaN test: a well-formed hex address is `undefined`. */
  lemma HexAddressUndefined()
    ensures ToAddress("#0005") == None
  {
    var h := "#0005";
    assert forall i | 0 <= i < |h| :: h[i] == '#' || h[i] == '0' || h[i] == '5';
    NoCapitalNoLabel(h);
    HashIsNoDecimal(h);
    assert h[1..] == "0005";
    ParseHexFive();
    assert !StartsWith(h, '=') && !StartsWith(h, '-') && ParseInt(h[1..], 16).Some?;
  }

  /** ... and a `#` with no hex digits after it is NaN. */
  lemma MalformedHexAddressIsNaN()
    ensures ToAddress("#") == Some(NaN)
  {
    NoCapitalNoLabel("#");
    assert "#"[1..] == "";
  }

  /** After a register, the address 0 is falsy and refused: `LD GR1, 0` is an argument error. */
  lemma ZeroAddressAfterRegister(useGR8: bool, lineNumber: int, labelName: Option<string>, instruction: string,
                                 split: seq<string>, index: nat, comment: Option<string>)
    requires index + 1 < |split|
    requires split[index] in GrNames(useGR8) && IsGR(useGR8, split[index])
    requires !IsGR(useGR8, split[index + 1]) && ToAddress(split[index + 1]) == Some(Number(0))
    ensures RegisterOperands(useGR8, lineNumber, labelName, instruction, split, index, comment)
      == Ok(Rejected(ArgumentError(lineNumber)))
  {
  }
}
