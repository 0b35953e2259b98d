/**
 * Diagnostic records, the table of diagnostic templates and the `{n}`
 * placeholder substitution used to build their message texts.
 */
module Diagnostics {
  import opened Common
  import opened JsText

  datatype DiagnosticCategory = Warning | Error | Message

  /** A template: a code, a category and a message text that may hold `{n}` placeholders. */
  datatype DiagnosticMessage = DiagnosticMessage(code: int, category: DiagnosticCategory, message: string)

  /** A diagnostic attached to a source line and a column range. */
  datatype Diagnostic = Diagnostic(
    line: int, startIndex: int, endIndex: int,
    messageText: string, category: DiagnosticCategory, code: int)

  /** `Number.MAX_VALUE`, the end column used for "up to the end of the line". */
  const MaxValue: int := 179769313486231570814527423731704356798070567525844996598917476803157260780028538760589558632766878171540458953514382464234321326889464182768467546703537516986049910576551282076245490090389328944075868508455133942304583236903222948165808559332123348274797826204144723168738177180919299881250404026184124858368

  const DuplicateLabel := DiagnosticMessage(1, Error, "ラベル '{0}' が重複しています。")
  const Gr0CannotBeUsedAsIndexRegister := DiagnosticMessage(2, Error, "GR0は指標レジスタとして使用できません。")
  const InvalidInstruction := DiagnosticMessage(3, Error, "'{0}' は不正な命令です。")
  const TooLongLabelName := DiagnosticMessage(4, Error, "ラベルは8文字以内である必要があります。")
  const InvalidInstructionLine := DiagnosticMessage(5, Error, "不正な命令行です。")
  const CannotBeUsedForLabelName := DiagnosticMessage(6, Error, "'{0}' はラベル名に使用できません。")
  const MissingArguments := DiagnosticMessage(7, Error, "引数が不足しています。")
  const Expected := DiagnosticMessage(8, Error, "{0} が必要です。")
  const Needed := DiagnosticMessage(9, Error, "{0} である必要があります。")
  const ArgumentsCountShouldBe := DiagnosticMessage(10, Error, "命令 '{0}' のオペランドの数は {1} である必要があります。")
  const InvalidAddress := DiagnosticMessage(11, Error, "{0} はアドレスに使用できません。")
  const InvalidGr := DiagnosticMessage(12, Error, "{0} はGRではありません。")
  const WordCountShouldBeGivenByDecimal := DiagnosticMessage(13, Error, "{0} はGRではありません。")
  const CannotEscapeSingleQuotes := DiagnosticMessage(14, Error, "シングルクォーテーションをエスケープできません。")
  const JisX0201OutOfRange := DiagnosticMessage(15, Error, "文字列定数にJIS X 0201で表現出来ない文字が含まれています")
  const UndeclaredLabel := DiagnosticMessage(16, Error, "ラベル '{0}' は存在しません。")
  const MissingInstruction := DiagnosticMessage(17, Error, "命令がありません。")
  const MissingAddress := DiagnosticMessage(18, Error, "アドレス 'adr' がありません。")
  const UnnecessaryOperand := DiagnosticMessage(20, Message, "余計なオペランドです。")
  const MissingGrR1 := DiagnosticMessage(21, Error, "GR 'r1' がありません。")
  const MissingGrR2 := DiagnosticMessage(22, Error, "GR 'r2' がありません。")
  const MissingR := DiagnosticMessage(23, Error, "GR 'r' がありません。")
  const MissingInputBuf := DiagnosticMessage(24, Error, "アドレス '入力領域' がありません。")
  const MissingInputLengthBuf := DiagnosticMessage(25, Error, "アドレス '入力文字長領域' がありません。")
  const MissingOutputBuf := DiagnosticMessage(26, Error, "アドレス '出力領域' がありません。")
  const MissingOutputLengthBuf := DiagnosticMessage(27, Error, "アドレス '出力文字長領域' がありません。")
  const MissingWordCount := DiagnosticMessage(28, Error, "10進定数 '語数' がありません。")
  const MissingConstants := DiagnosticMessage(29, Error, "'定数[, 定数]' がありません。")

  /** The templates in declaration order. */
  const AllMessages: seq<DiagnosticMessage> := [
    DuplicateLabel, Gr0CannotBeUsedAsIndexRegister, InvalidInstruction, TooLongLabelName,
    InvalidInstructionLine, CannotBeUsedForLabelName, MissingArguments, Expected, Needed,
    ArgumentsCountShouldBe, InvalidAddress, InvalidGr, WordCountShouldBeGivenByDecimal,
    CannotEscapeSingleQuotes, JisX0201OutOfRange, UndeclaredLabel, MissingInstruction,
    MissingAddress, UnnecessaryOperand, MissingGrR1, MissingGrR2, MissingR, MissingInputBuf,
    MissingInputLengthBuf, MissingOutputBuf, MissingOutputLengthBuf, MissingWordCount,
    MissingConstants]

  predicate AdjacentCodesIncrease(ms: seq<DiagnosticMessage>)
  {
    forall i :: 0 <= i < |ms| - 1 ==> ms[i].code < ms[i + 1].code
  }

  lemma {:induction false} AdjacentToAll(ms: seq<DiagnosticMessage>, i: nat, j: nat)
    requires AdjacentCodesIncrease(ms)
    requires i < j < |ms|
    ensures ms[i].code < ms[j].code
    decreases j - i
  {
    if i + 1 < j {
      AdjacentToAll(ms, i + 1, j);
    }
  }

  /** Codes strictly increase in declaration order, so no two templates share a code. */
  lemma CodesStrictlyIncrease()
    ensures forall i, j :: 0 <= i < j < |AllMessages| ==> AllMessages[i].code < AllMessages[j].code
    ensures forall i, j :: 0 <= i < |AllMessages| && 0 <= j < |AllMessages| && i != j ==>
      AllMessages[i].code != AllMessages[j].code
  {
    assert AdjacentCodesIncrease(AllMessages);
    forall i, j | 0 <= i < j < |AllMessages| ensures AllMessages[i].code < AllMessages[j].code {
      AdjacentToAll(AllMessages, i, j);
    }
  }

  /** The codes used are 1 to 18 and 20 to 29; 19 is unused. */
  lemma CodeRange()
    ensures forall m :: m in AllMessages ==> 1 <= m.code <= 29 && m.code != 19
    ensures |AllMessages| == 28
  {
  }

  /** `Unnecessary_operand` is the only template of category Message; every other one is an Error. */
  lemma OnlyUnnecessaryOperandIsMessage()
    ensures UnnecessaryOperand in AllMessages && UnnecessaryOperand.category == Message
    ensures forall i :: 0 <= i < |AllMessages| ==>
      (AllMessages[i].category == Message <==> AllMessages[i].code == UnnecessaryOperand.code) &&
      (AllMessages[i].code != UnnecessaryOperand.code ==> AllMessages[i].category == Error)
  {
    assert AllMessages[18] == UnnecessaryOperand;
  }

  /** A bad `''` escape and an out-of-range character in a DC string have codes 14 and 15. */
  lemma StringConstantCodes()
    ensures CannotEscapeSingleQuotes.code == 14 && CannotEscapeSingleQuotes.category == Error
    ensures JisX0201OutOfRange.code == 15 && JisX0201OutOfRange.category == Error
  {
  }

  /**
   * The `{digits}` placeholder at the start of `s`, if any: the digit text and
   * the length of the whole placeholder.
   */
  function PlaceholderAt(s: string): (r: Option<(string, nat)>)
    ensures r.Some? ==> 3 <= r.value.1 <= |s| && s[0] == '{' && s[r.value.1 - 1] == '}'
    ensures r.Some? ==> r.value.0 == s[1..r.value.1 - 1] && AllDigits(r.value.0, 10)
  {
    if |s| >= 3 && s[0] == '{' then
      var k := DigitRun(s[1..], 10);
      assert s[1..][..k] == s[1..1 + k];
      if k >= 1 && 1 + k < |s| && s[1 + k] == '}' then Some((s[1..1 + k], k + 2)) else None
    else None
  }

  /**
   * `args[index]` for the captured digit text: arrays are indexed by the
   * canonical decimal text only ("01" is not an index), and a missing
   * element prints as "undefined".
   */
  function ArgText(args: seq<string>, digits: string): string
    requires AllDigits(digits, 10)
  {
    var n := DigitsValue(digits, 10);
    if digits == NatToString(n) && n < |args| then args[n] else "undefined"
  }

  /** `s.replace(/{(\d+)}/g, (match, index) => args[index])` */
  function FormatMessage(s: string, args: seq<string>): string
    decreases |s|
  {
    if s == [] then []
    else match PlaceholderAt(s)
      case Some((digits, len)) => ArgText(args, digits) + FormatMessage(s[len..], args)
      case None => [s[0]] + FormatMessage(s[1..], args)
  }

  predicate HasPlaceholder(s: string)
  {
    exists i :: 0 <= i < |s| && PlaceholderAt(s[i..]).Some?
  }

  /** A template without any `{digits}` placeholder comes back unchanged. */
  lemma {:induction false} FormatWithoutPlaceholder(s: string, args: seq<string>)
    requires !HasPlaceholder(s)
    ensures FormatMessage(s, args) == s
    decreases |s|
  {
    if s != [] {
      assert PlaceholderAt(s[0..]).None?;
      assert s[0..] == s;
      assert !HasPlaceholder(s[1..]) by {
        forall i | 0 <= i < |s[1..]| ensures PlaceholderAt(s[1..][i..]).None? {
          assert s[1..][i..] == s[i + 1..];
        }
      }
      FormatWithoutPlaceholder(s[1..], args);
    }
  }

  /** Text without `{` is copied through, and formatting continues after it. */
  lemma {:induction false} FormatPlainPrefix(p: string, q: string, args: seq<string>)
    requires '{' !in p
    ensures FormatMessage(p + q, args) == p + FormatMessage(q, args)
    decreases |p|
  {
    if p != [] {
      assert (p + q)[0] == p[0];
      assert PlaceholderAt(p + q).None?;
      assert (p + q)[1..] == p[1..] + q;
      FormatPlainPrefix(p[1..], q, args);
    } else {
      assert p + q == q;
    }
  }

  /** `{n}` written canonically is replaced by `args[n]`, or by "undefined" when there is no such argument. */
  lemma FormatPlaceholder(n: nat, q: string, args: seq<string>)
    ensures FormatMessage("{" + NatToString(n) + "}" + q, args) ==
      (if n < |args| then args[n] else "undefined") + FormatMessage(q, args)
  {
    var d := NatToString(n);
    var s := "{" + d + "}" + q;
    PlaceholderOfCanonical(d, q);
    assert s[|d| + 2..] == q;
    DigitsValueOfNatToString(n);
    assert ArgText(args, d) == (if n < |args| then args[n] else "undefined");
  }

  lemma PlaceholderOfCanonical(d: string, q: string)
    requires |d| >= 1 && AllDigits(d, 10)
    ensures PlaceholderAt("{" + d + "}" + q) == Some((d, |d| + 2))
  {
    var s := "{" + d + "}" + q;
    assert s[1..] == d + ("}" + q);
    DigitRunPrefix(d, "}" + q);
    assert s[1 + |d|] == '}';
    assert s[1..1 + |d|] == d;
  }

  lemma {:induction false} DigitRunPrefix(d: string, rest: string)
    requires AllDigits(d, 10)
    requires rest != [] && DigitValue(rest[0], 10).None?
    ensures DigitRun(d + rest, 10) == |d|
    decreases |d|
  {
    if d != [] {
      var s := d + rest;
      assert s[0] == d[0] && DigitValue(d[0], 10).Some?;
      assert s[1..] == d[1..] + rest;
      assert AllDigits(d[1..], 10);
      DigitRunPrefix(d[1..], rest);
    } else {
      assert d + rest == rest;
    }
  }

  /** A template that opens with `{0}` and has no other `{`: the first argument, then the rest verbatim. */
  lemma FormatLeadingPlaceholder(q: string, args: seq<string>)
    requires '{' !in q && |args| >= 1
    ensures FormatMessage("{0}" + q, args) == args[0] + q
  {
    assert NatToString(0) == "0";
    assert "{" + NatToString(0) + "}" + q == "{0}" + q;
    FormatPlaceholder(0, q, args);
    FormatPlainPrefix(q, "", args);
    assert q + "" == q;
  }

  /** A template with one `{0}` between text without `{`: the argument is spliced in. */
  lemma FormatOnePlaceholder(head: string, tail: string, arg: string)
    requires '{' !in head && '{' !in tail
    ensures FormatMessage(head + "{0}" + tail, [arg]) == head + arg + tail
  {
    assert head + "{0}" + tail == head + ("{0}" + tail);
    FormatPlainPrefix(head, "{0}" + tail, [arg]);
    FormatLeadingPlaceholder(tail, [arg]);
  }

  /**
   * `createDiagnostic`: the position is copied, category and code come from
   * the template, and the text is the template formatted with `args`
   * (always, even when no extra argument is passed).
   */
  function CreateDiagnostic(line: int, startIndex: int, endIndex: int, message: DiagnosticMessage, args: seq<string>): (d: Diagnostic)
    ensures d.line == line && d.startIndex == startIndex && d.endIndex == endIndex
    ensures d.category == message.category && d.code == message.code
    ensures d.messageText == FormatMessage(message.message, args)
  {
    Diagnostic(line, startIndex, endIndex, FormatMessage(message.message, args), message.category, message.code)
  }

  /** A diagnostic whose template has no placeholder: the text is the template itself. */
  function PlainDiagnostic(line: int, startIndex: int, endIndex: int, message: DiagnosticMessage): Diagnostic
  {
    Diagnostic(line, startIndex, endIndex, message.message, message.category, message.code)
  }

  /** For a template without `{`, `createDiagnostic` with no arguments is `PlainDiagnostic`. */
  lemma PlainIsCreated(line: int, startIndex: int, endIndex: int, message: DiagnosticMessage)
    requires '{' !in message.message
    ensures PlainDiagnostic(line, startIndex, endIndex, message) == CreateDiagnostic(line, startIndex, endIndex, message, [])
  {
    FormatPlainPrefix(message.message, "", []);
    assert message.message + "" == message.message;
  }

  /** `{0} が必要です。` formatted with one argument names that argument. */
  lemma ExpectedText(line: int, startIndex: int, what: string)
    ensures CreateDiagnostic(line, startIndex, MaxValue, Expected, [what]).messageText == what + " が必要です。"
  {
    assert Expected.message == "{0}" + " が必要です。";
    FormatLeadingPlaceholder(" が必要です。", [what]);
  }
}
