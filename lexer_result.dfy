/**
 * The record the earlier, field-splitting front end hands from its lexer to
 * `Instructions.create`: the fields of one source line, each possibly
 * `undefined`, and the comment-line flag the constructor computes once.
 */
module LexerResults {
  import opened Common
  import opened Records

  /**
   * A JavaScript `number | string` operand or constant. `NaN` is the one
   * number without an integer value; the lexer's `#` branch can return it.
   */
  datatype Value = Text(text: string) | Number(n: int) | NaN

  /** `CompileError` and the subclasses this front end returns: line, message, optional code. */
  datatype FrontError = FrontError(lineNumber: int, message: string, errorCode: Option<int>)

  /** `new ArgumentError(lineNumber)`: the default message and code 0x1000. */
  function ArgumentError(lineNumber: int): FrontError
  {
    FrontError(lineNumber, "Argument error.", Some(0x1000))
  }

  function InvalidLabelError(lineNumber: int): FrontError
  {
    FrontError(lineNumber, "Invalid label.", None)
  }

  function InvalidInstructionError(lineNumber: int): FrontError
  {
    FrontError(lineNumber, "Invalid instruction.", None)
  }

  /** The fields of one line; the getters of the source are the datatype's field selectors. */
  datatype LexerResult = LexerResult(
    labelName: Option<string>,
    instruction: Option<string>,
    r1: Option<GR>,
    r2: Option<GR>,
    address: Option<Value>,
    comment: Option<string>,
    isCommentLine: bool,
    wordCount: Option<int>,
    consts: Option<seq<Value>>,
    lengthAddress: Option<Value>)

  /**
   * The constructor: every field is stored as given, the three trailing ones
   * are optional and default to `undefined`, and the line is a comment line
   * exactly when it has a comment and no label, mnemonic, register or address.
   */
  function NewLexerResult(
    labelName: Option<string>, instruction: Option<string>, r1: Option<GR>, r2: Option<GR>,
    address: Option<Value>, comment: Option<string>,
    wordCount: Option<int> := None, consts: Option<seq<Value>> := None, lengthAddress: Option<Value> := None): (r: LexerResult)
    ensures r.isCommentLine <==>
      labelName.None? && instruction.None? && r1.None? && r2.None? && address.None? && comment.Some?
    ensures r.labelName == labelName && r.instruction == instruction && r.r1 == r1 && r.r2 == r2
    ensures r.address == address && r.comment == comment
    ensures r.wordCount == wordCount && r.consts == consts && r.lengthAddress == lengthAddress
  {
    LexerResult(labelName, instruction, r1, r2, address, comment,
      labelName.None? && instruction.None? && r1.None? && r2.None? && address.None? && comment.Some?,
      wordCount, consts, lengthAddress)
  }

  /** The comment-line flag is the same whatever the word count, constants and length address are. */
  lemma CommentFlagIgnoresOptionalFields(
    labelName: Option<string>, instruction: Option<string>, r1: Option<GR>, r2: Option<GR>,
    address: Option<Value>, comment: Option<string>,
    w1: Option<int>, c1: Option<seq<Value>>, l1: Option<Value>,
    w2: Option<int>, c2: Option<seq<Value>>, l2: Option<Value>)
    ensures NewLexerResult(labelName, instruction, r1, r2, address, comment, w1, c1, l1).isCommentLine
         == NewLexerResult(labelName, instruction, r1, r2, address, comment, w2, c2, l2).isCommentLine
    ensures NewLexerResult(labelName, instruction, r1, r2, address, comment, w1, c1, l1).isCommentLine
         == NewLexerResult(labelName, instruction, r1, r2, address, comment).isCommentLine
  {
  }

  /** A constructor call with six arguments leaves word count, constants and length address undefined. */
  lemma OmittedFieldsUndefined(
    labelName: Option<string>, instruction: Option<string>, r1: Option<GR>, r2: Option<GR>,
    address: Option<Value>, comment: Option<string>)
    ensures NewLexerResult(labelName, instruction, r1, r2, address, comment).wordCount.None?
    ensures NewLexerResult(labelName, instruction, r1, r2, address, comment).consts.None?
    ensures NewLexerResult(labelName, instruction, r1, r2, address, comment).lengthAddress.None?
  {
  }

  /** JavaScript truthiness of an optional register: `undefined` and GR0 (the number 0) are false. */
  predicate TruthyGR(r: Option<GR>)
  {
    r.Some? && r.value != 0
  }

  /** JavaScript truthiness of an optional `number | string`: `undefined`, `""`, 0 and NaN are false. */
  predicate Truthy(v: Option<Value>)
  {
    match v
    case None => false
    case Some(Text(s)) => s != ""
    case Some(Number(n)) => n != 0
    case Some(NaN) => false
  }
}
