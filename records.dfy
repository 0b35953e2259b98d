/**
 * Instruction records: `InstructionBase` and its variants MDC (one data
 * word), INOUT with IN/OUT (the two-operand I/O macros), OLBL (a label with
 * no bytes) and DS (a block of zero words). The variants are the `kind` of
 * one datatype; the source's virtual `toHex`, `byteLength` and
 * `resolveAddress` dispatch on it.
 */
module Records {
  import opened Common
  import opened LabelMaps

  /** General registers GR0..GR7, and GR8 (the stack pointer) as 8. */
  type GR = r: int | 0 <= r <= 8

  /** Opcodes are bytes. */
  type Opcode = c: int | 0 <= c < 256

  /** An operand: a number, or a label (or literal) text still to be resolved. */
  datatype Operand = Num(n: int) | Sym(name: string)

  datatype Literal = NumLiteral(value: int) | StrLiteral(text: string)

  datatype CompileError = CompileError(lineNumber: Option<int>, message: string)

  datatype Kind =
    | Base
    | Mdc(charLiteral: Option<string>)
    | InOut(lengthAddress: Operand)
    | Ds(wordCount: nat)

  /** What `resolveAddress` leaves behind: the updated record and the error it returns, if any. */
  datatype Resolved = Resolved(inst: Instruction, error: Option<CompileError>)

  /** The opcodes the byte-length table maps to 2 (one-word instructions). */
  const OneWordCodes: set<int> := {0x14, 0x24, 0x26, 0x25, 0x27, 0x34, 0x35, 0x36, 0x44, 0x45, 0x71, 0x81, 0x00}

  /** The opcodes the byte-length table maps to 4 (two-word instructions). */
  const TwoWordCodes: set<int> :=
    {0x10, 0x11, 0x12, 0x20, 0x22, 0x21, 0x23, 0x30, 0x31, 0x32, 0x40, 0x41, 0x50, 0x51, 0x52, 0x53, 0x65, 0x61, 0x62, 0x63, 0x66, 0x64, 0x70, 0x80, 0xF0}

  /**
   * `byteLengthMap.get(code)`: the opcode to byte-length table as written,
   * `None` for a code it has no entry for. It has no entry for 0xA0 (RPUSH)
   * and 0xA1 (RPOP); see `ByteLengthEntryCorrected`.
   */
  function ByteLengthEntry(c: int): Option<nat>
  {
    if c in OneWordCodes then Some(2) else if c in TwoWordCodes then Some(4) else None
  }

  /** The table with the one-word RPUSH and RPOP added; records are built with this one. */
  function ByteLengthEntryCorrected(c: int): Option<nat>
  {
    if c == 0xA0 || c == 0xA1 then Some(2) else ByteLengthEntry(c)
  }

  /** `code != undefined ? byteLengthMap.get(code)! : 0`; a code without entry gives `undefined` (`None`). */
  function StoredByteLength(code: Option<Opcode>, table: int -> Option<nat>): (r: Option<nat>)
    ensures code.None? ==> r == Some(0)
    ensures code.Some? ==> r == table(code.value)
  {
    match code
    case None => Some(0)
    case Some(c) => table(c)
  }

  /** `0xFFFF - (Math.abs(a) - 1)` for a negative address: 16-bit two's complement. */
  function EncodeAddress(a: int): int
  {
    if a < 0 then 0xFFFF - (-a - 1) else a
  }

  function Pow2(n: nat): (p: nat)
    ensures p >= 1
  {
    if n == 0 then 1 else 2 * Pow2(n - 1)
  }

  /** JavaScript `x << n` for operands small enough that no bit reaches the 32-bit sign bit. */
  function ShiftLeft(x: nat, n: nat): nat
    requires x * Pow2(n) < 0x8000_0000
  {
    x * Pow2(n)
  }

  /** JavaScript `x | y` on non-negative 32-bit integers: bitwise or. */
  function BitOr(x: nat, y: nat): nat
    decreases x + y
  {
    if x == 0 then y
    else if y == 0 then x
    else 2 * BitOr(x / 2, y / 2) + (if x % 2 == 1 || y % 2 == 1 then 1 else 0)
  }

  /** `code << 8 | r1 << 4 | r2` */
  function FirstWord(code: Opcode, r1: GR, r2: GR): int
  {
    assert Pow2(8) == 256 && Pow2(4) == 16;
    BitOr(BitOr(ShiftLeft(code, 8), ShiftLeft(r1, 4)), r2)
  }

  /** `(r || 0)`: a missing register is 0 (and GR0 is 0 anyway). */
  function RegisterOrZero(r: Option<GR>): GR
  {
    if r.Some? then r.value else 0
  }

  datatype Instruction = Instruction(
    name: string,
    lineNumber: Option<int>,
    code: Option<Opcode>,
    labelName: Option<string>,
    r1: Option<GR>,
    r2: Option<GR>,
    address: Option<Operand>,
    isConfirmed: bool,
    storedByteLength: Option<nat>,
    scopeValue: Option<int>,
    kind: Kind)
  {
    /**
     * The record invariant every constructor and mutator keeps: outside
     * INOUT (which has its own notion), the confirmed flag says that the
     * address is absent or a number.
     */
    predicate Valid()
    {
      kind.InOut? || (isConfirmed <==> (address.None? || address.value.Num?))
    }

    /** `scope`: `_scope || 1`, so an unset (or zero) scope reads as 1. */
    function Scope(): (s: int)
      ensures scopeValue.Some? && scopeValue.value != 0 ==> s == scopeValue.value
      ensures scopeValue.None? || scopeValue.value == 0 ==> s == 1
    {
      if scopeValue.Some? && scopeValue.value != 0 then scopeValue.value else 1
    }

    /** `byteLength`, dispatched on the kind; `None` is JavaScript's `undefined`. */
    function ByteLength(): Option<nat>
    {
      match kind
      case Base => storedByteLength
      case Mdc(_) => Some(2)
      case InOut(_) => Some(6)
      case Ds(n) => Some(2 * n)
    }

    /**
     * `byteLength` as the table is written: RPUSH (0xA0) and RPOP (0xA1)
     * have no entry there, so a base record with either code has an
     * undefined length; every other record has the length above.
     */
    function AsWrittenByteLength(): Option<nat>
    {
      if kind.Base? && code.Some? && (code.value == 0xA0 || code.value == 0xA1) then None else ByteLength()
    }

    /** Whether the record's operands are all numbers: the base flag, or INOUT's own test. */
    function Confirmed(): bool
    {
      match kind
      case InOut(len) => address.Some? && address.value.Num? && len.Num?
      case _ => isConfirmed
    }

    /** `toHex`, dispatched on the kind; `Crash` is a thrown error. */
    function ToHex(): Outcome<seq<int>>
      requires Valid()
    {
      match kind
      case Base =>
        if !isConfirmed then Crash
        else if code.None? then Ok([])
        else
          var first := FirstWord(code.value, RegisterOrZero(r1), RegisterOrZero(r2));
          (match address
           case None => Ok([first])
           case Some(Num(a)) => Ok([first, EncodeAddress(a)])
           case Some(Sym(_)) => assert false; Ok([]))
      case Mdc(ch) =>
        if ch.Some? && ch.value != "" then
          if |ch.value| != 1 then Crash else Ok([ch.value[0] as int])
        else if address.Some? && address.value.Num? then Ok([address.value.n])
        else Crash
      case InOut(len) =>
        if code.Some? && address.Some? && address.value.Num? && len.Num? then
          Ok([FirstWord(code.value, 0, 0), address.value.n, len.n])
        else Crash
      case Ds(n) => Ok(Repeat(0, n))
    }

    /**
     * `resolveAddress(labelMap)` against the map's entries and bind entries.
     * The base version looks the label up in the record's scope and returns
     * a `CompileError` when it is missing; INOUT's version looks each
     * symbolic operand up without a scope and throws when one is missing.
     */
    function ResolveAddress(entries: map<string, int>, binds: map<string, string>): Outcome<Resolved>
      requires Valid()
    {
      match kind
      case InOut(len) =>
        if Confirmed() then Ok(Resolved(this, None))
        else
          var a :- ResolveUnscoped(address, entries, binds);
          var l :- ResolveUnscoped(Some(len), entries, binds);
          Ok(Resolved(this.(address := Some(Num(a)), kind := InOut(Num(l))), None))
      case _ =>
        if isConfirmed then Ok(Resolved(this, None))
        else
          (match address
           case Some(Sym(adr)) =>
             (match Lookup(entries, binds, adr, Some(Scope()))
              case None => Ok(Resolved(this, Some(CompileError(lineNumber, "undeclared label: " + adr))))
              case Some(v) => Ok(Resolved(this.(address := Some(Num(v)), isConfirmed := true), None)))
           case _ => assert false; Ok(Resolved(this, None)))
    }

    /** `getLiteral`: the value of an `=`-literal address, `None` when the address is not one. */
    function GetLiteral(): Outcome<Option<Literal>>
    {
      match address
      case Some(Sym(s)) =>
        if s == [] || s[0] != '=' then Ok(None) else LiteralOf(s[1..])
      case _ => Ok(None)
    }

    /** `replaceLiteralWithLabel`: the address becomes the given label text. */
    function ReplaceLiteralWithLabel(newLabel: string): (r: Instruction)
      ensures r == this.(address := Some(Sym(newLabel)))
    {
      this.(address := Some(Sym(newLabel)))
    }

    /** `setScope` */
    function SetScope(scope: int): (r: Instruction)
      ensures r == this.(scopeValue := Some(scope))
    {
      this.(scopeValue := Some(scope))
    }

    /** The label setter the driver uses for generated DC groups. */
    function SetLabel(newLabel: string): (r: Instruction)
      ensures r == this.(labelName := Some(newLabel))
    {
      this.(labelName := Some(newLabel))
    }
  }

  /** INOUT's lookup of one operand: a number stays, a label is looked up without scope, else it throws. */
  function ResolveUnscoped(o: Option<Operand>, entries: map<string, int>, binds: map<string, string>): (r: Outcome<int>)
    ensures o.Some? && o.value.Num? ==> r == Ok(o.value.n)
    ensures o.Some? && o.value.Sym? ==> r == (match Lookup(entries, binds, o.value.name, None)
                                               case Some(v) => Ok(v)
                                               case None => Crash)
    ensures o.None? ==> r.Crash?
  {
    match o
    case Some(Num(n)) => Ok(n)
    case Some(Sym(s)) =>
      (match Lookup(entries, binds, s, None)
       case Some(v) => Ok(v)
       case None => Crash)
    case None => Crash
  }

  /** The literal after `=`: decimal first, then `#` hex, then a quoted string; anything else throws. */
  function LiteralOf(str: string): Outcome<Option<Literal>>
  {
    var d := JsText.ParseInt(str, 10);
    if d.Some? then Ok(Some(NumLiteral(d.value))) else NonDecimalLiteral(str)
  }

  function NonDecimalLiteral(str: string): Outcome<Option<Literal>>
  {
    if str != [] && str[0] == '#' && JsText.ParseInt(str[1..], 16).Some? then
      Ok(Some(NumLiteral(JsText.ParseInt(str[1..], 16).value)))
    else if |str| > 2 && str[0] == '\'' && str[|str| - 1] == '\'' then Ok(Some(StrLiteral(str)))
    else Crash
  }

  /** The `InstructionBase` constructor. */
  function NewInstruction(
    name: string, lineNumber: Option<int>, code: Option<Opcode>, labelName: Option<string>,
    r1: Option<GR>, r2: Option<GR>, address: Option<Operand>): (r: Instruction)
    ensures r.Valid() && r.kind == Base
    ensures r.isConfirmed <==> (address.None? || address.value.Num?)
    ensures r.ByteLength() == StoredByteLength(code, ByteLengthEntryCorrected)
    ensures r.AsWrittenByteLength() == StoredByteLength(code, ByteLengthEntry)
    ensures r.name == name && r.lineNumber == lineNumber && r.code == code && r.labelName == labelName
    ensures r.r1 == r1 && r.r2 == r2 && r.address == address && r.scopeValue.None?
  {
    Instruction(name, lineNumber, code, labelName, r1, r2, address,
      address.None? || address.value.Num?, StoredByteLength(code, ByteLengthEntryCorrected), None, Base)
  }

  /** `MDC`: one data word, either a character code or a numeric (or label) value. */
  function NewMdc(labelName: Option<string>, lineNumber: Option<int>, address: Option<Operand>, charLiteral: Option<string>): (r: Instruction)
    ensures r.Valid() && r.kind == Mdc(charLiteral) && r.name == "MDC" && r.code.None?
    ensures r.labelName == labelName && r.lineNumber == lineNumber && r.address == address
    ensures r.r1.None? && r.r2.None?
  {
    NewInstruction("MDC", lineNumber, None, labelName, None, None, address).(kind := Mdc(charLiteral))
  }

  function NewInOut(name: string, code: Opcode, lineNumber: Option<int>, labelName: Option<string>, buffer: Operand, lengthBuffer: Operand): (r: Instruction)
    ensures r.Valid() && r.kind == InOut(lengthBuffer) && r.name == name && r.code == Some(code)
    ensures r.labelName == labelName && r.lineNumber == lineNumber && r.address == Some(buffer)
    ensures r.r1.None? && r.r2.None?
  {
    NewInstruction(name, lineNumber, Some(code), labelName, None, None, Some(buffer)).(kind := InOut(lengthBuffer))
  }

  /** `IN`: opcode 0x90, the buffer becomes the address and the length buffer the second operand. */
  function NewIn(lineNumber: Option<int>, labelName: Option<string>, inAddress: Operand, inLengthAddress: Operand): (r: Instruction)
    ensures r.Valid() && r.name == "IN" && r.code == Some(0x90) && r.r1.None? && r.r2.None?
    ensures r.address == Some(inAddress) && r.kind == InOut(inLengthAddress) && r.labelName == labelName
  {
    NewInOut("IN", 0x90, lineNumber, labelName, inAddress, inLengthAddress)
  }

  /** `OUT`: opcode 0x91, the buffer becomes the address and the length buffer the second operand. */
  function NewOut(lineNumber: Option<int>, labelName: Option<string>, outAddress: Operand, outLengthAddress: Operand): (r: Instruction)
    ensures r.Valid() && r.name == "OUT" && r.code == Some(0x91) && r.r1.None? && r.r2.None?
    ensures r.address == Some(outAddress) && r.kind == InOut(outLengthAddress) && r.labelName == labelName
  {
    NewInOut("OUT", 0x91, lineNumber, labelName, outAddress, outLengthAddress)
  }

  /** `OLBL`: a label-only record with no code, no bytes and no words. */
  function NewOlbl(lineNumber: int, labelName: Option<string>): (r: Instruction)
    ensures r.Valid() && r.name == "OLBL" && r.labelName == labelName && r.lineNumber == Some(lineNumber)
    ensures r.ByteLength() == Some(0) && r.ToHex() == Ok([])
  {
    NewInstruction("OLBL", Some(lineNumber), None, labelName, None, None, None)
  }

  /** `DS`: `wordCount` zero words. */
  function NewDs(lineNumber: int, wordCount: nat, labelName: Option<string>): (r: Instruction)
    ensures r.Valid() && r.name == "DS" && r.labelName == labelName && r.kind == Ds(wordCount)
  {
    NewInstruction("DS", Some(lineNumber), None, labelName, None, None, None).(kind := Ds(wordCount))
  }

  // ---------------------------------------------------------------------
  // Properties of the records and the encoder.

  /** The first word packs code, r1 and r2 into disjoint bit fields, so each can be read back. */
  lemma FirstWordFields(code: Opcode, r1: GR, r2: GR)
    ensures FirstWord(code, r1, r2) == code * 256 + r1 * 16 + r2
    ensures FirstWord(code, r1, r2) / 256 == code
    ensures FirstWord(code, r1, r2) / 16 % 16 == r1
    ensures FirstWord(code, r1, r2) % 16 == r2
  {
    assert Pow2(8) == 256 && Pow2(4) == 16;
    BitOrDisjoint(code, r1 * 16, 8);
    var high := code * 16 + r1;
    assert code * 256 + r1 * 16 == high * Pow2(4);
    BitOrDisjoint(high, r2, 4);
    var w := code * 256 + r1 * 16 + r2;
    DivModUnique(w, 256, code, r1 * 16 + r2);
    DivModUnique(w, 16, high, r2);
    DivModUnique(high, 16, code, r1);
  }

  lemma DivModUnique(w: int, d: int, q: int, r: int)
    requires d > 0 && 0 <= r < d && w == q * d + r
    ensures w / d == q && w % d == r
  {
    var q2, r2 := w / d, w % d;
    assert (q - q2) * d == r2 - r by {
      assert q * d - q2 * d == (q - q2) * d;
    }
    if q > q2 {
      MulAtLeast(q - q2, d);
    } else if q < q2 {
      MulAtLeast(q2 - q, d);
    }
  }

  lemma MulAtLeast(x: int, d: int)
    requires x >= 1 && d > 0
    ensures x * d >= d
  {
  }

  /** Or-ing a value into bits that are all zero is addition. */
  lemma {:induction false} BitOrDisjoint(a: nat, b: nat, k: nat)
    requires b < Pow2(k)
    ensures BitOr(a * Pow2(k), b) == a * Pow2(k) + b
  {
    var x := a * Pow2(k);
    if k > 0 && x != 0 && b != 0 {
      assert x / 2 == a * Pow2(k - 1) && x % 2 == 0;
      BitOrDisjoint(a, b / 2, k - 1);
    }
  }

  /** Negative addresses are written in 16-bit two's complement; in range, the word is the address modulo 2^16. */
  lemma EncodeAddressTwosComplement(a: int)
    requires -0x10000 <= a <= 0xFFFF
    ensures 0 <= EncodeAddress(a) <= 0xFFFF
    ensures EncodeAddress(a) % 0x10000 == a % 0x10000
    ensures a < 0 ==> EncodeAddress(a) == 0x10000 + a
    ensures a >= 0 ==> EncodeAddress(a) == a
  {
  }

  /** `toHex` of a base record: unconfirmed throws, no code gives no word, otherwise the first word and the address word. */
  lemma BaseToHex(inst: Instruction)
    requires inst.Valid() && inst.kind == Base
    ensures !inst.isConfirmed ==> inst.ToHex() == Crash
    ensures inst.isConfirmed && inst.code.None? ==> inst.ToHex() == Ok([])
    ensures inst.isConfirmed && inst.code.Some? ==>
      inst.ToHex().Ok? && |inst.ToHex().value| == (if inst.address.Some? then 2 else 1)
      && inst.ToHex().value[0] == inst.code.value * 256 + RegisterOrZero(inst.r1) * 16 + RegisterOrZero(inst.r2)
    ensures inst.isConfirmed && inst.code.Some? && inst.address.Some? ==>
      inst.address.value.Num? && inst.ToHex().value[1] == EncodeAddress(inst.address.value.n)
  {
    if inst.isConfirmed && inst.code.Some? {
      FirstWordFields(inst.code.value, RegisterOrZero(inst.r1), RegisterOrZero(inst.r2));
    }
  }

  /** `LD GR1,GR2` encodes as 0x1412 (the register form's code 0x14). */
  lemma LdRegisterRegister()
    ensures NewInstruction("LD", Some(1), Some(0x14), None, Some(1), Some(2), None).ToHex() == Ok([0x1412])
  {
    FirstWordFields(0x14, 1, 2);
  }

  /** `LD GR1,5` encodes as [0x1010, 5]. */
  lemma LdWithAddress()
    ensures NewInstruction("LD", Some(1), Some(0x10), None, Some(1), None, Some(Num(5))).ToHex() == Ok([0x1010, 5])
  {
    var ld := NewInstruction("LD", Some(1), Some(0x10), None, Some(1), None, Some(Num(5)));
    FirstWordFields(0x10, 1, 0);
    assert ld.ToHex() == Ok([FirstWord(0x10, 1, 0), EncodeAddress(5)]);
  }

  /** `LAD GR1,-1` encodes as [0x1210, 0xFFFF]. */
  lemma LadWithNegativeAddress()
    ensures NewInstruction("LAD", Some(1), Some(0x12), None, Some(1), None, Some(Num(-1))).ToHex() == Ok([0x1210, 0xFFFF])
  {
    var lad := NewInstruction("LAD", Some(1), Some(0x12), None, Some(1), None, Some(Num(-1)));
    FirstWordFields(0x12, 1, 0);
    assert lad.ToHex() == Ok([FirstWord(0x12, 1, 0), EncodeAddress(-1)]);
  }

  /** The register-register codes, each four above its address form. */
  const RegisterRegisterCodes: seq<int> := [0x14, 0x24, 0x25, 0x26, 0x27, 0x34, 0x35, 0x36, 0x44, 0x45]

  /** Each register-register code is one word long, and its code - 4 address form two words. */
  lemma RegisterFormLengths()
    ensures forall i :: 0 <= i < |RegisterRegisterCodes| ==>
      ByteLengthEntry(RegisterRegisterCodes[i]) == Some(2) && ByteLengthEntry(RegisterRegisterCodes[i] - 4) == Some(4)
  {
  }

  /** The setters and `resolveAddress` keep the record invariant and never change the byte length. */
  lemma MutatorsKeepByteLength(inst: Instruction, scope: int, newLabel: string, entries: map<string, int>, binds: map<string, string>)
    requires inst.Valid()
    ensures inst.SetScope(scope).Valid() && inst.SetScope(scope).ByteLength() == inst.ByteLength()
    ensures inst.SetLabel(newLabel).Valid() && inst.SetLabel(newLabel).ByteLength() == inst.ByteLength()
    ensures inst.address.Some? && inst.address.value.Sym? ==>
      inst.ReplaceLiteralWithLabel(newLabel).Valid() && inst.ReplaceLiteralWithLabel(newLabel).ByteLength() == inst.ByteLength()
    ensures inst.ResolveAddress(entries, binds).Ok? ==>
      var res := inst.ResolveAddress(entries, binds).value.inst;
      res.Valid() && res.ByteLength() == inst.ByteLength()
  {
  }

  /**
   * Base `resolveAddress`: nothing to do when confirmed; an undeclared label
   * gives an error and leaves the record as it was; otherwise the looked-up
   * number becomes the address and the record is confirmed.
   */
  lemma ResolveBase(inst: Instruction, entries: map<string, int>, binds: map<string, string>)
    requires inst.Valid() && !inst.kind.InOut?
    ensures inst.ResolveAddress(entries, binds).Ok?
    ensures inst.isConfirmed ==> inst.ResolveAddress(entries, binds) == Ok(Resolved(inst, None))
    ensures !inst.isConfirmed ==>
      inst.address.Some? && inst.address.value.Sym? &&
      var found := Lookup(entries, binds, inst.address.value.name, Some(inst.Scope()));
      var res := inst.ResolveAddress(entries, binds).value;
      (found.None? ==> res.inst == inst && res.error == Some(CompileError(inst.lineNumber, "undeclared label: " + inst.address.value.name)))
      && (found.Some? ==> res.error.None? && res.inst.isConfirmed && res.inst == inst.(address := Some(Num(found.value)), isConfirmed := true))
  {
  }

  /**
   * INOUT `resolveAddress`: each symbolic operand is looked up without a
   * scope and numeric ones stay; an undeclared label on either throws; on
   * success both operands are numbers.
   */
  lemma ResolveInOut(inst: Instruction, entries: map<string, int>, binds: map<string, string>)
    requires inst.Valid() && inst.kind.InOut? && inst.address.Some?
    ensures inst.Confirmed() ==> inst.ResolveAddress(entries, binds) == Ok(Resolved(inst, None))
    ensures inst.ResolveAddress(entries, binds).Crash? <==>
      ResolveUnscoped(inst.address, entries, binds).Crash? || ResolveUnscoped(Some(inst.kind.lengthAddress), entries, binds).Crash?
    ensures inst.ResolveAddress(entries, binds).Ok? ==>
      var res := inst.ResolveAddress(entries, binds).value;
      res.error.None? && res.inst.Confirmed()
      && res.inst.address == Some(Num(ResolveUnscoped(inst.address, entries, binds).value))
      && res.inst.kind == InOut(Num(ResolveUnscoped(Some(inst.kind.lengthAddress), entries, binds).value))
      && res.inst.(address := inst.address, kind := inst.kind) == inst
  {
  }

  /** A label in the entries resolves; a missing one makes INOUT throw. */
  lemma ResolveInOutUndeclared(inst: Instruction, entries: map<string, int>, binds: map<string, string>)
    requires inst.Valid() && inst.kind.InOut? && inst.address.Some?
    requires inst.address.value.Sym? && Lookup(entries, binds, inst.address.value.name, None).None?
    ensures inst.ResolveAddress(entries, binds) == Crash
  {
  }

  /** `getLiteral` finds nothing unless the address is text starting with `=`. */
  lemma GetLiteralNeedsEquals(inst: Instruction)
    requires !(inst.address.Some? && inst.address.value.Sym? && inst.address.value.name != [] && inst.address.value.name[0] == '=')
    ensures inst.GetLiteral() == Ok(None)
  {
    match inst.address
    case Some(Sym(t)) => assert t == [] || t[0] != '=';
    case _ =>
  }

  /** `=d` with decimal digits `d` gives the decimal value. */
  lemma GetLiteralDecimal(inst: Instruction, d: string)
    requires |d| >= 1 && JsText.AllDigits(d, 10)
    requires inst.address == Some(Sym("=" + d))
    ensures inst.GetLiteral() == Ok(Some(NumLiteral(JsText.DigitsValue(d, 10))))
  {
    var s := "=" + d;
    assert s[0] == '=' && s[1..] == d;
    assert inst.GetLiteral() == LiteralOf(d);
    JsText.ParseIntOfDecimalToken(d);
  }

  /** `m` is a minus sign followed by the decimal digits `d`. */
  lemma LiteralOfNegativeDecimal(m: string, d: string)
    requires |d| >= 1 && JsText.AllDigits(d, 10)
    requires |m| == |d| + 1 && m[0] == '-' && m[1..] == d
    ensures LiteralOf(m) == Ok(Some(NumLiteral(-(JsText.DigitsValue(d, 10) as int))))
  {
    JsText.ParseIntOfNegatedToken(m, d);
    LiteralOfParsed(m, -(JsText.DigitsValue(d, 10) as int));
  }

  lemma LiteralOfParsed(str: string, v: int)
    requires JsText.ParseInt(str, 10) == Some(v)
    ensures LiteralOf(str) == Ok(Some(NumLiteral(v)))
  {
  }

  /** `=-d` with decimal digits `d` gives the negated decimal value. */
  lemma GetLiteralNegativeDecimal(inst: Instruction, d: string)
    requires |d| >= 1 && JsText.AllDigits(d, 10)
    requires inst.address == Some(Sym("=-" + d))
    ensures inst.GetLiteral() == Ok(Some(NumLiteral(-(JsText.DigitsValue(d, 10) as int))))
  {
    var s := "=-" + d;
    var m := s[1..];
    assert s[0] == '=' && m[0] == '-' && m[1..] == d;
    LiteralOfNegativeDecimal(m, d);
  }

  /** `=#h` with hex digits `h` gives the hex value. */
  lemma GetLiteralHex(inst: Instruction, h: string)
    requires |h| >= 1 && JsText.AllDigits(h, 16)
    requires inst.address == Some(Sym("=#" + h))
    ensures inst.GetLiteral() == Ok(Some(NumLiteral(JsText.DigitsValue(h, 16))))
  {
    var s := "=#" + h;
    assert s[0] == '=';
    var str := s[1..];
    assert str == "#" + h && str[0] == '#' && str[1..] == h;
    assert inst.GetLiteral() == LiteralOf(str);
    JsText.ParseIntOfNonNumber(str, 10);
    JsText.ParseIntOfHexDigits(h);
  }

  /** `='t'` gives the quoted text itself. */
  lemma GetLiteralString(inst: Instruction, t: string)
    requires |t| >= 1
    requires inst.address == Some(Sym("='" + t + "'"))
    ensures inst.GetLiteral() == Ok(Some(StrLiteral("'" + t + "'")))
  {
    var str := ("='" + t + "'")[1..];
    assert str == "'" + t + "'";
    JsText.ParseIntOfNonNumber(str, 10);
  }

  /** MDC: two bytes, one word; a one-character literal gives its code, otherwise the numeric value. */
  lemma MdcWords(inst: Instruction)
    requires inst.Valid() && inst.kind.Mdc?
    ensures inst.ByteLength() == Some(2)
    ensures inst.ToHex().Ok? ==> |inst.ToHex().value| == 1
    ensures inst.kind.charLiteral.Some? && |inst.kind.charLiteral.value| == 1 ==>
      inst.ToHex() == Ok([inst.kind.charLiteral.value[0] as int])
    ensures inst.kind.charLiteral.Some? && |inst.kind.charLiteral.value| > 1 ==> inst.ToHex() == Crash
    ensures (inst.kind.charLiteral.None? || inst.kind.charLiteral.value == "") && inst.address.Some? && inst.address.value.Num? ==>
      inst.ToHex() == Ok([inst.address.value.n])
  {
  }

  /** `DC 'A'` gives 0x41; `DC 3` gives 3 and `DC #00AB` gives 0xAB. */
  lemma MdcExamples()
    ensures NewMdc(None, Some(1), None, Some("A")).ToHex() == Ok([0x41])
    ensures NewMdc(None, Some(1), Some(Num(3)), None).ToHex() == Ok([3])
    ensures NewMdc(None, Some(1), Some(Num(0xAB)), None).ToHex() == Ok([0xAB])
  {
  }

  /** INOUT: six bytes; three words, the first the bare opcode, then buffer and length; confirmed iff both are numbers. */
  lemma InOutWords(inst: Instruction)
    requires inst.Valid() && inst.kind.InOut? && inst.code.Some?
    ensures inst.ByteLength() == Some(6)
    ensures inst.Confirmed() <==> inst.address.Some? && inst.address.value.Num? && inst.kind.lengthAddress.Num?
    ensures inst.ToHex().Ok? <==> inst.Confirmed()
    ensures inst.ToHex().Ok? ==>
      var ws := inst.ToHex().value;
      |ws| == 3 && ws[0] == inst.code.value * 256 && ws[0] % 256 == 0
      && ws[1] == inst.address.value.n && ws[2] == inst.kind.lengthAddress.n
  {
    FirstWordFields(inst.code.value, 0, 0);
  }

  /** `IN 0x90` and `OUT 0x91` with resolved buffers give [0x9000, buffer, length] and [0x9100, buffer, length]. */
  lemma InOutExamples(buf: int, len: int)
    ensures NewIn(Some(1), None, Num(buf), Num(len)).ToHex() == Ok([0x9000, buf, len])
    ensures NewOut(Some(1), None, Num(buf), Num(len)).ToHex() == Ok([0x9100, buf, len])
  {
    FirstWordFields(0x90, 0, 0);
    FirstWordFields(0x91, 0, 0);
  }

  /** DS: 2 × wordCount bytes, wordCount zero words. */
  lemma DsWords(lineNumber: int, wordCount: nat, labelName: Option<string>)
    ensures NewDs(lineNumber, wordCount, labelName).ByteLength() == Some(2 * wordCount)
    ensures NewDs(lineNumber, wordCount, labelName).ToHex().Ok?
    ensures var ws := NewDs(lineNumber, wordCount, labelName).ToHex().value;
      |ws| == wordCount && forall i :: 0 <= i < |ws| ==> ws[i] == 0
  {
  }

  /** The scope of a fresh record reads as 1, and `setScope(s)` with s != 0 makes it s. */
  lemma ScopeDefault(inst: Instruction, scope: int)
    requires inst.scopeValue.None?
    ensures inst.Scope() == 1
    ensures scope != 0 ==> inst.SetScope(scope).Scope() == scope
  {
  }
}
