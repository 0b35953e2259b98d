/**
 * The mnemonic table and the merge of its duplicate entries.
 *
 * The instruction information list lists some mnemonics twice (once per
 * operand form); `createInstructionMap` folds the list into one entry per
 * name, adding the argument-type flags and keeping the smaller code. Two
 * versions exist: the copying one of `instructionMap.ts` (documentation and
 * type of the FIRST occurrence, input untouched) and the in-place one of
 * `parser.ts` (overwrites the LATER occurrence in the input list).
 */
module InstructionMaps {
  import opened Common
  import opened Records

  /**
   * Argument-type flags. Their numeric values belong to a package that is
   * not part of this model; the values chosen here keep the one relation the
   * merge depends on: the two forms of LD-like mnemonics add up to the
   * combined form (4 + 8 == 12).
   */
  const ArgNone: int := 1
  const ArgR: int := 2
  const ArgR1R2: int := 4
  const ArgR1AdrR2: int := 8
  const ArgR1R2OrR1AdrR2: int := 12
  const ArgAdrR2: int := 16
  const ArgAdrAdr: int := 32
  const ArgOther: int := 64

  datatype InstructionInfo = InstructionInfo(
    documentation: string,
    instructionName: string,
    instructionType: string,
    argumentType: int,
    code: Option<Opcode>)

  /** `Math.min(a, b)`; an undefined code on either side gives NaN (`None`). */
  function MinCode(a: Option<Opcode>, b: Option<Opcode>): (r: Option<Opcode>)
    ensures r.Some? <==> a.Some? && b.Some?
    ensures r.Some? ==> r.value <= a.value && r.value <= b.value && (r.value == a.value || r.value == b.value)
  {
    if a.Some? && b.Some? then Some(if a.value <= b.value then a.value else b.value) else None
  }

  function Names(info: seq<InstructionInfo>): set<string>
  {
    set i | 0 <= i < |info| :: info[i].instructionName
  }

  /** The entry already in the map, `v`, merged with a later one, `x`. */
  function MergeInfo(v: InstructionInfo, x: InstructionInfo): InstructionInfo
  {
    InstructionInfo(v.documentation, v.instructionName, v.instructionType,
      v.argumentType + x.argumentType, MinCode(x.code, v.code))
  }

  /** The map `createInstructionMap` of `instructionMap.ts` builds from `info`. */
  function Merged(info: seq<InstructionInfo>): map<string, InstructionInfo>
  {
    if info == [] then map[]
    else
      var m := Merged(info[..|info| - 1]);
      var x := info[|info| - 1];
      if x.instructionName in m then m[x.instructionName := MergeInfo(m[x.instructionName], x)]
      else m[x.instructionName := x]
  }

  /** Sum of the argument types of the entries named `k`. */
  function SumArgs(info: seq<InstructionInfo>, k: string): int
  {
    if info == [] then 0
    else SumArgs(info[..|info| - 1], k) + (if info[|info| - 1].instructionName == k then info[|info| - 1].argumentType else 0)
  }

  /** Minimum of the codes of the entries named `k` (`None` as soon as one is undefined). */
  function MinCodes(info: seq<InstructionInfo>, k: string): Option<Opcode>
  {
    if info == [] then None
    else
      var p := info[..|info| - 1];
      var x := info[|info| - 1];
      if x.instructionName != k then MinCodes(p, k)
      else if k in Names(p) then MinCode(x.code, MinCodes(p, k))
      else x.code
  }

  /** Index of the first entry named `k`. */
  function FirstIndex(info: seq<InstructionInfo>, k: string): (i: nat)
    requires k in Names(info)
    ensures i < |info| && info[i].instructionName == k
    ensures forall j :: 0 <= j < i ==> info[j].instructionName != k
  {
    if info[0].instructionName == k then 0
    else
      assert k in Names(info[1..]) by {
        var j :| 0 <= j < |info| && info[j].instructionName == k;
        assert info[1..][j - 1] == info[j];
      }
      1 + FirstIndex(info[1..], k)
  }

  lemma NamesOfPrefix(info: seq<InstructionInfo>)
    requires info != []
    ensures Names(info) == Names(info[..|info| - 1]) + {info[|info| - 1].instructionName}
  {
    var p := info[..|info| - 1];
    forall k | k in Names(info) ensures k in Names(p) + {info[|info| - 1].instructionName} {
      var j :| 0 <= j < |info| && info[j].instructionName == k;
      if j < |p| { assert p[j] == info[j]; }
    }
    forall k | k in Names(p) ensures k in Names(info) {
      var j :| 0 <= j < |p| && p[j].instructionName == k;
      assert info[j] == p[j];
    }
  }

  /** The map's keys are exactly the names in the list. */
  lemma {:induction false} MergedKeys(info: seq<InstructionInfo>)
    ensures Merged(info).Keys == Names(info)
  {
    if info != [] {
      MergedKeys(info[..|info| - 1]);
      NamesOfPrefix(info);
    }
  }

  /** Values are stored under their own name. */
  lemma {:induction false} MergedNames(info: seq<InstructionInfo>, k: string)
    requires k in Merged(info)
    ensures Merged(info)[k].instructionName == k
  {
    var p := info[..|info| - 1];
    var x := info[|info| - 1];
    if k in Merged(p) { MergedNames(p, k); }
  }

  /**
   * Each merged entry has the sum of the argument types and the minimum of
   * the codes of the entries of that name, and the documentation, name and
   * type of the first of them.
   */
  lemma {:induction false} MergedFields(info: seq<InstructionInfo>, k: string)
    requires k in Names(info)
    ensures k in Merged(info)
    ensures Merged(info)[k].argumentType == SumArgs(info, k)
    ensures Merged(info)[k].code == MinCodes(info, k)
    ensures var f := info[FirstIndex(info, k)];
      Merged(info)[k].documentation == f.documentation
      && Merged(info)[k].instructionName == f.instructionName
      && Merged(info)[k].instructionType == f.instructionType
  {
    MergedKeys(info);
    var p := info[..|info| - 1];
    var x := info[|info| - 1];
    MergedKeys(p);
    NamesOfPrefix(info);
    if k in Names(p) {
      MergedFields(p, k);
      FirstIndexOfPrefix(info, k);
    } else {
      assert x.instructionName == k;
      assert SumArgs(p, k) == 0 by { SumArgsAbsent(p, k); }
      assert FirstIndex(info, k) == |info| - 1 by { FirstIndexLast(info, k); }
    }
  }

  lemma {:induction false} SumArgsAbsent(info: seq<InstructionInfo>, k: string)
    requires k !in Names(info)
    ensures SumArgs(info, k) == 0
  {
    if info != [] {
      NamesOfPrefix(info);
      SumArgsAbsent(info[..|info| - 1], k);
    }
  }

  lemma FirstIndexOfPrefix(info: seq<InstructionInfo>, k: string)
    requires info != [] && k in Names(info[..|info| - 1])
    ensures k in Names(info) && FirstIndex(info, k) == FirstIndex(info[..|info| - 1], k)
  {
    var p := info[..|info| - 1];
    NamesOfPrefix(info);
    var i, j := FirstIndex(info, k), FirstIndex(p, k);
    assert p[j] == info[j];
  }

  lemma FirstIndexLast(info: seq<InstructionInfo>, k: string)
    requires info != [] && info[|info| - 1].instructionName == k && k !in Names(info[..|info| - 1])
    ensures k in Names(info) && FirstIndex(info, k) == |info| - 1
  {
    var p := info[..|info| - 1];
    NamesOfPrefix(info);
  }

  /** A name that occurs once maps to a field-equal copy of its entry. */
  lemma {:induction false} MergedSingle(info: seq<InstructionInfo>, i: nat)
    requires i < |info|
    requires forall j :: 0 <= j < |info| && j != i ==> info[j].instructionName != info[i].instructionName
    ensures info[i].instructionName in Merged(info) && Merged(info)[info[i].instructionName] == info[i]
  {
    var k := info[i].instructionName;
    var p := info[..|info| - 1];
    MergedKeys(p);
    if i < |info| - 1 {
      assert p[i] == info[i];
      forall j | 0 <= j < |p| && j != i ensures p[j].instructionName != k { assert p[j] == info[j]; }
      MergedSingle(p, i);
    } else {
      assert k !in Names(p);
    }
  }

  /** `LD`'s two forms merge into the combined form with the address form's code. */
  lemma MergeLdExample(doc: string, ty: string)
    ensures var info := [InstructionInfo(doc, "LD", ty, ArgR1AdrR2, Some(0x10)), InstructionInfo(doc, "LD", ty, ArgR1R2, Some(0x14))];
      Merged(info) == map["LD" := InstructionInfo(doc, "LD", ty, ArgR1R2OrR1AdrR2, Some(0x10))]
  {
    var info := [InstructionInfo(doc, "LD", ty, ArgR1AdrR2, Some(0x10)), InstructionInfo(doc, "LD", ty, ArgR1R2, Some(0x14))];
    assert info[..1][..0] == [];
    assert info[..1] == [info[0]];
    assert Merged(info[..1]) == map["LD" := info[0]];
  }

  /** `createInstructionMap` of `instructionMap.ts`: a loop that fills a fresh map; the input list is a value and stays as it was. */
  method CreateInstructionMap(info: seq<InstructionInfo>) returns (m: map<string, InstructionInfo>)
    ensures m == Merged(info)
  {
    m := map[];
    for i := 0 to |info|
      invariant m == Merged(info[..i])
    {
      var x := info[i];
      var key := x.instructionName;
      assert info[..i + 1][..i] == info[..i];
      if key in m {
        var v := m[key];
        var merge := InstructionInfo(v.documentation, v.instructionName, v.instructionType,
          v.argumentType + x.argumentType, MinCode(x.code, v.code));
        m := m[key := merge];
      } else {
        m := m[key := x];
      }
    }
    assert info[..|info|] == info;
  }

  // ---------------------------------------------------------------------
  // The in-place variant in `parser.ts`.

  /**
   * The list and the map after the in-place merge: a repeated entry is
   * overwritten with its merge (its own documentation and type, the summed
   * argument type, the smaller code) and the map points at it.
   */
  function MergeInPlace(info: seq<InstructionInfo>): (r: (seq<InstructionInfo>, map<string, InstructionInfo>))
    ensures |r.0| == |info|
  {
    if info == [] then ([], map[])
    else
      var (a, m) := MergeInPlace(info[..|info| - 1]);
      var x := info[|info| - 1];
      if x.instructionName in m then
        var merge := x.(argumentType := x.argumentType + m[x.instructionName].argumentType,
                        code := MinCode(x.code, m[x.instructionName].code));
        (a + [merge], m[x.instructionName := merge])
      else (a + [x], m[x.instructionName := x])
  }

  /** The in-place merge of `parser.ts`, over the list it overwrites. */
  method CreateInstructionMapInPlace(info: array<InstructionInfo>) returns (m: map<string, InstructionInfo>)
    modifies info
    ensures (info[..], m) == MergeInPlace(old(info[..]))
  {
    ghost var s := info[..];
    m := map[];
    for i := 0 to info.Length
      invariant info[i..] == s[i..]
      invariant (info[..i], m) == MergeInPlace(s[..i])
    {
      var x := info[i];
      assert x == s[i];
      var key := x.instructionName;
      assert s[..i + 1][..i] == s[..i];
      if key in m {
        var v := m[key];
        var merge := x.(argumentType := x.argumentType + v.argumentType, code := MinCode(x.code, v.code));
        info[i] := merge;
        m := m[key := merge];
      } else {
        m := m[key := x];
      }
      assert info[..i + 1] == info[..i] + [info[i]];
      assert info[i + 1..] == s[i + 1..];
    }
    assert info[..] == info[..info.Length] && s[..info.Length] == s;
  }

  /** Index of the last entry named `k`. */
  function LastIndex(info: seq<InstructionInfo>, k: string): (i: nat)
    requires k in Names(info)
    ensures i < |info| && info[i].instructionName == k
    ensures forall j :: i < j < |info| ==> info[j].instructionName != k
  {
    NamesOfPrefix(info);
    if info[|info| - 1].instructionName == k then |info| - 1
    else
      var i := LastIndex(info[..|info| - 1], k);
      assert info[i] == info[..|info| - 1][i];
      i
  }

  /**
   * Both merges agree on the keys, argument types and codes; the in-place
   * one takes documentation and type from the LAST entry of each name.
   */
  lemma {:induction false} InPlaceAgreesWithMerged(info: seq<InstructionInfo>, k: string)
    requires k in Names(info)
    ensures MergeInPlace(info).1.Keys == Merged(info).Keys
    ensures k in MergeInPlace(info).1 && k in Merged(info)
    ensures var v, w, l := MergeInPlace(info).1[k], Merged(info)[k], info[LastIndex(info, k)];
      v.instructionName == w.instructionName && v.argumentType == w.argumentType && v.code == w.code
      && v.documentation == l.documentation && v.instructionType == l.instructionType
  {
    var p := info[..|info| - 1];
    var x := info[|info| - 1];
    NamesOfPrefix(info);
    MergedKeys(info);
    MergedKeys(p);
    InPlaceKeys(info);
    InPlaceKeys(p);
    var mi, mp := MergeInPlace(info).1, MergeInPlace(p).1;
    var wi, wp := Merged(info), Merged(p);
    if k in Names(p) {
      InPlaceAgreesWithMerged(p, k);
      MergedNames(p, k);
      if x.instructionName == k {
        assert mi[k] == x.(argumentType := x.argumentType + mp[k].argumentType, code := MinCode(x.code, mp[k].code));
        assert wi[k] == MergeInfo(wp[k], x);
        assert LastIndex(info, k) == |info| - 1;
      } else {
        assert mi[k] == mp[k] && wi[k] == wp[k];
        assert LastIndex(info, k) == LastIndex(p, k);
        assert info[LastIndex(p, k)] == p[LastIndex(p, k)];
      }
    } else {
      assert x.instructionName == k;
      assert mi[k] == x && wi[k] == x;
      assert LastIndex(info, k) == |info| - 1;
    }
  }

  lemma {:induction false} InPlaceKeys(info: seq<InstructionInfo>)
    ensures MergeInPlace(info).1.Keys == Names(info)
  {
    if info != [] {
      InPlaceKeys(info[..|info| - 1]);
      NamesOfPrefix(info);
    }
  }

  /** The in-place merge really writes into the input: the second `LD` entry comes out merged. */
  lemma InPlaceOverwritesInput(doc: string, ty: string)
    ensures var info := [InstructionInfo(doc, "LD", ty, ArgR1AdrR2, Some(0x10)), InstructionInfo(doc, "LD", ty, ArgR1R2, Some(0x14))];
      MergeInPlace(info).0 == [info[0], InstructionInfo(doc, "LD", ty, ArgR1R2OrR1AdrR2, Some(0x10))]
  {
    var info := [InstructionInfo(doc, "LD", ty, ArgR1AdrR2, Some(0x10)), InstructionInfo(doc, "LD", ty, ArgR1R2, Some(0x14))];
    assert info[..1][..0] == [];
    assert info[..1] == [info[0]];
    assert MergeInPlace(info[..1][..0]) == ([], map[]);
    assert MergeInPlace(info[..1]).0 == [] + [info[0]];
    assert MergeInPlace(info[..1]).1 == map["LD" := info[0]];
  }

  // ---------------------------------------------------------------------
  // The merged table the parser reads.

  function Machine(name: string, argumentType: int, code: Opcode): InstructionInfo
  {
    InstructionInfo("", name, "machine", argumentType, Some(code))
  }

  /**
   * The merged instruction map the parser consults, one entry per mnemonic:
   * the opcodes of `Instructions.InstMap` plus IN 0x90 and OUT 0x91; START,
   * END, DS and DC have no code. The documentation texts of the original
   * list are not part of this model (empty here).
   */
  function InstructionTable(name: string): Option<InstructionInfo>
  {
    match name
    case "LD" => Some(Machine(name, ArgR1R2OrR1AdrR2, 0x10))
    case "ST" => Some(Machine(name, ArgR1AdrR2, 0x11))
    case "LAD" => Some(Machine(name, ArgR1AdrR2, 0x12))
    case "ADDA" => Some(Machine(name, ArgR1R2OrR1AdrR2, 0x20))
    case "ADDL" => Some(Machine(name, ArgR1R2OrR1AdrR2, 0x22))
    case "SUBA" => Some(Machine(name, ArgR1R2OrR1AdrR2, 0x21))
    case "SUBL" => Some(Machine(name, ArgR1R2OrR1AdrR2, 0x23))
    case "AND" => Some(Machine(name, ArgR1R2OrR1AdrR2, 0x30))
    case "OR" => Some(Machine(name, ArgR1R2OrR1AdrR2, 0x31))
    case "XOR" => Some(Machine(name, ArgR1R2OrR1AdrR2, 0x32))
    case "CPA" => Some(Machine(name, ArgR1R2OrR1AdrR2, 0x40))
    case "CPL" => Some(Machine(name, ArgR1R2OrR1AdrR2, 0x41))
    case "SLA" => Some(Machine(name, ArgR1AdrR2, 0x50))
    case "SRA" => Some(Machine(name, ArgR1AdrR2, 0x51))
    case "SLL" => Some(Machine(name, ArgR1AdrR2, 0x52))
    case "SRL" => Some(Machine(name, ArgR1AdrR2, 0x53))
    case "JPL" => Some(Machine(name, ArgAdrR2, 0x65))
    case "JMI" => Some(Machine(name, ArgAdrR2, 0x61))
    case "JNZ" => Some(Machine(name, ArgAdrR2, 0x62))
    case "JZE" => Some(Machine(name, ArgAdrR2, 0x63))
    case "JOV" => Some(Machine(name, ArgAdrR2, 0x66))
    case "JUMP" => Some(Machine(name, ArgAdrR2, 0x64))
    case "PUSH" => Some(Machine(name, ArgAdrR2, 0x70))
    case "POP" => Some(Machine(name, ArgR, 0x71))
    case "CALL" => Some(Machine(name, ArgAdrR2, 0x80))
    case "RET" => Some(Machine(name, ArgNone, 0x81))
    case "SVC" => Some(Machine(name, ArgAdrR2, 0xF0))
    case "NOP" => Some(Machine(name, ArgNone, 0x00))
    case "RPUSH" => Some(InstructionInfo("", name, "macro", ArgNone, Some(0xA0)))
    case "RPOP" => Some(InstructionInfo("", name, "macro", ArgNone, Some(0xA1)))
    case "IN" => Some(InstructionInfo("", name, "macro", ArgAdrAdr, Some(0x90)))
    case "OUT" => Some(InstructionInfo("", name, "macro", ArgAdrAdr, Some(0x91)))
    case "START" => Some(InstructionInfo("", name, "assembler", ArgOther, None))
    case "END" => Some(InstructionInfo("", name, "assembler", ArgNone, None))
    case "DS" => Some(InstructionInfo("", name, "assembler", ArgOther, None))
    case "DC" => Some(InstructionInfo("", name, "assembler", ArgOther, None))
    case _ => None
  }

  /**
   * What the parser relies on in its table: entries sit under their own
   * name, LD-like entries have a code whose register form (code + 4) is
   * still a byte, and the NOP entry has a code.
   */
  predicate WellFormedTable(name: string)
  {
    match InstructionTable(name)
    case None => true
    case Some(info) =>
      info.instructionName == name
      && (info.argumentType == ArgR1R2OrR1AdrR2 ==> info.code.Some? && info.code.value + 4 < 256)
  }

  lemma TableWellFormed(name: string)
    ensures WellFormedTable(name)
    ensures InstructionTable("NOP") == Some(Machine("NOP", ArgNone, 0x00))
  {
  }

  /**
   * For each LD-like mnemonic the table code is the address form (four
   * bytes) and code + 4 the register form (two bytes).
   */
  lemma LdLikeFormLengths(name: string)
    requires InstructionTable(name).Some? && InstructionTable(name).value.argumentType == ArgR1R2OrR1AdrR2
    ensures var c := InstructionTable(name).value.code.value;
      ByteLengthEntry(c) == Some(4) && ByteLengthEntry(c + 4) == Some(2)
  {
  }

  /**
   * As written, the byte-length table has no entry for the codes of RPUSH
   * (0xA0) and RPOP (0xA1): a record of either gets an undefined length.
   */
  lemma RpushRpopLengthMissing()
    ensures InstructionTable("RPUSH").value.code == Some(0xA0) && InstructionTable("RPOP").value.code == Some(0xA1)
    ensures StoredByteLength(Some(0xA0), ByteLengthEntry).None? && StoredByteLength(Some(0xA1), ByteLengthEntry).None?
  {
    assert ByteLengthEntry(0xA0).None? && ByteLengthEntry(0xA1).None?;
  }

  /**
   * With the corrected table every mnemonic whose record is a base record
   * (all but IN and OUT, whose variant has its own length) gets a defined
   * byte length, in particular 2 for RPUSH and RPOP.
   */
  lemma EveryCodeHasLength(name: string)
    requires InstructionTable(name).Some? && InstructionTable(name).value.argumentType != ArgAdrAdr
    ensures StoredByteLength(InstructionTable(name).value.code, ByteLengthEntryCorrected).Some?
    ensures name == "RPUSH" || name == "RPOP" ==> StoredByteLength(InstructionTable(name).value.code, ByteLengthEntryCorrected) == Some(2)
  {
  }
}
