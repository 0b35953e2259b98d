/**
 * Properties of the compile driver, stated about the folds in
 * `Compilation`: what each phase keeps, adds and computes.
 */
module CompilationProperties {
  import opened Common
  import opened JsText
  import opened Diagnostics
  import opened Token
  import opened Lexer
  import opened LabelMaps
  import opened Records
  import opened Parsing
  import opened ParserProperties
  import opened Compilation

  // ---------------------------------------------------------------------
  // Phase 1

  /** The number of blank lines. */
  function BlankCount(lines: seq<string>): nat
  {
    if lines == [] then 0
    else BlankCount(lines[..|lines| - 1]) + (if Trim(lines[|lines| - 1]) == [] then 1 else 0)
  }

  /**
   * Every non-blank line gives either one token list or exactly one
   * `Invalid_instruction_line` diagnostic, and blank lines give nothing.
   */
  lemma {:induction false} TokenizeCount(defs: seq<TokenDefinition>, lines: seq<string>)
    ensures |TokenizeLines(defs, lines).0| + |TokenizeLines(defs, lines).1| + BlankCount(lines) == |lines|
    ensures forall j :: 0 <= j < |TokenizeLines(defs, lines).1| ==> TokenizeLines(defs, lines).1[j].code == InvalidInstructionLine.code
  {
    if lines != [] {
      var i := |lines| - 1;
      TokenizeCount(defs, lines[..i]);
      var prev := TokenizeLines(defs, lines[..i]);
      if Trim(lines[i]) != [] {
        var t := SplitToTokensSpec(defs, lines[i], i);
        if !t.success {
          OneInvalidLine(defs, lines[i], i);
          assert TokenizeLines(defs, lines) == (prev.0, prev.1 + t.errors);
        } else {
          assert TokenizeLines(defs, lines) == (prev.0 + [t.value], prev.1);
        }
      } else {
        assert TokenizeLines(defs, lines) == prev;
      }
    }
  }

  /** A line that does not tokenize gives exactly one `Invalid_instruction_line` diagnostic. */
  lemma OneInvalidLine(defs: seq<TokenDefinition>, line: string, lineNumber: int)
    requires !SplitToTokensSpec(defs, line, lineNumber).success
    ensures |SplitToTokensSpec(defs, line, lineNumber).errors| == 1
    ensures SplitToTokensSpec(defs, line, lineNumber).errors[0].code == InvalidInstructionLine.code
  {
    SplitFailure(defs, line, lineNumber);
  }

  /** The outputs for a prefix of the lines are prefixes of the outputs for all of them. */
  lemma {:induction false} TokenizePrefix(defs: seq<TokenDefinition>, lines: seq<string>, k: nat)
    requires k <= |lines|
    ensures TokenizeLines(defs, lines[..k]).0 <= TokenizeLines(defs, lines).0
    ensures TokenizeLines(defs, lines[..k]).1 <= TokenizeLines(defs, lines).1
    decreases |lines| - k
  {
    if k < |lines| {
      assert lines[..k + 1][..k] == lines[..k];
      TokenizePrefix(defs, lines, k + 1);
      var prev := TokenizeLines(defs, lines[..k]);
      var next := TokenizeLines(defs, lines[..k + 1]);
      if Trim(lines[k]) != [] {
        var t := SplitToTokensSpec(defs, lines[k], k);
        assert next == if t.success then (prev.0 + [t.value], prev.1) else (prev.0, prev.1 + t.errors);
      } else {
        assert next == prev;
      }
    } else {
      assert lines[..k] == lines;
    }
  }

  /** A failing line does not stop the others: every non-blank line that tokenizes has its token list passed to the parser. */
  lemma TokenizeKeepsLine(defs: seq<TokenDefinition>, lines: seq<string>, i: nat)
    requires i < |lines| && Trim(lines[i]) != [] && SplitToTokensSpec(defs, lines[i], i).success
    ensures SplitToTokensSpec(defs, lines[i], i).value in TokenizeLines(defs, lines).0
  {
    var upTo := lines[..i + 1];
    TokenizePrefix(defs, lines, i + 1);
    TokenizeLastLine(defs, upTo, lines[i], i);
    AppendedIsIn(TokenizeLines(defs, upTo[..i]).0, TokenizeLines(defs, lines).0, SplitToTokensSpec(defs, lines[i], i).value);
  }

  lemma AppendedIsIn<T>(a: seq<T>, b: seq<T>, x: T)
    requires a + [x] <= b
    ensures x in b
  {
    assert b[|a|] == (a + [x])[|a|];
  }

  /** The last line, when it is non-blank and tokenizes, contributes the last token list. */
  lemma TokenizeLastLine(defs: seq<TokenDefinition>, lines: seq<string>, line: string, i: nat)
    requires |lines| == i + 1 && lines[i] == line && Trim(line) != [] && SplitToTokensSpec(defs, line, i).success
    ensures TokenizeLines(defs, lines).0 == TokenizeLines(defs, lines[..i]).0 + [SplitToTokensSpec(defs, line, i).value]
  {
  }

  /** Only blank lines: nothing to parse and nothing to report. */
  lemma {:induction false} BlankLinesGiveNothing(defs: seq<TokenDefinition>, lines: seq<string>)
    requires forall i :: 0 <= i < |lines| ==> Trim(lines[i]) == []
    ensures TokenizeLines(defs, lines) == ([], [])
  {
    if lines != [] {
      BlankLinesGiveNothing(defs, lines[..|lines| - 1]);
    }
  }

  // ---------------------------------------------------------------------
  // Phase 2

  /** Whether a record's address is written as an `=`-literal, the text `getLiteral` goes on to parse. */
  predicate HasLiteral(x: Instruction)
  {
    x.address.Some? && x.address.value.Sym? && x.address.value.name != [] && x.address.value.name[0] == '='
  }

  /** Once `getLiteral` does not throw, it returns a literal exactly for the records written with one. */
  lemma LiteralMarked(x: Instruction)
    requires x.GetLiteral().Ok?
    ensures HasLiteral(x) <==> x.GetLiteral().value.Some?
  {
  }

  /**
   * Literal pooling read from the front: the first record's literal takes
   * label `labels(c)` and its group is generated first, then the rest of
   * the records continue with the next label. The pool's own problems
   * start empty.
   */
  function PoolFrom(group: GroupOf, labels: nat -> string, c: nat, insts: seq<Instruction>): (r: Outcome<Pool>)
    ensures r.Ok? ==> |r.value.insts| == |insts| && r.value.count >= c
    ensures r.Ok? ==> forall i :: 0 <= i < |insts| ==> r.value.insts[i].(address := insts[i].address) == insts[i]
    decreases insts
  {
    if insts == [] then Ok(Pool([], [], [], c))
    else
      var lit :- insts[0].GetLiteral();
      if lit.None? then
        var rest :- PoolFrom(group, labels, c, insts[1..]);
        AddressOnlyCons(insts[0], insts[0], rest.insts, insts);
        Ok(rest.(insts := [insts[0]] + rest.insts))
      else
        var lbl := labels(c);
        var g :- group(lit.value, lbl);
        var rest :- PoolFrom(group, labels, c + 1, insts[1..]);
        AddressOnlyCons(insts[0].ReplaceLiteralWithLabel(lbl), insts[0], rest.insts, insts);
        Ok(Pool([insts[0].ReplaceLiteralWithLabel(lbl)] + rest.insts, g.0 + rest.generated, Diags(g.1) + rest.problems, rest.count))
  }

  /** Records that differ from the originals at most in their address stay so when one more such record is put in front. */
  lemma AddressOnlyCons(x: Instruction, x0: Instruction, rs: seq<Instruction>, xs: seq<Instruction>)
    requires xs != [] && x0 == xs[0] && x.(address := x0.address) == x0 && |rs| == |xs| - 1
    requires forall i :: 0 <= i < |rs| ==> rs[i].(address := xs[1..][i].address) == xs[1..][i]
    ensures |[x] + rs| == |xs|
    ensures forall i :: 0 <= i < |xs| ==> ([x] + rs)[i].(address := xs[i].address) == xs[i]
  {
    forall i | 0 <= i < |xs|
      ensures ([x] + rs)[i].(address := xs[i].address) == xs[i]
    {
      if i > 0 {
        assert ([x] + rs)[i] == rs[i - 1] && xs[1..][i - 1] == xs[i];
      }
    }
  }

  /** The pooling fold, with its first step taken first. */
  lemma {:induction false} PoolFront(group: GroupOf, labels: nat -> string, p0: Pool, x: Instruction, rest: seq<Instruction>)
    ensures PoolAll(group, labels, p0, [x] + rest) ==
      (match PoolStep(group, labels, p0, x)
       case Crash => Crash
       case Ok(p1) => PoolAll(group, labels, p1, rest))
  {
    if rest == [] {
      assert ([x] + rest)[..0] == [];
    } else {
      var n := |rest| - 1;
      assert ([x] + rest)[..|[x] + rest| - 1] == [x] + rest[..n];
      PoolFront(group, labels, p0, x, rest[..n]);
    }
  }

  /**
   * The pooling loop agrees with the front-first reading: after the
   * records already there, the rewritten records follow, the generated
   * groups are appended in instruction order, and so are the problems.
   */
  lemma {:induction false} PoolAgrees(group: GroupOf, labels: nat -> string, p0: Pool, insts: seq<Instruction>)
    ensures PoolAll(group, labels, p0, insts) == Shifted(p0, PoolFrom(group, labels, p0.count, insts))
    decreases |insts|
  {
    if insts == [] {
      assert p0.insts + [] == p0.insts && p0.generated + [] == p0.generated && p0.problems + [] == p0.problems;
    } else {
      var x, rest := insts[0], insts[1..];
      assert insts == [x] + rest;
      PoolFront(group, labels, p0, x, rest);
      var step := PoolStep(group, labels, p0, x);
      if step.Ok? {
        PoolAgrees(group, labels, step.value, rest);
      }
      PoolAgreesStep(group, labels, p0, x, rest);
    }
  }

  /** One record of `PoolAgrees`, given the claim for the rest. */
  lemma PoolAgreesStep(group: GroupOf, labels: nat -> string, p0: Pool, x: Instruction, rest: seq<Instruction>)
    requires PoolStep(group, labels, p0, x).Ok? ==>
      var p1 := PoolStep(group, labels, p0, x).value;
      PoolAll(group, labels, p1, rest) == Shifted(p1, PoolFrom(group, labels, p1.count, rest))
    ensures (match PoolStep(group, labels, p0, x)
             case Crash => Crash
             case Ok(p1) => PoolAll(group, labels, p1, rest))
            == Shifted(p0, PoolFrom(group, labels, p0.count, [x] + rest))
  {
    assert ([x] + rest)[0] == x && ([x] + rest)[1..] == rest;
    var lit := x.GetLiteral();
    if lit.Ok? && lit.value.None? {
      PoolAgreesPlain(group, labels, p0, x, rest);
    } else if lit.Ok? {
      assert PoolStep(group, labels, p0, x) == PoolStepWith(group, labels, p0, x, Ok(Some(lit.value.value)));
      PoolAgreesLiteral(group, labels, p0, x, lit.value.value, rest);
    }
  }

  lemma PoolAgreesPlain(group: GroupOf, labels: nat -> string, p0: Pool, x: Instruction, rest: seq<Instruction>)
    requires x.GetLiteral() == Ok(None)
    requires var p1 := p0.(insts := p0.insts + [x]);
      PoolAll(group, labels, p1, rest) == Shifted(p1, PoolFrom(group, labels, p1.count, rest))
    ensures PoolAll(group, labels, p0.(insts := p0.insts + [x]), rest) == Shifted(p0, PoolFrom(group, labels, p0.count, [x] + rest))
  {
    assert ([x] + rest)[0] == x && ([x] + rest)[1..] == rest;
    var q := PoolFrom(group, labels, p0.count, rest);
    if q.Ok? {
      assert PoolFrom(group, labels, p0.count, [x] + rest) == Ok(q.value.(insts := [x] + q.value.insts));
      assert p0.insts + [x] + q.value.insts == p0.insts + ([x] + q.value.insts);
    } else {
      assert PoolFrom(group, labels, p0.count, [x] + rest).Crash?;
    }
  }

  lemma PoolAgreesLiteral(group: GroupOf, labels: nat -> string, p0: Pool, x: Instruction, lit: Literal, rest: seq<Instruction>)
    requires x.GetLiteral() == Ok(Some(lit))
    requires PoolStepWith(group, labels, p0, x, Ok(Some(lit))).Ok? ==>
      var p1 := PoolStepWith(group, labels, p0, x, Ok(Some(lit))).value;
      PoolAll(group, labels, p1, rest) == Shifted(p1, PoolFrom(group, labels, p1.count, rest))
    ensures (match PoolStepWith(group, labels, p0, x, Ok(Some(lit)))
             case Crash => Crash
             case Ok(p1) => PoolAll(group, labels, p1, rest))
            == Shifted(p0, PoolFrom(group, labels, p0.count, [x] + rest))
  {
    var lbl := labels(p0.count);
    var g := group(lit, lbl);
    PoolFromLiteral(group, labels, p0.count, x, rest);
    if g.Ok? {
      PoolStepLiteral(group, labels, p0, x, lit, g.value);
      var p1 := Pool(p0.insts + [x.ReplaceLiteralWithLabel(lbl)], p0.generated + g.value.0, p0.problems + Diags(g.value.1), p0.count + 1);
      var q := PoolFrom(group, labels, p0.count + 1, rest);
      ShiftedCons(p0, p1, x.ReplaceLiteralWithLabel(lbl), g.value.0, Diags(g.value.1), q);
      assert PoolStepWith(group, labels, p0, x, Ok(Some(lit))) == Ok(p1);
      assert PoolAll(group, labels, p1, rest) == Shifted(p1, q);
      if q.Ok? {
        assert PoolFrom(group, labels, p0.count, [x] + rest) == Ok(Pool([x.ReplaceLiteralWithLabel(lbl)] + q.value.insts, g.value.0 + q.value.generated, Diags(g.value.1) + q.value.problems, q.value.count));
      } else {
        assert PoolFrom(group, labels, p0.count, [x] + rest) == Crash;
      }
    } else {
      assert PoolStepWith(group, labels, p0, x, Ok(Some(lit))) == Crash;
      assert PoolFrom(group, labels, p0.count, [x] + rest) == Crash;
    }
  }

  /** Shifting by `p0` and one front step is shifting by the pool after that step. */
  lemma ShiftedCons(p0: Pool, p1: Pool, y: Instruction, gen: seq<Instruction>, ps: seq<Problem>, q: Outcome<Pool>)
    requires p1 == Pool(p0.insts + [y], p0.generated + gen, p0.problems + ps, p1.count)
    ensures Shifted(p1, q) == (match q
                               case Crash => Crash
                               case Ok(q) => Shifted(p0, Ok(Pool([y] + q.insts, gen + q.generated, ps + q.problems, q.count))))
  {
    if q.Ok? {
      assert p1.insts + q.value.insts == p0.insts + ([y] + q.value.insts);
      assert p1.generated + q.value.generated == p0.generated + (gen + q.value.generated);
      assert p1.problems + q.value.problems == p0.problems + (ps + q.value.problems);
    }
  }

  /** `PoolFrom` on a record with a literal, one step unfolded. */
  lemma PoolFromLiteral(group: GroupOf, labels: nat -> string, c: nat, x: Instruction, rest: seq<Instruction>)
    requires x.GetLiteral().Ok? && x.GetLiteral().value.Some?
    ensures var lbl := labels(c);
      var g := group(x.GetLiteral().value.value, lbl);
      var q := PoolFrom(group, labels, c + 1, rest);
      PoolFrom(group, labels, c, [x] + rest) ==
        if g.Crash? || q.Crash? then Crash
        else Ok(Pool([x.ReplaceLiteralWithLabel(lbl)] + q.value.insts, g.value.0 + q.value.generated, Diags(g.value.1) + q.value.problems, q.value.count))
  {
    assert ([x] + rest)[0] == x && ([x] + rest)[1..] == rest;
  }

  /** The pool after `p0` followed by the pool `q` read from the front. */
  function Shifted(p0: Pool, q: Outcome<Pool>): Outcome<Pool>
  {
    match q
    case Crash => Crash
    case Ok(q) => Ok(Pool(p0.insts + q.insts, p0.generated + q.generated, p0.problems + q.problems, q.count))
  }

  /** The number of records with a literal. */
  function LiteralCount(insts: seq<Instruction>): nat
  {
    if insts == [] then 0 else (if HasLiteral(insts[0]) then 1 else 0) + LiteralCount(insts[1..])
  }

  /**
   * The k-th literal (counting from `c`) gets label `labels(c + k)`: a
   * record with a literal has its address replaced by the label handed out
   * for it, any other record is left as it was.
   */
  lemma {:induction false} PoolFromLabels(group: GroupOf, labels: nat -> string, c: nat, insts: seq<Instruction>)
    requires PoolFrom(group, labels, c, insts).Ok?
    ensures var q := PoolFrom(group, labels, c, insts).value;
      q.count == c + LiteralCount(insts) &&
      forall i :: 0 <= i < |insts| ==> q.insts[i] == PooledRecord(labels, c, insts, i)
    decreases |insts|
  {
    if insts != [] {
      var x, rest := insts[0], insts[1..];
      var c1 := if HasLiteral(x) then c + 1 else c;
      PoolFromHead(group, labels, c, insts);
      PoolFromLabels(group, labels, c1, rest);
      var q := PoolFrom(group, labels, c, insts).value;
      var qr := PoolFrom(group, labels, c1, rest).value;
      assert q.insts == [PooledRecord(labels, c, insts, 0)] + qr.insts;
      forall i | 0 < i < |insts|
        ensures q.insts[i] == PooledRecord(labels, c, insts, i)
      {
        PooledRecordCons(labels, c, insts, i);
      }
    }
  }

  /** What the i-th record becomes: its literal replaced by the label for the literals before it. */
  function PooledRecord(labels: nat -> string, c: nat, insts: seq<Instruction>, i: nat): Instruction
    requires i < |insts|
  {
    Relabelled(insts[i], labels(c + LiteralCount(insts[..i])))
  }

  /** A record with a literal takes the label in its place; any other record stays as it is. */
  function Relabelled(x: Instruction, name: string): Instruction
  {
    if HasLiteral(x) then x.ReplaceLiteralWithLabel(name) else x
  }

  lemma PooledRecordCons(labels: nat -> string, c: nat, insts: seq<Instruction>, i: nat)
    requires 0 < i < |insts|
    ensures PooledRecord(labels, c, insts, i) == PooledRecord(labels, if HasLiteral(insts[0]) then c + 1 else c, insts[1..], i - 1)
  {
    var c1 := if HasLiteral(insts[0]) then c + 1 else c;
    var pre, tail := insts[..i], insts[1..];
    assert pre[0] == insts[0] && pre[1..] == tail[..i - 1];
    assert c + LiteralCount(pre) == c1 + LiteralCount(tail[..i - 1]);
    assert tail[i - 1] == insts[i];
    assert PooledRecord(labels, c, insts, i) == Relabelled(insts[i], labels(c + LiteralCount(pre)));
    assert PooledRecord(labels, c1, tail, i - 1) == Relabelled(tail[i - 1], labels(c1 + LiteralCount(tail[..i - 1])));
  }

  lemma PoolFromHead(group: GroupOf, labels: nat -> string, c: nat, insts: seq<Instruction>)
    requires insts != [] && PoolFrom(group, labels, c, insts).Ok?
    ensures var c1 := if HasLiteral(insts[0]) then c + 1 else c;
      PoolFrom(group, labels, c1, insts[1..]).Ok? &&
      PoolFrom(group, labels, c, insts).value.insts == [PooledRecord(labels, c, insts, 0)] + PoolFrom(group, labels, c1, insts[1..]).value.insts &&
      PoolFrom(group, labels, c, insts).value.count == PoolFrom(group, labels, c1, insts[1..]).value.count
  {
    assert insts[..0] == [];
    LiteralMarked(insts[0]);
  }

  /** Without literals nothing is generated and the records pass through unchanged. */
  lemma {:induction false} PoolWithoutLiterals(group: GroupOf, labels: nat -> string, c: nat, insts: seq<Instruction>)
    requires forall i :: 0 <= i < |insts| ==> insts[i].GetLiteral() == Ok(None)
    ensures PoolFrom(group, labels, c, insts) == Ok(Pool(insts, [], [], c))
    decreases |insts|
  {
    if insts != [] {
      PoolWithoutLiterals(group, labels, c, insts[1..]);
      assert [insts[0]] + insts[1..] == insts;
    }
  }

  /** With the driver's groups, a literal whose DC line parses cleanly generates records, the first labelled with the literal's label. */
  lemma DriverPoolGroupsLabelled(defs: seq<TokenDefinition>, inRange: string -> bool, labels: nat -> string, c: nat, x: Instruction, rest: seq<Instruction>)
    requires x.GetLiteral().Ok? && x.GetLiteral().value.Some?
    requires PoolFrom(DriverGroups(defs, inRange), labels, c, [x] + rest).Ok?
    requires ParseAllResult([SplitToTokensSpec(defs, DcLine(x.GetLiteral().value.value), 1).value], inRange).value.success
    ensures var q := PoolFrom(DriverGroups(defs, inRange), labels, c, [x] + rest).value;
      q.insts[0].address == Some(Sym(labels(c))) && q.generated != [] && q.generated[0].labelName == Some(labels(c))
  {
    var group := DriverGroups(defs, inRange);
    PoolFromLiteral(group, labels, c, x, rest);
    var lit := x.GetLiteral().value.value;
    LiteralGroupSound(defs, inRange, lit, labels(c));
    LiteralGroupOneSide(defs, inRange, lit, labels(c));
    var g := group(lit, labels(c));
    assert g == LiteralGroup(defs, inRange, lit, labels(c));
    var q := PoolFrom(group, labels, c + 1, rest).value;
    assert PoolFrom(group, labels, c, [x] + rest).value.generated == g.value.0 + q.generated;
  }

  /** A literal's group has either records (the line parsed cleanly) or diagnostics, never both. */
  lemma LiteralGroupOneSide(defs: seq<TokenDefinition>, inRange: string -> bool, lit: Literal, lbl: string)
    ensures var g := LiteralGroup(defs, inRange, lit, lbl);
      g.Ok? ==> (g.value.0 == [] || g.value.1 == []) && (g.value.0 != [] <==> ParseAllResult([SplitToTokensSpec(defs, DcLine(lit), 1).value], inRange).value.success)
  {
  }

  // ---------------------------------------------------------------------
  // Phase 3: generated labels

  /**
   * A labelled generated record whose label no later generated record
   * reuses is placed at (total + the byte lengths before it) / 2.
   */
  lemma {:induction false} GeneratedAddress(entries: map<string, int>, total: nat, gen: seq<Instruction>, i: nat)
    requires i < |gen| && HasLabel(gen[i])
    requires forall j :: i < j < |gen| ==> gen[j].labelName != gen[i].labelName
    ensures var e := GeneratedEntries(entries, total, gen);
      gen[i].labelName.value in e && e[gen[i].labelName.value] == (total + TotalLength(gen[..i])) / 2
  {
    if i < |gen| - 1 {
      var n := |gen| - 1;
      assert gen[..n][i] == gen[i] && gen[..n][..i] == gen[..i];
      GeneratedAddress(entries, total, gen[..n], i);
    }
  }

  /** The generated labels add bare keys only: every other key keeps its entry. */
  lemma {:induction false} GeneratedEntriesFrame(entries: map<string, int>, total: nat, gen: seq<Instruction>, k: string)
    requires forall j :: 0 <= j < |gen| && HasLabel(gen[j]) ==> gen[j].labelName.value != k
    ensures var e := GeneratedEntries(entries, total, gen);
      (k in e <==> k in entries) && (k in e ==> e[k] == entries[k])
  {
    if gen != [] {
      GeneratedEntriesFrame(entries, total, gen[..|gen| - 1], k);
    }
  }

  // ---------------------------------------------------------------------
  // Phase 3: scopes and offsets

  /** The number of END records. */
  function EndCount(xs: seq<Instruction>): nat
  {
    if xs == [] then 0 else EndCount(xs[..|xs| - 1]) + (if xs[|xs| - 1].name == "END" then 1 else 0)
  }

  /** The scope record i is given: the first scope, plus the ENDs before it when label scopes are on. */
  function ScopeAt(enableLabelScope: bool, first: int, insts: seq<Instruction>, i: nat): int
    requires i <= |insts|
  {
    first + (if enableLabelScope then EndCount(insts[..i]) else 0)
  }

  /**
   * The label loop's counters: one record out per record in, after those
   * already there; the scope in force is raised by one after every END
   * when label scopes are on; the byte offset advances by the total byte
   * length; problems are only appended.
   */
  lemma {:induction false} LayoutCounters(enableLabelScope: bool, st0: Layout, insts: seq<Instruction>)
    ensures var l := LayoutAll(enableLabelScope, st0, insts);
      |l.insts| == |st0.insts| + |insts| && l.insts[..|st0.insts|] == st0.insts &&
      l.scope == ScopeAt(enableLabelScope, st0.scope, insts, |insts|) &&
      l.byteOffset == st0.byteOffset + TotalLength(insts) &&
      st0.problems <= l.problems
  {
    assert insts[..|insts|] == insts;
    if insts != [] {
      var n := |insts| - 1;
      LayoutCounters(enableLabelScope, st0, insts[..n]);
      LayoutStepShape(enableLabelScope, LayoutAll(enableLabelScope, st0, insts[..n]), insts[n]);
      assert insts[..n][..n] == insts[..n];
    }
  }

  /** Every record comes out in its place, tagged with the scope in force when it was reached. */
  lemma {:induction false} LayoutScopes(enableLabelScope: bool, st0: Layout, insts: seq<Instruction>)
    ensures var l := LayoutAll(enableLabelScope, st0, insts);
      |l.insts| == |st0.insts| + |insts| &&
      forall i :: 0 <= i < |insts| ==> l.insts[|st0.insts| + i] == insts[i].SetScope(ScopeAt(enableLabelScope, st0.scope, insts, i))
  {
    if insts != [] {
      var n := |insts| - 1;
      var prev := LayoutAll(enableLabelScope, st0, insts[..n]);
      var l := LayoutAll(enableLabelScope, st0, insts);
      assert l == LayoutStep(enableLabelScope, prev, insts[n]);
      LayoutScopes(enableLabelScope, st0, insts[..n]);
      LayoutCounters(enableLabelScope, st0, insts[..n]);
      LayoutStepShape(enableLabelScope, prev, insts[n]);
      assert l.insts == prev.insts + [insts[n].SetScope(prev.scope)];
      assert insts[..n][..n] == insts[..n];
      forall i | 0 <= i < |insts|
        ensures l.insts[|st0.insts| + i] == insts[i].SetScope(ScopeAt(enableLabelScope, st0.scope, insts, i))
      {
        if i < n {
          assert insts[..n][..i] == insts[..i];
          assert ScopeAt(enableLabelScope, st0.scope, insts[..n], i) == ScopeAt(enableLabelScope, st0.scope, insts, i);
          assert l.insts[|st0.insts| + i] == prev.insts[|st0.insts| + i];
        } else {
          assert l.insts[|st0.insts| + i] == insts[n].SetScope(prev.scope);
          assert prev.scope == ScopeAt(enableLabelScope, st0.scope, insts, n);
        }
      }
    }
  }

  /** One record of the label loop. */
  lemma LayoutStepShape(enableLabelScope: bool, st: Layout, inst: Instruction)
    ensures var l := LayoutStep(enableLabelScope, st, inst);
      l.insts == st.insts + [inst.SetScope(st.scope)] &&
      l.scope == st.scope + (if enableLabelScope && inst.name == "END" then 1 else 0) &&
      l.byteOffset == st.byteOffset + Len(inst) &&
      st.problems <= l.problems
  {
    RegisterDuplicate(st, inst.SetScope(st.scope));
  }

  // ---------------------------------------------------------------------
  // Phase 3: label registration

  /**
   * A label already known under its bare name (a bind source or a bare
   * key) is reported as a duplicate, with code 1 and the record's line,
   * and nothing is registered; otherwise no problem is added.
   */
  lemma RegisterDuplicate(st: Layout, x: Instruction)
    ensures var r := Register(st, x);
      r.insts == st.insts && r.scope == st.scope && r.byteOffset == st.byteOffset &&
      if HasLabel(x) && (x.labelName.value in st.binds || x.labelName.value in st.entries) then
        r.entries == st.entries && r.binds == st.binds && |r.problems| == |st.problems| + 1 &&
        r.problems[..|st.problems|] == st.problems &&
        r.problems[|st.problems|].Diag? && r.problems[|st.problems|].diagnostic.code == DuplicateLabel.code &&
        r.problems[|st.problems|].diagnostic.line == LineOf(x)
      else r.problems == st.problems
  {
  }

  /** An ordinary label is registered in its scope at the current word: `get` in that scope finds it, no other entry changes. */
  lemma RegisterOrdinary(st: Layout, x: Instruction)
    requires HasLabel(x) && x.name != "START"
    requires x.labelName.value !in st.binds && x.labelName.value !in st.entries
    ensures var r := Register(st, x);
      var key := BlockedName(x.labelName.value, x.Scope());
      r.binds == st.binds && r.problems == st.problems &&
      Lookup(r.entries, r.binds, x.labelName.value, Some(x.Scope())) == Some(st.byteOffset / 2) &&
      forall k :: k != key ==> (k in r.entries <==> k in st.entries) && (k in r.entries ==> r.entries[k] == st.entries[k])
  {
    AddScopedThenGet(st.entries, st.binds, x.labelName.value, st.byteOffset / 2, x.Scope());
  }

  /**
   * A START without an operand is registered under its bare name at the
   * current word, so `get` finds it with no scope and, through the
   * fallback to the bare key, in any scope that has no entry of its own.
   */
  lemma RegisterStartBare(st: Layout, x: Instruction, block: int)
    requires HasLabel(x) && x.name == "START" && x.address.None?
    requires x.labelName.value !in st.binds && x.labelName.value !in st.entries
    requires BlockedName(x.labelName.value, block) !in st.entries
    ensures var r := Register(st, x);
      r.binds == st.binds && r.problems == st.problems &&
      r.entries == st.entries[x.labelName.value := st.byteOffset / 2] &&
      Lookup(r.entries, r.binds, x.labelName.value, None) == Some(st.byteOffset / 2) &&
      Lookup(r.entries, r.binds, x.labelName.value, Some(block)) == Some(st.byteOffset / 2)
  {
    var lbl := x.labelName.value;
    assert |BlockedName(lbl, block)| > |lbl|;
  }

  /**
   * A START with an operand gets no address of its own: it is bound to the
   * operand in its scope, so `get` of the label answers with the operand's
   * entry in that scope, falling back to a bare entry of the label itself.
   */
  lemma RegisterStartBind(st: Layout, x: Instruction, entries: map<string, int>, block: Option<int>)
    requires HasLabel(x) && x.name == "START" && x.address.Some?
    requires x.labelName.value !in st.binds && x.labelName.value !in st.entries
    ensures var r := Register(st, x);
      var target := BlockedName(OperandText(x.address.value), x.Scope());
      var lbl := x.labelName.value;
      r.entries == st.entries && r.problems == st.problems && lbl in r.binds &&
      Lookup(entries, r.binds, lbl, block) ==
        (if target in entries then Some(entries[target]) else if lbl in entries then Some(entries[lbl]) else None)
  {
  }

  /**
   * `has` sees bare names only, so a second ordinary label of the same
   * name in the same scope is not reported: it silently takes over the
   * scoped entry.
   */
  lemma DuplicateInScopeUndetected(st: Layout, x: Instruction, y: Instruction)
    requires HasLabel(x) && x.name != "START" && y.name != "START"
    requires y.labelName == x.labelName && y.Scope() == x.Scope()
    requires x.labelName.value !in st.binds && x.labelName.value !in st.entries
    ensures var r := Register(Register(st, x), y);
      r.problems == st.problems &&
      r.entries[BlockedName(x.labelName.value, x.Scope())] == st.byteOffset / 2
  {
    var lbl := x.labelName.value;
    assert |BlockedName(lbl, x.Scope())| > |lbl|;
  }

  /**
   * Over the whole label loop: an ordinary label that is not a duplicate
   * when reached is registered in the scope in force at the word address
   * (sum of the byte lengths of the records before it) / 2.
   */
  lemma OrdinaryLabelAddress(enableLabelScope: bool, st0: Layout, insts: seq<Instruction>, i: nat)
    requires i < |insts| && st0.scope >= 1
    requires HasLabel(insts[i]) && insts[i].name != "START"
    requires var st := LayoutAll(enableLabelScope, st0, insts[..i]);
      insts[i].labelName.value !in st.binds && insts[i].labelName.value !in st.entries
    ensures var l := LayoutAll(enableLabelScope, st0, insts[..i + 1]);
      var s := ScopeAt(enableLabelScope, st0.scope, insts, i);
      Lookup(l.entries, l.binds, insts[i].labelName.value, Some(s)) == Some((st0.byteOffset + TotalLength(insts[..i])) / 2)
  {
    var st := LayoutAll(enableLabelScope, st0, insts[..i]);
    LayoutCounters(enableLabelScope, st0, insts[..i]);
    assert insts[..i + 1][..i] == insts[..i];
    var l := LayoutAll(enableLabelScope, st0, insts[..i + 1]);
    var x := insts[i].SetScope(st.scope);
    assert x.Scope() == st.scope;
    assert insts[..i][..i] == insts[..i];
    assert st.scope == ScopeAt(enableLabelScope, st0.scope, insts, i);
    assert st.byteOffset == st0.byteOffset + TotalLength(insts[..i]);
    RegisterOrdinary(st, x);
    var r := Register(st, x);
    assert Lookup(r.entries, r.binds, insts[i].labelName.value, Some(st.scope)) == Some(st.byteOffset / 2);
    LayoutStepMaps(enableLabelScope, st, insts[i]);
    assert l == LayoutStep(enableLabelScope, st, insts[i]);
    assert l.entries == r.entries && l.binds == r.binds;
  }

  /** The maps after one record of the label loop are those of registering it. */
  lemma LayoutStepMaps(enableLabelScope: bool, st: Layout, inst: Instruction)
    ensures var l := LayoutStep(enableLabelScope, st, inst);
      l.entries == Register(st, inst.SetScope(st.scope)).entries && l.binds == Register(st, inst.SetScope(st.scope)).binds
  {
  }

  /**
   * With the byte-length table as written, an RPUSH or RPOP record makes
   * the running byte total NaN from that record on, so every later label
   * address and every generated literal address is NaN.
   */
  lemma UnsizedPoisonsTotal(xs: seq<Instruction>, k: nat)
    requires k < |xs| && Unsized(xs[k])
    ensures forall j | k < j <= |xs| :: AsWrittenTotal(xs[..j]).None?
  {
    forall j | k < j <= |xs|
      ensures AsWrittenTotal(xs[..j]).None?
    {
      assert xs[..j][k] == xs[k];
      UnsizedTotalNaN(xs[..j], k);
    }
  }

  lemma {:induction false} UnsizedTotalNaN(xs: seq<Instruction>, k: nat)
    requires k < |xs| && Unsized(xs[k])
    ensures AsWrittenTotal(xs).None?
    decreases |xs|
  {
    var n := |xs| - 1;
    if k < n {
      assert xs[..n][k] == xs[k];
      UnsizedTotalNaN(xs[..n], k);
    }
  }

  /**
   * For well-formed records without RPUSH or RPOP the running total with
   * the table as written is the total this model computes, so the offsets
   * and addresses above are the source's.
   */
  lemma {:induction false} AsWrittenTotalAgrees(xs: seq<Instruction>)
    requires AllSound(xs)
    requires forall i :: 0 <= i < |xs| ==> !Unsized(xs[i])
    ensures AsWrittenTotal(xs) == Some(TotalLength(xs))
    decreases |xs|
  {
    if xs != [] {
      var n := |xs| - 1;
      assert forall i :: 0 <= i < n ==> xs[..n][i] == xs[i];
      AsWrittenTotalAgrees(xs[..n]);
      assert Sound(xs[n]) && !Unsized(xs[n]);
    }
  }

  // ---------------------------------------------------------------------
  // Phase 3: resolution

  /** A resolved record is confirmed exactly when no error was returned for it; with an error it is left as it was. */
  lemma ResolveOne(x: Instruction, entries: map<string, int>, binds: map<string, string>)
    requires x.Valid()
    ensures var res := x.ResolveAddress(entries, binds);
      res.Ok? ==>
        (res.value.inst.Confirmed() <==> res.value.error.None?) &&
        (res.value.error.Some? ==> res.value.inst == x) &&
        res.value.inst.name == x.name && res.value.inst.labelName == x.labelName &&
        res.value.inst.scopeValue == x.scopeValue && res.value.inst.ByteLength() == x.ByteLength()
  {
    if x.kind.InOut? {
      if x.address.Some? {
        ResolveInOut(x, entries, binds);
      }
    } else {
      ResolveBase(x, entries, binds);
    }
  }

  /** Resolution keeps one record per record and appends at most one problem for each. */
  lemma {:induction false} ResolveCounts(entries: map<string, int>, binds: map<string, string>, insts: seq<Instruction>, problems: seq<Problem>)
    requires AllValid(insts)
    ensures var r := ResolveAll(entries, binds, insts, problems);
      r.Ok? ==> |r.value.0| == |insts| && problems <= r.value.1 && |r.value.1| <= |problems| + |insts|
  {
    if insts != [] {
      var n := |insts| - 1;
      assert AllValid(insts[..n]);
      ResolveCounts(entries, binds, insts[..n], problems);
    }
  }

  /** One record of the resolution fold. */
  lemma ResolveLast(entries: map<string, int>, binds: map<string, string>, insts: seq<Instruction>, problems: seq<Problem>)
    requires AllValid(insts) && insts != []
    requires ResolveAll(entries, binds, insts, problems).Ok?
    ensures var n := |insts| - 1;
      var prev := ResolveAll(entries, binds, insts[..n], problems);
      var res := insts[n].ResolveAddress(entries, binds);
      var out := ResolveAll(entries, binds, insts, problems).value;
      prev.Ok? && res.Ok? && out.0 == prev.value.0 + [res.value.inst] &&
      out.1 == if res.value.error.Some? then prev.value.1 + [Undeclared(res.value.error.value)] else prev.value.1
  {
  }

  /** A resolved record keeps the name, label, scope and byte length of the record it came from. */
  predicate KeepsPlace(y: Instruction, x: Instruction)
  {
    y.name == x.name && y.labelName == x.labelName && y.scopeValue == x.scopeValue && y.ByteLength() == x.ByteLength()
  }

  /** Resolution keeps every record in its place: same name, label, scope and byte length. */
  lemma {:induction false} ResolveKeeps(entries: map<string, int>, binds: map<string, string>, insts: seq<Instruction>, problems: seq<Problem>)
    requires AllValid(insts)
    requires ResolveAll(entries, binds, insts, problems).Ok?
    ensures var out := ResolveAll(entries, binds, insts, problems).value;
      |out.0| == |insts| && forall i :: 0 <= i < |insts| ==> KeepsPlace(out.0[i], insts[i])
  {
    if insts != [] {
      var n := |insts| - 1;
      assert AllValid(insts[..n]);
      ResolveLast(entries, binds, insts, problems);
      ResolveKeeps(entries, binds, insts[..n], problems);
      ResolveOne(insts[n], entries, binds);
      var prev := ResolveAll(entries, binds, insts[..n], problems).value;
      var out := ResolveAll(entries, binds, insts, problems).value;
      var y := insts[n].ResolveAddress(entries, binds).value.inst;
      assert out.0 == prev.0 + [y];
      forall i | 0 <= i < |insts|
        ensures KeepsPlace(out.0[i], insts[i])
      {
        if i < n {
          assert out.0[i] == prev.0[i] && insts[..n][i] == insts[i];
          assert KeepsPlace(prev.0[i], insts[..n][i]);
        } else {
          assert out.0[i] == y;
        }
      }
    }
  }

  /** When resolution appends no problem, every record comes out confirmed. */
  lemma {:induction false} ResolveConfirms(entries: map<string, int>, binds: map<string, string>, insts: seq<Instruction>, problems: seq<Problem>)
    requires AllValid(insts)
    requires ResolveAll(entries, binds, insts, problems).Ok?
    requires |ResolveAll(entries, binds, insts, problems).value.1| == |problems|
    ensures var out := ResolveAll(entries, binds, insts, problems).value;
      forall i :: 0 <= i < |out.0| ==> out.0[i].Confirmed()
  {
    if insts != [] {
      var n := |insts| - 1;
      assert AllValid(insts[..n]);
      ResolveLast(entries, binds, insts, problems);
      ResolveCounts(entries, binds, insts[..n], problems);
      var prev := ResolveAll(entries, binds, insts[..n], problems).value;
      var res := insts[n].ResolveAddress(entries, binds).value;
      assert res.error.None? && |prev.1| == |problems|;
      ResolveConfirms(entries, binds, insts[..n], problems);
      ResolveOne(insts[n], entries, binds);
    }
  }

  // ---------------------------------------------------------------------
  // compile

  /** The words of a concatenation are the words of each part, in order; a throw in either part is a throw. */
  lemma {:induction false} HexOfAppend(xs: seq<Instruction>, ys: seq<Instruction>)
    requires AllValid(xs) && AllValid(ys)
    ensures AllValid(xs + ys)
    ensures HexOf(xs + ys) == if HexOf(xs).Ok? && HexOf(ys).Ok? then Ok(HexOf(xs).value + HexOf(ys).value) else Crash
  {
    if ys == [] {
      assert xs + ys == xs;
      if HexOf(xs).Ok? {
        assert HexOf(xs).value + [] == HexOf(xs).value;
      }
    } else {
      var n := |ys| - 1;
      assert (xs + ys)[..|xs + ys| - 1] == xs + ys[..n];
      assert AllValid(ys[..n]);
      HexOfAppend(xs, ys[..n]);
      var last := ys[n].ToHex();
      if HexOf(xs).Ok? && HexOf(ys[..n]).Ok? && last.Ok? {
        assert HexOf(xs).value + HexOf(ys[..n]).value + last.value == HexOf(xs).value + (HexOf(ys[..n]).value + last.value);
      }
    }
  }

  /** Dropping the `-1` words splits over a concatenation. */
  lemma {:induction false} DropMinusOneAppend(a: seq<int>, b: seq<int>)
    ensures DropMinusOne(a + b) == DropMinusOne(a) + DropMinusOne(b)
  {
    if b == [] {
      assert a + b == a;
    } else {
      var n := |b| - 1;
      assert (a + b)[..|a + b| - 1] == a + b[..n];
      DropMinusOneAppend(a, b[..n]);
    }
  }

  /** No `-1` is left, and every other value keeps its number of occurrences. */
  lemma {:induction false} DropMinusOneCounts(ws: seq<int>)
    ensures -1 !in DropMinusOne(ws)
    ensures forall v :: v != -1 ==> multiset(DropMinusOne(ws))[v] == multiset(ws)[v]
  {
    if ws != [] {
      var n := |ws| - 1;
      DropMinusOneCounts(ws[..n]);
      assert ws == ws[..n] + [ws[n]];
    }
  }

  /** Words are emitted exactly when `analyze` reported no problem (and there is a record and every `toHex` succeeded). */
  lemma CompileEmits(a: Analysis)
    requires AllValid(a.insts) && AllValid(a.generated)
    ensures a.problems != [] ==> CompileSpec(a) == Ok(CompileOutput(a.problems, a.insts, None))
    ensures (CompileSpec(a).Ok? && CompileSpec(a).value.hexes.Some?) <==>
      (a.problems == [] && a.insts + a.generated != [] && HexOf(a.insts + a.generated).Ok?)
  {
  }

  /**
   * The emitted program: the entry point (the first record's label looked
   * up in scope 1), seven zeros, then the words of the ordinary records
   * and of the generated ones, with the `-1` words dropped.
   */
  lemma CompileOutputShape(a: Analysis)
    requires AllValid(a.insts) && AllValid(a.generated)
    requires CompileSpec(a).Ok? && CompileSpec(a).value.hexes.Some?
    ensures HexOf(a.insts).Ok? && HexOf(a.generated).Ok?
    ensures var all := a.insts + a.generated;
      var h := CompileSpec(a).value.hexes.value;
      var words := HexOf(a.insts).value + HexOf(a.generated).value;
      CompileSpec(a).value.insts == all &&
      |h| == 8 + |DropMinusOne(words)| &&
      h[0] == (if all[0].labelName.Some? then Lookup(a.entries, a.binds, all[0].labelName.value, Some(1)) else None) &&
      (forall k :: 1 <= k < 8 ==> h[k] == Some(0)) &&
      (forall k :: 0 <= k < |DropMinusOne(words)| ==> h[8 + k] == Some(DropMinusOne(words)[k]))
  {
    HexOfAppend(a.insts, a.generated);
    var h := CompileSpec(a).value.hexes.value;
    var entry := h[0];
    assert h[..8] == Header(entry);
  }
}
