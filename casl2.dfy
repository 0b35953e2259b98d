/**
 * The compile driver `Casl2` as it runs: every phase of `analyze` is a loop
 * over the records (kept in a local sequence whose slots are replaced as
 * the source mutates its record objects), the symbol table is a `LabelMap`
 * object that the label loops update, and each loop is proved equal to the
 * fold of the same name in `Compilation`.
 */
module Casl2Driver {
  import opened Common
  import opened JsText
  import opened Diagnostics
  import opened Token
  import opened Lexer
  import opened LabelMaps
  import opened Records
  import opened Parsing
  import Parser
  import opened ParserProperties
  import opened Compilation

  /** The sum of the byte lengths of the ordinary records. */
  method SumByteLength(insts: seq<Instruction>) returns (total: nat)
    ensures total == TotalLength(insts)
  {
    total := 0;
    for i := 0 to |insts|
      invariant total == TotalLength(insts[..i])
    {
      assert insts[..i + 1][..i] == insts[..i];
      total := total + Len(insts[i]);
    }
    assert insts[..|insts|] == insts;
  }

  /** The addresses of the generated labels, after the ordinary records. */
  method PlaceGenerated(labelMap: LabelMap, total: nat, generated: seq<Instruction>)
    modifies labelMap
    ensures labelMap.entries == GeneratedEntries(old(labelMap.entries), total, generated)
    ensures labelMap.binds == old(labelMap.binds)
  {
    var globalByteOffset: nat := 0;
    for i := 0 to |generated|
      invariant globalByteOffset == TotalLength(generated[..i])
      invariant labelMap.entries == GeneratedEntries(old(labelMap.entries), total, generated[..i])
      invariant labelMap.binds == old(labelMap.binds)
    {
      assert generated[..i + 1][..i] == generated[..i];
      var inst := generated[i];
      if HasLabel(inst) {
        labelMap.Add(inst.labelName.value, (total + globalByteOffset) / 2, None);
      }
      globalByteOffset := globalByteOffset + Len(inst);
    }
    assert generated[..|generated|] == generated;
  }

  /**
   * The label of one record of the label loop: a START with an operand
   * binds the label, any other label is added at the current word
   * (unscoped for START); a label already there is reported instead.
   */
  method RegisterLabel(labelMap: LabelMap, inst: Instruction, byteOffset: nat, problems: seq<Problem>, ghost st: Layout)
    returns (diagnostics: seq<Problem>)
    requires st.entries == labelMap.entries && st.binds == labelMap.binds && st.problems == problems && st.byteOffset == byteOffset
    modifies labelMap
    ensures var r := Register(st, inst);
      diagnostics == r.problems && labelMap.entries == r.entries && labelMap.binds == r.binds
  {
    diagnostics := problems;
    if HasLabel(inst) {
      var lbl := inst.labelName.value;
      if inst.name == "START" && inst.address.Some? {
        if labelMap.Has(lbl) {
          diagnostics := diagnostics + [Diag(DuplicateDiagnostic(inst, lbl))];
        } else {
          labelMap.BindAdd(lbl, OperandText(inst.address.value), Some(inst.Scope()));
        }
      } else {
        var address := byteOffset / 2;
        if inst.name == "START" {
          if labelMap.Has(lbl) {
            diagnostics := diagnostics + [Diag(DuplicateDiagnostic(inst, lbl))];
          } else {
            labelMap.Add(lbl, address, None);
          }
        } else {
          if labelMap.Has(lbl) {
            diagnostics := diagnostics + [Diag(DuplicateDiagnostic(inst, lbl))];
          } else {
            labelMap.Add(lbl, address, Some(inst.Scope()));
          }
        }
      }
    }
  }

  /**
   * The label loop: each record gets the current scope, its label is
   * registered (or reported as a duplicate), the byte offset advances, and
   * with label scopes enabled every END opens the next scope.
   */
  method AssignLabels(enableLabelScope: bool, insts: seq<Instruction>, labelMap: LabelMap, problems: seq<Problem>)
    returns (records: seq<Instruction>, diagnostics: seq<Problem>)
    modifies labelMap
    ensures var l := LayoutAll(enableLabelScope, Layout([], old(labelMap.entries), old(labelMap.binds), problems, 1, 0), insts);
      records == l.insts && diagnostics == l.problems && labelMap.entries == l.entries && labelMap.binds == l.binds
  {
    records := insts;
    diagnostics := problems;
    var scope := 1;
    var byteOffset: nat := 0;
    ghost var st0 := Layout([], labelMap.entries, labelMap.binds, problems, 1, 0);
    for i := 0 to |insts|
      invariant |records| == |insts| && records[i..] == insts[i..]
      invariant LayoutAll(enableLabelScope, st0, insts[..i]) == Layout(records[..i], labelMap.entries, labelMap.binds, diagnostics, scope, byteOffset)
    {
      assert insts[..i + 1][..i] == insts[..i];
      assert records[i] == insts[i];
      ghost var st := Layout(records[..i], labelMap.entries, labelMap.binds, diagnostics, scope, byteOffset);
      var inst := records[i].SetScope(scope);
      records := records[i := inst];
      diagnostics := RegisterLabel(labelMap, inst, byteOffset, diagnostics, st);
      byteOffset := byteOffset + Len(inst);
      if enableLabelScope && inst.name == "END" {
        scope := scope + 1;
      }
      assert records[..i + 1] == records[..i] + [inst];
      assert LayoutStep(enableLabelScope, st, insts[i]) == Layout(records[..i + 1], labelMap.entries, labelMap.binds, diagnostics, scope, byteOffset);
    }
    assert insts[..|insts|] == insts;
    assert records[..|records|] == records;
  }

  /** Resolution of every record against the finished label map; a returned error is pushed, a throw ends the run. */
  method ResolveRecords(labelMap: LabelMap, insts: seq<Instruction>, problems: seq<Problem>)
    returns (r: Outcome<(seq<Instruction>, seq<Problem>)>)
    requires AllValid(insts)
    ensures r == ResolveAll(labelMap.entries, labelMap.binds, insts, problems)
  {
    var records := insts;
    var diagnostics := problems;
    for i := 0 to |insts|
      invariant |records| == |insts| && records[i..] == insts[i..]
      invariant ResolveAll(labelMap.entries, labelMap.binds, insts[..i], problems) == Ok((records[..i], diagnostics))
    {
      assert insts[..i + 1][..i] == insts[..i];
      assert records[i] == insts[i];
      var res := records[i].ResolveAddress(labelMap.entries, labelMap.binds);
      if res.Crash? {
        ResolveThrowIsFinal(labelMap.entries, labelMap.binds, insts, problems, i + 1);
        return Crash;
      }
      records := records[i := res.value.inst];
      if res.value.error.Some? {
        diagnostics := diagnostics + [Undeclared(res.value.error.value)];
      }
      assert records[..i + 1] == records[..i] + [res.value.inst];
    }
    assert insts[..|insts|] == insts;
    assert records[..|records|] == records;
    return Ok((records, diagnostics));
  }

  /** Every record's `check()` diagnostics, pushed in order. */
  method RunChecks(check: Instruction -> seq<Diagnostic>, insts: seq<Instruction>, problems: seq<Problem>) returns (diagnostics: seq<Problem>)
    ensures diagnostics == problems + Diags(Checks(check, insts))
  {
    diagnostics := problems;
    for i := 0 to |insts|
      invariant diagnostics == problems + Diags(Checks(check, insts[..i]))
    {
      assert insts[..i + 1][..i] == insts[..i];
      DiagsAppend(Checks(check, insts[..i]), check(insts[i]));
      diagnostics := diagnostics + Diags(check(insts[i]));
    }
    assert insts[..|insts|] == insts;
  }

  /** `instructions.map(x => x.toHex())` flattened: every record's words in order. */
  method HexWords(insts: seq<Instruction>) returns (r: Outcome<seq<int>>)
    requires AllValid(insts)
    ensures r == HexOf(insts)
  {
    var words: seq<int> := [];
    for i := 0 to |insts|
      invariant HexOf(insts[..i]) == Ok(words)
    {
      assert insts[..i + 1][..i] == insts[..i];
      var hex := insts[i].ToHex();
      if hex.Crash? {
        HexThrowIsFinal(insts, i + 1);
        return Crash;
      }
      words := words + hex.value;
    }
    assert insts[..|insts|] == insts;
    return Ok(words);
  }

  /** `filter(x => x != -1)` */
  method DropUndefinedWords(words: seq<int>) returns (hexes: seq<int>)
    ensures hexes == DropMinusOne(words)
  {
    hexes := [];
    for i := 0 to |words|
      invariant hexes == DropMinusOne(words[..i])
    {
      assert words[..i + 1][..i] == words[..i];
      if words[i] != -1 {
        hexes := hexes + [words[i]];
      }
    }
    assert words[..|words|] == words;
  }

  /**
   * `Casl2`: the compile option and, as fields, what the driver takes from
   * outside the shown code: the tokenizer's definitions, the JIS X 0201
   * range check, the label generator (`labels(k)` is the k-th label it
   * hands out) and the per-record check.
   */
  class Casl2 {
    const option: CompileOption
    const defs: seq<TokenDefinition>
    const inRange: string -> bool
    const labels: nat -> string
    const check: Instruction -> seq<Diagnostic>

    constructor(option: CompileOption, defs: seq<TokenDefinition>, inRange: string -> bool,
                labels: nat -> string, check: Instruction -> seq<Diagnostic>)
      ensures this.option == option && this.defs == defs && this.inRange == inRange
      ensures this.labels == labels && this.check == check
    {
      this.option := option;
      this.defs := defs;
      this.inRange := inRange;
      this.labels := labels;
      this.check := check;
    }

    /** Phase 1, first half: blank lines are skipped, a line that does not tokenize gives its diagnostics. */
    method Tokenize(lines: seq<string>) returns (tokensList: seq<seq<TokenInfo>>, diagnostics: seq<Diagnostic>)
      ensures (tokensList, diagnostics) == TokenizeLines(defs, lines)
    {
      tokensList, diagnostics := [], [];
      for i := 0 to |lines|
        invariant (tokensList, diagnostics) == TokenizeLines(defs, lines[..i])
      {
        assert lines[..i + 1][..i] == lines[..i];
        if Trim(lines[i]) == [] {
          continue;
        }
        var tokens := SplitToTokens(defs, lines[i], i);
        if tokens.success {
          tokensList := tokensList + [tokens.value];
        } else {
          diagnostics := diagnostics + tokens.errors;
        }
      }
      assert lines[..|lines|] == lines;
    }

    /** Phase 1: the parsed records when every line parsed, the diagnostics otherwise. */
    method PhaseOne(lines: seq<string>) returns (r: Outcome<(seq<Instruction>, seq<Problem>)>)
      ensures r == Phase1(defs, inRange, lines)
    {
      var tokensList, diagnostics := Tokenize(lines);
      var result := Parser.ParseAll(tokensList, inRange);
      if result.Crash? {
        return Crash;
      }
      if result.value.success {
        r := Ok((result.value.value, Diags(diagnostics)));
      } else {
        r := Ok(([], Diags(diagnostics + result.value.errors)));
      }
    }

    /** The DC group of one literal, its first record relabelled. */
    method LiteralRecords(lit: Literal, lbl: string) returns (r: Outcome<(seq<Instruction>, seq<Diagnostic>)>)
      ensures r == LiteralGroup(defs, inRange, lit, lbl)
    {
      var tokens := SplitToTokens(defs, DcLine(lit), 1);
      var mdcs := Parser.ParseAll([tokens.value], inRange);
      if mdcs.Crash? || mdcs.value.value == [] {
        return Crash;
      }
      var first := mdcs.value.value[0].SetLabel(lbl);
      if mdcs.value.success {
        r := Ok(([first] + mdcs.value.value[1..], []));
      } else {
        r := Ok(([], mdcs.value.errors));
      }
    }

    /**
     * One record of phase 2: a record with a literal gets the next label in
     * place of it and the literal's group is generated; any other record is
     * kept as it is.
     */
    method PoolRecord(inst: Instruction, generated: seq<Instruction>, diagnostics: seq<Problem>, count: nat, ghost done: seq<Instruction>)
      returns (r: Outcome<(Instruction, seq<Instruction>, seq<Problem>, nat)>)
      ensures r.Crash? ==> PoolStep(DriverGroups(defs, inRange), labels, Pool(done, generated, diagnostics, count), inst).Crash?
      ensures r.Ok? ==> (PoolStep(DriverGroups(defs, inRange), labels, Pool(done, generated, diagnostics, count), inst) ==
        Ok(Pool(done + [r.value.0], r.value.1, r.value.2, r.value.3)))
    {
      ghost var p := Pool(done, generated, diagnostics, count);
      ghost var group := DriverGroups(defs, inRange);
      var literal := inst.GetLiteral();
      assert PoolStep(group, labels, p, inst) == PoolStepWith(group, labels, p, inst, literal);
      if literal.Crash? {
        return Crash;
      }
      if literal.value.None? {
        assert p.(insts := p.insts + [inst]) == Pool(done + [inst], generated, diagnostics, count);
        return Ok((inst, generated, diagnostics, count));
      }
      var lbl := labels(count);
      var g := LiteralRecords(literal.value.value, lbl);
      assert g == group(literal.value.value, lbl);
      if g.Crash? {
        return Crash;
      }
      r := Ok((inst.ReplaceLiteralWithLabel(lbl), generated + g.value.0, diagnostics + Diags(g.value.1), count + 1));
      PoolStepLiteral(group, labels, p, inst, literal.value.value, g.value);
      assert literal == Ok(Some(literal.value.value));
      assert p.insts + [inst.ReplaceLiteralWithLabel(labels(p.count))] == done + [r.value.0];
      assert r.value.1 == generated + g.value.0 && r.value.2 == diagnostics + Diags(g.value.1) && r.value.3 == count + 1;
      assert Pool(p.insts + [inst.ReplaceLiteralWithLabel(labels(p.count))], p.generated + g.value.0, p.problems + Diags(g.value.1), p.count + 1)
        == Pool(done + [r.value.0], r.value.1, r.value.2, r.value.3);
    }

    /** Phase 2: every `=`-literal operand is replaced by a fresh label whose DC group is generated. */
    method PoolLiterals(insts: seq<Instruction>, problems: seq<Problem>) returns (r: Outcome<Pool>)
      ensures r == PoolAll(DriverGroups(defs, inRange), labels, Pool([], [], problems, 0), insts)
    {
      var instructions := insts;
      var generated: seq<Instruction> := [];
      var diagnostics := problems;
      var count: nat := 0;
      ghost var group := DriverGroups(defs, inRange);
      ghost var p0 := Pool([], [], problems, 0);
      for i := 0 to |insts|
        invariant |instructions| == |insts| && instructions[i..] == insts[i..]
        invariant PoolAll(group, labels, p0, insts[..i]) == Ok(Pool(instructions[..i], generated, diagnostics, count))
      {
        assert instructions[i] == insts[i];
        ghost var done := instructions[..i];
        PoolAllSnoc(group, labels, p0, insts, i, Pool(done, generated, diagnostics, count));
        var step := PoolRecord(instructions[i], generated, diagnostics, count, done);
        if step.Crash? {
          PoolThrowIsFinal(group, labels, p0, insts, i + 1);
          return Crash;
        }
        instructions := instructions[i := step.value.0];
        generated, diagnostics, count := step.value.1, step.value.2, step.value.3;
        assert instructions[..i + 1] == done + [step.value.0];
      }
      assert insts[..|insts|] == insts;
      assert instructions[..|instructions|] == instructions;
      return Ok(Pool(instructions, generated, diagnostics, count));
    }

    /** `analyze(lines)`: the three phases, then the checks; the label map is returned as the object built. */
    method Analyze(lines: seq<string>) returns (r: Outcome<Analysis>, labelMap: LabelMap)
      ensures r == AnalyzeSpec(defs, inRange, labels, check, option, lines)
      ensures fresh(labelMap)
      ensures r.Ok? ==> labelMap.entries == r.value.entries && labelMap.binds == r.value.binds
    {
      labelMap := new LabelMap();
      var p1 := PhaseOne(lines);
      if p1.Crash? {
        return Crash, labelMap;
      }
      var (insts1, problems1) := p1.value;
      Phase1Sound(defs, inRange, lines);
      DriverGroupsSound(defs, inRange);
      PoolSound(DriverGroups(defs, inRange), labels, Pool([], [], problems1, 0), insts1);
      var pool := PoolLiterals(insts1, problems1);
      if pool.Crash? {
        return Crash, labelMap;
      }
      var total := SumByteLength(pool.value.insts);
      PlaceGenerated(labelMap, total, pool.value.generated);
      ghost var st0 := Layout([], labelMap.entries, labelMap.binds, pool.value.problems, 1, 0);
      var records, diagnostics := AssignLabels(option.enableLabelScope, pool.value.insts, labelMap, pool.value.problems);
      LayoutSound(option.enableLabelScope, st0, pool.value.insts);
      var resolved := ResolveRecords(labelMap, records, diagnostics);
      if resolved.Crash? {
        return Crash, labelMap;
      }
      var (insts3, problems3) := resolved.value;
      var allProblems := RunChecks(check, insts3, problems3);
      r := Ok(Analysis(allProblems, insts3, pool.value.generated, labelMap.entries, labelMap.binds));
    }

    /** `compile(lines)`: `analyze`, then emission. */
    method Compile(lines: seq<string>) returns (r: Outcome<CompileOutput>)
      ensures r == CompileAll(defs, inRange, labels, check, option, lines)
    {
      var a, labelMap := Analyze(lines);
      if a.Crash? {
        return Crash;
      }
      AnalyzeSound(defs, inRange, labels, check, option, lines);
      r := EmitWords(a.value, labelMap);
    }
  }

  /** The second half of `compile`: with no problem, the header and the words of the ordinary then the generated records. */
  method EmitWords(a: Analysis, labelMap: LabelMap) returns (r: Outcome<CompileOutput>)
    requires AllValid(a.insts) && AllValid(a.generated)
    requires labelMap.entries == a.entries && labelMap.binds == a.binds
    ensures r == CompileSpec(a)
  {
    if |a.problems| != 0 {
      return Ok(CompileOutput(a.problems, a.insts, None));
    }
    var instructions := a.insts;
    var generated := a.generated;
    for i := 0 to |generated|
      invariant instructions == a.insts + generated[..i]
    {
      assert generated[..i + 1] == generated[..i] + [generated[i]];
      instructions := instructions + [generated[i]];
    }
    assert generated[..|generated|] == generated;
    assert AllValid(instructions);
    var words := HexWords(instructions);
    if words.Crash? {
      return Crash;
    }
    var hexes := DropUndefinedWords(words.value);
    if |instructions| == 0 {
      return Crash;
    }
    var entry := if instructions[0].labelName.Some? then labelMap.Get(instructions[0].labelName.value, Some(1)) else None;
    r := Ok(CompileOutput(a.problems, instructions, Some(Header(entry) + Somes(hexes))));
  }
}
