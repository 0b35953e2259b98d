/**
 * The compile driver `Casl2.analyze` / `Casl2.compile`, written as
 * functions: one per phase, each a left fold over the records or lines it
 * walks, so that the imperative driver in `Casl2` can be proved equal to
 * them loop by loop.
 *
 * Three things the driver calls are parameters here: the token definition
 * list of the tokenizer (`defs`), the JIS X 0201 range check of string
 * constants (`inRange`) and the label generator (`labels(k)` is the k-th
 * label it hands out). The per-record `check()` is the parameter `check`.
 */
module Compilation {
  import opened Common
  import opened JsText
  import opened Diagnostics
  import opened Token
  import opened Lexer
  import opened LabelMaps
  import opened Records
  import opened Parsing
  import opened ParserProperties

  /** `Casl2CompileOption`. `useGR8` is passed on to the lexer option only and changes nothing in `analyze`. */
  datatype CompileOption = CompileOption(useGR8: bool, enableLabelScope: bool)

  const DefaultCompileOption: CompileOption := CompileOption(false, false)

  /** An entry of the diagnostics list: `analyze` pushes both diagnostics and `CompileError` objects into it. */
  datatype Problem = Diag(diagnostic: Diagnostic) | Undeclared(error: CompileError)

  function Diags(ds: seq<Diagnostic>): (ps: seq<Problem>)
    ensures |ps| == |ds| && forall i :: 0 <= i < |ds| ==> ps[i] == Diag(ds[i])
  {
    seq(|ds|, i requires 0 <= i < |ds| => Diag(ds[i]))
  }

  lemma DiagsAppend(a: seq<Diagnostic>, b: seq<Diagnostic>)
    ensures Diags(a + b) == Diags(a) + Diags(b)
  {
  }

  /** `if (inst.label)`: a label that is present and not the empty string. */
  predicate HasLabel(x: Instruction)
  {
    x.labelName.Some? && x.labelName.value != []
  }

  /**
   * `byteLength` as a number; an undefined length counts as 0. With the
   * corrected byte-length table the parser never builds one; with the
   * table as written RPUSH and RPOP do (see `AsWrittenTotal`).
   */
  function Len(x: Instruction): nat
  {
    if x.ByteLength().Some? then x.ByteLength().value else 0
  }

  /** The sum of the byte lengths. */
  function TotalLength(xs: seq<Instruction>): nat
  {
    if xs == [] then 0 else TotalLength(xs[..|xs| - 1]) + Len(xs[|xs| - 1])
  }

  /**
   * `totalByteLength` and `byteOffset` as the source accumulates them with
   * the byte-length table as written: adding an undefined length gives NaN
   * (`None`), and NaN stays NaN.
   */
  function AsWrittenTotal(xs: seq<Instruction>): Option<nat>
  {
    if xs == [] then Some(0)
    else
      var t := AsWrittenTotal(xs[..|xs| - 1]);
      var l := xs[|xs| - 1].AsWrittenByteLength();
      if t.Some? && l.Some? then Some(t.value + l.value) else None
  }

  /** A base record with the RPUSH or RPOP opcode, which the byte-length table as written does not size. */
  predicate Unsized(x: Instruction)
  {
    x.kind.Base? && x.code.Some? && (x.code.value == 0xA0 || x.code.value == 0xA1)
  }

  predicate AllValid(xs: seq<Instruction>)
  {
    forall i :: 0 <= i < |xs| ==> xs[i].Valid()
  }

  // ---------------------------------------------------------------------
  // Phase 1: tokenize every non-blank line, then parse all token lists.

  /** The token lists of the non-blank lines that tokenize, and the diagnostics of those that do not; lines are numbered from 0. */
  function TokenizeLines(defs: seq<TokenDefinition>, lines: seq<string>): (seq<seq<TokenInfo>>, seq<Diagnostic>)
  {
    if lines == [] then ([], [])
    else
      var i := |lines| - 1;
      var (tl, ds) := TokenizeLines(defs, lines[..i]);
      if Trim(lines[i]) == [] then (tl, ds)
      else
        var t := SplitToTokensSpec(defs, lines[i], i);
        if t.success then (tl + [t.value], ds) else (tl, ds + t.errors)
  }

  /** The records of phase 1 (none unless every line parsed cleanly) and the problems so far. */
  function Phase1(defs: seq<TokenDefinition>, inRange: string -> bool, lines: seq<string>): Outcome<(seq<Instruction>, seq<Problem>)>
  {
    var (tl, ds) := TokenizeLines(defs, lines);
    var r :- ParseAllResult(tl, inRange);
    if r.success then Ok((r.value, Diags(ds))) else Ok(([], Diags(ds + r.errors)))
  }

  // ---------------------------------------------------------------------
  // Phase 2: literal pooling.

  /** `${literal}`: a number in decimal, a string literal with its quotes. */
  function LiteralText(lit: Literal): string
  {
    match lit
    case NumLiteral(v) => IntToString(v)
    case StrLiteral(t) => t
  }

  /** The DC line a literal is placed on. */
  function DcLine(lit: Literal): string
  {
    "    DC    " + LiteralText(lit)
  }

  /**
   * The records of the DC line for `lit`, the first relabelled with
   * `label`, when it parsed cleanly; otherwise no records and the
   * diagnostics. No record at all makes `value![0].setLabel` throw.
   */
  function LiteralGroup(defs: seq<TokenDefinition>, inRange: string -> bool, lit: Literal, lbl: string): Outcome<(seq<Instruction>, seq<Diagnostic>)>
  {
    var tokens := SplitToTokensSpec(defs, DcLine(lit), 1).value;
    var r :- ParseAllResult([tokens], inRange);
    if r.value == [] then Crash
    else if r.success then Ok(([r.value[0].SetLabel(lbl)] + r.value[1..], []))
    else Ok(([], r.errors))
  }

  /** The state of the pooling loop: records so far, generated records, problems, labels handed out. */
  datatype Pool = Pool(insts: seq<Instruction>, generated: seq<Instruction>, problems: seq<Problem>, count: nat)

  /**
   * What a literal becomes: `LiteralGroup` with the driver's token
   * definitions and range check (a parameter here so that the pooling loop
   * can be reasoned about apart from the parser).
   */
  type GroupOf = (Literal, string) -> Outcome<(seq<Instruction>, seq<Diagnostic>)>

  /** One record of the pooling loop. */
  function PoolStep(group: GroupOf, labels: nat -> string, p: Pool, inst: Instruction): Outcome<Pool>
  {
    PoolStepWith(group, labels, p, inst, inst.GetLiteral())
  }

  /** One record of the pooling loop, given what `getLiteral` returned for it. */
  function PoolStepWith(group: GroupOf, labels: nat -> string, p: Pool, inst: Instruction, literal: Outcome<Option<Literal>>): Outcome<Pool>
  {
    match literal
    case Crash => Crash
    case Ok(None) => Ok(p.(insts := p.insts + [inst]))
    case Ok(Some(lit)) =>
      var lbl := labels(p.count);
      match group(lit, lbl)
      case Crash => Crash
      case Ok(g) => Ok(Pool(p.insts + [inst.ReplaceLiteralWithLabel(lbl)], p.generated + g.0, p.problems + Diags(g.1), p.count + 1))
  }

  function PoolAll(group: GroupOf, labels: nat -> string, p0: Pool, insts: seq<Instruction>): Outcome<Pool>
  {
    if insts == [] then Ok(p0)
    else
      var p :- PoolAll(group, labels, p0, insts[..|insts| - 1]);
      PoolStep(group, labels, p, insts[|insts| - 1])
  }

  /** The literal groups of the driver. */
  function DriverGroups(defs: seq<TokenDefinition>, inRange: string -> bool): GroupOf
  {
    (lit, lbl) => LiteralGroup(defs, inRange, lit, lbl)
  }

  // ---------------------------------------------------------------------
  // Phase 3: addresses of the generated labels.

  /** Each labelled generated record is added unscoped at (total + the lengths before it) / 2. */
  function GeneratedEntries(entries: map<string, int>, total: nat, gen: seq<Instruction>): map<string, int>
  {
    if gen == [] then entries
    else
      var i := |gen| - 1;
      var e := GeneratedEntries(entries, total, gen[..i]);
      if HasLabel(gen[i]) then e[gen[i].labelName.value := (total + TotalLength(gen[..i])) / 2] else e
  }

  // ---------------------------------------------------------------------
  // Phase 3: scopes, offsets and labels of the ordinary records.

  /** `inst.address as string` where it is used as a bind target: a label's name, or a number's decimal text. */
  function OperandText(o: Operand): string
  {
    match o
    case Sym(s) => s
    case Num(n) => IntToString(n)
  }

  /** `inst.lineNumber!`; a record without one (which never has a label) is given -1. */
  function LineOf(x: Instruction): int
  {
    if x.lineNumber.Some? then x.lineNumber.value else -1
  }

  /** The duplicate-label diagnostic at the record's line, column 0 to 0, naming the label. */
  function DuplicateDiagnostic(x: Instruction, lbl: string): Diagnostic
  {
    Diagnostic(LineOf(x), 0, 0, "ラベル '" + lbl + "' が重複しています。", DuplicateLabel.category, DuplicateLabel.code)
  }

  /** `DuplicateDiagnostic` is `createDiagnostic(line, 0, 0, Diagnostics.Duplicate_label, label)`. */
  lemma DuplicateDiagnosticIsCreated(x: Instruction, lbl: string)
    ensures DuplicateDiagnostic(x, lbl) == CreateDiagnostic(LineOf(x), 0, 0, DuplicateLabel, [lbl])
  {
    var head, tail := "ラベル '", "' が重複しています。";
    assert DuplicateLabel.message == head + "{0}" + tail;
    FormatOnePlaceholder(head, tail, lbl);
  }

  /** The state of the label loop. */
  datatype Layout = Layout(
    insts: seq<Instruction>,
    entries: map<string, int>,
    binds: map<string, string>,
    problems: seq<Problem>,
    scope: int,
    byteOffset: nat)

  /**
   * Registering the label of `x` (already given its scope): a START with an
   * operand binds the label to the operand in its scope, a START without
   * one is added unscoped at the current word, any other label is added
   * under its scope. `has` is asked about the bare label only.
   */
  function Register(st: Layout, x: Instruction): Layout
  {
    if !HasLabel(x) then st
    else
      var lbl := x.labelName.value;
      if lbl in st.binds || lbl in st.entries then
        st.(problems := st.problems + [Diag(DuplicateDiagnostic(x, lbl))])
      else if x.name == "START" && x.address.Some? then
        st.(binds := st.binds[lbl := AddKey(OperandText(x.address.value), Some(x.Scope()))])
      else if x.name == "START" then
        st.(entries := st.entries[lbl := st.byteOffset / 2])
      else
        st.(entries := st.entries[BlockedName(lbl, x.Scope()) := st.byteOffset / 2])
  }

  /** One record of the label loop: scope it, register its label, advance the offset, and step the scope after END. */
  function LayoutStep(enableLabelScope: bool, st: Layout, inst: Instruction): Layout
  {
    var x := inst.SetScope(st.scope);
    var r := Register(st, x);
    r.(insts := st.insts + [x],
       scope := if enableLabelScope && x.name == "END" then st.scope + 1 else st.scope,
       byteOffset := st.byteOffset + Len(x))
  }

  function LayoutAll(enableLabelScope: bool, st0: Layout, insts: seq<Instruction>): Layout
  {
    if insts == [] then st0
    else LayoutStep(enableLabelScope, LayoutAll(enableLabelScope, st0, insts[..|insts| - 1]), insts[|insts| - 1])
  }

  // ---------------------------------------------------------------------
  // Phase 3: resolution and checks.

  /** Every record resolved in turn; each returned `CompileError` is pushed, a throw ends everything. */
  function ResolveAll(entries: map<string, int>, binds: map<string, string>, insts: seq<Instruction>, problems: seq<Problem>): Outcome<(seq<Instruction>, seq<Problem>)>
    requires AllValid(insts)
  {
    if insts == [] then Ok(([], problems))
    else
      var i := |insts| - 1;
      var prev :- ResolveAll(entries, binds, insts[..i], problems);
      var res :- insts[i].ResolveAddress(entries, binds);
      Ok((prev.0 + [res.inst], if res.error.Some? then prev.1 + [Undeclared(res.error.value)] else prev.1))
  }

  /** The diagnostics of every record's `check()`, in order. */
  function Checks(check: Instruction -> seq<Diagnostic>, insts: seq<Instruction>): seq<Diagnostic>
  {
    if insts == [] then [] else Checks(check, insts[..|insts| - 1]) + check(insts[|insts| - 1])
  }

  // ---------------------------------------------------------------------
  // The record invariant through the phases.

  lemma AllSoundValid(xs: seq<Instruction>)
    requires AllSound(xs)
    ensures AllValid(xs)
  {
  }

  /** Phase 1 builds well-formed records only. */
  lemma Phase1Sound(defs: seq<TokenDefinition>, inRange: string -> bool, lines: seq<string>)
    ensures Phase1(defs, inRange, lines).Ok? ==> AllSound(Phase1(defs, inRange, lines).value.0)
  {
    var (tl, ds) := TokenizeLines(defs, lines);
    ParseLinesSound(tl, inRange);
  }

  /** A literal's group is made of well-formed records, the first carrying the generated label. */
  lemma LiteralGroupSound(defs: seq<TokenDefinition>, inRange: string -> bool, lit: Literal, lbl: string)
    ensures var g := LiteralGroup(defs, inRange, lit, lbl);
      g.Ok? ==> AllSound(g.value.0) && (g.value.0 != [] ==> g.value.0[0].labelName == Some(lbl))
  {
    var tokens := SplitToTokensSpec(defs, DcLine(lit), 1).value;
    ParseLinesSound([tokens], inRange);
    var r := ParseAllResult([tokens], inRange);
    if r.Ok? && r.value.value != [] && r.value.success {
      var x := r.value.value[0];
      MutatorsKeepByteLength(x, 0, lbl, map[], map[]);
      AppendSound([x.SetLabel(lbl)], r.value.value[1..]);
    }
  }

  ghost predicate GroupsSound(group: GroupOf)
  {
    forall lit, lbl :: group(lit, lbl).Ok? ==> AllSound(group(lit, lbl).value.0)
  }

  lemma DriverGroupsSound(defs: seq<TokenDefinition>, inRange: string -> bool)
    ensures GroupsSound(DriverGroups(defs, inRange))
  {
    forall lit, lbl | DriverGroups(defs, inRange)(lit, lbl).Ok?
      ensures AllSound(DriverGroups(defs, inRange)(lit, lbl).value.0)
    {
      LiteralGroupSound(defs, inRange, lit, lbl);
    }
  }

  /** Pooling keeps the records well formed and adds well-formed generated ones. */
  lemma {:induction false} PoolSound(group: GroupOf, labels: nat -> string, p0: Pool, insts: seq<Instruction>)
    requires AllSound(p0.insts) && AllSound(p0.generated) && AllSound(insts) && GroupsSound(group)
    ensures PoolAll(group, labels, p0, insts).Ok? ==>
      AllSound(PoolAll(group, labels, p0, insts).value.insts) && AllSound(PoolAll(group, labels, p0, insts).value.generated)
  {
    if insts != [] {
      var n := |insts| - 1;
      assert AllSound(insts[..n]);
      PoolSound(group, labels, p0, insts[..n]);
      var prev := PoolAll(group, labels, p0, insts[..n]);
      if prev.Ok? {
        var p := prev.value;
        var x := insts[n];
        assert Sound(x);
        var lit := x.GetLiteral();
        if lit.Ok? && lit.value.Some? {
          var lbl := labels(p.count);
          MutatorsKeepByteLength(x, 0, lbl, map[], map[]);
          AppendSound(p.insts, [x.ReplaceLiteralWithLabel(lbl)]);
          var g := group(lit.value.value, lbl);
          if g.Ok? {
            AppendSound(p.generated, g.value.0);
          }
        } else if lit.Ok? {
          AppendSound(p.insts, [x]);
        }
      }
    }
  }

  /** Scoping keeps the records well formed. */
  lemma {:induction false} LayoutSound(enableLabelScope: bool, st0: Layout, insts: seq<Instruction>)
    requires AllSound(st0.insts) && AllSound(insts)
    ensures AllSound(LayoutAll(enableLabelScope, st0, insts).insts)
  {
    if insts != [] {
      var n := |insts| - 1;
      assert AllSound(insts[..n]);
      LayoutSound(enableLabelScope, st0, insts[..n]);
      var prev := LayoutAll(enableLabelScope, st0, insts[..n]);
      MutatorsKeepByteLength(insts[n], prev.scope, "", map[], map[]);
      AppendSound(prev.insts, [insts[n].SetScope(prev.scope)]);
    }
  }

  /** What `analyze` returns; the label map is given by its two maps. */
  datatype Analysis = Analysis(
    problems: seq<Problem>,
    insts: seq<Instruction>,
    generated: seq<Instruction>,
    entries: map<string, int>,
    binds: map<string, string>)

  /** `analyze`; the record invariant that resolution needs is established by `Phase1Sound`, `PoolSound` and `LayoutSound`. */
  function AnalyzeSpec(defs: seq<TokenDefinition>, inRange: string -> bool, labels: nat -> string,
                       check: Instruction -> seq<Diagnostic>, option: CompileOption, lines: seq<string>): Outcome<Analysis>
  {
    var (insts1, problems1) :- Phase1(defs, inRange, lines);
    Phase1Sound(defs, inRange, lines);
    DriverGroupsSound(defs, inRange);
    PoolSound(DriverGroups(defs, inRange), labels, Pool([], [], problems1, 0), insts1);
    var pool :- PoolAll(DriverGroups(defs, inRange), labels, Pool([], [], problems1, 0), insts1);
    var total := TotalLength(pool.insts);
    var gEntries := GeneratedEntries(map[], total, pool.generated);
    var layout := LayoutAll(option.enableLabelScope, Layout([], gEntries, map[], pool.problems, 1, 0), pool.insts);
    LayoutSound(option.enableLabelScope, Layout([], gEntries, map[], pool.problems, 1, 0), pool.insts);
    var (resolved, problems3) :- ResolveAll(layout.entries, layout.binds, layout.insts, layout.problems);
    Ok(Analysis(problems3 + Diags(Checks(check, resolved)), resolved, pool.generated, layout.entries, layout.binds))
  }

  // ---------------------------------------------------------------------
  // compile

  /** The words of every record in order; a throw of any `toHex` is a throw of the whole. */
  function HexOf(xs: seq<Instruction>): Outcome<seq<int>>
    requires AllValid(xs)
  {
    if xs == [] then Ok([])
    else
      var prev :- HexOf(xs[..|xs| - 1]);
      var last :- xs[|xs| - 1].ToHex();
      Ok(prev + last)
  }

  /** `filter(x => x != -1)` */
  function DropMinusOne(ws: seq<int>): (r: seq<int>)
  {
    if ws == [] then []
    else DropMinusOne(ws[..|ws| - 1]) + (if ws[|ws| - 1] == -1 then [] else [ws[|ws| - 1]])
  }

  /** The 8-word header: the entry point (undefined when the label is not found), then seven zeros. */
  function Header(entry: Option<int>): seq<Option<int>>
  {
    [entry] + Repeat(Some(0), 7)
  }

  function Somes(ws: seq<int>): (r: seq<Option<int>>)
    ensures |r| == |ws| && forall i :: 0 <= i < |ws| ==> r[i] == Some(ws[i])
  {
    seq(|ws|, i requires 0 <= i < |ws| => Some(ws[i]))
  }

  /** `CompileResult`: `hexes` is absent when there were problems; an undefined word is `None`. */
  datatype CompileOutput = CompileOutput(problems: seq<Problem>, insts: seq<Instruction>, hexes: Option<seq<Option<int>>>)

  /** `compile` on the result of `analyze`. */
  function CompileSpec(a: Analysis): Outcome<CompileOutput>
    requires AllValid(a.insts) && AllValid(a.generated)
  {
    if a.problems != [] then Ok(CompileOutput(a.problems, a.insts, None))
    else
      var all := a.insts + a.generated;
      assert AllValid(all);
      var words :- HexOf(all);
      if all == [] then Crash
      else
        var entry := if all[0].labelName.Some? then Lookup(a.entries, a.binds, all[0].labelName.value, Some(1)) else None;
        Ok(CompileOutput(a.problems, all, Some(Header(entry) + Somes(DropMinusOne(words)))))
  }

  /** Resolution keeps the records well formed. */
  lemma {:induction false} ResolveSound(entries: map<string, int>, binds: map<string, string>, insts: seq<Instruction>, problems: seq<Problem>)
    requires AllSound(insts)
    ensures ResolveAll(entries, binds, insts, problems).Ok? ==> AllSound(ResolveAll(entries, binds, insts, problems).value.0)
  {
    if insts != [] {
      var n := |insts| - 1;
      assert AllSound(insts[..n]);
      ResolveSound(entries, binds, insts[..n], problems);
      MutatorsKeepByteLength(insts[n], 0, "", entries, binds);
      var prev := ResolveAll(entries, binds, insts[..n], problems);
      var res := insts[n].ResolveAddress(entries, binds);
      if prev.Ok? && res.Ok? {
        AppendSound(prev.value.0, [res.value.inst]);
      }
    }
  }

  /** What `analyze` returns is made of well-formed records. */
  lemma AnalyzeSound(defs: seq<TokenDefinition>, inRange: string -> bool, labels: nat -> string,
                     check: Instruction -> seq<Diagnostic>, option: CompileOption, lines: seq<string>)
    ensures var a := AnalyzeSpec(defs, inRange, labels, check, option, lines);
      a.Ok? ==> AllSound(a.value.insts) && AllSound(a.value.generated)
  {
    var p1 := Phase1(defs, inRange, lines);
    if p1.Ok? {
      var (insts1, problems1) := p1.value;
      Phase1Sound(defs, inRange, lines);
      DriverGroupsSound(defs, inRange);
      var p0 := Pool([], [], problems1, 0);
      PoolSound(DriverGroups(defs, inRange), labels, p0, insts1);
      var pool := PoolAll(DriverGroups(defs, inRange), labels, p0, insts1);
      if pool.Ok? {
        var gEntries := GeneratedEntries(map[], TotalLength(pool.value.insts), pool.value.generated);
        var st0 := Layout([], gEntries, map[], pool.value.problems, 1, 0);
        LayoutSound(option.enableLabelScope, st0, pool.value.insts);
        var layout := LayoutAll(option.enableLabelScope, st0, pool.value.insts);
        ResolveSound(layout.entries, layout.binds, layout.insts, layout.problems);
      }
    }
  }

  /** `compile(lines)`: `analyze`, then emission. */
  function CompileAll(defs: seq<TokenDefinition>, inRange: string -> bool, labels: nat -> string,
                      check: Instruction -> seq<Diagnostic>, option: CompileOption, lines: seq<string>): Outcome<CompileOutput>
  {
    var a :- AnalyzeSpec(defs, inRange, labels, check, option, lines);
    AnalyzeSound(defs, inRange, labels, check, option, lines);
    CompileSpec(a)
  }

  // ---------------------------------------------------------------------
  // A throw in any step ends the whole loop.

  /** The pooling fold over one more record is one more step. */
  lemma PoolAllSnoc(group: GroupOf, labels: nat -> string, p0: Pool, insts: seq<Instruction>, i: nat, p: Pool)
    requires i < |insts| && PoolAll(group, labels, p0, insts[..i]) == Ok(p)
    ensures PoolAll(group, labels, p0, insts[..i + 1]) == PoolStep(group, labels, p, insts[i])
  {
    assert insts[..i + 1][..i] == insts[..i];
  }

  /** A record with a literal takes the next label, and the literal's group is appended. */
  lemma PoolStepLiteral(group: GroupOf, labels: nat -> string, p: Pool, x: Instruction, lit: Literal,
                        g: (seq<Instruction>, seq<Diagnostic>))
    requires group(lit, labels(p.count)) == Ok(g)
    ensures PoolStepWith(group, labels, p, x, Ok(Some(lit))) ==
      Ok(Pool(p.insts + [x.ReplaceLiteralWithLabel(labels(p.count))], p.generated + g.0, p.problems + Diags(g.1), p.count + 1))
  {
  }

  lemma {:induction false} PoolThrowIsFinal(group: GroupOf, labels: nat -> string, p0: Pool, insts: seq<Instruction>, k: nat)
    requires k <= |insts| && PoolAll(group, labels, p0, insts[..k]).Crash?
    ensures PoolAll(group, labels, p0, insts).Crash?
    decreases |insts| - k
  {
    if k < |insts| {
      assert insts[..k + 1][..k] == insts[..k];
      PoolThrowIsFinal(group, labels, p0, insts, k + 1);
    } else {
      assert insts[..k] == insts;
    }
  }

  lemma {:induction false} ResolveThrowIsFinal(entries: map<string, int>, binds: map<string, string>, insts: seq<Instruction>, problems: seq<Problem>, k: nat)
    requires AllValid(insts)
    requires k <= |insts| && ResolveAll(entries, binds, insts[..k], problems).Crash?
    ensures ResolveAll(entries, binds, insts, problems).Crash?
    decreases |insts| - k
  {
    if k < |insts| {
      assert insts[..k + 1][..k] == insts[..k];
      ResolveThrowIsFinal(entries, binds, insts, problems, k + 1);
    } else {
      assert insts[..k] == insts;
    }
  }

  lemma {:induction false} HexThrowIsFinal(xs: seq<Instruction>, k: nat)
    requires AllValid(xs)
    requires k <= |xs| && HexOf(xs[..k]).Crash?
    ensures HexOf(xs).Crash?
    decreases |xs| - k
  {
    if k < |xs| {
      assert xs[..k + 1][..k] == xs[..k];
      HexThrowIsFinal(xs, k + 1);
    } else {
      assert xs[..k] == xs;
    }
  }
}
