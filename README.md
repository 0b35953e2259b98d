# CASL II assembler core, modelled in Dafny

This project models the core of a CASL II assembler for the COMET II machine (the TypeScript
package node-casl2-core). It covers two front ends and the compiler after them.

The current front end is a pipeline:

- **Tokenizer.** `splitToTokens` cuts a line into tokens. At every position it tries a
  priority-ordered table of token definitions, and the first definition that matches wins.
- **Parser.** `parseAll` builds instruction records with a `Scanner` cursor and a
  recursive-descent `createInstruction`. `DS` expands to NOP or OLBL records, and `DC` expands
  to one MDC record per constant or per character.
- **Records.** `InstructionBase`, with its variants MDC, IN/OUT, OLBL and DS, carries:
  - the opcode-to-byte-length table;
  - the confirmed flag;
  - `resolveAddress`, `getLiteral` and the setters;
  - the word encoding `toHex`: `code<<8 | r1<<4 | r2`, with 16-bit two's complement for
    negative addresses.
- **Symbol table.** `LabelMap` stores scope-qualified keys and has a bind (redirect) map.
- **Driver.** `Casl2.analyze` / `compile` runs these steps:
  - tokenizing and parsing;
  - pooling `=`-literals into generated DC groups;
  - assigning byte offsets and word addresses;
  - END-driven scopes;
  - label registration with duplicate detection;
  - resolution;
  - emission of the program after an 8-word header.

The earlier front end still in the tree is modelled as a second, independent front end:

- the field lexer `Lexer.tokenize` and its `LexerResult` record;
- the older string tokenizer `splitToTokens` of `tokenizer.ts`;
- `Instructions.create` / `createDSDC` with the `InstMap` opcode table.

The helpers are:

- `''`-escape decoding;
- the JIS X 0201 range check;
- the merge of duplicate opcode-table entries;
- `{n}` diagnostic formatting;
- the diagnostic code table.

## How the model is built

- **Modules.** There is one module per source file. Where the source changes state step by
  step, the model is imperative:
  - the `Scanner` and a `LineParser` class (the closures of `parse` over mutable locals);
  - the `LabelMap` class with `map` fields;
  - the lexer class;
  - the driver's loops;
  - `isInRange`, `createDS`, `createDC`, the instruction-map merges and both `splitToTokens`.

  Each method is proved equal to a functional reference (a function named after the operation,
  often with a `Spec` suffix). The properties the source promises are lemmas about that
  reference.
- **Throws.** A JavaScript throw, whether an explicit `Error` or a `TypeError` on `undefined`,
  is the value `Crash` of `Common.Outcome`. It propagates with `:-` exactly as an uncaught
  exception does.
- **Records.** Instruction records are one datatype `Records.Instruction` whose `kind` tells
  the variants apart.
- **Integers and text.** Integers are unbounded, and the 16-bit two's complement of
  negative addresses is written out. `undefined` is `None`. Strings are `seq<char>`.

## Model

| member | source | states |
|---|---|---|
| Token.DecimalAt | src/casl2/lexer/token.ts:38 | a match of `-?\d+` at a position is non-empty and stays inside the text |
| Token.StringAt | src/casl2/lexer/token.ts:40 | a match of the string pattern at a position spans at least the two quotes and one character, and stays inside the text |
| Token.Match | src/casl2/lexer/token.ts:12-14 | `match` is anchored at the start of the text, and a match found there is non-empty and no longer than the text; besides the ten patterns of the table, a definition may use `;.*` or a mnemonic alternation |
| Token.MnemonicAt | test/casl2/lexer.test.ts:35 | the mnemonic alternation of names followed by `\b` matches the first name, in list order, that starts the text and is followed by a word boundary, and no name matches when none is so followed |
| Token.FirstMatchIndex | src/casl2/lexer/lexer.ts:28-38 | the index of the first definition, in list order, that matches at the start of the text; no earlier definition matches |
| Token.DefinitionOrder | src/casl2/lexer/token.ts:30-41 | the definitions are tried in the order TLABEL, TGR, TSPACE, TCOMMA, `=`-decimal, `=#`hex, `='`string, decimal, hex, string, and the `=`-decimal one is registered as TDECIMAL |
| Token.UpperCaseIsLabel | src/casl2/lexer/token.ts:31-32 | text that starts with a capital always lexes as TLABEL, so `GR1` is a TLABEL of length 3 |
| Token.NeverGr | src/casl2/lexer/token.ts:31-32 | no text ever lexes as TGR with this table |
| Token.EqualsPrefixedLiterals | src/casl2/lexer/token.ts:35-40 | text starting with `=` is taken by an `=` literal form or by nothing, never by the bare decimal, hex or string forms; `=` and a decimal is TDECIMAL |
| Lexer.TokenAt | src/casl2/lexer/lexer.ts:25-42 | a token made at an index starts there and ends after it, inside the line, holds the line's text between its bounds and carries the line number |
| Lexer.TryMatch | src/casl2/lexer/lexer.ts:25-42 | `tryMatch` reports a match exactly when some definition matches at the index, and then returns the token of the first one and the index after it |
| Lexer.SplitToTokens | src/casl2/lexer/lexer.ts:11-63 | the loop's result equals the functional scan `SplitToTokensSpec` |
| Lexer.SplitFromCovers | src/casl2/lexer/lexer.ts:44-57 | the scan from an index yields contiguous tokens covering the text up to the end or up to the first position where nothing matches |
| Lexer.SplitSuccess | src/casl2/lexer/lexer.ts:44-62 | on success the token texts concatenate to the line, spans are contiguous from 0 to the line length, each token has the line number and the type of the first matching definition |
| Lexer.SplitFailure | src/casl2/lexer/lexer.ts:50-56 | on failure there is exactly one `Invalid_instruction_line` diagnostic from the first unmatched index to `Number.MAX_VALUE`, and the value holds the tokens before it |
| Lexer.SplitEmptyLine | src/casl2/lexer/lexer.ts:44-62 | an empty line succeeds with no token |
| Lexer.CoverIsSplit | src/casl2/lexer/lexer.ts:44-62 | tokens chained from an index to the end of the line, each made by the first matching definition, are exactly what the scan from that index returns |
| Lexer.SplitIffCovers | src/casl2/lexer/lexer.ts:44-62 | `splitToTokens` succeeds with a token list exactly when that list covers the whole line by first-match tokens |
| Lexer.LabelMnemonicComment | test/casl2/lexer.test.ts:31-51 | with a comment and a mnemonic definition ahead of the table, a line holding a label, a mnemonic and a comment splits into TLABEL, TSPACE, TINSTRUCTION, TSPACE and TCOMMENT tokens with their spans |
| Diagnostics.CodesStrictlyIncrease | src/diagnostics/diagnosticMessages.ts:5-146 | the codes strictly increase in declaration order, so they are pairwise distinct |
| Diagnostics.CodeRange | src/diagnostics/diagnosticMessages.ts:5-146 | there are 28 codes, all in 1..29 and none of them 19 |
| Diagnostics.OnlyUnnecessaryOperandIsMessage | src/diagnostics/diagnosticMessages.ts:96-100 | `Unnecessary_operand` is the only Message-category entry; every other entry is an Error |
| Diagnostics.StringConstantCodes | src/diagnostics/diagnosticMessages.ts:71-80 | a bad `''` escape has code 14 and a character outside JIS X 0201 code 15 |
| Diagnostics.PlaceholderAt | src/diagnostics/diagnosticMessage.ts:23 | a `{digits}` placeholder at the start of the text is recognised with its digit text and its full length |
| Diagnostics.FormatWithoutPlaceholder | src/diagnostics/diagnosticMessage.ts:22-26 | a template without any `{digits}` placeholder is returned unchanged |
| Diagnostics.FormatPlainPrefix | src/diagnostics/diagnosticMessage.ts:23 | text without `{` is copied through and formatting continues after it |
| Diagnostics.FormatPlaceholder | src/diagnostics/diagnosticMessage.ts:23 | `{n}` is replaced by `args[n]`, or by "undefined" when there is no such argument |
| Diagnostics.FormatLeadingPlaceholder | src/diagnostics/diagnosticMessage.ts:21-25 | a template opening with `{0}` and no other `{` becomes the first argument followed by the rest verbatim |
| Diagnostics.FormatOnePlaceholder | src/diagnostics/diagnosticMessage.ts:21-25 | a template with one `{0}` between text without `{` becomes that text with the argument spliced in |
| Diagnostics.CreateDiagnostic | src/diagnostics/diagnosticMessage.ts:5-19 | line, start and end are copied, category and code come from the template, and the text is the formatted template |
| Diagnostics.PlainIsCreated | src/diagnostics/diagnosticMessage.ts:5-26 | for a template without `{`, `createDiagnostic` with no arguments keeps the template text verbatim, with position, category and code as given |
| Diagnostics.ExpectedText | src/diagnostics/diagnosticMessages.ts:41-45 | the "{0} が必要です。" template formatted with one argument names that argument |
| EscapeString.EscapeWithoutQuotes | src/helpers/escapeStringConstant.ts:3-14 | a string without quotes is returned unchanged |
| EscapeString.EscapeLength | src/helpers/escapeStringConstant.ts:12 | a successful result is shorter than the input by the number of `''` pairs |
| EscapeString.EscapeOfDoubled | src/helpers/escapeStringConstant.ts:3-14 | escaping undoes quote doubling: escaping a string with every quote doubled gives the string back |
| EscapeString.DoubledOfEscape | src/helpers/escapeStringConstant.ts:4-13 | a string that escapes successfully is the quote doubling of its result |
| EscapeString.EscapeSucceedsIffDoubled | src/helpers/escapeStringConstant.ts:4-9 | the result is undefined exactly when a quote survives the deletion of every `''` pair, that is, when the input is not a quote doubling |
| JisX0201.TableCodes | src/helpers/jisx0201.ts:27-30 | every table code lies in 0x61..0x7E and no two characters share one |
| JisX0201.TableShape | src/helpers/jisx0201.ts:27-30 | every entry except the overline maps a character to its own code point |
| JisX0201.Convert | src/helpers/jisx0201.ts:5-11 | a one-character string with a table entry gives its code; any other string throws |
| JisX0201.IsInRange | src/helpers/jisx0201.ts:16-24 | the loop returns true exactly when every character has a table entry |
| JisX0201.InRangeConcat | src/helpers/jisx0201.ts:16-24 | the empty string is in range, and a concatenation is in range exactly when both parts are |
| LabelMaps.LabelMap.constructor | src/data/labelMap.ts:13-21 | a new map has no entries and no bind entries |
| LabelMaps.LabelMap.FromEntries | src/data/labelMap.ts:13-21 | a map built from entries holds them, later pairs winning, and has no bind entries |
| LabelMaps.LabelMap.Has | src/data/labelMap.ts:23-28 | `has(k)` holds exactly when k is a bind source or a bare key |
| LabelMaps.LabelMap.Get | src/data/labelMap.ts:38-47 | `get(k, b)` looks up the bind target, or the scoped key, or the bare key, and falls back to the bare key when that entry is missing |
| LabelMaps.LabelMap.Add | src/data/labelMap.ts:30-36 | `add` sets exactly the bare or scoped entry, overwriting it, and changes nothing else |
| LabelMaps.LabelMap.BindAdd | src/data/labelMap.ts:53-59 | `bindAdd` sets exactly one bind entry, to the target or to its scoped key, and changes nothing else |
| LabelMaps.AddThenGet | src/data/labelMap.ts:30-47 | after `add(k, a)`, `get(k)` is a when k has no bind entry |
| LabelMaps.AddScopedThenGet | src/data/labelMap.ts:3-47 | after `add(k, a, b)` the entry sits under `"b-k"`, and `get(k, b)` is a when k is unbound |
| LabelMaps.BindThenGet | src/data/labelMap.ts:38-59 | after `bindAdd(k, t)` and `add(t, a)`, `get(k)` is a in any block |
| LabelMaps.BindScopedRedirects | src/data/labelMap.ts:53-58 | `bindAdd(k, t, b)` redirects k to the scoped key `"b-t"` |
| LabelMaps.LookupFallback | src/data/labelMap.ts:42-46 | when the redirected or scoped key is absent, the bare key answers, and no entry gives undefined |
| LabelMaps.BlockedNameInjective | src/data/labelMap.ts:3 | `"<b>-<name>"` determines both the block and the name, so scoped keys of different labels or blocks never collide |
| LabelMaps.BareKeyIsNotScoped | src/data/labelMap.ts:23-28 | a name without `-` differs from every scoped key, so scoped entries are not seen under their bare name |
| Records.StoredByteLength | src/instructions/instructionBase.ts:47 | no code gives 0, and a code gives its table entry, or undefined when the table has none |
| Records.Instruction.Scope | src/instructions/instructionBase.ts:131-133 | an unset or zero scope reads as 1, and any other scope reads as itself |
| Records.Instruction.ReplaceLiteralWithLabel | src/instructions/instructionBase.ts:177-179 | only the address changes, and it becomes the label text |
| Records.Instruction.SetScope | src/instructions/instructionBase.ts:184-186 | only the scope changes |
| Records.Instruction.SetLabel | src/casl2.ts:103 | only the label changes |
| Records.ResolveUnscoped | src/instructions/inOut.ts:25-34 | a numeric operand stays, a label is looked up without scope, and an undeclared label throws |
| Records.NewInstruction | src/instructions/instructionBase.ts:19-48 | the record is confirmed exactly when the address is absent or numeric, its byte length as written is the table entry for the code (0 without code, undefined for RPUSH/RPOP), the length the model goes on with is the corrected table's entry, and every field is stored as given |
| Records.NewMdc | src/instructions/mdc.ts:8-11 | an MDC record keeps the label, line, value and character, and has no code and no registers |
| Records.NewInOut | src/instructions/inOut.ts:6-40 | an I/O record keeps the opcode, the line, the label, the buffer as address and the length buffer, and has no registers |
| Records.NewIn | src/instructions/in.ts:6-9 | IN has opcode 0x90, no registers, the buffer as address and the length buffer as second operand |
| Records.NewOut | src/instructions/out.ts:6-9 | OUT has opcode 0x91, no registers, the buffer as address and the length buffer as second operand |
| Records.NewOlbl | src/instructions/olbl.ts:5-12 | OLBL keeps its label and line, takes zero bytes and encodes to no word |
| Records.NewDs | src/instructions/ds.ts:7-17 | DS keeps its label and its word count |
| Records.FirstWordFields | src/instructions/instructionBase.ts:80-86 | the first word packs code, r1 and r2 into disjoint bit fields, each readable back |
| Records.EncodeAddressTwosComplement | src/instructions/instructionBase.ts:88-95 | a negative address a is written as 0x10000 + a, so -1 becomes 0xFFFF; in range the word is the address modulo 2^16 |
| Records.BaseToHex | src/instructions/instructionBase.ts:74-99 | an unconfirmed base record throws, one without code gives no word, otherwise the first word and, when there is an address, exactly one address word |
| Records.LdRegisterRegister | src/instructions/instructionBase.ts:80-86 | `LD GR1,GR2` (code 0x14) encodes as 0x1412 |
| Records.LdWithAddress | src/instructions/instructionBase.ts:80-95 | `LD GR1,5` encodes as [0x1010, 5] |
| Records.LadWithNegativeAddress | src/instructions/instructionBase.ts:88-95 | `LAD GR1,-1` encodes as [0x1210, 0xFFFF] |
| Records.RegisterFormLengths | src/instructions/instructionBase.ts:189-228 | each register-register code (0x14, 0x24–0x27, 0x34–0x36, 0x44, 0x45) has length 2 and its code − 4 address form length 4 |
| Records.MutatorsKeepByteLength | src/instructions/instructionBase.ts:104-186 | the setters and `resolveAddress` keep the record invariant and never change the byte length |
| Records.ResolveBase | src/instructions/instructionBase.ts:104-117 | nothing happens when confirmed; a missing label returns an error and leaves the record unchanged; otherwise the looked-up number becomes the address and the record is confirmed |
| Records.ResolveInOut | src/instructions/inOut.ts:22-35 | each symbolic operand is looked up without scope and numeric ones stay; an undeclared label on either throws; on success both operands are numbers |
| Records.ResolveInOutUndeclared | src/instructions/inOut.ts:26-33 | a label present in the entries resolves, and a missing one makes the I/O record throw |
| Records.GetLiteralNeedsEquals | src/instructions/instructionBase.ts:149-154 | `getLiteral` is undefined unless the address is text starting with `=` |
| Records.GetLiteralDecimal | src/instructions/instructionBase.ts:157-161 | `=d` with decimal digits d gives their decimal value |
| Records.GetLiteralNegativeDecimal | src/instructions/instructionBase.ts:157-161 | `=-d` gives the negated decimal value |
| Records.GetLiteralHex | src/instructions/instructionBase.ts:163-167 | `=#h` with hex digits h gives their hex value |
| Records.GetLiteralString | src/instructions/instructionBase.ts:169-171 | `='t'` gives the quoted text itself |
| Records.MdcWords | src/instructions/mdc.ts:13-28 | MDC is two bytes and one word: the code of a one-character literal, or the numeric value |
| Records.MdcExamples | src/instructions/mdc.ts:13-23 | the character `A` encodes as 0x41, and the values 3 and 0xAB encode as themselves |
| Records.InOutWords | src/instructions/inOut.ts:9-39 | an I/O record is six bytes and three words: `code<<8` without register bits, the buffer and the length; it is confirmed exactly when both are numbers |
| Records.InOutExamples | src/instructions/inOut.ts:9-16 | resolved IN and OUT encode as [0x9000, buffer, length] and [0x9100, buffer, length] |
| Records.DsWords | src/instructions/ds.ts:11-17 | DS is 2 × wordCount bytes and wordCount zero words |
| Records.ScopeDefault | src/instructions/instructionBase.ts:131-133 | a fresh record's scope reads as 1, and after `setScope(s)` with s ≠ 0 it reads as s |
| InstructionMaps.MinCode | src/instructions/instructionMap.ts:20 | `Math.min` of two codes, undefined (NaN) when either is undefined |
| InstructionMaps.MergedKeys | src/instructions/instructionMap.ts:10-30 | the map's keys are exactly the instruction names of the input |
| InstructionMaps.MergedNames | src/instructions/instructionMap.ts:11-28 | every entry is stored under its own name |
| InstructionMaps.MergedFields | src/instructions/instructionMap.ts:15-20 | a merged entry has the sum of the argument types and the minimum code of its name's entries, and documentation, name and type of the first of them |
| InstructionMaps.MergedSingle | src/instructions/instructionMap.ts:25-29 | a name occurring once maps to a field-equal copy of its entry |
| InstructionMaps.MergeLdExample | src/instructions/instructionMap.ts:15-20 | LD's two forms merge into the combined form with the address form's code |
| InstructionMaps.CreateInstructionMap | src/instructions/instructionMap.ts:7-33 | the loop builds the merged map, and the input list, a value, is unchanged |
| InstructionMaps.MergeInPlace | src/casl2/parser/parser.ts:63-82 | the in-place merge keeps the length of the array it writes into |
| InstructionMaps.CreateInstructionMapInPlace | src/casl2/parser/parser.ts:63-82 | the loop over the array writes merged entries back into it, and the array and map end as `MergeInPlace` says |
| InstructionMaps.InPlaceAgreesWithMerged | src/casl2/parser/parser.ts:66-78 | both merges agree on keys, argument types and codes; the in-place one takes documentation and type from the last entry of a name |
| InstructionMaps.InPlaceKeys | src/casl2/parser/parser.ts:66-78 | the in-place map's keys are exactly the names of the input |
| InstructionMaps.InPlaceOverwritesInput | src/casl2/parser/parser.ts:69-75 | the in-place merge writes into its input: the second LD entry comes out merged |
| InstructionMaps.TableWellFormed | src/casl2/parser/parser.ts:211-447 | the table entries the parser reads sit under their own name, LD-like codes plus 4 are still bytes, and NOP has a code |
| InstructionMaps.LdLikeFormLengths | src/instructions/instructionBase.ts:189-228 | for every LD-like mnemonic the table code has length 4 and code + 4 length 2 |
| InstructionMaps.RpushRpopLengthMissing | src/instructions/instructionBase.ts:189-228 | as written, the length table has no entry for RPUSH (0xA0) or RPOP (0xA1) |
| InstructionMaps.EveryCodeHasLength | src/instructions/instructionBase.ts:189-228 | with the corrected table every mnemonic built as a base record has a defined length, 2 for RPUSH and RPOP |
| Scanning.ScanAt | src/casl2/parser/parser.ts:32-39 | at a cursor inside the list, `scan` returns that token and advances by one; at the end it returns the sentinel and stays |
| Scanning.Scanner.constructor | src/casl2/parser/parser.ts:28-30 | a new scanner starts at index 0 over the given tokens |
| Scanning.Scanner.Scan | src/casl2/parser/parser.ts:32-39 | `scan` returns what `ScanAt` says and moves the cursor accordingly |
| Scanning.ScanTimesFrom | src/casl2/parser/parser.ts:32-43 | the k-th of n scans returns token k while there is one, and the sentinel after that |
| Scanning.ScanInOrder | src/casl2/parser/parser.ts:32-43 | scanning from the start returns the tokens in order, then the sentinel for ever |
| Scanning.ScanAtEnd | src/casl2/parser/parser.ts:32-43 | at the end the cursor does not move and the sentinel comes back |
| Scanning.PeekAgreesWithScan | src/casl2/parser/parser.ts:45-60 | `getNext` is what the next `scan` returns and `getNextNext` what the scan after it returns; neither moves the cursor |
| Parsing.TokenToString | src/casl2/parser/parser.ts:454-459 | every token kind that has an entry in the token-name table gets a non-empty display name |
| Parsing.StringToGR | src/casl2/parser/parser.ts:461-474 | `GR0`..`GR7` give registers 0..7, `GR8` the stack pointer 8, and anything else throws |
| Parsing.RegisterNames | src/casl2/parser/parser.ts:461-474 | exactly the nine names `GR0`..`GR8` are accepted |
| Parsing.ToAddress | src/casl2/parser/parser.ts:476-504 | only address tokens convert; label and literal tokens keep their text, and a text operand comes from no other kind |
| Parsing.ToConst | src/casl2/parser/parser.ts:506-525 | only constant tokens convert; string and label constants keep their text, and a decimal is read by `parseInt` or throws |
| Parsing.Advance | src/casl2/parser/parser.ts:111-114 | `nextToken` makes the scanned token current and moves the cursor by at most one |
| Parsing.ConsumeToken | src/casl2/parser/parser.ts:124-132 | succeeds exactly when the next token has the kind, and otherwise pushes one "expected" diagnostic when asked to |
| Parsing.ExpectedAtIsCreated | src/casl2/parser/parser.ts:128 | the "expected" diagnostic the consume helpers push is `createDiagnostic` with the `{0} が必要です。` template, its placeholder filled with the expected thing |
| Parsing.ConsumeAdr | src/casl2/parser/parser.ts:134-144 | succeeds exactly when the next token is an address token, and otherwise pushes one diagnostic |
| Parsing.ConsumeConstant | src/casl2/parser/parser.ts:146-157 | succeeds exactly for a decimal, hex, string or label token, and otherwise pushes one diagnostic |
| Parsing.ConsumeCommaSpace | src/casl2/parser/parser.ts:159-167 | succeeds only on a comma, moves the cursor forward inside the list, reports only when asked, and adds no record |
| Parsing.AllScan | src/casl2/parser/parser.ts:173-183 | true exactly when nothing is left, or a comment, or one space before a comment or the end; otherwise one `Unnecessary_operand` diagnostic when asked to report |
| Parsing.AddMdc | src/casl2/parser/parser.ts:354-361 | adding the MDCs of one constant leaves the cursor and the records parsed so far unchanged |
| Parser.LineParser.NextToken | src/casl2/parser/parser.ts:111-114 | the parser state after the call is `Advance` of the state before |
| Parser.LineParser.ConsumeToken | src/casl2/parser/parser.ts:124-132 | result and new state are those of `Parsing.ConsumeToken` |
| Parser.LineParser.ConsumeAdr | src/casl2/parser/parser.ts:134-144 | result and new state are those of `Parsing.ConsumeAdr` |
| Parser.LineParser.ConsumeConstant | src/casl2/parser/parser.ts:146-157 | result and new state are those of `Parsing.ConsumeConstant` |
| Parser.LineParser.ConsumeCommaSpace | src/casl2/parser/parser.ts:159-167 | result and new state are those of `Parsing.ConsumeCommaSpace` |
| Parser.LineParser.AllScan | src/casl2/parser/parser.ts:173-183 | result and new state are those of `Parsing.AllScan` |
| Parser.LineParser.AdrAdr | src/casl2/parser/parser.ts:223-241 | the `adr1, adr2` shape (IN, OUT) ends in the state `Parsing.AdrAdr` gives, or throws as it does |
| Parser.LineParser.AdrR2 | src/casl2/parser/parser.ts:245-260 | the `adr[, x]` shape ends in the state `Parsing.AdrR2` gives, record without label |
| Parser.LineParser.NoOperand | src/casl2/parser/parser.ts:263-268 | the no-operand shape ends in the state `Parsing.NoOperand` gives |
| Parser.LineParser.Start | src/casl2/parser/parser.ts:272-282 | START ends in the state `Parsing.Start` gives |
| Parser.LineParser.Ds | src/casl2/parser/parser.ts:284-305 | DS ends in the state `Parsing.Ds` gives |
| Parser.LineParser.DsCount | src/casl2/parser/parser.ts:285-305 | the word count read and its expansion give the state `Parsing.DsCount` gives |
| Parser.LineParser.PushDs | src/casl2/parser/parser.ts:287-303 | the records pushed are `Parsing.DsExpansion` of the count |
| Parser.LineParser.PushNops | src/casl2/parser/parser.ts:296-302 | the NOP loop pushes `Parsing.NopRecords`: the first with label and line, then one per i in 1 .. n-1 |
| Parser.LineParser.ValidateString | src/casl2/parser/parser.ts:314-336 | the result and diagnostics are those of `Parsing.ValidateString` |
| Parser.LineParser.SplitStringLiteralToMdcs | src/casl2/parser/parser.ts:338-352 | after validation the MDC list grows by `Parsing.StringMdcs` of the text |
| Parser.LineParser.AddMdc | src/casl2/parser/parser.ts:354-361 | the MDC list and state become what `Parsing.AddMdc` gives |
| Parser.LineParser.Dc | src/casl2/parser/parser.ts:310-378 | DC ends in the state `Parsing.Dc` gives, the MDC records pushed at the end |
| Parser.LineParser.DcLoop | src/casl2/parser/parser.ts:366-374 | the comma loop ends as `Parsing.DcRest` says |
| Parser.LineParser.R | src/casl2/parser/parser.ts:388-396 | the `r` shape (POP) ends in the state `Parsing.R` gives |
| Parser.LineParser.AddressTail | src/casl2/parser/parser.ts:402-413 | the part after the address ends in the state `Parsing.AddressTail` gives |
| Parser.LineParser.R1AdrR2 | src/casl2/parser/parser.ts:398-415 | the `r1, adr[, x]` shape ends in the state `Parsing.R1AdrR2` gives |
| Parser.LineParser.R1R2OrR1AdrR2 | src/casl2/parser/parser.ts:418-447 | the `r1, r2` or `r1, adr[, x]` shape ends in the state `Parsing.R1R2OrR1AdrR2` gives |
| Parser.LineParser.Operands | src/casl2/parser/parser.ts:222-451 | the switch over the argument type ends in the state `Parsing.Operands` gives |
| Parser.LineParser.CreateInstruction | src/casl2/parser/parser.ts:211-221 | `createInstruction` ends in the state `Parsing.CreateInstruction` gives |
| Parser.LineParser.Run | src/casl2/parser/parser.ts:185-205 | the body of `parse` after the first scan ends in the state `Parsing.ParseLine` gives |
| Parser.AppendCharMdcs | src/casl2/parser/parser.ts:347-351 | the loop appends one MDC per character after the first, in order |
| Parser.Parse | src/casl2/parser/parser.ts:99-205 | the records and diagnostics of one line are those of `Parsing.ParseLine` |
| Parser.ParseLinesCrash | src/casl2/parser/parser.ts:89-91 | a line that throws makes the whole list throw |
| Parser.ParseAll | src/casl2/parser/parser.ts:86-97 | the loop over the lines returns `Parsing.ParseAllResult` |
| ParserProperties.TableCodesSized | src/instructions/instructionBase.ts:189-228 | with the corrected table every code the parser takes from the instruction table has a byte length, and so has code + 4 for LD-like mnemonics; with the table as written exactly RPUSH and RPOP have none |
| ParserProperties.TableCodesAsWritten | src/instructions/instructionBase.ts:189-228 | with the table as written, RPUSH and RPOP are exactly the non-I/O mnemonics whose code has no byte length |
| ParserProperties.BaseRecordSound | src/casl2/parser/parser.ts:249-443 | every base record the parser builds keeps the record invariant and has a byte length under the corrected table |
| ParserProperties.AdrAdrSound | src/casl2/parser/parser.ts:223-241 | the IN/OUT shape adds only well-formed records |
| ParserProperties.AdrR2Sound | src/casl2/parser/parser.ts:245-260 | the `adr[, x]` shape adds only well-formed records |
| ParserProperties.NoOperandSound | src/casl2/parser/parser.ts:263-268 | the no-operand shape adds only well-formed records (lengths from the corrected table) |
| ParserProperties.StartSound | src/casl2/parser/parser.ts:272-282 | START adds only well-formed records |
| ParserProperties.DsExpansionSound | src/casl2/parser/parser.ts:287-303 | the DS expansion is made of well-formed records |
| ParserProperties.DsSound | src/casl2/parser/parser.ts:284-305 | DS adds only well-formed records |
| ParserProperties.StringMdcsSound | src/casl2/parser/parser.ts:338-352 | the MDCs of a string are well formed |
| ParserProperties.CharMdcsShape | src/casl2/parser/parser.ts:347-351 | one MDC per character, each holding its character |
| ParserProperties.AddMdcSound | src/casl2/parser/parser.ts:354-361 | `addMDC` appends only well-formed records |
| ParserProperties.DcRestSound | src/casl2/parser/parser.ts:366-374 | the comma loop of DC adds only well-formed records |
| ParserProperties.DcSound | src/casl2/parser/parser.ts:310-378 | DC adds only well-formed records |
| ParserProperties.RSound | src/casl2/parser/parser.ts:388-396 | the `r` shape adds only well-formed records |
| ParserProperties.AddressTailSound | src/casl2/parser/parser.ts:402-413 | the part after the address adds only well-formed records |
| ParserProperties.R1AdrR2Sound | src/casl2/parser/parser.ts:398-415 | the `r1, adr[, x]` shape adds only well-formed records |
| ParserProperties.R1R2OrR1AdrR2Sound | src/casl2/parser/parser.ts:418-447 | the LD-like shapes add only well-formed records |
| ParserProperties.OperandsSound | src/casl2/parser/parser.ts:222-451 | every operand shape adds only well-formed records (lengths from the corrected table) |
| ParserProperties.CreateInstructionSound | src/casl2/parser/parser.ts:211-451 | `createInstruction` adds only well-formed records (lengths from the corrected table) |
| ParserProperties.ParseLineSound | src/casl2/parser/parser.ts:99-205 | every record one line yields is well formed (lengths from the corrected table) |
| ParserProperties.ParseLinesSound | src/casl2/parser/parser.ts:86-97 | every record `parseAll` yields is well formed (lengths from the corrected table) |
| ParserProperties.NothingToParse | src/casl2/parser/parser.ts:173-187 | a line with nothing after its first token, or only a comment, or a space and a comment, yields no record and no diagnostic |
| ParserProperties.DsExpansionShape | src/casl2/parser/parser.ts:284-305 | `DS 0` is one zero-length OLBL with the label; `DS n` (n > 0) is n NOP records with label and line on the first only |
| ParserProperties.StringMdcsShape | src/casl2/parser/parser.ts:338-352 | one MDC per character of a non-empty string, each with its character, label and line on the first only |
| ParserProperties.AddMdcConstant | src/casl2/parser/parser.ts:354-361 | a numeric or label constant adds exactly one MDC holding it |
| ParserProperties.AddMdcString | src/casl2/parser/parser.ts:338-361 | a string that decodes and is in range adds one MDC per character |
| ParserProperties.BadStringNoRecords | src/casl2/parser/parser.ts:314-336 | a string with broken `''` escaping or outside JIS X 0201 adds no record and exactly one diagnostic, code 14 or 15 |
| ParserProperties.DcRestAppends | src/casl2/parser/parser.ts:366-374 | the MDCs of the comma loop follow the earlier ones and carry neither label nor line |
| ParserProperties.AddMdcLabels | src/casl2/parser/parser.ts:338-361 | `addMDC` appends MDCs with the given label and line on the first only, or a diagnostic for a rejected string |
| ParserProperties.DcLabelOnFirst | src/casl2/parser/parser.ts:338-377 | DC pushes MDC records only, in source order; without a diagnostic the first carries label and line and every later one neither |
| ParserProperties.AddressTailCode | src/casl2/parser/parser.ts:402-413 | the part after the address keeps the table code and the address |
| ParserProperties.RegisterFormCode | src/casl2/parser/parser.ts:418-444 | `r1, r2` uses table code + 4 without address, `r1, adr[, x]` the table code with the address; their byte lengths are 2 and 4 |
| ParserProperties.UnnecessaryOperandNoRecord | src/casl2/parser/parser.ts:173-183 | a token left after a complete shape gives the `Unnecessary_operand` diagnostic and no record |
| ParserProperties.LineResults | src/casl2/parser/parser.ts:89-91 | one result per line, in order |
| ParserProperties.ParseLinesCombine | src/casl2/parser/parser.ts:86-97 | parsing all lines equals combining the results of each line parsed on its own |
| ParserProperties.CombineAll | src/casl2/parser/parser.ts:86-97 | combining succeeds exactly when every part does, and has no diagnostic exactly when no part has one |
| ParserProperties.ParseLinesAll | src/casl2/parser/parser.ts:86-97 | every line is parsed whatever the earlier ones gave, and a throw on any line throws |
| ParserProperties.ParseAllSuccess | src/casl2/parser/parser.ts:86-97 | `parseAll.success` holds exactly when no line produced a diagnostic of any category |
| ParserProperties.LdRegisterLineParses | src/casl2/parser/parser.ts:418-444 | `LD GR1, GR2` parses to one record with code 0x14 that encodes as 0x1412 |
| ParserProperties.RpushLineParses | src/casl2/parser/parser.ts:263-268 | `RPUSH` parses to one record with code 0xA0 and no diagnostic; its byte length is undefined with the table as written (src/instructions/instructionBase.ts:47) and 2 with the corrected one |
| Compilation.DuplicateDiagnosticIsCreated | src/casl2.ts:154 | the duplicate-label diagnostic is `createDiagnostic` at the record's line, columns 0 to 0, with the `Duplicate_label` template naming the label |
| Compilation.Phase1Sound | src/casl2.ts:61-79 | phase 1 builds well-formed records only (lengths from the corrected table) |
| Compilation.LiteralGroupSound | src/casl2.ts:99-116 | a literal's DC group is well formed and its first record carries the generated label |
| Compilation.DriverGroupsSound | src/casl2.ts:99-116 | every literal group of the driver is well formed |
| Compilation.PoolSound | src/casl2.ts:84-118 | pooling keeps the records well formed and adds well-formed generated ones |
| Compilation.LayoutSound | src/casl2.ts:147-183 | scoping and label registration keep the records well formed |
| Compilation.ResolveSound | src/casl2.ts:186-191 | resolution keeps the records well formed |
| Compilation.AnalyzeSound | src/casl2.ts:36-205 | `analyze` returns well-formed records (lengths from the corrected table) |
| Compilation.PoolThrowIsFinal | src/casl2.ts:84-118 | a throw while pooling ends the analysis |
| Compilation.ResolveThrowIsFinal | src/casl2.ts:186-191 | a throw during resolution ends the analysis |
| Compilation.HexThrowIsFinal | src/casl2.ts:216-217 | a throwing `toHex` makes the whole emission throw |
| Casl2Driver.SumByteLength | src/casl2.ts:127-130 | the loop computes the sum of the byte lengths of the ordinary records |
| Casl2Driver.PlaceGenerated | src/casl2.ts:135-144 | the loop adds each labelled generated record unscoped at (total + lengths before it) / 2 |
| Casl2Driver.AssignLabels | src/casl2.ts:147-183 | the loop's records, maps, problems and counters are those of the label-loop fold |
| Casl2Driver.RegisterLabel | src/casl2.ts:158-175 | one record's label is bound, added or reported as a duplicate exactly as the fold's registration step says |
| Casl2Driver.ResolveRecords | src/casl2.ts:186-191 | the loop's records and problems are those of the resolution fold |
| Casl2Driver.RunChecks | src/casl2.ts:193-197 | every record's check diagnostics are pushed in order |
| Casl2Driver.HexWords | src/casl2.ts:216-217 | the words of every record in order, or a throw |
| Casl2Driver.DropUndefinedWords | src/casl2.ts:218 | the loop keeps the words that are not −1, in order |
| Casl2Driver.Casl2.constructor | src/casl2.ts:32-34 | the driver keeps the option and the given collaborators |
| Casl2Driver.Casl2.Tokenize | src/casl2.ts:61-72 | the token lists and diagnostics are those of the tokenizing fold |
| Casl2Driver.Casl2.PhaseOne | src/casl2.ts:61-79 | the records and problems are those of phase 1 |
| Casl2Driver.Casl2.LiteralRecords | src/casl2.ts:99-116 | the DC group of one literal is `LiteralGroup`, its first record relabelled |
| Casl2Driver.Casl2.PoolRecord | src/casl2.ts:85-117 | one record of the pooling loop: a record without a literal is kept, one with a literal takes the next label and its DC group is generated or its errors reported, and a throw is passed on, exactly as one step of the pooling fold |
| Casl2Driver.Casl2.PoolLiterals | src/casl2.ts:84-118 | the pooling loop ends where the pooling fold does |
| Casl2Driver.Casl2.Analyze | src/casl2.ts:36-205 | `analyze` returns what `AnalyzeSpec` gives, and the label map built holds its entries and bind entries |
| Casl2Driver.Casl2.Compile | src/casl2.ts:207-230 | `compile` returns what `CompileAll` gives |
| Casl2Driver.EmitWords | src/casl2.ts:210-229 | emission returns what `CompileSpec` gives |
| CompilationProperties.TokenizeCount | src/casl2.ts:61-72 | every non-blank line gives one token list or exactly one `Invalid_instruction_line` diagnostic, and blank lines give nothing |
| CompilationProperties.TokenizePrefix | src/casl2.ts:61-72 | the outputs for a prefix of the lines are prefixes of the outputs for all of them |
| CompilationProperties.TokenizeKeepsLine | src/casl2.ts:61-79 | a failing line does not stop the others: every non-blank line that tokenizes reaches the parser |
| CompilationProperties.BlankLinesGiveNothing | src/casl2.ts:64 | blank lines only: nothing to parse and nothing to report |
| CompilationProperties.PoolAgrees | src/casl2.ts:84-118 | the pooling loop agrees with the front-first reading: rewritten records, then the generated groups in instruction order |
| CompilationProperties.PoolFromLabels | src/casl2.ts:84-89 | the k-th literal gets the k-th generated label; a record with a literal has its address replaced by that label, any other record is unchanged |
| CompilationProperties.PoolWithoutLiterals | src/casl2.ts:84-118 | without literals nothing is generated and the records pass through unchanged |
| CompilationProperties.DriverPoolGroupsLabelled | src/casl2.ts:99-110 | a literal whose DC line parses cleanly generates records, the first labelled with the literal's label |
| CompilationProperties.LiteralGroupOneSide | src/casl2.ts:105-116 | a literal's group has either records or diagnostics, never both |
| CompilationProperties.GeneratedAddress | src/casl2.ts:135-144 | a labelled generated record not relabelled later is placed at (total + byte lengths before it) / 2 |
| CompilationProperties.GeneratedEntriesFrame | src/casl2.ts:135-144 | generated labels add bare keys only, and every other key keeps its entry |
| CompilationProperties.LayoutCounters | src/casl2.ts:147-183 | one record out per record in; the scope starts at 1 and rises after every END only with label scopes on; the byte offset advances by each length |
| CompilationProperties.LayoutScopes | src/casl2.ts:156 | every record comes out in place, tagged with the scope in force when reached |
| CompilationProperties.RegisterDuplicate | src/casl2.ts:153-172 | a label `has` reports gets a `Duplicate_label` diagnostic with code 1 and nothing is registered |
| CompilationProperties.RegisterOrdinary | src/casl2.ts:171-172 | an ordinary label is registered in its scope at the current word, and no other entry changes |
| CompilationProperties.RegisterStartBare | src/casl2.ts:166-169 | START without operand is added under its bare name at the current word |
| CompilationProperties.RegisterStartBind | src/casl2.ts:159-162 | START with an operand gets no own address and is bound to the operand in its scope |
| CompilationProperties.DuplicateInScopeUndetected | src/casl2.ts:171-172 | as written, a second ordinary label of the same name in the same scope is not reported and takes over the scoped entry |
| CompilationProperties.OrdinaryLabelAddress | src/casl2.ts:147-177 | a non-duplicate ordinary label is registered at (sum of the byte lengths before it) / 2 in its scope |
| CompilationProperties.UnsizedPoisonsTotal | src/casl2.ts:127-130 | with the table as written, the running byte total (`totalByteLength`, and `byteOffset` at src/casl2.ts:177) is NaN from an RPUSH or RPOP record on |
| CompilationProperties.AsWrittenTotalAgrees | src/casl2.ts:127-130 | for well-formed records without RPUSH or RPOP, the running total with the table as written equals the total the model uses |
| CompilationProperties.ResolveOne | src/casl2.ts:186-190 | a resolved record is confirmed exactly when no error came back, and is unchanged with an error |
| CompilationProperties.ResolveCounts | src/casl2.ts:186-191 | resolution keeps one record per record and adds at most one problem for each |
| CompilationProperties.ResolveKeeps | src/casl2.ts:186-191 | resolution keeps name, label, scope and byte length of every record |
| CompilationProperties.ResolveConfirms | src/casl2.ts:186-191 | without a new problem every record comes out confirmed |
| CompilationProperties.HexOfAppend | src/casl2.ts:216-217 | the words of a concatenation are the words of each part in order |
| CompilationProperties.DropMinusOneAppend | src/casl2.ts:218 | dropping −1 words splits over concatenation |
| CompilationProperties.DropMinusOneCounts | src/casl2.ts:218 | no −1 is left and every other value keeps its number of occurrences |
| CompilationProperties.CompileEmits | src/casl2.ts:207-230 | words are emitted exactly when `analyze` reported no problem, there is a record and every `toHex` succeeded |
| CompilationProperties.CompileOutputShape | src/casl2.ts:212-224 | the output is the entry point (first label in scope 1), seven zeros, then the words of the ordinary and generated records with −1 dropped |
| LexerResults.NewLexerResult | src/casl2/lexerResult.ts:17-43 | every field is stored as given, and the line is a comment line exactly when there is a comment and no label, mnemonic, register or address |
| LexerResults.CommentFlagIgnoresOptionalFields | src/casl2/lexerResult.ts:37-42 | the comment-line flag does not depend on word count, constants or length address |
| LexerResults.OmittedFieldsUndefined | src/casl2/lexerResult.ts:24-35 | the omitted optional fields are undefined |
| FieldLexer.GrNames | src/casl2/lexer.ts:189-199 | GR8 is among the register names exactly when the option is on; GR0..GR7 always are |
| FieldLexer.ToGR | src/casl2/lexer.ts:201-215 | a name converts exactly when it is a register name under the option, and gives that register's number |
| FieldLexer.ToConst | src/casl2/lexer.ts:217-236 | a value that passes is never NaN, and a numeric one is never zero (falsy values are refused) |
| FieldLexer.IndexOf | src/casl2/lexer.ts:33 | the first position of the character, or none |
| FieldLexer.SplitFields | src/casl2/lexer.ts:46 | the split on `\s+` or `,\s+` is never empty |
| FieldLexer.SplitFieldsNoWhiteSpace | src/casl2/lexer.ts:46 | no field of the split contains white space |
| FieldLexer.Consts | src/casl2/lexer.ts:86-95 | one constant per operand in order, or none as soon as one is refused |
| FieldLexer.Operands | src/casl2/lexer.ts:80-173 | every register the operand stage stores is `toGR` of the operand it was read from |
| FieldLexer.RegisterOperands | src/casl2/lexer.ts:121-172 | the register and address operands keep label, mnemonic and comment |
| FieldLexer.RegisterFirst | src/casl2/lexer.ts:125-149 | the register-first shapes keep label, mnemonic and comment |
| FieldLexer.AddressFirst | src/casl2/lexer.ts:150-170 | the address-first shapes keep label, mnemonic and comment |
| FieldLexer.Lexer.constructor | src/casl2/lexer.ts:13-15 | the lexer keeps its option |
| FieldLexer.Lexer.Tokenize | src/casl2/lexer.ts:21-174 | `tokenize` returns `TokenizeSpec` of the line with the lexer's option |
| FieldLexer.Lexer.LexOperands | src/casl2/lexer.ts:80-173 | the operand branch returns what `Operands` gives |
| FieldLexer.Lexer.LexRegisterOperands | src/casl2/lexer.ts:121-172 | the register branch returns what `RegisterOperands` gives |
| FieldLexer.TokenizeLine | src/casl2/lexer.ts:17-19 | the static `tokenize` uses a lexer without GR8 |
| FieldLexerProperties.OperandsKeepHead | src/casl2/lexer.ts:173 | every result of the operand stage carries the label, mnemonic and comment it was given |
| FieldLexerProperties.CommentLineIff | src/casl2/lexer.ts:32-41 | a line is a comment line exactly when it has a `;` with only white space before it, and the comment is the text from there |
| FieldLexerProperties.HeadFields | src/casl2/lexer.ts:47-68 | a first field that is not a mnemonic must be a non-GR label followed by a mnemonic, otherwise `InvalidLabelError` or `InvalidInstructionError` |
| FieldLexerProperties.LongTextIsNoLabel | src/casl2/lexer.ts:176-181 | `isLabel` is false for any text longer than eight characters |
| FieldLexerProperties.PlainNameIsLabel | src/casl2/lexer.ts:176-181 | a capital followed by capitals and digits, at most eight in all, is a label |
| FieldLexerProperties.DcOperands | src/casl2/lexer.ts:82-96 | DC needs at least one operand and every operand must pass `toConst`; the constants keep source order |
| FieldLexerProperties.InOutOperands | src/casl2/lexer.ts:97-120 | IN and OUT need exactly two operands, stored as address and length address |
| FieldLexerProperties.DsWordCount | src/casl2/lexer.ts:157-162 | a word count is set exactly for DS with one numeric operand that does not start with `#` |
| FieldLexerProperties.MinusIsNoAddress | src/casl2/lexer.ts:255-256 | a non-label operand with a leading `-` is not an address |
| FieldLexerProperties.DecimalAddress | src/casl2/lexer.ts:257-264 | a string of decimal digits is the address of its value |
| FieldLexerProperties.Gr8OnlyWithOption | src/casl2/lexer.ts:189-215 | GR8 is a register only with `useGR8`, for `isGR` and `toGR` alike |
| FieldLexerProperties.NoGr8WithoutOption | src/casl2/lexer.ts:189-215 | without the option every stored register is GR0..GR7 |
| FieldLexerProperties.NoCapitalNoLabel | src/casl2/lexer.ts:176-181 | text without a capital never passes `isLabel` |
| FieldLexerProperties.ZeroIsNoConstant | src/casl2/lexer.ts:219-220 | zero is falsy, so `0` is not a constant |
| FieldLexerProperties.HexZeroIsNoConstant | src/casl2/lexer.ts:223-226 | `#0000` is not a constant either |
| FieldLexerProperties.HashIsNoDecimal | src/casl2/lexer.ts:219 | text starting with `#` has no decimal value |
| FieldLexerProperties.HexAddressUndefined | src/casl2/lexer.ts:249-252 | as written, a well-formed hex address falls through to undefined |
| FieldLexerProperties.MalformedHexAddressIsNaN | src/casl2/lexer.ts:249-252 | a `#` with no hex digit after it is NaN |
| FieldLexerProperties.ZeroAddressAfterRegister | src/casl2/lexer.ts:136-137 | after a register, the address 0 is falsy and refused |
| FieldTokenizer.NextPiece | src/casl2/lexer/tokenizer.ts:35-52 | the token at the start of the text is a non-empty prefix of it, from the first matching definition |
| FieldTokenizer.InstructionField | src/casl2/lexer/tokenizer.ts:23-30 | the mnemonic pattern gives at most one non-empty field, and without a match the whole text is the operand text |
| FieldTokenizer.FirstField | src/casl2/lexer/tokenizer.ts:15-19 | the first field is a non-empty prefix of the trimmed line |
| FieldTokenizer.HeadFields | src/casl2/lexer/tokenizer.ts:15-30 | one or two non-empty head fields, or none when there is no first field or a comma follows it |
| FieldTokenizer.TryMatch | src/casl2/lexer/tokenizer.ts:35-52 | reports a match exactly when a definition matches at the index, and then gives the index after it and the token unless it is a comma or a space |
| FieldTokenizer.SplitToTokens | src/casl2/lexer/tokenizer.ts:6-67 | the function's result equals `SplitToTokensSpec` |
| FieldTokenizer.MatchHead | src/casl2/lexer/tokenizer.ts:7-30 | the two anchored matches and early returns give `HeadFields` |
| FieldTokenizer.ScanOperands | src/casl2/lexer/tokenizer.ts:54-63 | the scanning loop gives `OperandTokens` of the operand text |
| FieldTokenizer.TokensStep | src/casl2/lexer/tokenizer.ts:56-63 | one loop step: no token at the end, failure where nothing matches, otherwise the kept token followed by the rest |
| FieldTokenizerProperties.FirstFieldIsLeadingRun | src/casl2/lexer/tokenizer.ts:7-17 | the first output is the leading run of non-space, non-comma characters of the trimmed line, and a line without one is an error |
| FieldTokenizerProperties.BlankLineFails | src/casl2/lexer/tokenizer.ts:15-16 | a blank line is an error |
| FieldTokenizerProperties.LeadingCommaFails | src/casl2/lexer/tokenizer.ts:15-16 | a line whose first non-blank character is a comma is an error |
| FieldTokenizerProperties.CommaAfterFirstFieldFails | src/casl2/lexer/tokenizer.ts:19-20 | a comma directly after the first field is an error |
| FieldTokenizerProperties.SecondField | src/casl2/lexer/tokenizer.ts:23-27 | the second output is the mnemonic field and the rest are the kept operand tokens |
| FieldTokenizerProperties.SeparatorIsDropped | src/casl2/lexer/tokenizer.ts:44-46 | a token starting with white space or a comma is a space or comma token, which is dropped |
| FieldTokenizerProperties.NoSeparatorTokens | src/casl2/lexer/tokenizer.ts:44-46 | no output token is empty or starts with white space or a comma |
| FieldTokenizerProperties.PiecesCover | src/casl2/lexer/tokenizer.ts:56-63 | the scanned tokens, dropped ones included, cover the operand text exactly and in order |
| FieldTokenizerProperties.UnmatchedPositionFails | src/casl2/lexer/tokenizer.ts:56-63 | a refused operand text has a position where no definition matches |
| FieldTokenizerProperties.FieldsNonEmpty | src/casl2/lexer/tokenizer.ts:17-66 | every output field is non-empty |
| Instructions.ToOperand | src/instructions/instructions.ts:39-95 | a number or text becomes a record operand, and NaN throws |
| Instructions.BaseRecord | src/instructions/instructions.ts:41-88 | a base record as built here: no line number, the given code, label, registers and address |
| Instructions.Create | src/instructions/instructions.ts:14-98 | a result that does not throw is one record with the given mnemonic and label, or an `ArgumentError` |
| Instructions.CreateAddaLike | src/instructions/instructions.ts:67-81 | a result that does not throw is one record with the given mnemonic and label, or an `ArgumentError` |
| Instructions.CreateIn | src/instructions/instructions.ts:100-107 | both operands must be defined; the record is IN with buffer and length buffer |
| Instructions.CreateOut | src/instructions/instructions.ts:109-116 | both operands must be defined; the record is OUT with buffer and length buffer |
| Instructions.Nop | src/instructions/instructions.ts:147-150 | a NOP record with code 0x00, the given label and a byte length of 2 |
| Instructions.CreateDs | src/instructions/instructions.ts:134-154 | the loop's result equals `CreateDsSpec` |
| Instructions.SplitStringLiteral | src/instructions/instructions.ts:173-187 | the loop's result equals `ConstMdcs` of the string constant |
| Instructions.ConstRecords | src/instructions/instructions.ts:189-211 | the records of one constant are `ConstMdcs` |
| Instructions.DcPrefixFailureSticks | src/instructions/instructions.ts:214-225 | once a constant has failed, later constants do not change the outcome |
| Instructions.CreateDc | src/instructions/instructions.ts:156-229 | the loop's result equals `CreateDcSpec` |
| Instructions.ExpandConsts | src/instructions/instructions.ts:200-227 | the loop over several constants equals `DcPrefix`: each constant's MDCs in order, the label on the first, and the first failure is the result |
| Instructions.CreateDsDc | src/instructions/instructions.ts:121-132 | DS and DC dispatch to their builders, and any other mnemonic throws |
| InstructionsProperties.WholeWord | src/instructions/instructions.ts:18-36 | for a name of word characters, a group's word-boundary pattern matches exactly when the name is in the group |
| InstructionsProperties.GroupTests | src/instructions/instructions.ts:18-36 | for every mnemonic and directive, each group test is plain membership |
| InstructionsProperties.InstMapAgreesWithTable | src/instructions/instructions.ts:231-262 | `InstMap` holds every group name except END and START, with the codes of the parser's table |
| InstructionsProperties.AddaLikeLengths | src/instructions/instructions.ts:231-262 | for each ADDA-like mnemonic the `InstMap` code has length 4 and code + 4 length 2 |
| InstructionsProperties.CreateNopLike | src/instructions/instructions.ts:36-43 | a no-operand mnemonic with any truthy register or address is an `ArgumentError`, otherwise a bare record |
| InstructionsProperties.CreatePop | src/instructions/instructions.ts:44-51 | POP needs a truthy r1 and no truthy r2 or address, and keeps r1 only |
| InstructionsProperties.PopGr0Rejected | src/instructions/instructions.ts:44-51 | as written, `POP GR0` is an `ArgumentError` because GR0 is falsy |
| InstructionsProperties.CreateJumpLike | src/instructions/instructions.ts:52-59 | a jump-like mnemonic needs a truthy address and no truthy r1, and r2 becomes the index register |
| InstructionsProperties.CreateLadLike | src/instructions/instructions.ts:60-66 | ST, LAD and the shifts need a truthy r1 and a truthy address, and keep r1, r2 and the address |
| InstructionsProperties.AddaLikeDispatch | src/instructions/instructions.ts:36-81 | an ADDA-like mnemonic passes none of the earlier group tests and reaches its own branch |
| InstructionsProperties.AddaLikeSkipsEarlierGroups | src/instructions/instructions.ts:36-67 | the earlier group patterns do not match an ADDA-like mnemonic, and its own does |
| InstructionsProperties.CreateAddaLikeAddress | src/instructions/instructions.ts:67-74 | with a truthy address, r1 is needed and the record keeps the table code (four bytes), r1, r2 and the address |
| InstructionsProperties.CreateAddaLikeRegisters | src/instructions/instructions.ts:75-81 | without a truthy address, two truthy registers are needed (or it throws) and the record takes code + 4 (two bytes) and no address |
| InstructionsProperties.CreateStart | src/instructions/instructions.ts:82-88 | START needs no truthy register and keeps its optional address |
| InstructionsProperties.CreateInOut | src/instructions/instructions.ts:90-95 | IN and OUT throw without both operands, and otherwise become I/O records with buffer and length buffer |
| InstructionsProperties.CreateRejectsDirectives | src/instructions/instructions.ts:96-97 | `create` throws on DS and DC |
| InstructionsProperties.CreateDsZero | src/instructions/instructions.ts:139-144 | zero words give one OLBL record of no bytes with the label |
| InstructionsProperties.CreateDsBlock | src/instructions/instructions.ts:145-153 | n words give max(n, 1) two-byte NOP records with the label on the first only |
| InstructionsProperties.CreateDsNeedsWordCount | src/instructions/instructions.ts:134-137 | DS without word count, or another mnemonic, throws |
| InstructionsProperties.ConstMdcsInBmp | src/instructions/instructions.ts:172-184 | where every unescaped character is one UTF-16 code unit, there is one MDC per unit of `length`, record i holding the unit `charAt(i)` gives |
| InstructionsProperties.ConstMdcsShape | src/instructions/instructions.ts:163-200 | a string gives one MDC per unescaped character, any other value one MDC holding it, label on the first only; bad escaping is the quote error |
| InstructionsProperties.DcPrefixShape | src/instructions/instructions.ts:201-226 | the constants expand without throwing; failure happens exactly for a badly quoted string; otherwise MDCs only, label on the first |
| InstructionsProperties.CreateDcShape | src/instructions/instructions.ts:156-229 | `createDC` fails exactly when a string constant is badly quoted; otherwise every record is an MDC and only the first has the label |
| InstructionsProperties.DcPrefixValues | src/instructions/instructions.ts:201-226 | numeric and label constants give one MDC per constant, in order, each holding its value |
| InstructionsProperties.CreateDcValues | src/instructions/instructions.ts:201-228 | two or more numeric or label constants give one MDC per constant in source order, label on the first only |
| JsText.Utf16LengthInBmp | src/instructions/instructions.ts:180 | JavaScript's `length` equals the number of characters exactly when every character lies in the Basic Multilingual Plane |
| JsText.TrimEmptyIffBlank | src/casl2.ts:64 | a line trims to the empty string exactly when every character is white space |
| JsText.ParseIntAutoIsDecimal | src/casl2/parser/parser.ts:285 | `parseInt` without radix reads text without a `0x` prefix as decimal |
| JsText.ParseIntOfNonNumber | src/casl2/lexer.ts:219 | text starting with neither white space, a sign nor a digit is NaN |
| JsText.ParseIntOfHexDigits | src/casl2/parser/parser.ts:512-513 | a string of hex digits reads as its own value in radix 16 |
| JsText.ParseIntOfDecimalToken | src/casl2/parser/parser.ts:508-509 | text shaped like `-?\d+` reads as its own decimal value |
| JsText.ParseIntOfIntToString | src/casl2.ts:100 | `parseInt(String(n), 10) == n`, so a decimal literal survives being written into its DC line |

## Left out

- File I/O (`src/io/writer.ts`, `src/reader.ts`), the demo script and the `console` output are not part of this model.
- The random label generator (`Math.random`) is a parameter. `labels(k)` is the k-th label handed out, and the driver assumes no generated label collides with a source label.
- These come from a package this model cannot see, so they are parameters or concrete stand-ins:
  - the instruction information list (`instructionsInfo`): a concrete table with the opcodes of `instructions.ts:231-262`, plus IN 0x90 and OUT 0x91;
  - the `ArgumentType` values: chosen flags whose one relied-on relation, 4 + 8 == 12, holds;
  - the `GR` enum: GR0..GR7 = 0..7, GR8 = 8;
  - `jisx0201.isStrInRange`, used by the parser: a parameter.
- Lexer.SplitToTokens: the token definition list of the current tokenizer is a parameter, since the shown `token.ts` has no TINSTRUCTION or TCOMMENT definition, yet the parser needs both (parser.ts:175-177, 192, 212). A definition may use the ten patterns of `token.ts`, `;.*` or a mnemonic alternation followed by `\b`; the exact patterns of the missing definitions are not part of this model. `Lexer.LabelMnemonicComment` shows a list that yields TLABEL, TINSTRUCTION and TCOMMENT tokens. With the table of `token.ts` alone (`Token.TokenDefinitions`), a mnemonic lexes as TLABEL and `;` matches nothing, so the driver lemmas instantiated with that table describe a tokenizer that rejects every line holding a comment and parses no mnemonic. The TCOMMASPACE kind of lexer.test.ts is TCOMMA here. The older tokenizer uses the concrete table of `token.ts`.
- Lexer.SplitToTokens: token columns (`startIndex`, `endIndex`) count characters, where JavaScript counts UTF-16 code units; they differ after a character outside the Basic Multilingual Plane. The same holds for diagnostic columns.
- `inst.check()` (label length and address range) is not in the shown files. It is a parameter `check` of the driver, whose diagnostics are pushed in order.
- JavaScript regular expressions and `parseInt` are written out only for the patterns and radixes used (decimal, hex, `0x`). Number values are integers or NaN, so floating-point numbers are not modelled.
- The record constructors in `mdc.ts`, `in.ts`, `out.ts` and `instructions.ts` are called with an older argument order (no line number). Records are one datatype with the fields the callers supply. The older front end's records have no line number.
- OLBL passes code −1, which has no table entry. It is modelled by its stated intent: no code, byte length 0, no words.
- `casl2.ts:160,171` call `has` with a scope argument that the shown `LabelMap.has` ignores. The model ignores it too (see `CompilationProperties.DuplicateInScopeUndetected`). `setLabel` is not in the shown files; it is modelled as a setter of the label.
- Records are values. Every mutator returns the updated record, and the driver replaces the record's slot in its sequence. Aliasing between record objects is therefore not modelled; the source shares none between the lists it keeps.
- Instructions.SplitStringLiteral: one MDC per character of the unescaped string, where instructions.ts:177-183 walks `escaped.length` with `charAt(i)`, one MDC per UTF-16 code unit, with no JIS X 0201 check. A character outside the Basic Multilingual Plane gives one MDC here and two (its surrogates) in the source. Strings are Unicode scalar values in this model, and both agree exactly on strings within that plane (`InstructionsProperties.ConstMdcsInBmp`, `JsText.Utf16LengthInBmp`).
- InstructionsProperties.ConstMdcsShape: counts one MDC per character, not per UTF-16 code unit; the count agrees with the source only on strings within the Basic Multilingual Plane (`InstructionsProperties.ConstMdcsInBmp`).
- Records.MdcWords: a one-character literal outside the Basic Multilingual Plane yields its code point here, where mdc.ts:15-17 sees `length` 2 and throws; within that plane the code point is what `charCodeAt(0)` gives. The parser path does not reach this, since its JIS X 0201 check (parser.ts:329) rejects such a string first; the older DC path (`Instructions.SplitStringLiteral`) does not check the range.
- Instructions.ToOperand: a NaN operand throws here, where instructions.ts:39-95 stores it; see the line on `Instructions.Create`.
- Records.InOutWords: an unconfirmed I/O record throws here, where inOut.ts:9-16 emits its values unchecked; see the line on `Records.Instruction.ToHex`.
- Instructions.Create: a NaN operand that would be stored in a record (the field lexer's `#` branch can return NaN) is a throw here, because records hold integers or label texts.
- Instructions.CreateAddaLike: `InstMap.get(inst)! + 4` on a name without entry is NaN in the source; here it is a throw.
- Number.MAX_VALUE is modelled as its exact integer value.
- Records.NewInstruction: records carry the byte length of the corrected table (RPUSH and RPOP have length 2), because the source's undefined length turns every later offset into NaN (see "## Findings"). The as-written length is kept beside it (`AsWrittenByteLength`, `AsWrittenTotal`), but the layout, the addresses (`CompilationProperties.OrdinaryLabelAddress`, `CompilationProperties.GeneratedAddress`) and `Casl2Driver.SumByteLength` describe the corrected program. For programs without RPUSH or RPOP both agree (`CompilationProperties.AsWrittenTotalAgrees`).
- BaseRecordSound: the defined byte length it proves holds with the corrected table only; as written, RPUSH and RPOP records have none.
- NoOperandSound: the RPUSH and RPOP records it covers have a defined length only with the corrected table.
- OperandsSound: it includes the no-operand RPUSH and RPOP case, defined in length only with the corrected table.
- CreateInstructionSound: it rests on `NoOperandSound`, so its defined lengths hold with the corrected table only.
- ParseLineSound: a line with RPUSH or RPOP gives a record whose length is defined only with the corrected table.
- ParseLinesSound: the same dependence on the corrected table as `ParseLineSound`.
- Phase1Sound: "well formed" includes a defined length, which RPUSH and RPOP records lack with the table as written.
- AnalyzeSound: it rests on `Phase1Sound`, so it too holds with the corrected table only.
- Records.Instruction.ToHex: an MDC without a character whose address is not a number, and an IN/OUT record whose code or operands are not all numbers, throw here; the source emits the unchecked value (`mdc.ts:20-22`, `inOut.ts:9-16`), which is a label text or undefined. Words are integers in this model. After a clean `analyze` every record is confirmed (`CompilationProperties.ResolveConfirms`), so `compile` does not reach these cases.
- Parsing.ToAddress: a `#` text whose hex digits do not parse is returned as NaN by the source (`parser.ts:489-492`); here it throws, because operands are integers or label texts.
- The debugging information and the `CompileResult`, error and option classes are plain data carriers and are mirrored as datatypes only.

## Findings

| source | as written | input that shows it | evidently intended | confidence | as-written member | corrected member |
|---|---|---|---|---|---|---|
| src/instructions/instructionBase.ts:189-228 | the byte-length table has no entry for 0xA0 (RPUSH) or 0xA1 (RPOP), so `byteLengthMap.get(code)!` is undefined and every later byte offset becomes NaN | a program containing `RPUSH` or `RPOP` (the line `    RPUSH` parses to an unsized record, `ParserProperties.RpushLineParses`) | both are one-word instructions of byte length 2 | high (not executed) | CompilationProperties.UnsizedPoisonsTotal | InstructionMaps.EveryCodeHasLength |
