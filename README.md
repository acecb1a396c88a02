# MIPS code generator for three-address code

This project models the `CodeGenerator` class of a small compiler back end. The class translates numbered three-address statements into MIPS assembly text in two passes.

- **Pass 1** takes the number off each line, keeps the stripped text, and fills a label table that maps each number `n` to `Ln`.
- **Pass 2** writes a fixed prologue (`.data`, `x: .space 400`, `.text`, `.globl main`, `main:`). Then, for each statement, it writes the statement's label line and the instructions for that statement. It ends with `jr $ra`. The lines are joined with line feeds.

## Statement shapes

Each statement is lowered by its shape, tested in a fixed order:

| shape | text | instructions |
|---|---|---|
| return | `return` | `jr $ra` |
| branch | `if a <cmp> b then goto n` | one `ble`/`bge`/`beq`/`bne`/`blt`/`bgt` |
| jump | `goto n` | `j Ln` (nothing if the pattern fails) |
| array load | `d = a[i]` | `add $at, …` then `lw` |
| array store | `a[i] = s` | `add $at, …` then `sw` |
| copy | one token after the first `=` | `li` or `move` |
| binary operation | three tokens after the first `=` | `addi` for `+`/`-` with an immediate; otherwise an optional `li $at` then `add`/`sub`/`mul`, or `div` plus `mflo` |

Any other text yields no instructions.

## Register allocation

Operand names go through a register allocator (`get_reg`):

- Decimal literals are used as written.
- The array name `x` is bound to `$s0`.
- Every other name is bound, on first use, to the next register of a 23-register pool, `$t0`–`$t9`, `$s1`–`$s7`, `$a0`–`$a3`, `$v0`–`$v1`.

## Modules

| file | module | what it holds |
|---|---|---|
| `results.dfy` | `Results` | `Option` and `Result` |
| `ascii.dfy` | `Ascii` | The Python string operations the generator relies on, on ASCII text: `isdigit`, `\w`, `\s`, `strip`, `split()`, `split('=', 1)` and `join`. |
| `tac_patterns.dfy` | `TacPatterns` | A backtracking matcher for the regular expressions the generator uses. Three facts are proved once for every pattern: every match is a fitting split (soundness); a match exists exactly when a fitting split does; and a split of first choices is the one returned. Also the five concrete patterns (statement number, branch, jump, load, store), each with round-trip lemmas. |
| `reg_alloc.dfy` | `RegAlloc` | The allocator state as a value: the table `varReg`, the pool and the cursor `nextReg`. It has its specification `GetRegSpec` and its invariant `Valid`, which says no immediate is ever bound, `$s0` serves only `x`, names hold distinct registers from the used prefix of the pool, and the cursor counts them. |
| `lowering.dfy` | `Lowering` | The shape of a statement (`Classify`) and the specification of `_gen_instr` (`GenInstrSpec`). |
| `code_generator.dfy` | `CodeGen` | Pass 1 and pass 2 as functions, and the class `CodeGenerator`. The class has the allocator's three fields; its methods `GetReg`, `GenInstr` (with one helper method per shape) and `Generate` are proved against those functions, including the two loops of `generate`. |

Errors are values:
- `PoolExhausted(name)` is the `IndexError` that a 24th register name raises.
- `MissingLabel(n)` is the `KeyError` that a jump to an unnumbered statement raises.

Each error comes with the allocator state at the moment it is raised, since Python leaves the bindings made before the error in place.

## Where the documented behaviour and the code differ

In each case below, the model follows the code.

- **The allocator is not reset between calls.** `generate` does not clear `var_reg` or `next_reg`. A second call on the same object keeps the earlier bindings, so the model threads the allocator state through `GenerateSpec`.
- **Lines without a leading statement number are dropped.** They are not given their position in the input as a number. (`MatchMarker`, `UnnumberedLine`.)
- **A colon after the number stays in the statement text.** `1: a = 2` becomes the statement `: a = 2`, so its destination is the name `: a`. After the same step, `3: if a < b then goto 1` no longer starts with `if `, contains no `=`, and produces no instructions.
- **Later duplicates share a label.** A statement number that occurs twice keeps one label, and every occurrence writes it as its label line.

## Model

| member | source | states |
|---|---|---|
| `Ascii.StripPadded` | code_generator.py:46 | Stripping removes exactly the whitespace around a text that has no whitespace at either end of its own. |
| `Ascii.SplitFirst` | code_generator.py:114 | A whitespace-free token after leading whitespace is the first token of `split()`, and the rest is split in turn. |
| `Ascii.FirstIndex` | code_generator.py:113 | `split('=', 1)` splits at the first `=`: the index holds `=` and no earlier index does. |
| `Ascii.JoinAppend` | code_generator.py:64 | Joining two nonempty blocks of lines equals joining each and putting one separator between them. |
| `TacPatterns.PiecesSound` | code_generator.py:41 | Any match divides a prefix of the text into pieces, and each piece fits its pattern element (literal, optional character, class run, alternation). |
| `TacPatterns.PiecesComplete` | code_generator.py:41 | Pieces that fit and that the left-to-right greedy search would choose are exactly the pieces the matcher returns. |
| `TacPatterns.PiecesExist` | code_generator.py:41 | Whenever any split of a prefix of the text fits the pattern, the matcher succeeds, whichever split that is. |
| `TacPatterns.PiecesIff` | code_generator.py:41 | The matcher succeeds on a text if and only if some prefix of it splits into pieces that fit the pattern's elements. |
| `TacPatterns.PieceIn` | code_generator.py:97 | A character of any matched piece occurs in the matched text. |
| `TacPatterns.MatchMarker` | code_generator.py:41-44 | The marker pattern matches exactly when the line starts with a digit, or with `(` followed by a digit. The number it yields is all digits, and the text it yields has no line feed. |
| `TacPatterns.MarkerFound` | code_generator.py:41-43 | The marker pattern matches exactly when the line starts with a digit, or with `(` followed by a digit. Stated on the pattern itself. |
| `TacPatterns.MarkerRoundTrip` | code_generator.py:41-44 | A line made of an optionally parenthesised number, whitespace and a statement gives back that number and statement. |
| `TacPatterns.MatchGoto` | code_generator.py:88-90 | A matched jump target consists of digits only. |
| `TacPatterns.GotoRoundTrip` | code_generator.py:88-90 | `goto`, whitespace and an optionally parenthesised number give back that number, whatever follows a closing parenthesis. |
| `TacPatterns.MatchLoad` | code_generator.py:97-99 | A matched load yields three words, and the text contains `[`. |
| `TacPatterns.LoadRoundTrip` | code_generator.py:97-99 | `d = a[i]`, with any spacing around `=`, gives back `(d, a, i)`. |
| `TacPatterns.LoadNotStore` | code_generator.py:97-98 | A text of the form word then `[` never matches the load pattern, so stores get past the load test. |
| `TacPatterns.MatchStore` | code_generator.py:105-107 | A matched store yields three words, and the text contains `[`. |
| `TacPatterns.StoreRoundTrip` | code_generator.py:105-107 | `a[i] = s`, with any spacing around `=` and whatever non-word text follows, gives back `(a, i, s)`. |
| `TacPatterns.MatchIf` | code_generator.py:74-79 | A matched branch yields two words, one of the six comparators and a target made of digits. |
| `TacPatterns.ComparatorFirst` | code_generator.py:75 | The alternation picks the written comparator, so `<=` is not read as `<` followed by `=`. |
| `TacPatterns.FirstOptionAt` | code_generator.py:75 | An alternation picks the first option, in written order, that prefixes the text. |
| `TacPatterns.IfRoundTrip` | code_generator.py:74-79 | A well-formed branch gives back its operands, its comparator and its target. |
| `TacPatterns.MatchesIff` | code_generator.py:74-107 | The jump, load, store and branch patterns each match exactly when some prefix of the text splits into pieces of their elements' forms. So "no match" means that no such split exists. |
| `TacPatterns.IfNotAssignment` | code_generator.py:74-78 | `if`, whitespace and then `=` never matches the branch pattern, because no operand follows the keyword. |
| `TacPatterns.IfBacktrack` | code_generator.py:74-79 | When the second operand runs straight into `then` (`b` followed by `then`), the matcher backtracks out of the greedy word and still yields `b`. |
| `RegAlloc.PoolDistinct` | code_generator.py:10-14 | The pool holds 23 distinct registers, and `$s0` is not among them. |
| `RegAlloc.InitialValid` | code_generator.py:7-15 | A new generator's allocator (empty table, cursor 0) satisfies the allocator invariant. |
| `RegAlloc.GetRegSpec` | code_generator.py:17-28 | An allocation only adds bindings: existing ones are unchanged, and the cursor never goes back. A failed allocation leaves the state as it was. |
| `RegAlloc.GetRegImmediate` | code_generator.py:19-20 | A decimal literal is returned as written, and the state is unchanged. |
| `RegAlloc.GetRegArrayBase` | code_generator.py:23-24 | `x` is bound to `$s0` without moving the cursor, and no other name holds `$s0`. |
| `RegAlloc.GetRegStable` | code_generator.py:22-28 | A name bound earlier is given the same register in every later state, with no change of state. |
| `RegAlloc.GetRegFresh` | code_generator.py:25-27 | A new name gets the register at the cursor, and the cursor advances by one; past the end of the pool the result is `PoolExhausted`, with the state unchanged. |
| `RegAlloc.GetRegKeepsValid` | code_generator.py:17-28 | Each allocation preserves the allocator invariant. |
| `RegAlloc.GetRegs` | code_generator.py:80 | A run of allocations only adds bindings, and on success yields one operand per name. |
| `RegAlloc.GetRegsKeepsValid` | code_generator.py:80 | A run of allocations preserves the allocator invariant. |
| `RegAlloc.RegistersDistinct` | code_generator.py:22-27 | Under the invariant, two different names never share a register, and the cursor equals the number of names bound to pool registers. |
| `RegAlloc.GetRegsInPoolOrder` | code_generator.py:25-27 | Distinct new names receive consecutive pool registers, in pool order, starting at the cursor. |
| `RegAlloc.GetRegsPastPool` | code_generator.py:26 | When the new names outnumber the free registers, the first name past the end of the pool is the one reported as exhausted. |
| `RegAlloc.GetRegsBinds` | code_generator.py:22-28 | On success, the bound names grow by exactly the non-literal names used. On failure, the reported name is one of them and is left unbound, and the pool is used up. |
| `RegAlloc.GetRegsResult` | code_generator.py:28 | Each returned operand is the literal itself or the register the final table gives the name. |
| `Lowering.Classify` | code_generator.py:66-154 | A statement's shape is decided in the source's order. `return` holds exactly for the text `return`. Branches start with `if ` and have word operands, a known comparator and a numeric target. Jumps start with `goto`. Assignment shapes contain `=` and are neither jumps nor returns. Operands of loads and stores are words, and copy and arithmetic tokens are whitespace-free. |
| `Lowering.ClassifyJump` | code_generator.py:86-91 | A well-formed `goto` statement is a jump to its number. |
| `Lowering.ClassifyBranch` | code_generator.py:72-84 | A well-formed `if … then goto` statement is a branch with its operands, comparator and target. |
| `Lowering.ClassifyLoad` | code_generator.py:94-102 | `d = a[i]` is a load of `a[i]` into `d`, provided `d` does not start with `goto`. This includes `if = a[i]`, which the branch pattern rejects and which then falls through to the load rule. |
| `Lowering.ClassifyStore` | code_generator.py:104-110 | `a[i] = s` is a store of `s` into `a[i]`, provided `a` does not start with `goto`. |
| `Lowering.Fallthrough` | code_generator.py:112-127 | A text that fails the earlier tests is split at its first `=`. Those tests are: not `return`, no matched branch (a malformed `if …` passes), no `goto` prefix, and no load or store match. The stripped left side is the destination. One token on the right makes a copy, three make a binary operation, and any other number makes no instruction. |
| `Lowering.AssignmentText` | code_generator.py:94 | For `d = rhs` with a word `d` that does not start with `goto`: the text is not `return`, not a matched branch (even when `d` is `if`) and not `goto`; its first `=` follows `d`; the stripped left side is `d`; the right side is `rhs`; and it has `[` exactly when `rhs` does. |
| `Lowering.Lower` | code_generator.py:78-152 | Lowering a shape only adds allocator bindings. |
| `Lowering.GenInstrSpec` | code_generator.py:66-154 | Translating one statement only adds allocator bindings. |
| `Lowering.GenInstrIndented` | code_generator.py:66-154 | Every instruction line emitted for a statement is indented by two spaces. |
| `Lowering.GenInstrBinds` | code_generator.py:80-142 | A statement binds exactly its non-literal operands, unless the pool runs out. A pool error names one of those operands; a label error belongs to a branch or jump whose target is missing from the table. The allocator invariant is preserved. |
| `Lowering.GenInstrAgainstTable` | code_generator.py:66-154 | A successful statement's instructions use, for each operand, the register that the final allocator table binds to it. |
| `Lowering.BranchEmits` | code_generator.py:79-84 | A branch emits one instruction: the mnemonic for its comparator, the operands' registers and the target's label. |
| `Lowering.ReturnEmits` | code_generator.py:68-70 | `return` emits `jr $ra`, and nothing else is classified as a return. |
| `Lowering.AccessEmits` | code_generator.py:95-110 | A load or store emits `add $at, <base>, <index>` followed by `lw` or `sw` of the value register at `0($at)`. |
| `Lowering.CopyEmits` | code_generator.py:116-124 | A copy emits `li` for a literal source and `move` from the source's register otherwise. |
| `Lowering.BinOpEmits` | code_generator.py:126-152 | A binary operation emits `addi` (with a negated immediate for `-`) for `+`/`-` with a literal. Any other literal is loaded into `$at` first; a named operand uses its register. Division emits `div` followed by `mflo`, and an unknown operator emits no arithmetic. |
| `Lowering.BadJumpEmitsNothing` | code_generator.py:87-91 | A text starting with `goto` that the jump pattern rejects emits nothing, and the state is unchanged. |
| `Lowering.BadAssignmentEmitsNothing` | code_generator.py:112-154 | A text with `=` that is no matched branch, no jump, no load and no store, and whose right side has neither one nor three tokens, emits nothing. The state is unchanged. This covers a malformed `if …` as well. |
| `Lowering.NotBranch` | code_generator.py:73-78 | A word, whitespace and then `=` is never a branch. Either the text does not start with `if `, or the branch pattern rejects it. |
| `Lowering.OtherTextEmitsNothing` | code_generator.py:72-94 | A text that is not `return` and has no `=` emits nothing unless it is a well-formed branch or starts with `goto`. |
| `CodeGen.Statements` | code_generator.py:39-46 | Pass 1 keeps at most one statement per line, and every statement number consists of digits. |
| `CodeGen.LabelTable` | code_generator.py:45 | Every label in the table is `L` followed by its number. |
| `CodeGen.LabelTableComplete` | code_generator.py:39-45 | A number has a label exactly when some statement carries that number. |
| `CodeGen.StatementOfLine` | code_generator.py:41-46 | A line with a number contributes that number and its stripped text; a line without one contributes nothing. |
| `CodeGen.StatementsAppend` | code_generator.py:39-46 | Pass 1 treats each line independently: the statements of joined inputs are the joined statements. |
| `CodeGen.NumberedLine` | code_generator.py:41-46 | An optionally parenthesised number, whitespace and a statement, with trailing whitespace, give one statement with that number and text. |
| `CodeGen.UnnumberedLine` | code_generator.py:41-43 | A line that starts with neither a digit nor `(` followed by a digit is skipped. |
| `CodeGen.NoStatements` | code_generator.py:41-43 | Input with no numbered line gives no statements. |
| `CodeGen.StatementsLabelled` | code_generator.py:45-59 | Every statement's number has an entry in the label table that pass 1 builds, so looking up a label line never fails. |
| `CodeGen.Translate` | code_generator.py:57-60 | Pass 2 only adds allocator bindings. |
| `CodeGen.TranslateOk` | code_generator.py:58-60 | A successful statement appends its label line and then its instructions, and translation continues from the state it leaves. |
| `CodeGen.TranslateErr` | code_generator.py:58-60 | The first failing statement ends pass 2 with its error and the allocator state it reached. |
| `CodeGen.TranslateLabels` | code_generator.py:58-60 | Apart from the indented instructions, pass 2's output is exactly one label line per statement, in statement order. |
| `CodeGen.TranslateErrors` | code_generator.py:57-60 | Pass 2 fails only when the pool is exhausted or a target is missing from the label table. It preserves the allocator invariant. |
| `CodeGen.GenerateLines` | code_generator.py:49-63 | Generation only adds allocator bindings. |
| `CodeGen.GenerateSpec` | code_generator.py:30-64 | Generation, as text, only adds allocator bindings. |
| `CodeGen.GenerateFromTranslate` | code_generator.py:49-64 | The output is the prologue, pass 2's lines and `jr $ra`, joined by line feeds. An error in pass 2 is the error of the whole call, with the state it reached. |
| `CodeGen.GenerateShape` | code_generator.py:49-63 | A successful output starts with the five-line prologue and ends with `jr $ra`. Between them, its unindented lines are exactly the label lines of the statements, in order. |
| `CodeGen.GenerateText` | code_generator.py:62-64 | The text is the joined prologue, the joined body and `jr $ra`, separated by line feeds; with no statements, there is no body. |
| `CodeGen.GenerateEmpty` | code_generator.py:30-64 | Input without numbered lines produces just the prologue and `jr $ra`, and the allocator is unchanged. |
| `CodeGen.GenerateErrors` | code_generator.py:30-64 | Generation fails only when the pool runs out or a target is not the number of any statement. The allocator invariant holds afterwards either way. |
| `CodeGen.JumpResolution` | code_generator.py:86-91 | A jump emits `j Ln` exactly when some statement is numbered `n`; otherwise the result is `MissingLabel(n)`. |
| `CodeGen.BranchResolution` | code_generator.py:79-84 | A branch whose operands can be allocated succeeds exactly when its target is a statement number; otherwise the error is `MissingLabel`. |
| `CodeGen.CodeGenerator.constructor` | code_generator.py:5-15 | A new generator has an empty table, the 23-register pool and cursor 0, and it satisfies the allocator invariant. |
| `CodeGen.CodeGenerator.GetReg` | code_generator.py:17-28 | The returned operand and the new fields are exactly those that `GetRegSpec` gives for the old fields. |
| `CodeGen.CodeGenerator.GenInstr` | code_generator.py:66-154 | The instructions (or error) and the new fields are exactly those that `GenInstrSpec` gives for the old fields. |
| `CodeGen.CodeGenerator.GenBranch` | code_generator.py:78-84 | The operands are allocated before the label is looked up, with the result and new fields that `Lower` specifies for the branch. |
| `CodeGen.CodeGenerator.GenLoad` | code_generator.py:98-102 | Array, index and destination are allocated in that order, with the result `Lower` specifies for the load. |
| `CodeGen.CodeGenerator.GenStore` | code_generator.py:106-110 | Array, index and source are allocated in that order, with the result `Lower` specifies for the store. |
| `CodeGen.CodeGenerator.GenCopy` | code_generator.py:117-124 | The destination is allocated first, and a literal source is never allocated, as `Lower` specifies for the copy. |
| `CodeGen.CodeGenerator.GenBinOp` | code_generator.py:127-152 | Destination, first operand and then a named second operand are allocated, with the instructions `Lower` specifies for the operation. |
| `CodeGen.CodeGenerator.Number` | code_generator.py:37-46 | The loop of pass 1 computes exactly `Statements` and `LabelTable` of the input. |
| `CodeGen.CodeGenerator.Generate` | code_generator.py:30-64 | The output text (or error) and the new fields are exactly those `GenerateSpec` gives for the old fields. Pass 2's loop is proved against `Translate`. |

## Left out

- Reading the input file, writing the output file and the message that `main.py` prints are not modelled. The model starts from the list of lines that `generate` receives.
- Characters outside ASCII are not modelled. Python's `isdigit`, `\w`, `\s`, `strip` and `split` also accept non-ASCII digits, letters and spaces; the model classifies every non-ASCII character as none of these.
- Python's regular-expression engine is modelled only as far as the five patterns need it: concatenations of literals, optional characters, greedy character-class runs and ordered alternations, with CPython's backtracking order. Groups, anchors and the other constructs are left out.
- The meaning of the generated MIPS program is not modelled; only its text is.
- Exceptions are modelled as `Err` values that carry the allocator state reached. The traceback and the exception type are not modelled.
- `CodeGen.CodeGenerator.GetReg`, `GenInstr` and `Generate` state their result against the specification functions and do not restate `Valid()`. The invariant is proved about the specification functions instead: `GetRegKeepsValid`, `GenInstrBinds`, `TranslateErrors` and `GenerateErrors`.
- Copy and binary-operation text: there is no single lemma for concrete copy or binary-operation text. Their classification follows from `AssignmentText` followed by `Fallthrough`. Load, store, branch and jump text each have a direct lemma.
- The backtracking branch case is stated for the shape where the second operand runs straight into `then` (`IfBacktrack`). Backtracking in other places is covered only by the general `PiecesSound`, `PiecesExist` and `PiecesComplete`.
