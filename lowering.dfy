/**
 * Lowering of one three-address statement (`_gen_instr`): the statement's shape is decided
 * from its text alone, in the translator's fixed order, and then each operand name is
 * resolved through the register allocator and each jump target through the label table.
 */
module Lowering {
  import opened Ascii
  import opened Results
  import opened TacPatterns
  import opened RegAlloc

  /** The seven statement shapes the translator recognises, and the rest. */
  datatype Shape =
    | Return
    | Branch(a: string, op: string, b: string, target: string)
    | Jump(target: string)
    | Load(dst: string, arr: string, idx: string)
    | Store(arr: string, idx: string, src: string)
    | Copy(dst: string, src: string)
    | BinOp(dst: string, op1: string, op: string, op2: string)
    | Unrecognized

  /** The comparator-to-branch-mnemonic table. */
  const BranchOps: map<string, string> :=
    map["<=" := "ble", ">=" := "bge", "==" := "beq", "!=" := "bne", "<" := "blt", ">" := "bgt"]

  /** An instruction line: the instruction indented by two spaces. */
  function Instr(text: string): string
  {
    "  " + text
  }

  const ReturnInstr: string := Instr("jr $ra")

  /**
   * The shape of a statement, tested in this order: the literal `return`; a text starting
   * with `if ` that the branch pattern matches; a text starting with `goto` (a jump if the
   * goto pattern matches, nothing otherwise); then, for a text containing `=`, an array load,
   * an array store, and finally a split at the first `=` into a destination and one or three
   * whitespace-separated tokens. A malformed `if` thus falls through to the `=` rules.
   */
  function Classify(s: string): (r: Shape)
    ensures r == Return <==> s == "return"
    ensures r.Branch? ==> StartsWith(s, "if ") && r.op in BranchOps && IsWord(r.a) && IsWord(r.b) && IsDigits(r.target)
    ensures r.Jump? ==> StartsWith(s, "goto") && IsDigits(r.target)
    ensures (r.Load? || r.Store? || r.Copy? || r.BinOp?) ==> '=' in s && !StartsWith(s, "goto") && s != "return"
    ensures r.Load? ==> IsWord(r.dst) && IsWord(r.arr) && IsWord(r.idx)
    ensures r.Store? ==> IsWord(r.arr) && IsWord(r.idx) && IsWord(r.src)
    ensures r.Copy? ==> |r.src| > 0 && NoSpace(r.src)
    ensures r.BinOp? ==> |r.op1| > 0 && NoSpace(r.op1) && |r.op| > 0 && NoSpace(r.op) && |r.op2| > 0 && NoSpace(r.op2)
  {
    if s == "return" then Return
    else if StartsWith(s, "if ") && MatchIf(s).Some? then
      var (a, op, b, target) := MatchIf(s).value;
      Branch(a, op, b, target)
    else if StartsWith(s, "goto") then
      match MatchGoto(s)
      case Some(target) => Jump(target)
      case None => Unrecognized
    else if '=' !in s then Unrecognized
    else if MatchLoad(s).Some? then
      var (dst, arr, idx) := MatchLoad(s).value;
      Load(dst, arr, idx)
    else if MatchStore(s).Some? then
      var (arr, idx, src) := MatchStore(s).value;
      Store(arr, idx, src)
    else
      var k := FirstIndex(s, '=');
      var lhs := Strip(s[..k]);
      var toks := Split(s[k + 1..]);
      if |toks| == 1 then Copy(lhs, toks[0])
      else if |toks| == 3 then BinOp(lhs, toks[0], toks[1], toks[2])
      else Unrecognized
  }

  /** A well-formed jump is classified as a jump to its target. */
  lemma ClassifyJump(sp: string, open: bool, t: string, close: bool, rest: string)
    requires AllSpace(sp) && IsDigits(t)
    requires !close ==> rest == [] || (!IsDigit(rest[0]) && rest[0] != ')')
    ensures Classify("goto" + (sp + (Opt(open, '(') + (t + (Opt(close, ')') + rest))))) == Jump(t)
  {
    var s := "goto" + (sp + (Opt(open, '(') + (t + (Opt(close, ')') + rest))));
    GotoRoundTrip(sp, open, t, close, rest);
    assert s[..4] == "goto";
    assert s[0] == 'g';
  }

  /**
   * A well-formed branch (whitespace after `if` starting with a blank, whitespace before
   * `then`) is classified as a branch on its operands, comparator and target.
   */
  lemma ClassifyBranch(sp0: string, a: string, sp1: string, op: string, sp2: string, b: string,
                       sp3: string, sp4: string, sp5: string, open: bool, t: string, close: bool, rest: string)
    requires sp0 != [] && sp0[0] == ' ' && AllSpace(sp0) && IsWord(a) && AllSpace(sp1) && op in Comparators && AllSpace(sp2) && IsWord(b)
    requires sp3 != [] && AllSpace(sp3) && AllSpace(sp4) && AllSpace(sp5) && IsDigits(t)
    requires !close ==> rest == [] || (!IsDigit(rest[0]) && rest[0] != ')')
    ensures Classify("if" + (sp0 + (a + (sp1 + (op + (sp2 + (b + (sp3 + ("then" + (sp4 + ("goto" + (sp5 + (Opt(open, '(') + (t + (Opt(close, ')') + rest)))))))))))))))
      == Branch(a, op, b, t)
  {
    var s := "if" + (sp0 + (a + (sp1 + (op + (sp2 + (b + (sp3 + ("then" + (sp4 + ("goto" + (sp5 + (Opt(open, '(') + (t + (Opt(close, ')') + rest))))))))))))));
    IfRoundTrip(sp0, a, sp1, op, sp2, b, sp3, sp4, sp5, open, t, close, rest);
    assert s[..3] == "if ";
    assert s[0] == 'i';
  }

  /**
   * A text that begins with a word not starting with `goto`, followed by a non-word character
   * (other than a space when the word is `if`), is neither a branch nor a jump.
   */
  lemma NameFirst(name: string, after: string)
    requires IsWord(name) && !StartsWith(name, "goto")
    requires after != [] && !IsWordChar(after[0]) && (name != "if" || after[0] != ' ')
    ensures !StartsWith(name + after, "if ") && !StartsWith(name + after, "goto")
  {
    NotIf(name, after);
    NotGoto(name, after);
  }

  lemma NotIf(name: string, after: string)
    requires IsWord(name) && after != [] && !IsWordChar(after[0]) && (name != "if" || after[0] != ' ')
    ensures !StartsWith(name + after, "if ")
  {
    var s := name + after;
    if |name| >= 3 {
      assert s[2] == name[2];
    } else if |name| == 2 {
      assert s[..2] == name && s[2] == after[0];
    } else {
      assert s[1] == after[0];
    }
  }

  lemma NotGoto(name: string, after: string)
    requires IsWord(name) && !StartsWith(name, "goto") && after != [] && !IsWordChar(after[0])
    ensures !StartsWith(name + after, "goto")
  {
    var s := name + after;
    if |name| >= 4 {
      assert name[..4] == s[..4];
    } else {
      assert s[|name|] == after[0];
    }
  }

  /**
   * A well-formed array load `dst = arr[idx]`, whose destination does not start with `goto`, is
   * classified as a load; so is `if = arr[idx]`, which the branch pattern rejects.
   */
  lemma ClassifyLoad(dst: string, sp1: string, sp2: string, arr: string, idx: string, rest: string)
    requires IsWord(dst) && AllSpace(sp1) && AllSpace(sp2) && IsWord(arr) && IsWord(idx)
    requires !StartsWith(dst, "goto")
    ensures Classify(dst + (sp1 + ("=" + (sp2 + (arr + ("[" + (idx + ("]" + rest)))))))) == Load(dst, arr, idx)
  {
    LoadRoundTrip(dst, sp1, sp2, arr, idx, rest);
    AssignmentKeywords(dst, sp1, sp2 + (arr + ("[" + (idx + ("]" + rest)))));
  }

  /** A text with an `=` in it is not the `return` statement. */
  lemma NotReturn(s: string, k: nat)
    requires k < |s| && s[k] == '='
    ensures s != "return"
  {
    assert forall i | 0 <= i < |"return"| :: "return"[i] != '=';
  }

  /** A well-formed array store `arr[idx] = src`, whose array name does not start with `goto`, is classified as a store. */
  lemma ClassifyStore(arr: string, idx: string, sp1: string, sp2: string, src: string, rest: string)
    requires IsWord(arr) && IsWord(idx) && AllSpace(sp1) && AllSpace(sp2) && IsWord(src)
    requires rest == [] || !IsWordChar(rest[0])
    requires !StartsWith(arr, "goto")
    ensures Classify(arr + ("[" + (idx + ("]" + (sp1 + ("=" + (sp2 + (src + rest)))))))) == Store(arr, idx, src)
  {
    var tail := idx + ("]" + (sp1 + ("=" + (sp2 + (src + rest)))));
    var s := arr + ("[" + tail);
    StoreRoundTrip(arr, idx, sp1, sp2, src, rest);
    NameFirst(arr, "[" + tail);
    LoadNotStore(arr, tail);
    assert s[|arr| + 1 + |idx| + 1 + |sp1|] == '=';
    NotReturn(s, |arr| + 1 + |idx| + 1 + |sp1|);
  }

  /**
   * A text that no earlier case takes (a text without `[` matches neither array pattern) is split
   * at its first `=`: the stripped left-hand side is the destination and the whitespace-separated
   * tokens right of it decide between a copy and a binary operation.
   */
  lemma Fallthrough(s: string, j: nat)
    requires s != "return" && !(StartsWith(s, "if ") && MatchIf(s).Some?) && !StartsWith(s, "goto")
    requires MatchLoad(s).None? && MatchStore(s).None?
    requires j < |s| && s[j] == '=' && '=' !in s[..j]
    ensures var toks := Split(s[j + 1..]); var lhs := Strip(s[..j]);
      Classify(s) ==
        if |toks| == 1 then Copy(lhs, toks[0])
        else if |toks| == 3 then BinOp(lhs, toks[0], toks[1], toks[2])
        else Unrecognized
  {
  }

  /**
   * An assignment to a name is no return, branch or jump, has no `[` when its right-hand side has
   * none, and its first `=` is the one after the name, whose stripped left-hand side is the name.
   */
  lemma AssignmentText(dst: string, sp1: string, rhs: string)
    requires IsWord(dst) && !StartsWith(dst, "goto") && AllSpace(sp1)
    ensures var s := dst + (sp1 + ("=" + rhs)); var j := |dst| + |sp1|;
      s != "return" && !(StartsWith(s, "if ") && MatchIf(s).Some?) && !StartsWith(s, "goto") &&
      ('[' !in s <==> '[' !in rhs) && j < |s| && s[j] == '=' && '=' !in s[..j] &&
      Strip(s[..j]) == dst && s[j + 1..] == rhs
  {
    AssignmentKeywords(dst, sp1, rhs);
    AssignmentSides(dst, sp1, rhs);
  }

  lemma AssignmentSides(dst: string, sp1: string, rhs: string)
    requires IsWord(dst) && AllSpace(sp1)
    ensures var s := dst + (sp1 + ("=" + rhs)); var j := |dst| + |sp1|;
      ('[' !in s <==> '[' !in rhs) && j < |s| && s[j] == '=' && '=' !in s[..j] &&
      Strip(s[..j]) == dst && s[j + 1..] == rhs
  {
    var s := dst + (sp1 + ("=" + rhs));
    var j := |dst| + |sp1|;
    assert s[..j] == dst + sp1;
    assert s[j + 1..] == rhs;
    StripName(dst, sp1);
  }

  lemma StripName(dst: string, sp1: string)
    requires IsWord(dst) && AllSpace(sp1)
    ensures Strip(dst + sp1) == dst && '=' !in dst + sp1 && '[' !in dst + sp1
  {
    assert [] + dst + sp1 == dst + sp1;
    StripPadded([], dst, sp1);
  }

  lemma AssignmentKeywords(dst: string, sp1: string, rhs: string)
    requires IsWord(dst) && !StartsWith(dst, "goto") && AllSpace(sp1)
    ensures var s := dst + (sp1 + ("=" + rhs));
      s != "return" && !(StartsWith(s, "if ") && MatchIf(s).Some?) && !StartsWith(s, "goto")
  {
    var s := dst + (sp1 + ("=" + rhs));
    var after := sp1 + ("=" + rhs);
    assert after[0] == (if sp1 != [] then sp1[0] else '=');
    NotBranch(dst, sp1, "=" + rhs);
    NotGoto(dst, after);
    assert s[|dst| + |sp1|] == '=';
    NotReturn(s, |dst| + |sp1|);
  }

  /** A word, whitespace and `=` is no branch: `if` followed by `=` is rejected by the branch pattern. */
  lemma NotBranch(dst: string, sp1: string, tail: string)
    requires IsWord(dst) && AllSpace(sp1) && tail != [] && tail[0] == '='
    ensures var s := dst + (sp1 + tail); !(StartsWith(s, "if ") && MatchIf(s).Some?)
  {
    if dst == "if" {
      IfNotAssignment(sp1, tail);
    } else {
      var after := sp1 + tail;
      assert after[0] == (if sp1 != [] then sp1[0] else '=');
      NotIf(dst, after);
    }
  }

  /** `rd := r1 op r2`; an operator outside `+ - * /` emits nothing. */
  function ArithInstrs(op: string, rd: string, r1: string, r2: string): seq<string>
  {
    if op == "+" then [Instr("add " + rd + ", " + r1 + ", " + r2)]
    else if op == "-" then [Instr("sub " + rd + ", " + r1 + ", " + r2)]
    else if op == "*" then [Instr("mul " + rd + ", " + r1 + ", " + r2)]
    else if op == "/" then [Instr("div " + r1 + ", " + r2), Instr("mflo " + rd)]
    else []
  }

  /**
   * The `get_reg` calls a statement makes, in the order the translator makes them. A literal
   * source of a copy and a literal second operand of a binary operation are never looked up.
   */
  function Lookups(r: Shape): seq<string>
  {
    match r
    case Branch(a, _, b, _) => [a, b]
    case Load(dst, arr, idx) => [arr, idx, dst]
    case Store(arr, idx, src) => [arr, idx, src]
    case Copy(dst, src) => if IsDigits(src) then [dst] else [dst, src]
    case BinOp(dst, op1, _, op2) => if IsDigits(op2) then [dst, op1] else [dst, op1, op2]
    case _ => []
  }

  /** A branch's comparator has a mnemonic, as every branch `Classify` finds does. */
  predicate Printable(r: Shape)
  {
    r.Branch? ==> r.op in BranchOps
  }

  /**
   * The instructions of a statement, given the registers its lookups returned, in lookup
   * order. A jump or branch whose target has no label fails.
   */
  function Render(r: Shape, regs: seq<string>, labels: map<string, string>): Result<seq<string>, Error>
    requires Printable(r) && |regs| == |Lookups(r)|
  {
    match r
    case Return => Ok([ReturnInstr])
    case Branch(_, op, _, target) =>
      if target in labels then Ok([Instr(BranchOps[op] + " " + regs[0] + ", " + regs[1] + ", " + labels[target])])
      else Err(MissingLabel(target))
    case Jump(target) =>
      if target in labels then Ok([Instr("j " + labels[target])]) else Err(MissingLabel(target))
    case Load(_, _, _) => Ok([Instr("add $at, " + regs[0] + ", " + regs[1]), Instr("lw " + regs[2] + ", 0($at)")])
    case Store(_, _, _) => Ok([Instr("add $at, " + regs[0] + ", " + regs[1]), Instr("sw " + regs[2] + ", 0($at)")])
    case Copy(_, src) =>
      if IsDigits(src) then Ok([Instr("li " + regs[0] + ", " + src)])
      else Ok([Instr("move " + regs[0] + ", " + regs[1])])
    case BinOp(_, _, op, op2) =>
      if IsDigits(op2) && (op == "+" || op == "-") then
        Ok([Instr("addi " + regs[0] + ", " + regs[1] + ", " + (if op == "+" then op2 else "-" + op2))])
      else if IsDigits(op2) then Ok([Instr("li $at, " + op2)] + ArithInstrs(op, regs[0], regs[1], "$at"))
      else Ok(ArithInstrs(op, regs[0], regs[1], regs[2]))
    case Unrecognized => Ok([])
  }

  /** One statement of a known shape: its lookups in order, stopping at a failure, then its instructions. */
  function Lower(s: Alloc, r: Shape, labels: map<string, string>): (t: Step<seq<string>>)
    requires Printable(r)
    ensures Extends(s, t.state)
  {
    var g := GetRegs(s, Lookups(r));
    if g.result.Err? then Step(Err(g.result.error), g.state)
    else Step(Render(r, g.result.value, labels), g.state)
  }

  /** `_gen_instr(text, labels)`: the instructions of one statement, and the allocator state after it. */
  function GenInstrSpec(s: Alloc, text: string, labels: map<string, string>): (t: Step<seq<string>>)
    ensures Extends(s, t.state)
  {
    Lower(s, Classify(text), labels)
  }

  /** The operand names a statement mentions, in the order they are written. */
  function Operands(r: Shape): seq<string>
  {
    match r
    case Branch(a, _, b, _) => [a, b]
    case Load(dst, arr, idx) => [dst, arr, idx]
    case Store(arr, idx, src) => [arr, idx, src]
    case Copy(dst, src) => [dst, src]
    case BinOp(dst, op1, _, op2) => [dst, op1, op2]
    case _ => []
  }

  function VariableIn(v: string): set<string>
  {
    if IsDigits(v) then {} else {v}
  }

  lemma VariablesDisplay(a: string, b: string, c: string)
    ensures Variables([]) == {}
    ensures Variables([a]) == VariableIn(a)
    ensures Variables([a, b]) == VariableIn(a) + VariableIn(b)
    ensures Variables([a, b, c]) == VariableIn(a) + VariableIn(b) + VariableIn(c)
  {
    VariablesCons([c]);
    assert [c][1..] == [];
    VariablesCons([b, c]);
    assert [b, c][1..] == [c];
    VariablesCons([a, b, c]);
    assert [a, b, c][1..] == [b, c];
    VariablesCons([b]);
    assert [b][1..] == [];
    VariablesCons([a, b]);
    assert [a, b][1..] == [b];
    VariablesCons([a]);
    assert [a][1..] == [];
  }

  /** A line indented by two spaces, as every instruction line is and no label line is. */
  predicate Indented(line: string)
  {
    StartsWith(line, "  ")
  }

  lemma InstrIndented()
    ensures forall text :: Indented(Instr(text))
  {
    forall text
      ensures Indented(Instr(text))
    {
      assert Instr(text)[..2] == "  ";
    }
  }

  /** Does a successful step emit indented instructions only? */
  predicate AllIndented(t: Step<seq<string>>)
  {
    t.result.Ok? ==> forall i :: 0 <= i < |t.result.value| ==> Indented(t.result.value[i])
  }

  lemma ArithIndented()
    ensures forall op, rd, r1, r2, i :: 0 <= i < |ArithInstrs(op, rd, r1, r2)| ==> Indented(ArithInstrs(op, rd, r1, r2)[i])
  {
    InstrIndented();
  }

  lemma RenderIndented(r: Shape, regs: seq<string>, labels: map<string, string>)
    requires Printable(r) && |regs| == |Lookups(r)|
    ensures Render(r, regs, labels).Ok? ==> forall i :: 0 <= i < |Render(r, regs, labels).value| ==> Indented(Render(r, regs, labels).value[i])
  {
    InstrIndented();
    ArithIndented();
  }

  /** Every line emitted for a statement is an indented instruction line. */
  lemma GenInstrIndented(s: Alloc, text: string, labels: map<string, string>)
    ensures AllIndented(GenInstrSpec(s, text, labels))
  {
    var r := Classify(text);
    var g := GetRegs(s, Lookups(r));
    if g.result.Ok? {
      RenderIndented(r, g.result.value, labels);
    }
  }

  /** Looking up only the non-literal operands still looks up every variable. */
  lemma LookupsVariables(r: Shape)
    ensures Variables(Lookups(r)) == Variables(Operands(r))
  {
    match r
    case Branch(a, _, b, _) => VariablesDisplay(a, b, "");
    case Load(dst, arr, idx) =>
      VariablesDisplay(dst, arr, idx);
      VariablesDisplay(arr, idx, dst);
    case Store(arr, idx, src) => VariablesDisplay(arr, idx, src);
    case Copy(dst, src) => VariablesDisplay(dst, src, "");
    case BinOp(dst, op1, _, op2) => VariablesDisplay(dst, op1, op2);
    case _ => VariablesDisplay("", "", "");
  }

  /**
   * One statement binds exactly the variables it mentions, literals never taking a register,
   * and keeps the allocator invariant. It fails either when the pool runs out on one of its
   * variables, or when the target of a jump or branch has no label, in which case every
   * operand is already bound.
   */
  lemma GenInstrBinds(s: Alloc, text: string, labels: map<string, string>)
    ensures var t := GenInstrSpec(s, text, labels); var vars := Variables(Operands(Classify(text)));
      (t.result.Ok? || t.result.error.MissingLabel?) ==> t.state.varReg.Keys == s.varReg.Keys + vars
    ensures var t := GenInstrSpec(s, text, labels); var vars := Variables(Operands(Classify(text)));
      t.result.Err? && t.result.error.PoolExhausted? ==> t.result.error.name in vars && t.result.error.name !in t.state.varReg
    ensures var t := GenInstrSpec(s, text, labels); var r := Classify(text);
      t.result.Err? && t.result.error.MissingLabel? ==> (r.Branch? || r.Jump?) && t.result.error.target == r.target && r.target !in labels
    ensures s.Valid() ==> GenInstrSpec(s, text, labels).state.Valid()
  {
    var r := Classify(text);
    LookupsVariables(r);
    GetRegsBinds(s, Lookups(r));
    if s.Valid() {
      GetRegsKeepsValid(s, Lookups(r));
    }
  }

  /** The register each lookup stands for in the state `s`. */
  function Registers(s: Alloc, names: seq<string>): (regs: seq<string>)
    ensures |regs| == |names|
    ensures forall i :: 0 <= i < |names| ==> regs[i] == Operand(s, names[i])
  {
    seq(|names|, i requires 0 <= i < |names| => Operand(s, names[i]))
  }

  /**
   * The instructions of a statement read every operand's register from the table it leaves:
   * a name looked up twice, or bound by an earlier statement, always shows the same register.
   */
  lemma GenInstrAgainstTable(s: Alloc, text: string, labels: map<string, string>)
    ensures var t := GenInstrSpec(s, text, labels); var r := Classify(text);
      t.result.Ok? ==> t.result == Render(r, Registers(t.state, Lookups(r)), labels)
  {
    var r := Classify(text);
    GetRegsResult(s, Lookups(r));
    var g := GetRegs(s, Lookups(r));
    if g.result.Ok? {
      assert g.result.value == Registers(g.state, Lookups(r));
    }
  }


  /** A matched branch emits one conditional branch on its operands' registers to the target's label. */
  lemma BranchEmits(s: Alloc, text: string, labels: map<string, string>)
    requires Classify(text).Branch?
    ensures var t := GenInstrSpec(s, text, labels); var r := Classify(text);
      t.result.Ok? ==> (r.target in labels && t.result.value ==
        [Instr(BranchOps[r.op] + " " + Operand(t.state, r.a) + ", " + Operand(t.state, r.b) + ", " + labels[r.target])])
  {
    GenInstrAgainstTable(s, text, labels);
  }

  /** `return` emits exactly `jr $ra` and touches nothing, and a text is `return` only when it is exactly that word. */
  lemma ReturnEmits(s: Alloc, text: string, labels: map<string, string>)
    ensures text == "return" <==> Classify(text) == Return
    ensures text == "return" ==> GenInstrSpec(s, text, labels) == Step(Ok([Instr("jr $ra")]), s)
  {
  }

  /**
   * An array load or store emits two instructions: the address `$at` as the sum of the
   * array's and the index's registers, then the word moved through it.
   */
  lemma AccessEmits(s: Alloc, text: string, labels: map<string, string>)
    requires Classify(text).Load? || Classify(text).Store?
    ensures var t := GenInstrSpec(s, text, labels); var r := Classify(text);
      t.result.Ok? ==> (t.result.value ==
        [ Instr("add $at, " + Operand(t.state, r.arr) + ", " + Operand(t.state, r.idx))
        , if r.Load? then Instr("lw " + Operand(t.state, r.dst) + ", 0($at)") else Instr("sw " + Operand(t.state, r.src) + ", 0($at)")])
  {
    GenInstrAgainstTable(s, text, labels);
  }

  /** A copy emits one instruction: `li` of a literal source, otherwise `move` between the two registers. */
  lemma CopyEmits(s: Alloc, text: string, labels: map<string, string>)
    requires Classify(text).Copy?
    ensures var t := GenInstrSpec(s, text, labels); var r := Classify(text);
      t.result.Ok? ==> (t.result.value ==
        if IsDigits(r.src) then [Instr("li " + Operand(t.state, r.dst) + ", " + r.src)]
        else [Instr("move " + Operand(t.state, r.dst) + ", " + Operand(t.state, r.src))])
  {
    GenInstrAgainstTable(s, text, labels);
  }

  /**
   * A binary operation with a literal second operand and `+` or `-` is one `addi` (negating
   * the literal for `-`); any other literal is first loaded into `$at`. An operator outside
   * `+ - * /` still binds the operands' registers, and emits only that load, if any.
   */
  lemma BinOpEmits(s: Alloc, text: string, labels: map<string, string>)
    requires Classify(text).BinOp?
    ensures var t := GenInstrSpec(s, text, labels); var r := Classify(text);
      t.result.Ok? && IsDigits(r.op2) && (r.op == "+" || r.op == "-") ==> (t.result.value ==
        [Instr("addi " + Operand(t.state, r.dst) + ", " + Operand(t.state, r.op1) + ", " + (if r.op == "+" then r.op2 else "-" + r.op2))])
    ensures var t := GenInstrSpec(s, text, labels); var r := Classify(text);
      t.result.Ok? && IsDigits(r.op2) && r.op != "+" && r.op != "-" ==> (t.result.value ==
        [Instr("li $at, " + r.op2)] + ArithInstrs(r.op, Operand(t.state, r.dst), Operand(t.state, r.op1), "$at"))
    ensures var t := GenInstrSpec(s, text, labels); var r := Classify(text);
      t.result.Ok? && !IsDigits(r.op2) ==> (t.result.value ==
        ArithInstrs(r.op, Operand(t.state, r.dst), Operand(t.state, r.op1), Operand(t.state, r.op2)))
    ensures forall op, rd, r1, r2 :: op !in ["+", "-", "*", "/"] ==> ArithInstrs(op, rd, r1, r2) == []
    ensures forall rd, r1, r2 :: ArithInstrs("/", rd, r1, r2) == [Instr("div " + r1 + ", " + r2), Instr("mflo " + rd)]
  {
    GenInstrAgainstTable(s, text, labels);
  }

  /** An unmatched `goto` emits nothing and touches nothing. */
  lemma BadJumpEmitsNothing(s: Alloc, text: string, labels: map<string, string>)
    requires StartsWith(text, "goto") && MatchGoto(text).None?
    ensures GenInstrSpec(s, text, labels) == Step(Ok([]), s)
  {
    assert text[..4] == "goto";
    assert text[0] == 'g';
    assert text != "return" && !StartsWith(text, "if ");
    assert Classify(text) == Unrecognized;
  }

  /**
   * A text with `=` that is no array access, whose right-hand side after the first `=` has
   * neither one nor three tokens, emits nothing and touches nothing.
   */
  lemma BadAssignmentEmitsNothing(s: Alloc, text: string, labels: map<string, string>)
    requires '=' in text && !(StartsWith(text, "if ") && MatchIf(text).Some?) && !StartsWith(text, "goto")
    requires MatchLoad(text).None? && MatchStore(text).None?
    requires |Split(text[FirstIndex(text, '=') + 1..])| !in {1, 3}
    ensures GenInstrSpec(s, text, labels) == Step(Ok([]), s)
  {
  }

  /** A text that is none of the recognised forms, and has no `=`, emits nothing and touches nothing. */
  lemma OtherTextEmitsNothing(s: Alloc, text: string, labels: map<string, string>)
    requires '=' !in text && text != "return" && !StartsWith(text, "goto")
    requires !(StartsWith(text, "if ") && MatchIf(text).Some?)
    ensures GenInstrSpec(s, text, labels) == Step(Ok([]), s)
  {
  }
}
