/**
 * The code generator: a two-pass translation of numbered three-address statements into
 * MIPS assembly text. Pass 1 strips each line's number and builds the label table; pass 2
 * emits a fixed prologue, then each statement's label and instructions, then `jr $ra`.
 * The class `CodeGenerator` holds the allocator state and is proved against the functions
 * of this module and of RegAlloc and Lowering.
 */
module CodeGen {
  import opened Ascii
  import opened Results
  import opened TacPatterns
  import opened RegAlloc
  import opened Lowering

  /** A statement of pass 1: its number as written and its text, stripped. */
  datatype Numbered = Numbered(number: string, text: string)

  /** The statements of pass 1: one per line that starts with a number, in line order. */
  function Statements(lines: seq<string>): (r: seq<Numbered>)
    ensures |r| <= |lines|
    ensures forall i :: 0 <= i < |r| ==> IsDigits(r[i].number)
  {
    if lines == [] then []
    else
      var prev := Statements(lines[..|lines| - 1]);
      match MatchMarker(lines[|lines| - 1])
      case None => prev
      case Some((num, body)) => prev + [Numbered(num, Strip(body))]
  }

  /** The label table of pass 1: each statement number `n` maps to `Ln`; a repeated number is entered again. */
  function LabelTable(stmts: seq<Numbered>): (m: map<string, string>)
    ensures forall k :: k in m ==> m[k] == "L" + k
  {
    if stmts == [] then map[]
    else
      var last := stmts[|stmts| - 1];
      LabelTable(stmts[..|stmts| - 1])[last.number := "L" + last.number]
  }

  /** Is `k` the number of one of the statements? */
  predicate IsLabelOf(stmts: seq<Numbered>, k: string)
  {
    exists i :: 0 <= i < |stmts| && stmts[i].number == k
  }

  /**
   * The label table holds exactly the statement numbers, wherever they stand, so a jump to a
   * later statement resolves as well as one to an earlier statement.
   */
  lemma {:induction false} LabelTableComplete(stmts: seq<Numbered>)
    ensures forall k :: k in LabelTable(stmts) <==> IsLabelOf(stmts, k)
  {
    if stmts != [] {
      var prev := stmts[..|stmts| - 1];
      var last := stmts[|stmts| - 1];
      LabelTableComplete(prev);
      forall k | IsLabelOf(stmts, k)
        ensures k in LabelTable(stmts)
      {
        var i :| 0 <= i < |stmts| && stmts[i].number == k;
        if i < |prev| {
          assert prev[i].number == k;
        }
      }
      forall k | k in LabelTable(stmts)
        ensures IsLabelOf(stmts, k)
      {
        if k != last.number {
          var i :| 0 <= i < |prev| && prev[i].number == k;
          assert stmts[i].number == k;
        }
      }
    }
  }

  /** Pass 2 over the statements: a label line and the instructions of each, stopping at the first error. */
  function Translate(s: Alloc, stmts: seq<Numbered>, labels: map<string, string>): (t: Step<seq<string>>)
    requires Labelled(stmts, labels)
    ensures Extends(s, t.state)
    decreases |stmts|
  {
    if stmts == [] then Step(Ok([]), s)
    else
      var g := GenInstrSpec(s, stmts[0].text, labels);
      if g.result.Err? then Step(Err(g.result.error), g.state)
      else
        var rest := Translate(g.state, stmts[1..], labels);
        if rest.result.Err? then rest
        else Step(Ok([labels[stmts[0].number] + ":"] + g.result.value + rest.result.value), rest.state)
  }

  /** The data section declaring the array's 400 bytes, and the entry point. */
  const Prologue: seq<string> := [".data", "  x: .space 400", ".text", ".globl main", "main:"]

  /** Every statement's number is in the label table. */
  lemma StatementsLabelled(stmts: seq<Numbered>)
    ensures Labelled(stmts, LabelTable(stmts))
  {
    LabelTableComplete(stmts);
    forall i | 0 <= i < |stmts|
      ensures stmts[i].number in LabelTable(stmts)
    {
      assert IsLabelOf(stmts, stmts[i].number);
    }
  }

  /** The lines of `generate(lines)`, before they are joined. */
  function GenerateLines(s: Alloc, lines: seq<string>): (t: Step<seq<string>>)
    ensures Extends(s, t.state)
  {
    var stmts := Statements(lines);
    StatementsLabelled(stmts);
    var body := Translate(s, stmts, LabelTable(stmts));
    if body.result.Err? then Step(Err(body.result.error), body.state)
    else Step(Ok(Prologue + body.result.value + [ReturnInstr]), body.state)
  }

  /** `generate(lines)`: the assembly text, the lines joined by line feeds. */
  function GenerateSpec(s: Alloc, lines: seq<string>): (t: Step<string>)
    ensures Extends(s, t.state)
  {
    var code := GenerateLines(s, lines);
    if code.result.Err? then Step(Err(code.result.error), code.state)
    else Step(Ok(Join(code.result.value, "\n")), code.state)
  }

  /** Translation results with `pre` put in front, errors passed on. */
  function Prefixed(t: Step<seq<string>>, pre: seq<string>): Step<seq<string>>
  {
    if t.result.Ok? then Step(Ok(pre + t.result.value), t.state) else t
  }

  /** A statement that translates leaves the rest of the translation, after its label and instructions. */
  lemma TranslateOk(s: Alloc, stmts: seq<Numbered>, j: nat, labels: map<string, string>, code: seq<string>, out: seq<string>, s': Alloc)
    requires Labelled(stmts, labels)
    requires j < |stmts|
    requires GenInstrSpec(s, stmts[j].text, labels) == Step(Ok(out), s')
    ensures Prefixed(Translate(s', stmts[j + 1..], labels), code + [labels[stmts[j].number] + ":"] + out)
         == Prefixed(Translate(s, stmts[j..], labels), code)
  {
    var tail := stmts[j..];
    assert tail[0] == stmts[j] && tail[1..] == stmts[j + 1..];
    var l := labels[stmts[j].number] + ":";
    var rest := Translate(s', stmts[j + 1..], labels);
    assert Translate(s, tail, labels) == if rest.result.Err? then rest else Step(Ok([l] + out + rest.result.value), rest.state);
    if rest.result.Ok? {
      assert code + [l] + out + rest.result.value == code + ([l] + out + rest.result.value);
    }
  }

  /** A statement that fails ends the translation with its error. */
  lemma TranslateErr(s: Alloc, stmts: seq<Numbered>, j: nat, labels: map<string, string>, code: seq<string>, e: Error, s': Alloc)
    requires Labelled(stmts, labels)
    requires j < |stmts|
    requires GenInstrSpec(s, stmts[j].text, labels) == Step(Err(e), s')
    ensures Prefixed(Translate(s, stmts[j..], labels), code) == Step(Err(e), s')
  {
  }

  /** Is every statement's number in the label table? */
  predicate Labelled(stmts: seq<Numbered>, labels: map<string, string>)
  {
    forall i :: 0 <= i < |stmts| ==> stmts[i].number in labels
  }

  /** `generate` in terms of the translation of its statements. */
  lemma GenerateFromTranslate(s: Alloc, lines: seq<string>, t: Step<seq<string>>)
    requires Labelled(Statements(lines), LabelTable(Statements(lines)))
    requires t == Translate(s, Statements(lines), LabelTable(Statements(lines)))
    ensures t.result.Ok? ==> GenerateSpec(s, lines) == Step(Ok(Join(Prologue + t.result.value + [ReturnInstr], "\n")), t.state)
    ensures t.result.Err? ==> GenerateSpec(s, lines) == Step(Err(t.result.error), t.state)
  {
  }

  // ---------------------------------------------------------------------------------------
  // Pass 1: the statements of the lines.
  // ---------------------------------------------------------------------------------------

  /** A line alone gives one statement if it starts with a number, and none otherwise. */
  lemma StatementOfLine(line: string)
    ensures MatchMarker(line).Some? ==>
      Statements([line]) == [Numbered(MatchMarker(line).value.0, Strip(MatchMarker(line).value.1))]
    ensures MatchMarker(line).None? ==> Statements([line]) == []
  {
    assert [line][..0] == [];
  }

  /** Lines read in two blocks give the statements of the first block, then those of the second. */
  lemma {:induction false} StatementsAppend(a: seq<string>, b: seq<string>)
    ensures Statements(a + b) == Statements(a) + Statements(b)
    decreases |b|
  {
    if b == [] {
      assert a + b == a;
    } else {
      var init := b[..|b| - 1];
      assert (a + b)[..|a + b| - 1] == a + init;
      assert (a + b)[|a + b| - 1] == b[|b| - 1];
      StatementsAppend(a, init);
    }
  }

  /** A numbered line reads as its number and its statement, stripped of surrounding whitespace. */
  lemma NumberedLine(open: bool, n: string, close: bool, sp: string, stmt: string, pad: string)
    requires IsDigits(n) && AllSpace(sp) && AllSpace(pad) && '\n' !in stmt
    requires stmt != [] && !IsSpace(stmt[0]) && !IsSpace(stmt[|stmt| - 1])
    requires !close ==> !IsDigit((sp + (stmt + pad))[0]) && (sp + (stmt + pad))[0] != ')'
    requires '\n' !in pad
    ensures Statements([Opt(open, '(') + (n + (Opt(close, ')') + (sp + (stmt + pad))))]) == [Numbered(n, stmt)]
  {
    var line := Opt(open, '(') + (n + (Opt(close, ')') + (sp + (stmt + pad))));
    NumberedMarker(open, n, close, sp, stmt, pad);
    StatementOfLine(line);
    StripPadded([], stmt, pad);
    assert [] + stmt + pad == stmt + pad;
  }

  lemma NumberedMarker(open: bool, n: string, close: bool, sp: string, stmt: string, pad: string)
    requires IsDigits(n) && AllSpace(sp) && '\n' !in stmt
    requires stmt != [] && !IsSpace(stmt[0])
    requires !close ==> !IsDigit((sp + (stmt + pad))[0]) && (sp + (stmt + pad))[0] != ')'
    requires '\n' !in pad
    ensures MatchMarker(Opt(open, '(') + (n + (Opt(close, ')') + (sp + (stmt + pad))))) == Some((n, stmt + pad))
  {
    assert (stmt + pad)[0] == stmt[0];
    assert stmt + pad + [] == stmt + pad;
    MarkerRoundTrip(open, n, close, sp, stmt + pad, []);
    assert sp + (stmt + pad + []) == sp + (stmt + pad);
  }

  /** A line that does not start with a digit, or with `(` and a digit, gives no statement. */
  lemma UnnumberedLine(line: string)
    requires !(0 < |line| && IsDigit(line[0])) && !(1 < |line| && line[0] == '(' && IsDigit(line[1]))
    ensures Statements([line]) == []
  {
    StatementOfLine(line);
  }

  // ---------------------------------------------------------------------------------------
  // Pass 2: the shape of the output and the resolution of jumps.
  // ---------------------------------------------------------------------------------------

  /** The label line of each statement, in order. */
  function LabelLines(stmts: seq<Numbered>): (r: seq<string>)
    ensures |r| == |stmts|
  {
    seq(|stmts|, i requires 0 <= i < |stmts| => "L" + stmts[i].number + ":")
  }

  /** The lines that are not indented: the label lines, in the body of the output. */
  function Unindented(code: seq<string>): seq<string>
  {
    if code == [] then []
    else (if Indented(code[0]) then [] else [code[0]]) + Unindented(code[1..])
  }

  lemma {:induction false} UnindentedAppend(a: seq<string>, b: seq<string>)
    ensures Unindented(a + b) == Unindented(a) + Unindented(b)
    decreases |a|
  {
    if a == [] {
      assert a + b == b;
    } else {
      assert (a + b)[1..] == a[1..] + b;
      UnindentedAppend(a[1..], b);
    }
  }

  lemma {:induction false} UnindentedNone(code: seq<string>)
    requires forall i :: 0 <= i < |code| ==> Indented(code[i])
    ensures Unindented(code) == []
    decreases |code|
  {
    if code != [] {
      UnindentedNone(code[1..]);
    }
  }

  /** Does every statement number map to its own label? */
  predicate OwnLabels(stmts: seq<Numbered>, labels: map<string, string>)
  {
    forall i :: 0 <= i < |stmts| ==> stmts[i].number in labels && labels[stmts[i].number] == "L" + stmts[i].number
  }

  lemma LabelTableOwn(stmts: seq<Numbered>)
    ensures OwnLabels(stmts, LabelTable(stmts))
  {
    StatementsLabelled(stmts);
  }

  /** A successful translation of a statement list is the first statement's block, then the rest's. */
  lemma TranslateCons(s: Alloc, stmts: seq<Numbered>, labels: map<string, string>)
    requires Labelled(stmts, labels) && stmts != []
    requires Translate(s, stmts, labels).result.Ok?
    ensures var g := GenInstrSpec(s, stmts[0].text, labels);
      && g.result.Ok?
      && Labelled(stmts[1..], labels)
      && Translate(g.state, stmts[1..], labels).result.Ok?
      && Translate(s, stmts, labels).result.value
           == [labels[stmts[0].number] + ":"] + g.result.value + Translate(g.state, stmts[1..], labels).result.value
  {
    assert forall i :: 0 <= i < |stmts| - 1 ==> stmts[1..][i] == stmts[i + 1];
  }

  /** A label line, then indented lines: only the label line is unindented. */
  lemma LabelBlock(l: string, out: seq<string>, rest: seq<string>)
    requires l != [] && l[0] == 'L'
    requires forall i :: 0 <= i < |out| ==> Indented(out[i])
    ensures Unindented([l] + out + rest) == [l] + Unindented(rest)
  {
    UnindentedNone(out);
    UnindentedAppend([l], out);
    UnindentedAppend([l] + out, rest);
    assert Unindented([l]) == [l] + Unindented([]);
  }

  /**
   * A translation that succeeds puts out exactly one label line per statement, in statement
   * order, and every other line it puts out is an indented instruction line.
   */
  lemma {:induction false} TranslateLabels(s: Alloc, stmts: seq<Numbered>, labels: map<string, string>)
    requires OwnLabels(stmts, labels)
    ensures Labelled(stmts, labels)
    ensures Translate(s, stmts, labels).result.Ok? ==> Unindented(Translate(s, stmts, labels).result.value) == LabelLines(stmts)
    decreases |stmts|
  {
    if stmts != [] && Translate(s, stmts, labels).result.Ok? {
      TranslateCons(s, stmts, labels);
      var g := GenInstrSpec(s, stmts[0].text, labels);
      OwnLabelsTail(stmts, labels);
      TranslateLabels(g.state, stmts[1..], labels);
      var l := labels[stmts[0].number] + ":";
      GenInstrIndented(s, stmts[0].text, labels);
      LabelBlock(l, g.result.value, Translate(g.state, stmts[1..], labels).result.value);
    }
  }

  /** Dropping the first statement keeps the labels own, and the first label line is the first of `LabelLines`. */
  lemma OwnLabelsTail(stmts: seq<Numbered>, labels: map<string, string>)
    requires OwnLabels(stmts, labels) && stmts != []
    ensures OwnLabels(stmts[1..], labels)
    ensures var l := labels[stmts[0].number] + ":"; l != [] && l[0] == 'L' && LabelLines(stmts) == [l] + LabelLines(stmts[1..])
  {
    assert forall i :: 0 <= i < |stmts| - 1 ==> stmts[1..][i] == stmts[i + 1];
    var l := labels[stmts[0].number] + ":";
    assert l == "L" + stmts[0].number + ":";
  }

  /**
   * The lines `generate` joins: the five prologue lines, then one `L<n>:` line per numbered
   * input line in input order with the indented instructions of its statement after it, then
   * `jr $ra`. Lines without a number contribute nothing.
   */
  lemma GenerateShape(s: Alloc, lines: seq<string>)
    ensures var code := GenerateLines(s, lines);
      code.result.Ok? ==>
        && |code.result.value| >= 6
        && code.result.value[..5] == Prologue
        && code.result.value[|code.result.value| - 1] == ReturnInstr
        && Unindented(code.result.value[5..|code.result.value| - 1]) == LabelLines(Statements(lines))
  {
    var stmts := Statements(lines);
    LabelTableOwn(stmts);
    TranslateLabels(s, stmts, LabelTable(stmts));
    var body := Translate(s, stmts, LabelTable(stmts));
    if body.result.Ok? {
      var code := Prologue + body.result.value + [ReturnInstr];
      assert code[5..|code| - 1] == body.result.value;
    }
  }

  /** The joined text: the prologue lines, the body lines and `jr $ra`, one per line. */
  lemma GenerateText(s: Alloc, lines: seq<string>)
    ensures var code := GenerateLines(s, lines); var text := GenerateSpec(s, lines);
      code.result.Ok? ==>
        && text.result.Ok?
        && (code.result.value == Prologue + [ReturnInstr] ==> text.result.value == Join(Prologue, "\n") + "\n" + ReturnInstr)
        && (|code.result.value| > 6 ==>
              text.result.value == Join(Prologue, "\n") + "\n" + Join(code.result.value[5..|code.result.value| - 1], "\n") + "\n" + ReturnInstr)
  {
    var code := GenerateLines(s, lines);
    GenerateShape(s, lines);
    if code.result.Ok? {
      var c := code.result.value;
      var body := c[5..|c| - 1];
      assert c == Prologue + body + [ReturnInstr];
      if body == [] {
        assert c == Prologue + [ReturnInstr];
        JoinAppend(Prologue, [ReturnInstr], "\n");
      } else {
        JoinAppend(Prologue, body, "\n");
        JoinAppend(Prologue + body, [ReturnInstr], "\n");
      }
    }
  }

  /**
   * The label table is complete before any statement is translated: a jump resolves to the
   * label of its target exactly when some statement, before or after it, has that number.
   */
  lemma JumpResolution(s: Alloc, lines: seq<string>, text: string)
    requires Classify(text).Jump?
    ensures var stmts := Statements(lines); var t := Classify(text).target;
      GenInstrSpec(s, text, LabelTable(stmts)) ==
        if IsLabelOf(stmts, t) then Step(Ok([Instr("j L" + t)]), s) else Step(Err(MissingLabel(t)), s)
  {
    var stmts := Statements(lines);
    var t := Classify(text).target;
    LabelTableComplete(stmts);
    JumpLowered(s, t, LabelTable(stmts));
  }

  lemma JumpLowered(s: Alloc, t: string, labels: map<string, string>)
    requires forall k :: k in labels ==> labels[k] == "L" + k
    ensures Lower(s, Jump(t), labels) == if t in labels then Step(Ok([Instr("j L" + t)]), s) else Step(Err(MissingLabel(t)), s)
  {
    assert Lookups(Jump(t)) == [];
    assert GetRegs(s, []) == Step(Ok([]), s);
    if t in labels {
      assert "j " + labels[t] == "j L" + t;
    }
  }

  /**
   * A branch whose operands receive registers resolves its target the same way: it emits its
   * instruction exactly when some statement has the target's number, and fails on it otherwise.
   */
  lemma BranchResolution(s: Alloc, lines: seq<string>, text: string)
    requires Classify(text).Branch?
    requires GetRegs(s, Lookups(Classify(text))).result.Ok?
    ensures var stmts := Statements(lines); var t := Classify(text).target;
      var g := GenInstrSpec(s, text, LabelTable(stmts));
      (g.result.Ok? <==> IsLabelOf(stmts, t)) && (g.result.Err? ==> g.result.error == MissingLabel(t))
  {
    LabelTableComplete(Statements(lines));
  }

  /**
   * Pass 2 stops at the first statement that fails: on a variable the pool has no register
   * left for, or on a jump or branch target that is not in the label table.
   */
  lemma {:induction false} TranslateErrors(s: Alloc, stmts: seq<Numbered>, labels: map<string, string>)
    requires Labelled(stmts, labels)
    ensures var t := Translate(s, stmts, labels);
      t.result.Err? ==> (t.result.error.PoolExhausted? || t.result.error.target !in labels)
    ensures s.Valid() ==> Translate(s, stmts, labels).state.Valid()
    decreases |stmts|
  {
    if stmts != [] {
      var g := GenInstrSpec(s, stmts[0].text, labels);
      GenInstrBinds(s, stmts[0].text, labels);
      if g.result.Ok? {
        assert Labelled(stmts[1..], labels) by {
          forall i | 0 <= i < |stmts| - 1
            ensures stmts[1..][i] == stmts[i + 1]
          {
          }
        }
        TranslateErrors(g.state, stmts[1..], labels);
      }
    }
  }

  /**
   * `generate` fails only when the pool runs out, or on a jump or branch to a number no
   * line carries; and it keeps the allocator invariant whether it succeeds or fails.
   */
  lemma GenerateErrors(s: Alloc, lines: seq<string>)
    ensures var t := GenerateSpec(s, lines);
      t.result.Err? ==> (t.result.error.PoolExhausted? || !IsLabelOf(Statements(lines), t.result.error.target))
    ensures s.Valid() ==> GenerateSpec(s, lines).state.Valid()
  {
    var stmts := Statements(lines);
    StatementsLabelled(stmts);
    LabelTableComplete(stmts);
    TranslateErrors(s, stmts, LabelTable(stmts));
  }

  /** With no numbered line, `generate` gives the prologue and `jr $ra` alone, and binds nothing. */
  lemma GenerateEmpty(s: Alloc, lines: seq<string>)
    requires forall i :: 0 <= i < |lines| ==> MatchMarker(lines[i]).None?
    ensures GenerateSpec(s, lines) == Step(Ok(Join(Prologue + [ReturnInstr], "\n")), s)
  {
    NoStatements(lines);
    StatementsLabelled([]);
    assert Translate(s, [], LabelTable([])) == Step(Ok([]), s);
    assert Prologue + [] + [ReturnInstr] == Prologue + [ReturnInstr];
  }

  lemma {:induction false} NoStatements(lines: seq<string>)
    requires forall i :: 0 <= i < |lines| ==> MatchMarker(lines[i]).None?
    ensures Statements(lines) == []
    decreases |lines|
  {
    if lines != [] {
      NoStatements(lines[..|lines| - 1]);
    }
  }

  /** The generator object: the allocator's table, its pool and its cursor. */
  class CodeGenerator {
    var varReg: map<string, string>
    const regPool: seq<string>
    var nextReg: nat

    function State(): Alloc
      reads this
    {
      Alloc(varReg, regPool, nextReg)
    }

    ghost predicate Valid()
      reads this
    {
      State().Valid()
    }

    constructor ()
      ensures State() == Initial && Valid()
    {
      varReg := map[];
      regPool := RegPool;
      nextReg := 0;
      InitialValid();
    }

    /** `get_reg(v)`. */
    method GetReg(v: string) returns (r: Result<string, Error>)
      modifies this
      ensures Step(r, State()) == GetRegSpec(old(State()), v)
    {
      if IsDigits(v) {
        return Ok(v);
      }
      if v !in varReg {
        if v == ArrayName {
          varReg := varReg[v := ArrayBase];
        } else {
          if nextReg >= |regPool| {
            return Err(PoolExhausted(v));
          }
          varReg := varReg[v := regPool[nextReg]];
          nextReg := nextReg + 1;
        }
      }
      return Ok(varReg[v]);
    }

    /** `_gen_instr(tacInstruc, labelMap)`. */
    method GenInstr(tacInstruc: string, labelMap: map<string, string>) returns (r: Result<seq<string>, Error>)
      modifies this
      ensures Step(r, State()) == GenInstrSpec(old(State()), tacInstruc, labelMap)
    {
      match Classify(tacInstruc) {
        case Return => r := Ok([ReturnInstr]);
        case Branch(a, op, b, target) => r := GenBranch(a, op, b, target, labelMap);
        case Jump(target) =>
          if target in labelMap {
            r := Ok([Instr("j " + labelMap[target])]);
          } else {
            r := Err(MissingLabel(target));
          }
        case Load(dst, arr, idx) => r := GenLoad(dst, arr, idx);
        case Store(arr, idx, src) => r := GenStore(arr, idx, src);
        case Copy(dst, src) => r := GenCopy(dst, src);
        case BinOp(dst, op1, op, op2) => r := GenBinOp(dst, op1, op, op2);
        case Unrecognized => r := Ok([]);
      }
    }

    method GenBranch(a: string, op: string, b: string, target: string, labelMap: map<string, string>)
      returns (r: Result<seq<string>, Error>)
      requires op in BranchOps
      modifies this
      ensures Step(r, State()) == Lower(old(State()), Branch(a, op, b, target), labelMap)
    {
      assert [a, b] == [a] + ([b] + []);
      GetRegsCons(State(), a, [b]);
      var ra :- GetReg(a);
      GetRegsCons(State(), b, []);
      var rb :- GetReg(b);
      if target !in labelMap {
        return Err(MissingLabel(target));
      }
      return Ok([Instr(BranchOps[op] + " " + ra + ", " + rb + ", " + labelMap[target])]);
    }

    method GenLoad(dst: string, arr: string, idx: string) returns (r: Result<seq<string>, Error>)
      modifies this
      ensures Step(r, State()) == Lower(old(State()), Load(dst, arr, idx), map[])
    {
      assert [arr, idx, dst] == [arr] + ([idx] + ([dst] + []));
      GetRegsCons(State(), arr, [idx, dst]);
      var rArr :- GetReg(arr);
      GetRegsCons(State(), idx, [dst]);
      var rIdx :- GetReg(idx);
      GetRegsCons(State(), dst, []);
      var rDst :- GetReg(dst);
      return Ok([Instr("add $at, " + rArr + ", " + rIdx), Instr("lw " + rDst + ", 0($at)")]);
    }

    method GenStore(arr: string, idx: string, src: string) returns (r: Result<seq<string>, Error>)
      modifies this
      ensures Step(r, State()) == Lower(old(State()), Store(arr, idx, src), map[])
    {
      assert [arr, idx, src] == [arr] + ([idx] + ([src] + []));
      GetRegsCons(State(), arr, [idx, src]);
      var rArr :- GetReg(arr);
      GetRegsCons(State(), idx, [src]);
      var rIdx :- GetReg(idx);
      GetRegsCons(State(), src, []);
      var rSrc :- GetReg(src);
      return Ok([Instr("add $at, " + rArr + ", " + rIdx), Instr("sw " + rSrc + ", 0($at)")]);
    }

    method GenCopy(dst: string, src: string) returns (r: Result<seq<string>, Error>)
      modifies this
      ensures Step(r, State()) == Lower(old(State()), Copy(dst, src), map[])
    {
      ghost var later := if IsDigits(src) then [] else [src];
      assert Lookups(Copy(dst, src)) == [dst] + later;
      GetRegsCons(State(), dst, later);
      var rDst :- GetReg(dst);
      if IsDigits(src) {
        return Ok([Instr("li " + rDst + ", " + src)]);
      }
      assert later == [src] + [];
      GetRegsCons(State(), src, []);
      var rSrc :- GetReg(src);
      return Ok([Instr("move " + rDst + ", " + rSrc)]);
    }

    method GenBinOp(dst: string, op1: string, op: string, op2: string) returns (r: Result<seq<string>, Error>)
      modifies this
      ensures Step(r, State()) == Lower(old(State()), BinOp(dst, op1, op, op2), map[])
    {
      ghost var later := if IsDigits(op2) then [] else [op2];
      assert Lookups(BinOp(dst, op1, op, op2)) == [dst] + ([op1] + later);
      GetRegsCons(State(), dst, [op1] + later);
      var rDst :- GetReg(dst);
      GetRegsCons(State(), op1, later);
      var r1 :- GetReg(op1);
      if IsDigits(op2) && (op == "+" || op == "-") {
        var imm := if op == "+" then op2 else "-" + op2;
        return Ok([Instr("addi " + rDst + ", " + r1 + ", " + imm)]);
      }
      if IsDigits(op2) {
        return Ok([Instr("li $at, " + op2)] + ArithInstrs(op, rDst, r1, "$at"));
      }
      assert later == [op2] + [];
      GetRegsCons(State(), op2, []);
      var r2 :- GetReg(op2);
      return Ok(ArithInstrs(op, rDst, r1, r2));
    }

    /** Pass 1 of `generate`: the numbered statements and the label table. */
    static method Number(tacLines: seq<string>) returns (instrs: seq<Numbered>, labelMap: map<string, string>)
      ensures instrs == Statements(tacLines)
      ensures labelMap == LabelTable(instrs)
    {
      instrs := [];
      labelMap := map[];
      for i := 0 to |tacLines|
        invariant instrs == Statements(tacLines[..i])
        invariant labelMap == LabelTable(instrs)
      {
        assert tacLines[..i + 1][..i] == tacLines[..i];
        match MatchMarker(tacLines[i]) {
          case None =>
          case Some((num, body)) =>
            ghost var prev := instrs;
            labelMap := labelMap[num := "L" + num];
            instrs := instrs + [Numbered(num, Strip(body))];
            assert instrs[..|instrs| - 1] == prev;
        }
      }
      assert tacLines[..|tacLines|] == tacLines;
    }

    /** `generate(tacLines)`. */
    method Generate(tacLines: seq<string>) returns (r: Result<string, Error>)
      modifies this
      ensures Step(r, State()) == GenerateSpec(old(State()), tacLines)
    {
      var instrs, labelMap := Number(tacLines);
      StatementsLabelled(instrs);

      // pass 2: each statement's label line, then its instructions
      ghost var start := State();
      ghost var goal := Translate(start, instrs, labelMap);
      GenerateFromTranslate(start, tacLines, goal);
      var code := Prologue;
      for j := 0 to |instrs|
        invariant Prefixed(Translate(State(), instrs[j..], labelMap), code) == Prefixed(goal, Prologue)
      {
        ghost var before := State();
        ghost var done := code;
        code := code + [labelMap[instrs[j].number] + ":"];
        var out := GenInstr(instrs[j].text, labelMap);
        if out.Err? {
          TranslateErr(before, instrs, j, labelMap, done, out.error, State());
          return Err(out.error);
        }
        TranslateOk(before, instrs, j, labelMap, done, out.value, State());
        code := code + out.value;
      }
      assert instrs[|instrs|..] == [];
      assert code + [] == code;
      assert goal.result.Ok? && Prologue + goal.result.value == code;
      code := code + [ReturnInstr];
      r := Ok(Join(code, "\n"));
    }
  }
}
