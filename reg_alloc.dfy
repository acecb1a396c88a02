/**
 * The register allocator of the code generator (`get_reg`), as a value: the name-to-register
 * table `varReg`, the register pool and the cursor `nextReg` into it. The class in
 * code_generator.dfy holds the same three fields and is proved against these functions.
 */
module RegAlloc {
  import opened Ascii
  import opened Results

  /** The allocatable registers, in the order they are handed out; `$s0` is not among them. */
  const RegPool: seq<string> := [
    "$t0", "$t1", "$t2", "$t3", "$t4", "$t5", "$t6", "$t7", "$t8", "$t9",
    "$s1", "$s2", "$s3", "$s4", "$s5", "$s6", "$s7",
    "$a0", "$a1", "$a2", "$a3", "$v0", "$v1"
  ]

  /** The one array the target supports, and the register that holds its base address. */
  const ArrayName: string := "x"
  const ArrayBase: string := "$s0"

  /** The two ways a generation run stops: no register left (an IndexError), an unknown label (a KeyError). */
  datatype Error = PoolExhausted(name: string) | MissingLabel(target: string)

  /** A pool of distinct registers that does not contain the array register. */
  predicate GoodPool(pool: seq<string>)
  {
    && (forall i, j :: 0 <= i < j < |pool| ==> pool[i] != pool[j])
    && ArrayBase !in pool
  }

  datatype Alloc = Alloc(varReg: map<string, string>, pool: seq<string>, nextReg: nat) {

    /** The names bound to pool registers. */
    function PoolNames(): set<string> { varReg.Keys - {ArrayName} }

    /**
     * The allocator's invariant: the pool is made of distinct registers other than `$s0`, no
     * immediate is ever entered, the array name can only be bound to `$s0`, every other name
     * holds one of the first `nextReg` pool registers, no two names share a register, and
     * `nextReg` is the number of names holding a pool register.
     */
    predicate Valid()
    {
      && GoodPool(pool)
      && nextReg <= |pool|
      && (forall k :: k in varReg ==> !IsDigits(k))
      && (ArrayName in varReg ==> varReg[ArrayName] == ArrayBase)
      && (forall k :: k in varReg && k != ArrayName ==> varReg[k] in pool[..nextReg])
      && (forall k1, k2 :: k1 in varReg && k2 in varReg && k1 != k2 ==> varReg[k1] != varReg[k2])
      && |PoolNames()| == nextReg
    }
  }

  /** The allocator state a new generator starts from: nothing bound, the cursor at the first register. */
  const Initial: Alloc := Alloc(map[], RegPool, 0)

  /** The outcome of a step that may fail, and the allocator state it leaves behind either way. */
  datatype Step<T> = Step(result: Result<T, Error>, state: Alloc)

  /** `t` is `s` with possibly more names bound: bindings are never changed or removed. */
  predicate Extends(s: Alloc, t: Alloc)
  {
    && s.varReg.Keys <= t.varReg.Keys
    && (forall k :: k in s.varReg ==> t.varReg[k] == s.varReg[k])
    && t.pool == s.pool
    && s.nextReg <= t.nextReg
  }

  /** `get_reg(v)`: the operand text for `v`, binding a fresh register on first use. */
  function GetRegSpec(s: Alloc, v: string): (t: Step<string>)
    ensures Extends(s, t.state)
    ensures t.result.Err? ==> t.state == s
  {
    if IsDigits(v) then Step(Ok(v), s)
    else if v in s.varReg then Step(Ok(s.varReg[v]), s)
    else if v == ArrayName then Step(Ok(ArrayBase), s.(varReg := s.varReg[v := ArrayBase]))
    else if s.nextReg < |s.pool| then
      var reg := s.pool[s.nextReg];
      Step(Ok(reg), s.(varReg := s.varReg[v := reg], nextReg := s.nextReg + 1))
    else Step(Err(PoolExhausted(v)), s)
  }

  /** `get_reg` applied to each name in turn, stopping at the first failure. */
  function GetRegs(s: Alloc, names: seq<string>): (t: Step<seq<string>>)
    ensures Extends(s, t.state)
    ensures t.result.Ok? ==> |t.result.value| == |names|
    decreases |names|
  {
    if names == [] then Step(Ok([]), s)
    else
      var first := GetRegSpec(s, names[0]);
      if first.result.Err? then Step(Err(first.result.error), first.state)
      else
        var rest := GetRegs(first.state, names[1..]);
        if rest.result.Err? then rest
        else Step(Ok([first.result.value] + rest.result.value), rest.state)
  }

  /** One step of `GetRegs`: the first name, then the rest from the state it leaves. */
  lemma GetRegsCons(s: Alloc, v: string, rest: seq<string>)
    ensures GetRegs(s, [v] + rest) ==
      var first := GetRegSpec(s, v);
      if first.result.Err? then Step(Err(first.result.error), first.state)
      else
        var t := GetRegs(first.state, rest);
        if t.result.Err? then t else Step(Ok([first.result.value] + t.result.value), t.state)
  {
    assert ([v] + rest)[1..] == rest;
  }

  /** The pool lists 23 distinct registers, and `$s0` is not one of them. */
  lemma PoolDistinct()
    ensures |RegPool| == 23 && GoodPool(RegPool)
  {
  }

  /** A new generator's allocator satisfies the invariant. */
  lemma InitialValid()
    ensures Initial.Valid()
  {
    PoolDistinct();
  }

  /** The array name is not an immediate. */
  lemma ArrayNameIsName()
    ensures !IsDigits(ArrayName)
  {
    assert !IsDigit(ArrayName[0]);
  }

  /** A register among the first `n` of a good pool is not the array register, nor the `n`-th. */
  lemma PoolPrefix(pool: seq<string>, n: nat, r: string)
    requires GoodPool(pool) && n <= |pool| && r in pool[..n]
    ensures r != ArrayBase
    ensures n < |pool| ==> r != pool[n] && r in pool[..n + 1]
  {
    var j :| 0 <= j < n && pool[..n][j] == r;
    assert pool[j] == r;
    if n < |pool| {
      assert pool[..n + 1][j] == r;
    }
  }

  /** The invariant, conjunct by conjunct, for a new table `m` over the same pool. */
  lemma ValidWith(s: Alloc, m: map<string, string>, n: nat)
    requires GoodPool(s.pool) && n <= |s.pool|
    requires forall k :: k in m ==> !IsDigits(k)
    requires ArrayName in m ==> m[ArrayName] == ArrayBase
    requires forall k :: k in m && k != ArrayName ==> m[k] in s.pool[..n]
    requires forall k1, k2 :: k1 in m && k2 in m && k1 != k2 ==> m[k1] != m[k2]
    requires |m.Keys - {ArrayName}| == n
    ensures s.(varReg := m, nextReg := n).Valid()
  {
  }

  lemma BindArrayNoImmediates(s: Alloc)
    requires s.Valid()
    ensures forall k :: k in s.varReg[ArrayName := ArrayBase] ==> !IsDigits(k)
  {
    ArrayNameIsName();
  }

  lemma BindArrayInjective(s: Alloc)
    requires s.Valid() && ArrayName !in s.varReg
    ensures var m := s.varReg[ArrayName := ArrayBase];
      forall k1, k2 :: k1 in m && k2 in m && k1 != k2 ==> m[k1] != m[k2]
  {
    forall k | k in s.varReg
      ensures s.varReg[k] != ArrayBase
    {
      PoolPrefix(s.pool, s.nextReg, s.varReg[k]);
    }
  }

  lemma BindArrayCount(s: Alloc)
    requires s.Valid()
    ensures |s.varReg[ArrayName := ArrayBase].Keys - {ArrayName}| == s.nextReg
  {
    assert s.varReg[ArrayName := ArrayBase].Keys - {ArrayName} == s.PoolNames();
  }

  /** Binding the array name to `$s0` keeps the invariant. */
  lemma BindArrayKeepsValid(s: Alloc)
    requires s.Valid() && ArrayName !in s.varReg
    ensures s.(varReg := s.varReg[ArrayName := ArrayBase]).Valid()
  {
    BindArrayNoImmediates(s);
    BindArrayInjective(s);
    BindArrayCount(s);
    ValidWith(s, s.varReg[ArrayName := ArrayBase], s.nextReg);
  }

  lemma BindFreshInPrefix(s: Alloc, v: string)
    requires s.Valid() && v !in s.varReg && s.nextReg < |s.pool|
    ensures var m := s.varReg[v := s.pool[s.nextReg]];
      forall k :: k in m && k != ArrayName ==> m[k] in s.pool[..s.nextReg + 1]
  {
    var n := s.nextReg;
    assert s.pool[..n + 1][n] == s.pool[n];
    forall k | k in s.varReg && k != ArrayName
      ensures s.varReg[k] in s.pool[..n + 1]
    {
      PoolPrefix(s.pool, n, s.varReg[k]);
    }
  }

  lemma BindFreshInjective(s: Alloc, v: string)
    requires s.Valid() && v !in s.varReg && s.nextReg < |s.pool|
    ensures var m := s.varReg[v := s.pool[s.nextReg]];
      forall k1, k2 :: k1 in m && k2 in m && k1 != k2 ==> m[k1] != m[k2]
  {
    assert s.pool[s.nextReg] in s.pool;
    forall k | k in s.varReg && k != ArrayName
      ensures s.varReg[k] != s.pool[s.nextReg]
    {
      PoolPrefix(s.pool, s.nextReg, s.varReg[k]);
    }
  }

  lemma BindFreshCount(s: Alloc, v: string, r: string)
    requires s.Valid() && v != ArrayName && v !in s.varReg
    ensures |s.varReg[v := r].Keys - {ArrayName}| == s.nextReg + 1
  {
    assert s.varReg[v := r].Keys - {ArrayName} == s.PoolNames() + {v};
  }

  /** Binding a fresh name to the register under the cursor, and moving the cursor on, keeps the invariant. */
  lemma BindFreshKeepsValid(s: Alloc, v: string)
    requires s.Valid()
    requires !IsDigits(v) && v != ArrayName && v !in s.varReg && s.nextReg < |s.pool|
    ensures s.(varReg := s.varReg[v := s.pool[s.nextReg]], nextReg := s.nextReg + 1).Valid()
  {
    BindFreshInPrefix(s, v);
    BindFreshInjective(s, v);
    BindFreshCount(s, v, s.pool[s.nextReg]);
    ValidWith(s, s.varReg[v := s.pool[s.nextReg]], s.nextReg + 1);
  }

  /** Every `get_reg` call keeps the allocator's invariant. */
  lemma GetRegKeepsValid(s: Alloc, v: string)
    requires s.Valid()
    ensures GetRegSpec(s, v).state.Valid()
  {
    if !IsDigits(v) && v !in s.varReg {
      if v == ArrayName {
        BindArrayKeepsValid(s);
      } else if s.nextReg < |s.pool| {
        BindFreshKeepsValid(s, v);
      }
    }
  }

  /** A run of `get_reg` calls keeps the invariant. */
  lemma {:induction false} GetRegsKeepsValid(s: Alloc, names: seq<string>)
    requires s.Valid()
    ensures GetRegs(s, names).state.Valid()
    decreases |names|
  {
    if names != [] {
      GetRegKeepsValid(s, names[0]);
      var first := GetRegSpec(s, names[0]);
      if first.result.Ok? {
        GetRegsKeepsValid(first.state, names[1..]);
      }
    }
  }

  /** A nonempty all-digit name is an immediate: returned as it is, and nothing changes. */
  lemma GetRegImmediate(s: Alloc, v: string)
    requires IsDigits(v)
    ensures GetRegSpec(s, v) == Step(Ok(v), s)
  {
  }

  /**
   * The array name always yields `$s0` and never moves the pool cursor; since `$s0` is not in
   * the pool, no other name holds it.
   */
  lemma GetRegArrayBase(s: Alloc)
    requires s.Valid()
    ensures GetRegSpec(s, ArrayName) == Step(Ok(ArrayBase), s.(varReg := s.varReg[ArrayName := ArrayBase]))
    ensures forall k :: k in s.varReg && k != ArrayName ==> s.varReg[k] != ArrayBase
  {
    ArrayNameIsName();
    forall k | k in s.varReg && k != ArrayName
      ensures s.varReg[k] != ArrayBase
    {
      PoolPrefix(s.pool, s.nextReg, s.varReg[k]);
    }
    if ArrayName in s.varReg {
      assert s.varReg[ArrayName := ArrayBase] == s.varReg;
    }
  }

  /**
   * Once a name is bound, every later `get_reg` of it, after any number of other calls,
   * returns the same register and changes nothing.
   */
  lemma GetRegStable(s: Alloc, t: Alloc, v: string)
    requires t.Valid() && Extends(s, t)
    requires v in s.varReg
    ensures GetRegSpec(t, v) == Step(Ok(s.varReg[v]), t)
  {
  }

  /**
   * A fresh name other than the array name takes the register under the cursor, which moves
   * on by exactly one; once the pool is used up it fails and changes nothing.
   */
  lemma GetRegFresh(s: Alloc, v: string)
    requires !IsDigits(v) && v != ArrayName && v !in s.varReg
    ensures s.nextReg < |s.pool| ==>
      GetRegSpec(s, v) == Step(Ok(s.pool[s.nextReg]), s.(varReg := s.varReg[v := s.pool[s.nextReg]], nextReg := s.nextReg + 1))
    ensures s.nextReg >= |s.pool| ==> GetRegSpec(s, v) == Step(Err(PoolExhausted(v)), s)
  {
  }

  /** Distinct names never share a register, and the cursor counts the names holding a pool register. */
  lemma RegistersDistinct(s: Alloc, k1: string, k2: string)
    requires s.Valid()
    requires k1 in s.varReg && k2 in s.varReg && k1 != k2
    ensures s.varReg[k1] != s.varReg[k2]
    ensures s.nextReg == |s.varReg.Keys - {ArrayName}|
  {
  }

  /** Each name of `names` is a fresh name for `s`: not an immediate, not the array, not bound, not repeated. */
  predicate AllFresh(s: Alloc, names: seq<string>)
  {
    && (forall i, j :: 0 <= i < j < |names| ==> names[i] != names[j])
    && (forall i :: 0 <= i < |names| ==> !IsDigits(names[i]) && names[i] != ArrayName && names[i] !in s.varReg)
  }

  lemma AllFreshTail(s: Alloc, names: seq<string>, r: string)
    requires AllFresh(s, names) && names != []
    ensures AllFresh(s.(varReg := s.varReg[names[0] := r], nextReg := s.nextReg + 1), names[1..])
  {
    forall i | 0 <= i < |names[1..]|
      ensures names[1..][i] != names[0]
    {
      assert names[1..][i] == names[i + 1];
    }
  }

  /** Fresh names receive the pool registers in pool order, starting at the cursor, while the pool lasts. */
  lemma {:induction false} GetRegsInPoolOrder(s: Alloc, names: seq<string>)
    requires AllFresh(s, names)
    requires s.nextReg + |names| <= |s.pool|
    ensures GetRegs(s, names).result == Ok(s.pool[s.nextReg..s.nextReg + |names|])
    ensures GetRegs(s, names).state.nextReg == s.nextReg + |names|
    decreases |names|
  {
    if names == [] {
      assert s.pool[s.nextReg..s.nextReg] == [];
    } else {
      assert !IsDigits(names[0]) && names[0] != ArrayName && names[0] !in s.varReg;
      var r := s.pool[s.nextReg];
      var t := s.(varReg := s.varReg[names[0] := r], nextReg := s.nextReg + 1);
      assert GetRegSpec(s, names[0]) == Step(Ok(r), t);
      AllFreshTail(s, names, r);
      GetRegsInPoolOrder(t, names[1..]);
      var rest := GetRegs(t, names[1..]);
      assert GetRegs(s, names) == Step(Ok([r] + rest.result.value), rest.state);
      SliceCons(s.pool, s.nextReg, |names|);
    }
  }

  lemma SliceCons(pool: seq<string>, i: nat, n: nat)
    requires 0 < n && i + n <= |pool|
    ensures pool[i..i + n] == [pool[i]] + pool[i + 1..i + 1 + (n - 1)]
  {
  }

  /** The first fresh name past the end of the pool fails, instead of wrapping around to its start. */
  lemma {:induction false} GetRegsPastPool(s: Alloc, names: seq<string>)
    requires AllFresh(s, names)
    requires s.nextReg <= |s.pool| < s.nextReg + |names|
    ensures GetRegs(s, names).result == Err(PoolExhausted(names[|s.pool| - s.nextReg]))
    decreases |names|
  {
    assert !IsDigits(names[0]) && names[0] != ArrayName && names[0] !in s.varReg;
    if s.nextReg < |s.pool| {
      var t := GetRegSpec(s, names[0]).state;
      assert t == s.(varReg := s.varReg[names[0] := s.pool[s.nextReg]], nextReg := s.nextReg + 1);
      AllFreshTail(s, names, s.pool[s.nextReg]);
      GetRegsPastPool(t, names[1..]);
      assert names[1..][|s.pool| - t.nextReg] == names[|s.pool| - s.nextReg];
    }
  }

  /** The variable names among `names`: those that are not immediates. */
  function Variables(names: seq<string>): set<string>
  {
    set i | 0 <= i < |names| && !IsDigits(names[i]) :: names[i]
  }

  lemma VariablesCons(names: seq<string>)
    requires names != []
    ensures Variables(names) == (if IsDigits(names[0]) then {} else {names[0]}) + Variables(names[1..])
  {
    var tail := names[1..];
    forall v | v in Variables(names)
      ensures v in (if IsDigits(names[0]) then {} else {names[0]}) + Variables(tail)
    {
      var i :| 0 <= i < |names| && !IsDigits(names[i]) && names[i] == v;
      if i > 0 {
        assert tail[i - 1] == v;
      }
    }
    forall v | v in Variables(tail)
      ensures v in Variables(names)
    {
      var i :| 0 <= i < |tail| && !IsDigits(tail[i]) && tail[i] == v;
      assert names[i + 1] == v;
    }
  }

  /**
   * A run of `get_reg` calls binds exactly the variable names it meets. On success every
   * variable of `names` is bound afterwards and nothing else is; a failure is the pool running
   * out on a variable that is still unbound.
   */
  lemma {:induction false} GetRegsBinds(s: Alloc, names: seq<string>)
    ensures var t := GetRegs(s, names);
      t.result.Ok? ==> t.state.varReg.Keys == s.varReg.Keys + Variables(names)
    ensures var t := GetRegs(s, names);
      t.result.Err? ==>
        && t.state.varReg.Keys <= s.varReg.Keys + Variables(names)
        && t.result.error.PoolExhausted?
        && t.result.error.name in Variables(names)
        && t.result.error.name !in t.state.varReg
        && t.state.nextReg >= |t.state.pool|
    decreases |names|
  {
    if names == [] {
      assert Variables(names) == {};
    } else {
      VariablesCons(names);
      var first := GetRegSpec(s, names[0]);
      if first.result.Ok? {
        GetRegsBinds(first.state, names[1..]);
        assert first.state.varReg.Keys == s.varReg.Keys + (if IsDigits(names[0]) then {} else {names[0]});
      }
    }
  }

  /** The register a bound name or an immediate stands for in `s`. */
  function Operand(s: Alloc, v: string): string
  {
    if IsDigits(v) then v else if v in s.varReg then s.varReg[v] else ""
  }

  /**
   * Each register returned by a successful run is its name's binding in the state the run
   * leaves, so an instruction may be read against the final register table.
   */
  lemma {:induction false} GetRegsResult(s: Alloc, names: seq<string>)
    ensures var t := GetRegs(s, names);
      t.result.Ok? ==> forall i :: 0 <= i < |names| ==> t.result.value[i] == Operand(t.state, names[i])
    decreases |names|
  {
    if names != [] {
      var first := GetRegSpec(s, names[0]);
      if first.result.Ok? {
        GetRegsResult(first.state, names[1..]);
        var t := GetRegs(s, names);
        if t.result.Ok? {
          forall i | 0 <= i < |names|
            ensures t.result.value[i] == Operand(t.state, names[i])
          {
            if i > 0 {
              assert names[1..][i - 1] == names[i];
            }
          }
        }
      }
    }
  }
}
