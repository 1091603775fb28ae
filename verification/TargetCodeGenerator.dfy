/**
  The generator of machine code: it appends instructions, leaves placeholders for jumps, notes
  where they are, and patches them once all blocks have addresses. It produces exactly the
  program that module FlowTarget defines with symbolic jumps.
 */
module TargetCodeGenerator {
  import opened FlowCore
  import opened FlowIr
  import opened FlowVm
  import opened FlowTarget

  /** A conditional jump to be patched: its place, whether it jumps on true, its register. */
  datatype CondJump = CondJump(pc: nat, onTrue: bool, condition: nat)

  function Jump(j: CondJump, t: nat): Code<nat> {
    if j.onTrue then Jn(j.condition, t) else Jz(j.condition, t)
  }

  predicate IsJump(c: Code<nat>) {
    c.Jmp? || c.Jn? || c.Jz?
  }

  type CondTable = map<nat, seq<CondJump>>
  type JumpTable = map<nat, seq<nat>>

  function CondAt(t: CondTable, b: nat): seq<CondJump> {
    if b in t then t[b] else []
  }

  function JumpAt(t: JumpTable, b: nat): seq<nat> {
    if b in t then t[b] else []
  }

  ghost predicate JumpListed(sym: seq<Code<nat>>, jumps: JumpTable, k: nat)
    requires k < |sym|
  {
    sym[k].Jmp? ==> k in JumpAt(jumps, sym[k].t)
  }

  ghost predicate CondListed(sym: seq<Code<nat>>, cond: CondTable, k: nat)
    requires k < |sym|
  {
    sym[k].Jn? || sym[k].Jz? ==> CondJump(k, sym[k].Jn?, sym[k].r) in CondAt(cond, sym[k].t)
  }

  /** The tables list every symbolic jump of `sym` at its target, and nothing else. */
  ghost predicate Listed(sym: seq<Code<nat>>, cond: CondTable, jumps: JumpTable) {
    && (forall k | 0 <= k < |sym| :: JumpListed(sym, jumps, k) && CondListed(sym, cond, k))
    && (forall b | b in jumps :: JumpsTo(sym, jumps[b], b))
    && (forall b | b in cond :: CondJumpsTo(sym, cond[b], b))
  }

  ghost predicate JumpsTo(sym: seq<Code<nat>>, places: seq<nat>, b: nat) {
    forall x | 0 <= x < |places| :: places[x] < |sym| && sym[places[x]] == Jmp(b)
  }

  ghost predicate CondJumpsTo(sym: seq<Code<nat>>, places: seq<CondJump>, b: nat) {
    forall x | 0 <= x < |places| :: places[x].pc < |sym| && sym[places[x].pc] == Jump(places[x], b)
  }

  lemma AllListed(sym: seq<Code<nat>>, cond: CondTable, jumps: JumpTable)
    requires Listed(sym, cond, jumps)
    ensures forall k | 0 <= k < |sym| && sym[k].Jmp? :: k in JumpAt(jumps, sym[k].t)
    ensures forall k | 0 <= k < |sym| && (sym[k].Jn? || sym[k].Jz?) ::
              CondJump(k, sym[k].Jn?, sym[k].r) in CondAt(cond, sym[k].t)
  {
    hide JumpsTo, CondJumpsTo, JumpAt, CondAt;
    forall k | 0 <= k < |sym| ensures sym[k].Jmp? ==> k in JumpAt(jumps, sym[k].t) { assert JumpListed(sym, jumps, k); }
    forall k | 0 <= k < |sym| && (sym[k].Jn? || sym[k].Jz?)
      ensures CondJump(k, sym[k].Jn?, sym[k].r) in CondAt(cond, sym[k].t) {
      assert CondListed(sym, cond, k);
    }
  }

  /** What was listed stays listed when code is added and tables grow. */
  lemma StillListed(sym: seq<Code<nat>>, cond: CondTable, jumps: JumpTable, c: Code<nat>, cond': CondTable,
        jumps': JumpTable, k: nat)
    requires k < |sym| && JumpListed(sym, jumps, k) && CondListed(sym, cond, k)
    requires forall b, x | x in JumpAt(jumps, b) :: x in JumpAt(jumps', b)
    requires forall b, x | x in CondAt(cond, b) :: x in CondAt(cond', b)
    ensures JumpListed(sym + [c], jumps', k) && CondListed(sym + [c], cond', k)
  {
    assert (sym + [c])[k] == sym[k];
  }

  lemma StillJumps(sym: seq<Code<nat>>, c: Code<nat>, places: seq<nat>, b: nat)
    requires JumpsTo(sym, places, b)
    ensures JumpsTo(sym + [c], places, b) && (c == Jmp(b) ==> JumpsTo(sym + [c], places + [|sym|], b))
  {
  }

  lemma StillCondJumps(sym: seq<Code<nat>>, c: Code<nat>, places: seq<CondJump>, b: nat, j: CondJump)
    requires CondJumpsTo(sym, places, b)
    ensures CondJumpsTo(sym + [c], places, b)
    ensures j.pc == |sym| && c == Jump(j, b) ==> CondJumpsTo(sym + [c], places + [j], b)
  {
  }

  lemma ListedPut(sym: seq<Code<nat>>, cond: CondTable, jumps: JumpTable, c: Code<nat>)
    requires Listed(sym, cond, jumps) && !IsJump(c)
    ensures Listed(sym + [c], cond, jumps)
  {
    hide JumpsTo, CondJumpsTo, JumpListed, CondListed;
    var sym' := sym + [c];
    forall k | 0 <= k < |sym'| ensures JumpListed(sym', jumps, k) && CondListed(sym', cond, k) {
      if k < |sym| { StillListed(sym, cond, jumps, c, cond, jumps, k); } else { PlainListed(sym, c, cond, jumps); }
    }
    forall b | b in jumps ensures JumpsTo(sym', jumps[b], b) { StillJumps(sym, c, jumps[b], b); }
    forall b | b in cond ensures CondJumpsTo(sym', cond[b],
        b) { StillCondJumps(sym, c, cond[b], b, CondJump(0, true, 0)); }
  }

  lemma PlainListed(sym: seq<Code<nat>>, c: Code<nat>, cond: CondTable, jumps: JumpTable)
    ensures !c.Jmp? || |sym| in JumpAt(jumps, c.t) ==> JumpListed(sym + [c], jumps, |sym|)
    ensures !(c.Jn? || c.Jz?) || CondJump(|sym|, c.Jn?, c.r) in CondAt(cond, c.t) ==> CondListed(sym + [c], cond, |sym|)
  {
  }

  lemma ListedJump(sym: seq<Code<nat>>, cond: CondTable, jumps: JumpTable, t: nat)
    requires Listed(sym, cond, jumps)
    ensures Listed(sym + [Jmp(t)], cond, jumps[t := JumpAt(jumps, t) + [|sym|]])
  {
    hide JumpsTo, CondJumpsTo, JumpListed, CondListed;
    var c := Jmp(t);
    var sym', jumps' := sym + [c], jumps[t := JumpAt(jumps, t) + [|sym|]];
    assert |sym| in JumpAt(jumps', t) by { assert JumpAt(jumps', t)[|JumpAt(jumps, t)|] == |sym|; }
    forall k | 0 <= k < |sym'| ensures JumpListed(sym', jumps', k) && CondListed(sym', cond, k) {
      if k < |sym| { StillListed(sym, cond, jumps, c, cond, jumps', k); } else { PlainListed(sym, c, cond, jumps'); }
    }
    forall b | b in jumps' ensures JumpsTo(sym', jumps'[b], b) {
      if b in jumps { StillJumps(sym, c, jumps[b], b); } else { NoJumps(sym, b); StillJumps(sym, c, [], b); }
    }
    forall b | b in cond ensures CondJumpsTo(sym', cond[b],
        b) { StillCondJumps(sym, c, cond[b], b, CondJump(0, true, 0)); }
  }

  lemma NoJumps(sym: seq<Code<nat>>, b: nat)
    ensures JumpsTo(sym, [], b) && CondJumpsTo(sym, [], b)
  {
  }

  lemma ListedCond(sym: seq<Code<nat>>, cond: CondTable, jumps: JumpTable, j: CondJump, b: nat)
    requires Listed(sym, cond, jumps) && j.pc == |sym|
    ensures Listed(sym + [Jump(j, b)], cond[b := CondAt(cond, b) + [j]], jumps)
  {
    hide JumpsTo, CondJumpsTo, JumpListed, CondListed;
    var c := Jump(j, b);
    var sym', cond' := sym + [c], cond[b := CondAt(cond, b) + [j]];
    assert j in CondAt(cond', b) by { assert CondAt(cond', b)[|CondAt(cond, b)|] == j; }
    forall k | 0 <= k < |sym'| ensures JumpListed(sym', jumps, k) && CondListed(sym', cond', k) {
      if k < |sym| { StillListed(sym, cond, jumps, c, cond', jumps, k); } else { PlainListed(sym, c, cond', jumps); }
    }
    forall t | t in jumps ensures JumpsTo(sym', jumps[t], t) { StillJumps(sym, c, jumps[t], t); }
    forall t | t in cond' ensures CondJumpsTo(sym', cond'[t], t) {
      if t in cond { StillCondJumps(sym, c, cond[t], t, j); } else { NoJumps(sym, t); StillCondJumps(sym, c, [], t, j);
          }
    }
  }

  lemma Plain(op: BinOp, d: nat, r: nat, n: nat, q: nat)
    ensures !IsJump(Rri(op, d, r, n)) && !IsJump(Rrr(op, d, r, q))
  {
  }

  class Generator {
    var code: seq<Code<nat>>
    var variables: map<Value, nat>
    var allocations: nat
    var conditionalJumps: CondTable
    var unconditionalJumps: JumpTable
    var matchHints: seq<(Instr, nat)>
    var matchDefs: seq<Def<nat>>

    ghost var sym: seq<Code<nat>>
    ghost var symDefs: seq<Def<nat>>
    ghost var oldDefs: nat

    ghost function State(): Tg
      reads this
    {
      Tg(sym, symDefs, variables, allocations)
    }

    /** Code so far, with placeholders where the symbolic code has jumps. */
    ghost predicate Valid()
      reads this
    {
      && |code| == |sym|
      && (forall k | 0 <= k < |sym| :: code[k] == if IsJump(sym[k]) then Nop else sym[k])
      && Listed(sym, conditionalJumps, unconditionalJumps)
      && Hinted()
    }

    /** Ready for the next handler: nothing is left of the last one but its match tables. */
    ghost predicate Idle()
      reads this
    {
      && Valid() && code == [] && variables == map[] && conditionalJumps == map[] && unconditionalJumps == map[]
      && matchHints == [] && symDefs == matchDefs
    }

    /** Match tables: those of earlier handlers are finished, those of this one have hints. */
    ghost predicate Hinted()
      reads this
    {
      && oldDefs <= |symDefs| == |matchDefs|
      && |matchHints| == |symDefs| - oldDefs
      && (forall k | 0 <= k < oldDefs :: matchDefs[k] == symDefs[k])
      && (forall k | 0 <= k < |matchHints| ::
            var (i, id) := matchHints[k];
            i.Match? && id == oldDefs + k && symDefs[id] == Def(i.mc, i.labels, i.targets, i.other)
            && matchDefs[id].mc == i.mc && matchDefs[id].labels == i.labels)
    }

    constructor ()
      ensures Idle() && allocations == 1 && matchDefs == []
    {
      code, variables, allocations := [], map[], 1;
      conditionalJumps, unconditionalJumps, matchHints, matchDefs := map[], map[], [], [];
      sym, symDefs, oldDefs := [], [], 0;
    }

    method Emit(i: Code<nat>)
      requires Valid() && !IsJump(i)
      modifies this`code, this`sym
      ensures Valid() && State() == Put(old(State()), i)
    {
      hide Listed;
      ListedPut(sym, conditionalJumps, unconditionalJumps, i);
      code := code + [i];
      sym := sym + [i];
    }

    method EmitCondJump(onTrue: bool, r: nat, b: nat)
      requires Valid()
      modifies this`code, this`sym, this`conditionalJumps
      ensures Valid() && State() == Put(old(State()), if onTrue then Jn(r, b) else Jz(r, b))
    {
      hide Listed;
      var j := CondJump(|code|, onTrue, r);
      ListedCond(sym, conditionalJumps, unconditionalJumps, j, b);
      code := code + [Nop];
      conditionalJumps := conditionalJumps[b := CondAt(conditionalJumps, b) + [j]];
      sym := sym + [Jump(j, b)];
    }

    method EmitJump(b: nat)
      requires Valid()
      modifies this`code, this`sym, this`unconditionalJumps
      ensures Valid() && State() == Put(old(State()), Jmp(b))
    {
      hide Listed;
      ListedJump(sym, conditionalJumps, unconditionalJumps, b);
      unconditionalJumps := unconditionalJumps[b := JumpAt(unconditionalJumps, b) + [|code|]];
      code := code + [Nop];
      sym := sym + [Jmp(b)];
    }

    method Allocate(count: nat, v: Value) returns (base: nat)
      requires Valid()
      modifies this`variables, this`allocations
      ensures Valid() && State() == AssignBase(old(State()), v, count) && base == old(allocations)
    {
      base := allocations;
      allocations := allocations + count;
      variables := variables[v := base];
    }

    method GetRegister(v: Value) returns (r: nat)
      requires Valid()
      modifies this`code, this`sym, this`variables, this`allocations
      ensures Valid() && (State(), r) == GetReg(old(State()), v)
    {
      if v in variables {
        r := variables[v];
      } else if v.K? {
        r := allocations;
        allocations := allocations + 1;
        Emit(LoadConst(r, v.c));
      } else {
        r := Allocate(1, v);
      }
    }

    method EmitCallArgs(v: Value, args: seq<Value>) returns (base: nat)
      requires Valid()
      modifies this`code, this`sym, this`variables, this`allocations
      ensures Valid() && base == old(allocations)
      ensures State() == PutArgs(AssignBase(old(State()), v, |args| + 1), base, args, 0)
    {
      base := Allocate(|args| + 1, v);
      ghost var start := State();
      for i := 0 to |args|
        invariant Valid() && matchDefs == old(matchDefs)
        invariant PutArgs(State(), base, args, i) == PutArgs(start, base, args, 0)
      {
        var tmp := GetRegister(args[i]);
        Emit(Mov(base + 1 + i, tmp));
      }
    }

    // -------------------------------------------------------------- instructions

    method EmitBinary(id: nat, op: BinOp, a: Value, b: Value)
      requires Valid()
      modifies this`code, this`sym, this`variables, this`allocations
      ensures Valid() && State() == VisitBin(old(State()), id, op, a, b)
    {
      hide Listed, Valid, GetReg, Imm, HasImmediate, Exchanges, Numeric, IsJump;
      var d := Allocate(1, Temp(id));
      ghost var g1 := State();
      assert g1 == Assign(old(State()), Temp(id)) && d == old(State()).top;
      if HasImmediate(op) && b.K? && b.c.CInt? {
        var r := GetRegister(a);
        assert (State(), r) == GetReg(g1, a);
        Emit(Rri(op, d, r, Imm(b.c.n))) by { Plain(op, d, r, Imm(b.c.n), 0); }
      } else if Exchanges(op) && a.K? && a.c.CInt? {
        var r := GetRegister(b);
        assert (State(), r) == GetReg(g1, b);
        Emit(Rri(op, d, r, Imm(a.c.n))) by { Plain(op, d, r, Imm(a.c.n), 0); }
      } else {
        var r := GetRegister(a);
        ghost var g2 := State();
        assert (g2, r) == GetReg(g1, a);
        var q := GetRegister(b);
        assert (State(), q) == GetReg(g2, b);
        Emit(Rrr(if op == BOr then BAnd else op, d, r, q)) by { Plain(if op == BOr then BAnd else op, d, r, 0, q); }
      }
    }

    method StoreValue(x: nat, v: Value)
      requires Valid()
      modifies this`code, this`sym, this`variables, this`allocations
      ensures Valid() && State() == VisitStore(old(State()), x, v)
    {
      var d := GetRegister(Cell(x));
      if v.K? {
        Emit(LoadConst(d, v.c));
      } else if v in variables {
        Emit(Mov(d, variables[v]));
      }
    }

    /** A load only makes its variable's register known under another name. */
    method LoadVariable(id: nat, x: nat)
      requires Valid()
      modifies this`code, this`sym, this`variables, this`allocations
      ensures Valid() && State() == Visit(old(State()), 0, 0, Load(id, x))
    {
      hide Listed;
      var r := GetRegister(Cell(x));
      variables := variables[Loaded(id, x) := r];
    }

    method EmitCondBr(n: nat, b: nat, v: Value, t: nat, e: nat)
      requires Valid()
      modifies this`code, this`sym, this`variables, this`allocations, this`conditionalJumps, this`unconditionalJumps
      ensures Valid() && State() == VisitCondBr(old(State()), n, b, v, t, e)
    {
      var r := GetRegister(v);
      if Next(n, b, t) {
        EmitCondJump(false, r, e);
      } else if Next(n, b, e) {
        EmitCondJump(true, r, t);
      } else {
        EmitCondJump(true, r, t);
        EmitJump(e);
      }
    }

    method EmitMatch(i: Instr)
      requires Valid() && i.Match?
      modifies this`code, this`sym, this`variables, this`allocations, this`matchHints, this`matchDefs, this`symDefs
      ensures Valid() && State() == Visit(old(State()), 0, 0, i)
    {
      hide Listed;
      var id := |matchDefs|;
      matchDefs := matchDefs + [Def(i.mc, i.labels, seq(|i.labels|, _ => 0), 0)];
      symDefs := symDefs + [Def(i.mc, i.labels, i.targets, i.other)];
      matchHints := matchHints + [(i, id)];
      var r := GetRegister(i.v);
      Emit(SMatch(r, id));
    }

    method VisitInstr(n: nat, b: nat, i: Instr)
      requires Valid()
      modifies this`code, this`sym, this`variables, this`allocations, this`conditionalJumps, this`unconditionalJumps,
          this`matchHints, this`matchDefs, this`symDefs
      ensures Valid() && State() == Visit(old(State()), n, b, i)
    {
      hide Listed, Valid, GetReg, PutArgs, VisitBin, VisitStore, VisitCondBr;
      match i {
        case Alloca(id) => var _ := Allocate(1, Cell(id));
        case Store(x, v) => StoreValue(x, v);
        case Load(id, x) => LoadVariable(id, x);
        case Un(id, op, v) =>
          var d := Allocate(1, Temp(id));
          var r := GetRegister(v);
          Emit(Rr(op, d, r));
        case Bin(id, op, a, c) => EmitBinary(id, op, a, c);
        case CallFn(id, f, args) =>
          var base := EmitCallArgs(Temp(id), args);
          Emit(CallN(f, |args| + 1, base));
        case CallHn(id, f, args) =>
          var base := EmitCallArgs(Temp(id), args);
          Emit(HandlerN(f, |args| + 1, base));
        case Br(t) =>
          if !Next(n, b, t) {
            EmitJump(t);
          }
        case CondBr(v, t, e) => EmitCondBr(n, b, v, t, e);
        case Match(_, _, _, _, _) => EmitMatch(i);
        case Ret(value) => Emit(Exit(value));
      }
    }

    // -------------------------------------------------------------- whole handlers

    /** Emits all blocks in layout order and notes where each one starts. */
    method EmitBlocks(G: Cfg) returns (entryPoints: map<nat, nat>)
      requires Valid() && code == [] && variables == map[]
      modifies this`code, this`sym, this`variables, this`allocations, this`conditionalJumps, this`unconditionalJumps,
          this`matchHints, this`matchDefs, this`symDefs
      ensures Valid() && State() == Final(old(State()), G)
      ensures forall b: nat :: b in entryPoints <==> b < |G|
      ensures forall b: nat | b < |G| :: entryPoints[b] == Entry(old(State()), G, b)
    {
      entryPoints := map[];
      ghost var start := State();
      for b := 0 to |G|
        invariant Valid() && State() == Before(start, G, b, 0) && oldDefs == old(oldDefs)
        invariant forall c: nat :: c in entryPoints <==> c < b
        invariant forall c: nat | c < b :: entryPoints[c] == Entry(start, G, c)
      {
        entryPoints := entryPoints[b := |code|];
        for i := 0 to |G[b]|
          invariant Valid() && State() == Before(start, G, b, i) && oldDefs == old(oldDefs)
        {
          VisitInstr(|G|, b, G[b][i]);
        }
      }
    }

    // -------------------------------------------------------------- patching

    /** Writes the address of block b into all conditional jumps to it. */
    method PatchCondJumps(b: nat, pc: nat)
      requires b in conditionalJumps && CondJumpsTo(sym, conditionalJumps[b], b) && |code| == |sym|
      modifies this`code
      ensures |code| == |old(code)|
      ensures forall k | 0 <= k < |code| ::
                code[k] == old(code[k]) || (!sym[k].Jmp? && PatchedTo(code[k], sym[k], b, pc))
      ensures forall j | j in conditionalJumps[b] :: j.pc < |code| && PatchedTo(code[j.pc], sym[j.pc], b, pc)
    {
      var places := conditionalJumps[b];
      for x := 0 to |places|
        invariant |code| == |old(code)|
        invariant forall k | 0 <= k < |code| ::
                    code[k] == old(code[k]) || (!sym[k].Jmp? && PatchedTo(code[k], sym[k], b, pc))
        invariant forall y | 0 <= y < x :: PatchedTo(code[places[y].pc], sym[places[y].pc], b, pc)
      {
        var j := places[x];
        code := code[j.pc := if j.onTrue then Jn(j.condition, pc) else Jz(j.condition, pc)];
      }
    }

    method PatchJumps(b: nat, pc: nat)
      requires b in unconditionalJumps && JumpsTo(sym, unconditionalJumps[b], b) && |code| == |sym|
      modifies this`code
      ensures |code| == |old(code)|
      ensures forall k | 0 <= k < |code| ::
                code[k] == old(code[k]) || (sym[k].Jmp? && PatchedTo(code[k], sym[k], b, pc))
      ensures forall k | k in unconditionalJumps[b] :: k < |code| && PatchedTo(code[k], sym[k], b, pc)
    {
      var places := unconditionalJumps[b];
      for x := 0 to |places|
        invariant |code| == |old(code)|
        invariant forall k | 0 <= k < |code| ::
                    code[k] == old(code[k]) || (sym[k].Jmp? && PatchedTo(code[k], sym[k], b, pc))
        invariant forall y | 0 <= y < x :: PatchedTo(code[places[y]], sym[places[y]], b, pc)
      {
        code := code[places[x] := Jmp(pc)];
      }
    }

    /** Fixes all conditional jumps; the order in which the targets are visited does not matter. */
    method FixConditionalJumps(entryPoints: map<nat, nat>)
      requires Valid()
      modifies this`code
      ensures |code| == |sym|
      ensures forall k | 0 <= k < |code| ::
                code[k] == if sym[k].Jn? || sym[k].Jz? then ResolveCode(b => Address(entryPoints, b), sym[k])
                    else old(code[k])
    {
      AllListed(sym, conditionalJumps, unconditionalJumps);
      var targets := conditionalJumps.Keys;
      while targets != {}
        invariant |code| == |sym| && targets <= conditionalJumps.Keys
        invariant forall k | 0 <= k < |code| ::
                    code[k] == if (sym[k].Jn? || sym[k].Jz?) && sym[k].t !in targets
                               then ResolveCode(b => Address(entryPoints, b), sym[k]) else old(code[k])
        decreases targets
      {
        var b :| b in targets;
        ghost var before := code;
        PatchCondJumps(b, Address(entryPoints, b));
        forall k | 0 <= k < |code| && (sym[k].Jn? || sym[k].Jz?) && sym[k].t == b
          ensures code[k] == ResolveCode(c => Address(entryPoints, c), sym[k])
        {
          assert CondJump(k, sym[k].Jn?, sym[k].r) in conditionalJumps[b];
        }
        targets := targets - {b};
      }
    }

    method FixUnconditionalJumps(entryPoints: map<nat, nat>)
      requires |code| == |sym| && Listed(sym, conditionalJumps, unconditionalJumps)
      modifies this`code
      ensures |code| == |sym|
      ensures forall k | 0 <= k < |code| ::
                code[k] == if sym[k].Jmp? then ResolveCode(b => Address(entryPoints, b), sym[k]) else old(code[k])
    {
      AllListed(sym, conditionalJumps, unconditionalJumps);
      var targets := unconditionalJumps.Keys;
      while targets != {}
        invariant |code| == |sym| && targets <= unconditionalJumps.Keys
        invariant forall k | 0 <= k < |code| ::
                    code[k] == if sym[k].Jmp? && sym[k].t !in targets
                               then ResolveCode(b => Address(entryPoints, b), sym[k]) else old(code[k])
        decreases targets
      {
        var b :| b in targets;
        PatchJumps(b, Address(entryPoints, b));
        forall k | 0 <= k < |code| && sym[k].Jmp? && sym[k].t == b
          ensures code[k] == ResolveCode(c => Address(entryPoints, c), sym[k])
        {
          assert k in unconditionalJumps[b];
        }
        targets := targets - {b};
      }
    }

    /** Fixes the tables of the match instructions of this handler. */
    method FixMatches(entryPoints: map<nat, nat>)
      requires Hinted()
      modifies this`matchDefs
      ensures |matchDefs| == |symDefs|
      ensures forall k | 0 <= k < |matchDefs| ::
                matchDefs[k] == if k < oldDefs then symDefs[k] else ResolveDef(b => Address(entryPoints, b), symDefs[k])
    {
      forall k | oldDefs <= k < |matchDefs|
        ensures matchDefs[k].mc == symDefs[k].mc && matchDefs[k].labels == symDefs[k].labels {
        assert matchHints[k - oldDefs].1 == k;
      }
      for x := 0 to |matchHints|
        invariant |matchDefs| == |symDefs|
        invariant forall k | 0 <= k < oldDefs :: matchDefs[k] == symDefs[k]
        invariant forall k | oldDefs <= k < oldDefs + x ::
                    matchDefs[k] == ResolveDef(b => Address(entryPoints, b), symDefs[k])
        invariant forall k | oldDefs + x <= k < |matchDefs| ::
                    matchDefs[k].mc == symDefs[k].mc && matchDefs[k].labels == symDefs[k].labels
      {
        var (i, id) := matchHints[x];
        var targets := seq(|i.targets|, j requires 0 <= j < |i.targets| => Address(entryPoints, i.targets[j]));
        var def := matchDefs[id].(targets := targets, other := Address(entryPoints, i.other));
        assert def == ResolveDef(b => Address(entryPoints, b), symDefs[id]);
        matchDefs := matchDefs[id := def];
      }
    }

    /** Generates the code of a handler: the program is the symbolic code with every block
        replaced by its address, and the generator is ready for the next handler. */
    method Generate(G: Cfg) returns (program: seq<Code<nat>>)
      requires Idle()
      modifies this
      ensures var p := Resolve(Tg([], old(matchDefs), map[], old(allocations)), G);
              program == p.code && matchDefs == p.defs
      ensures Idle()
    {
      hide Listed, Final, Entry, ResolveCode, ResolveDef, Resolve, Visit;
      ghost var start := State();
      var entryPoints := EmitBlocks(G);
      FixConditionalJumps(entryPoints);
      FixUnconditionalJumps(entryPoints);
      FixMatches(entryPoints);
      program := code;
      ResolveSame(start, G, entryPoints, program, matchDefs);
      Reset();
    }

    /** Forgets the handler just generated, all but its match tables. */
    method Reset()
      modifies this
      ensures Idle() && matchDefs == old(matchDefs)
    {
      code, variables, allocations := [], map[], 0;
      conditionalJumps, unconditionalJumps, matchHints := map[], map[], [];
      sym, symDefs, oldDefs := [], matchDefs, |matchDefs|;
      ListedNone();
    }
  }

  /** Address of a block; the table yields 0 for a block it does not know. */
  function Address(entryPoints: map<nat, nat>, b: nat): nat {
    if b in entryPoints then entryPoints[b] else 0
  }

  /** c is the symbolic jump s to block b, with b's address filled in. */
  ghost predicate PatchedTo(c: Code<nat>, s: Code<nat>, b: nat, pc: nat) {
    IsJump(s) && s.t == b && c == ResolveCode((_: nat) => pc, s)
  }

  /** Code and tables with addresses filled in are the resolved program. */
  lemma ResolveSame(g0: Tg, G: Cfg, entryPoints: map<nat, nat>, code: seq<Code<nat>>, defs: seq<Def<nat>>)
    requires forall b: nat :: b in entryPoints <==> b < |G|
    requires forall b: nat | b < |G| :: entryPoints[b] == Entry(g0, G, b)
    requires var g := Final(g0, G);
             && |code| == |g.code| && |defs| == |g.defs|
             && (forall k | 0 <= k < |code| ::
                   code[k] == if IsJump(g.code[k]) then ResolveCode(b => Address(entryPoints, b), g.code[k])
                       else g.code[k])
             && (forall k | 0 <= k < |defs| :: defs[k] == if k < |g0.defs| then g.defs[k]
                 else ResolveDef(b => Address(entryPoints, b), g.defs[k]))
    ensures Resolve(g0, G) == Program(code, defs)
  {
    hide Final;
    var g, p := Final(g0, G), Resolve(g0, G);
    forall k | 0 <= k < |code| ensures code[k] == p.code[k] {
      AddressIs(g0, G, entryPoints);
    }
    forall k | 0 <= k < |defs| ensures defs[k] == p.defs[k] {
      AddressIs(g0, G, entryPoints);
    }
  }

  lemma AddressIs(g0: Tg, G: Cfg, entryPoints: map<nat, nat>)
    requires forall b: nat :: b in entryPoints <==> b < |G|
    requires forall b: nat | b < |G| :: entryPoints[b] == Entry(g0, G, b)
    ensures forall b: nat :: Address(entryPoints, b) == EntryOf(g0, G)(b)
  {
  }

  lemma ListedNone()
    ensures Listed([], map[], map[])
  {
  }
}
