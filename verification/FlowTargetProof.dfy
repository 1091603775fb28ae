/**
  Generated code simulates the blocks it was generated from, including branches that are left
  out because their target comes next and blocks that emit nothing.
 */
module FlowTargetProof {
  import opened FlowCore
  import opened FlowIr
  import opened FlowVm
  import opened FlowTarget
  import opened FlowRegisters

  // ---------------------------------------------------------------- what the generator translates correctly

  /** Every block ends in its only terminator, and branches stay inside the handler. */
  predicate WellFormed(G: Cfg) {
    && |G| > 0
    && forall b | 0 <= b < |G| :: WellFormedBlock(|G|, G[b])
  }

  predicate WellFormedBlock(n: nat, block: Block) {
    && |block| > 0
    && (forall i | 0 <= i < |block| :: IsTerminator(block[i]) <==> i == |block| - 1)
    && TargetsBelow(n, block[|block| - 1])
  }

  predicate TargetsBelow(n: nat, i: Instr) {
    match i
    case Br(t) => t < n
    case CondBr(_, t, e) => t < n && e < n
    case Match(_, _, labels, targets, t) => |targets| == |labels| && t < n && forall k | 0 <= k < |targets| ::
          targets[k] < n
    case _ => true
  }

  /** Integers that survive being loaded: not those of 16-bit width that are negative. */
  predicate SafeConst(c: Const) {
    c.CInt? ==> !(-0x8000 <= c.n < 0)
  }

  predicate SafeOperand(v: Value) {
    v.K? ==> SafeConst(v.c)
  }

  predicate SafeImm(n: int) {
    0 <= n < 0x1_0000
  }

  /** Instructions whose code computes what they mean. A constant in a branch or a match need not
      survive: only whether it is zero, or which string it is, matters there. */
  predicate SafeInstr(i: Instr) {
    match i
    case CondBr(_, _, _) => true
    case Match(_, _, _, _, _) => true
    case Bin(_, op, a, b) =>
      if HasImmediate(op) && b.K? && b.c.CInt? then SafeImm(b.c.n) && SafeOperand(a)
      else if Exchanges(op) && a.K? && a.c.CInt? then Commutative(op) && SafeImm(a.c.n) && SafeOperand(b)
      else op != BOr && SafeOperand(a) && SafeOperand(b)
    case _ => forall v | v in Operands(i) :: SafeOperand(v)
  }

  /** Prefix and suffix matches have no case at address 0. */
  predicate SafeMatch(g0: Tg, G: Cfg, i: Instr) {
    i.Match? && i.mc in {Head, Tail} ==> forall k | 0 <= k < |i.targets| :: Entry(g0, G, i.targets[k]) != 0
  }

  predicate Safe(g0: Tg, G: Cfg) {
    forall b, i | 0 <= b < |G| && 0 <= i < |G[b]| :: SafeInstr(G[b][i]) && SafeMatch(g0, G, G[b][i])
  }

  // ---------------------------------------------------------------- relating the two machines

  /** Registers hold the contents of the cells of the values they are assigned to. */
  ghost predicate Holds(vars: map<Value, nat>, cells: Cells, regs: Regs) {
    forall v | v in vars && !v.Loaded? :: Reg(regs, vars[v]) == Get(cells, v)
  }

  /** The code emitted up to g is in program p. */
  ghost predicate Placed(p: Program, entry: nat -> nat, g: Tg) {
    && |g.code| <= |p.code|
    && forall k | 0 <= k < |g.code| :: p.code[k] == ResolveCode(entry, g.code[k])
  }

  ghost predicate SameOutside(regs: Regs, regs': Regs, lo: nat, hi: nat) {
    forall r: nat | r < lo || hi <= r :: Reg(regs, r) == Reg(regs', r)
  }

  lemma PlacedPrefix(p: Program, entry: nat -> nat, g: Tg, g1: Tg)
    requires Placed(p, entry, g1) && g.code <= g1.code
    ensures Placed(p, entry, g)
  {
  }

  lemma PlacedAt(p: Program, entry: nat -> nat, g: Tg, c: Code<nat>, r: Tg)
    requires Placed(p, entry, r) && Put(g, c).code <= r.code
    ensures |g.code| < |p.code| && p.code[|g.code|] == ResolveCode(entry, c)
  {
    assert Put(g, c).code[|g.code|] == c == r.code[|g.code|];
  }

  lemma Step1(m: Machine, p: Program, s: VmState)
    ensures VmRun(m, p, s, 1) == VmStep(m, p, s)
  {
    assert VmRun(m, p, VmStep(m, p, s), 0) == VmStep(m, p, s);
  }

  lemma ImmediateExact(n: int)
    ensures Num(Imm(n)) == Num(n) <==> SafeImm(n)
  {
  }

  /** What a register holds after a constant was loaded into it. */
  function Delivered(c: Const): Val {
    if c.CInt? && -0x8000 <= c.n < 0 then Num(c.n + 0x1_0000) else ConstVal(c)
  }

  /** A load of constant c delivers c exactly if c is not a negative 16-bit number. */
  lemma LoadConstExact(m: Machine, p: Program, c: Const, d: nat, s: VmState)
    requires s.Running? && s.pc < |p.code| && p.code[s.pc] == LoadConst(d, c)
    ensures VmStep(m, p, s) == s.(pc := s.pc + 1, regs := s.regs[d := Delivered(c)])
    ensures Delivered(c) == ConstVal(c) <==> SafeConst(c)
  {
  }

  /** Branches and matches cannot tell what is delivered from what was meant. */
  lemma DeliveredAlike(c: Const)
    ensures Truthy(Delivered(c)) <==> Truthy(ConstVal(c))
    ensures Delivered(c).Text? || ConstVal(c).Text? ==> Delivered(c) == ConstVal(c)
  {
  }

  /** Operand v is found in its register, or will be delivered there, with value w. */
  ghost predicate Has(vars: map<Value, nat>, v: Value, w: Val, regs: Regs) {
    if v.K? then w == Delivered(v.c) else v in vars && Reg(regs, vars[v]) == w
  }

  /** After reading operand v its register holds v's value; only new registers have changed. */
  lemma OperandRuns(m: Machine, p: Program, entry: nat -> nat, g: Tg, v: Value, w: Val, s: VmState)
      returns (k: nat, regs': Regs)
    requires Good(g) && s.Running? && s.pc == |g.code| && Has(g.vars, v, w, s.regs)
    requires Placed(p, entry, GetReg(g, v).0)
    ensures var (g1, r) := GetReg(g, v);
            && VmRun(m, p, s, k) == s.(pc := |g1.code|, regs := regs')
            && Reg(regs', r) == w && SameOutside(s.regs, regs', g.top, g1.top)
  {
    if v.K? {
      var g1 := GetReg(g, v).0;
      assert Put(g, LoadConst(g.top, v.c)).code <= g1.code;
      PlacedAt(p, entry, g, LoadConst(g.top, v.c), g1);
      LoadConstExact(m, p, v.c, g.top, s);
      Step1(m, p, s);
      k, regs' := 1, VmStep(m, p, s).regs;
    } else {
      k, regs' := 0, s.regs;
    }
  }

  /** What the machine sees of operand v. */
  function Seen(v: Value, cells: Cells): Val {
    if v.K? then Delivered(v.c) else Den(Alias, v, cells)
  }

  lemma OperandHeld(g: Tg, final: Tg, v: Value, cells: Cells, regs: Regs)
    requires Good(g) && Extends(g, final) && Known(g, v) && Holds(final.vars, cells, regs)
    ensures Has(g.vars, v, Seen(v, cells), regs) && (SafeOperand(v) ==> Seen(v, cells) == Den(Alias, v, cells))
  {
    if v.Loaded? {
      assert Cell(v.x) in g.vars;
      assert Reg(regs, final.vars[Cell(v.x)]) == Get(cells, Cell(v.x));
    }
  }

  /** An instruction that defines v and changed only registers it allocated itself. */
  lemma HoldsDefined(g: Tg, g': Tg, final: Tg, v: Value, w: Val, cells: Cells, regs: Regs, regs': Regs)
    requires Good(g) && Extends(g', final) && !v.Loaded?
    requires g'.vars == g.vars[v := g.top] && v !in g.vars
    requires Holds(final.vars, cells, regs) && SameOutside(regs, regs', g.top, g'.top) && Reg(regs', g.top) == w
    requires Extends(g, g')
    ensures Holds(final.vars, cells[v := w], regs')
  {
    forall u | u in final.vars && !u.Loaded? ensures Reg(regs', final.vars[u]) == Get(cells[v := w], u) {
      if u in g.vars {
        assert u in g'.vars && final.vars[u] == g'.vars[u] == g.vars[u] < g.top;
      } else if u != v {
        assert u !in g'.vars;
      }
    }
  }

  lemma HoldsUnchanged(g: Tg, g': Tg, final: Tg, cells: Cells, regs: Regs, regs': Regs)
    requires Good(g) && Extends(g, g') && Extends(g', final) && g'.vars == g.vars
    requires Holds(final.vars, cells, regs) && SameOutside(regs, regs', g.top, g'.top)
    ensures Holds(final.vars, cells, regs')
  {
    forall u | u in final.vars && !u.Loaded? ensures Reg(regs', final.vars[u]) == Get(cells, u) {
      if u in g.vars {
        assert final.vars[u] == g.vars[u] < g.top;
      } else {
        assert u !in g'.vars;
      }
    }
  }

  // ---------------------------------------------------------------- straight-line instructions

  /** What instruction i does, away from any program. */
  function Effect(m: Machine, i: Instr, cells: Cells, tr: Trace): State {
    Step(m, Alias, [[i]], At(0, 0, cells, tr))
  }

  /** Where the machine is after the code of i: behind it, or stopped. */
  ghost predicate Arrives(m: Machine, i: Instr, cells: Cells, s: VmState, t: VmState, pc: nat, vars: map<Value, nat>)
    requires s.Running?
  {
    var e := Effect(m, i, cells, s.tr);
    match e
    case At(_, _, cells', tr') => t.Running? && t.pc == pc && t.tr == tr' && Holds(vars, cells', t.regs)
    case Halted(result, tr') => t == Stopped(result, tr')
  }

  /** An instruction's turn: its operands have registers, its code is part of the program. */
  ghost predicate Turn(p: Program, entry: nat -> nat, g: Tg, i: Instr, g': Tg, final: Tg, cells: Cells, s: VmState) {
    && Good(g) && (forall v | v in Operands(i) :: Known(g, v)) && (DefOf(i).Some? ==> DefOf(i).value !in g.vars)
    && SafeInstr(i) && VisitKeeps(g, i, g') && Extends(g', final) && Placed(p, entry, final)
    && s.Running? && s.pc == |g.code| && Holds(final.vars, cells, s.regs)
  }

  lemma StoreRuns(m: Machine, p: Program, entry: nat -> nat, g: Tg, n: nat, b: nat, i: Instr, final: Tg, cells: Cells,
        s: VmState) returns (k: nat)
    requires i.Store? && Turn(p, entry, g, i, Visit(g, n, b, i), final, cells, s)
    ensures Arrives(m, i, cells, s, VmRun(m, p, s, k), |Visit(g, n, b, i).code|, final.vars) && k > 0
  {
    hide Good, Extends, Holds, Placed, VmRun;
    var g' := Visit(g, n, b, i);
    assert Cell(i.x) in Operands(i) && i.v in Operands(i);
    var d := g.vars[Cell(i.x)];
    ExtendsTrans(g, g', final);
    OperandHeld(g, final, i.v, cells, s.regs);
    k := 1;
    Step1(m, p, s);
    if i.v.K? {
      PlacedPut(p, entry, g, LoadConst(d, i.v.c), final);
      LoadConstExact(m, p, i.v.c, d, s);
    } else {
      PlacedPut(p, entry, g, Mov(d, g.vars[i.v]), final);
    }
    HoldsStored(g, final, i.x, Den(Alias, i.v, cells), cells, s.regs);
  }

  lemma HoldsStored(g: Tg, final: Tg, x: nat, w: Val, cells: Cells, regs: Regs)
    requires Good(g) && Extends(g, final) && Cell(x) in g.vars && Holds(final.vars, cells, regs)
    ensures Holds(final.vars, cells[Cell(x) := w], regs[g.vars[Cell(x)] := w])
  {
    var d := g.vars[Cell(x)];
    forall u | u in final.vars && !u.Loaded? && u != Cell(x) ensures final.vars[u] != d {
      if u in g.vars {
        assert final.vars[u] == g.vars[u];
      }
    }
  }

  /** The last instruction of a definition: c writes w to the register handed out first. */
  lemma DefineRuns(m: Machine, p: Program, entry: nat -> nat, g: Tg, g2: Tg, c: Code<nat>, final: Tg, dst: Value,
        w: Val, cells: Cells, s: VmState, k: nat, regs: Regs)
    requires Good(g) && Extends(g, g2) && Extends(Put(g2, c), final) && Placed(p, entry, final)
    requires !dst.Loaded? && dst !in g.vars && g2.vars == g.vars[dst := g.top] && g.top < g2.top
    requires s.Running? && Holds(final.vars, cells, s.regs) && SameOutside(s.regs, regs, g.top, g2.top)
    requires VmRun(m, p, s, k) == s.(pc := |g2.code|, regs := regs)
    ensures |g2.code| < |p.code| && p.code[|g2.code|] == ResolveCode(entry, c)
    ensures VmRun(m, p, s, k + 1) == VmStep(m, p, s.(pc := |g2.code|, regs := regs))
    ensures Holds(final.vars, cells[dst := w], regs[g.top := w])
  {
    PlacedAt(p, entry, g2, c, final);
    VmRunAdd(m, p, s, k, 1);
    Step1(m, p, s.(pc := |g2.code|, regs := regs));
    ExtendsPut(g2, c, final);
    HoldsDefined(g, g2, final, dst, w, cells, s.regs, regs[g.top := w]);
  }

  lemma ExtendsPut(g: Tg, c: Code<nat>, final: Tg)
    requires Extends(Put(g, c), final)
    ensures Extends(g, final)
  {
  }

  /** Registers and code after the destination was handed out and one operand read. */
  lemma ReadOne(m: Machine, p: Program, entry: nat -> nat, g: Tg, dst: Value, v: Value, final: Tg, cells: Cells,
        s: VmState) returns (k: nat, regs': Regs)
    requires Good(g) && dst !in g.vars && !dst.K? && !dst.Loaded? && Known(g, v) && SafeOperand(v)
    requires Extends(g, final) && Extends(GetReg(Assign(g, dst), v).0, final) && Placed(p, entry, final)
    requires s.Running? && s.pc == |g.code| && Holds(final.vars, cells, s.regs)
    ensures var (g2, r) := GetReg(Assign(g, dst), v);
            && VmRun(m, p, s, k) == s.(pc := |g2.code|, regs := regs')
            && Reg(regs', r) == Den(Alias, v, cells) && SameOutside(s.regs, regs', g.top, g2.top) && r < g2.top
            && Good(g2) && Extends(g, g2) && g2.vars == g.vars[dst := g.top] && g.top < g2.top
  {
    AssignRead(g, dst, v);
    OperandHeld(g, final, v, cells, s.regs);
    AssignGood(g, dst, 1);
    GetRegKnown(Assign(g, dst), v);
    var g2 := GetReg(Assign(g, dst), v).0;
    PlacedPrefix(p, entry, g2, final);
    k, regs' := OperandRuns(m, p, entry, Assign(g, dst), v, Den(Alias, v, cells), s);
  }

  lemma UnRuns(m: Machine, p: Program, entry: nat -> nat, g: Tg, n: nat, b: nat, i: Instr, final: Tg, cells: Cells,
        s: VmState) returns (k: nat)
    requires i.Un? && Turn(p, entry, g, i, Visit(g, n, b, i), final, cells, s)
    ensures Arrives(m, i, cells, s, VmRun(m, p, s, k), |Visit(g, n, b, i).code|, final.vars) && k > 0
  {
    hide Good, Extends, Holds, SameOutside, Placed, GetReg, VmRun, Den, Known;
    assert i.v in Operands(i);
    ExtendsTrans(g, Visit(g, n, b, i), final);
    var (g2, r) := GetReg(Assign(g, Temp(i.id)), i.v);
    var c := Rr(i.uop, g.top, r);
    ExtendsPut(g2, c, final);
    var regs1: Regs;
    k, regs1 := ReadOne(m, p, entry, g, Temp(i.id), i.v, final, cells, s);
    var w := m.un(i.uop, Den(Alias, i.v, cells));
    DefineRuns(m, p, entry, g, g2, c, final, Temp(i.id), w, cells, s, k, regs1);
    k := k + 1;
  }

  /** Reading operand w in g2, after the run to g2 left the machine with registers regs1. */
  lemma NextOperand(m: Machine, p: Program, entry: nat -> nat, g: Tg, g2: Tg, dst: Value, w: Value, final: Tg,
        cells: Cells, s: VmState, k1: nat, regs1: Regs) returns (k: nat, regs': Regs)
    requires Good(g) && Known(g, w) && SafeOperand(w) && dst !in g.vars && Good(g2) && g2.vars == g.vars[dst := g.top]
             && g.top <= g2.top
    requires Extends(g, final) && Extends(GetReg(g2, w).0, final) && Placed(p, entry, final)
    requires s.Running? && Holds(final.vars, cells, s.regs) && SameOutside(s.regs, regs1, g.top, g2.top)
    requires VmRun(m, p, s, k1) == s.(pc := |g2.code|, regs := regs1)
    ensures var (g3, q) := GetReg(g2, w);
            && VmRun(m, p, s, k) == s.(pc := |g3.code|, regs := regs')
            && Reg(regs', q) == Den(Alias, w, cells)
            && SameOutside(s.regs, regs', g.top, g3.top) && SameOutside(regs1, regs', g2.top, g3.top)
  {
    hide Good, Extends, Holds, SameOutside, Placed, GetReg, Has, VmRun;
    var g3 := GetReg(g2, w).0;
    OperandHeld(g, final, w, cells, s.regs);
    HasKept(g, g2, dst, w, Den(Alias, w, cells), s.regs, regs1);
    PlacedBefore(p, entry, g3, final);
    var k2: nat;
    k2, regs' := OperandRuns(m, p, entry, g2, w, Den(Alias, w, cells), s.(pc := |g2.code|, regs := regs1));
    VmRunAdd(m, p, s, k1, k2);
    k := k1 + k2;
    assert g2.top <= g3.top by { GetRegKnown(g2, w); ExtendsTop(g2, g3); }
    SameOutsideTrans(s.regs, regs1, regs', g.top, g2.top, g3.top);
  }

  lemma ReadTwo(m: Machine, p: Program, entry: nat -> nat, g: Tg, dst: Value, v: Value, w: Value, final: Tg,
        cells: Cells, s: VmState) returns (k: nat, regs': Regs)
    requires Good(g) && dst !in g.vars && !dst.K? && !dst.Loaded? && Known(g, v) && SafeOperand(v) && Known(g, w)
             && SafeOperand(w)
    requires Extends(g, final) && Extends(GetReg(GetReg(Assign(g, dst), v).0, w).0, final) && Placed(p, entry, final)
    requires s.Running? && s.pc == |g.code| && Holds(final.vars, cells, s.regs)
    ensures var (g2, r) := GetReg(Assign(g, dst), v);
            var (g3, q) := GetReg(g2, w);
            && VmRun(m, p, s, k) == s.(pc := |g3.code|, regs := regs')
            && Reg(regs', r) == Den(Alias, v, cells) && Reg(regs', q) == Den(Alias, w, cells)
            && SameOutside(s.regs, regs', g.top, g3.top)
  {
    hide Good, Extends, Holds, SameOutside, Placed, GetReg, VmRun, VmStep;
    var (g2, r) := GetReg(Assign(g, dst), v);
    AssignRead(g, dst, v);
    GetRegKnown(g2, w);
    var g3 := GetReg(g2, w).0;
    ExtendsTrans(g2, g3, final);
    var k1, regs1 := ReadOne(m, p, entry, g, dst, v, final, cells, s);
    k, regs' := NextOperand(m, p, entry, g, g2, dst, w, final, cells, s, k1, regs1);
    SameBelowLow(regs1, regs', g2.top, g3.top, r);
  }

  lemma HasKept(g: Tg, g2: Tg, dst: Value, w: Value, x: Val, regs: Regs, regs': Regs)
    requires Good(g) && dst !in g.vars && g2.vars == g.vars[dst := g.top]
    requires Has(g.vars, w, x, regs) && SameOutside(regs, regs', g.top, g2.top)
    ensures Has(g2.vars, w, x, regs')
  {
  }

  lemma SameOutsideTrans(regs: Regs, regs1: Regs, regs2: Regs, lo: nat, mid: nat, hi: nat)
    requires SameOutside(regs, regs1, lo, mid) && SameOutside(regs1, regs2, mid, hi) && lo <= mid <= hi
    ensures SameOutside(regs, regs2, lo, hi)
  {
  }

  lemma SameBelowLow(regs: Regs, regs': Regs, lo: nat, hi: nat, r: nat)
    requires SameOutside(regs, regs', lo, hi) && r < lo
    ensures Reg(regs', r) == Reg(regs, r)
  {
  }

  /** Code with an immediate operand: register operand v, immediate n standing for number n. */
  lemma ImmediateRuns(m: Machine, p: Program, entry: nat -> nat, g: Tg, g': Tg, dst: Value, op: BinOp, v: Value, n: int,
        final: Tg, cells: Cells, s: VmState) returns (k: nat)
    requires Good(g) && dst !in g.vars && dst.Temp? && Known(g, v) && SafeOperand(v) && SafeImm(n)
    requires var (g2, r) := GetReg(Assign(g, dst), v); g' == Put(g2, Rri(op, g.top, r, Imm(n)))
    requires Extends(g, final) && Extends(g', final) && Placed(p, entry, final)
    requires s.Running? && s.pc == |g.code| && Holds(final.vars, cells, s.regs)
    ensures var w := m.bin(op, Den(Alias, v, cells), Num(n)); var t := VmRun(m, p, s, k);
            t.Running? && t.pc == |g'.code| && t.tr == s.tr && Holds(final.vars, cells[dst := w], t.regs) && k > 0
  {
    hide Good, Extends, Holds, SameOutside, Placed, GetReg;
    var (g2, r) := GetReg(Assign(g, dst), v);
    var c := Rri(op, g.top, r, Imm(n));
    ExtendsPut(g2, c, final);
    var regs1: Regs;
    k, regs1 := ReadOne(m, p, entry, g, dst, v, final, cells, s);
    var w := m.bin(op, Den(Alias, v, cells), Num(n));
    ImmediateExact(n);
    DefineRuns(m, p, entry, g, g2, c, final, dst, w, cells, s, k, regs1);
    k := k + 1;
  }

  lemma RegistersRun(m: Machine, p: Program, entry: nat -> nat, g: Tg, g': Tg, dst: Value, op: BinOp, v: Value,
        w: Value, final: Tg, cells: Cells, s: VmState) returns (k: nat)
    requires Good(g) && dst !in g.vars && dst.Temp? && Known(g, v) && SafeOperand(v) && Known(g, w) && SafeOperand(w)
    requires var (g2, r) := GetReg(Assign(g, dst), v); var (g3, q) := GetReg(g2, w); g' == Put(g3, Rrr(op, g.top, r, q))
    requires Extends(g, final) && Extends(g', final) && Placed(p, entry, final)
    requires s.Running? && s.pc == |g.code| && Holds(final.vars, cells, s.regs)
    ensures var x := m.bin(op, Den(Alias, v, cells), Den(Alias, w, cells)); var t := VmRun(m, p, s, k);
            t.Running? && t.pc == |g'.code| && t.tr == s.tr && Holds(final.vars, cells[dst := x], t.regs) && k > 0
  {
    hide Good, Extends, Holds, SameOutside, Placed, GetReg;
    var (g2, r) := GetReg(Assign(g, dst), v);
    var (g3, q) := GetReg(g2, w);
    var c := Rrr(op, g.top, r, q);
    ExtendsPut(g3, c, final);
    AssignReadTwo(g, dst, v, w);
    var regs1: Regs;
    k, regs1 := ReadTwo(m, p, entry, g, dst, v, w, final, cells, s);
    var x := m.bin(op, Den(Alias, v, cells), Den(Alias, w, cells));
    DefineRuns(m, p, entry, g, g3, c, final, dst, x, cells, s, k, regs1);
    k := k + 1;
  }

  lemma BinRuns(m: Machine, p: Program, entry: nat -> nat, g: Tg, n: nat, b: nat, i: Instr, final: Tg, cells: Cells,
        s: VmState) returns (k: nat)
    requires Lawful(m) && i.Bin? && Turn(p, entry, g, i, Visit(g, n, b, i), final, cells, s)
    ensures Arrives(m, i, cells, s, VmRun(m, p, s, k), |Visit(g, n, b, i).code|, final.vars) && k > 0
  {
    hide Good, Extends, Holds, Placed, GetReg;
    assert i.a in Operands(i) && i.b in Operands(i);
    var g' := Visit(g, n, b, i);
    ExtendsTrans(g, g', final);
    if HasImmediate(i.op) && i.b.K? && i.b.c.CInt? {
      k := ImmediateRuns(m, p, entry, g, g', Temp(i.id), i.op, i.a, i.b.c.n, final, cells, s);
    } else if Exchanges(i.op) && i.a.K? && i.a.c.CInt? {
      k := ImmediateRuns(m, p, entry, g, g', Temp(i.id), i.op, i.b, i.a.c.n, final, cells, s);
      assert m.bin(i.op, Den(Alias, i.b, cells), Num(i.a.c.n)) == m.bin(i.op, Num(i.a.c.n), Den(Alias, i.b, cells));
    } else {
      k := RegistersRun(m, p, entry, g, g', Temp(i.id), i.op, i.a, i.b, final, cells, s);
    }
  }

  // ---------------------------------------------------------------- calls

  /** Arguments not copied yet are in registers below the base, copied ones behind it. */
  ghost predicate ArgsReady(vars: map<Value, nat>, base: nat, args: seq<Value>, vals: seq<Val>, j: nat, regs: Regs) {
    && j <= |args| == |vals|
    && (forall x | 0 <= x < |args| :: Has(vars, args[x], vals[x], regs) && (!args[x].K? ==> vars[args[x]] < base))
    && (forall x | 0 <= x < j :: Reg(regs, base + 1 + x) == vals[x])
  }

  lemma ArgsReadyNext(vars: map<Value, nat>, base: nat, args: seq<Value>, vals: seq<Val>, j: nat, regs: Regs,
        regs1: Regs, top: nat, top1: nat)
    requires ArgsReady(vars, base, args, vals, j, regs) && j < |args| && base + 1 + |args| <= top
    requires SameOutside(regs, regs1, top, top1)
    ensures ArgsReady(vars, base, args, vals, j + 1, regs1[base + 1 + j := vals[j]])
  {
    var regs2 := regs1[base + 1 + j := vals[j]];
    forall x | 0 <= x < j + 1 ensures Reg(regs2, base + 1 + x) == vals[x] {
    }
  }

  lemma SameOutsideArg(regs: Regs, regs1: Regs, regs2: Regs, base: nat, r: nat, w: Val, top: nat, top1: nat, top2: nat)
    requires SameOutside(regs, regs1, top, top1) && base < r < top <= top1 <= top2
    requires SameOutside(regs1[r := w], regs2, base + 1, top2)
    ensures SameOutside(regs, regs2, base + 1, top2)
  {
    forall q: nat | q < base + 1 || top2 <= q ensures Reg(regs, q) == Reg(regs2, q) {
      assert Reg(regs1[r := w], q) == Reg(regs1, q);
    }
  }

  /** Copies one argument. */
  lemma ArgRuns(m: Machine, p: Program, entry: nat -> nat, g: Tg, d: nat, v: Value, w: Val, last: Tg, s: VmState)
      returns (k: nat, regs1: Regs)
    requires Good(g) && s.Running? && s.pc == |g.code| && Has(g.vars, v, w, s.regs)
    requires var (g1, r) := GetReg(g, v); Extends(Put(g1, Mov(d, r)), last) && Placed(p, entry, last)
    ensures var (g1, r) := GetReg(g, v);
            && VmRun(m, p, s, k) == s.(pc := |g1.code| + 1, regs := regs1[d := w])
            && SameOutside(s.regs, regs1, g.top, g1.top)
  {
    hide Good, Extends, SameOutside, Placed, Has, GetReg;
    var (g1, r) := GetReg(g, v);
    ExtendsPut(g1, Mov(d, r), last);
    PlacedBefore(p, entry, g1, last);
    k, regs1 := OperandRuns(m, p, entry, g, v, w, s);
    PlacedPut(p, entry, g1, Mov(d, r), last);
    Step1(m, p, s.(pc := |g1.code|, regs := regs1));
    VmRunAdd(m, p, s, k, 1);
    k := k + 1;
  }

  /** Copies the remaining arguments. */
  lemma {:induction false} ArgsRun(m: Machine, p: Program, entry: nat -> nat, g: Tg, base: nat, args: seq<Value>,
        vals: seq<Val>, j: nat, s: VmState) returns (k: nat, regs': Regs)
    requires Good(g) && s.Running? && s.pc == |g.code| && ArgsReady(g.vars, base, args, vals, j, s.regs)
             && base + 1 + |args| <= g.top
    requires Placed(p, entry, PutArgs(g, base, args, j))
    ensures var r := PutArgs(g, base, args, j);
            && VmRun(m, p, s, k) == s.(pc := |r.code|, regs := regs')
            && ArgsReady(g.vars, base, args, vals, |args|, regs')
            && SameOutside(s.regs, regs', base + 1, r.top)
    decreases |args| - j
  {
    hide Good, Extends, SameOutside, Placed, Has, GetReg, VmStep, VmRun, ArgsReady;
    if j == |args| {
      k, regs' := 0, s.regs;
      Run0(m, p, s);
      SameRefl(s.regs, base + 1, g.top);
    } else {
      ArgsKnown(g, base, args, vals, j, s.regs);
      var (g1, r) := GetReg(g, args[j]);
      var c := Mov(base + 1 + j, r);
      var g2 := Put(g1, c);
      var last := PutArgs(g2, base, args, j + 1);
      GetRegKnown(g, args[j]);
      PutKeeps(g, g1, c);
      PutArgsGood(g2, base, args, j + 1);
      var k1, regs1 := ArgRuns(m, p, entry, g, base + 1 + j, args[j], vals[j], last, s);
      ArgsReadyNext(g.vars, base, args, vals, j, s.regs, regs1, g.top, g1.top);
      ExtendsTop(g, g1);
      ExtendsTop(g2, last);
      var k2: nat;
      k2, regs' := ArgsRun(m, p, entry, g2, base, args, vals, j + 1,
          s.(pc := |g2.code|, regs := regs1[base + 1 + j := vals[j]]));
      VmRunAdd(m, p, s, k1, k2);
      k := k1 + k2;
      SameOutsideArg(s.regs, regs1, regs', base, base + 1 + j, vals[j], g.top, g1.top, last.top);
    }
  }

  lemma ArgsHeld(g: Tg, g1: Tg, dst: Value, args: seq<Value>, final: Tg, cells: Cells, regs: Regs)
    requires Good(g) && Extends(g, final) && Holds(final.vars, cells, regs) && dst !in g.vars
             && g1.vars == g.vars[dst := g.top]
    requires forall v | v in args :: Known(g, v) && SafeOperand(v)
    ensures ArgsReady(g1.vars, g.top, args, DenAll(Alias, args, cells), 0, regs)
  {
    forall x | 0 <= x < |args| ensures Has(g1.vars, args[x], Den(Alias, args[x], cells), regs)
        && (!args[x].K? ==> g1.vars[args[x]] < g.top) {
      assert args[x] in args;
      OperandHeld(g, final, args[x], cells, regs);
    }
  }

  lemma Run0(m: Machine, p: Program, s: VmState)
    ensures VmRun(m, p, s, 0) == s
  {
  }

  lemma SameRefl(regs: Regs, lo: nat, hi: nat)
    ensures SameOutside(regs, regs, lo, hi)
  {
  }

  lemma ArgsAre(vars: map<Value, nat>, base: nat, args: seq<Value>, vals: seq<Val>, regs: Regs)
    requires ArgsReady(vars, base, args, vals, |args|, regs)
    ensures Args(regs, |args| + 1, base) == vals
  {
  }

  lemma ArgsKnown(g: Tg, base: nat, args: seq<Value>, vals: seq<Val>, j: nat, regs: Regs)
    requires ArgsReady(g.vars, base, args, vals, j, regs)
    ensures |args| == |vals| && j <= |args|
    ensures forall v | v in args :: Known(g, v)
    ensures j < |args| ==> Has(g.vars, args[j], vals[j], regs)
  {
  }

  lemma PlacedPut(p: Program, entry: nat -> nat, g: Tg, c: Code<nat>, final: Tg)
    requires Placed(p, entry, final) && Extends(Put(g, c), final)
    ensures |g.code| < |p.code| && p.code[|g.code|] == ResolveCode(entry, c)
  {
    PlacedAt(p, entry, g, c, final);
  }

  /** The machine in front of the call instruction: arguments in place, result register free. */
  lemma CallArgsRun(m: Machine, p: Program, entry: nat -> nat, g: Tg, dst: Value, args: seq<Value>, c: Code<nat>,
        final: Tg, cells: Cells, s: VmState) returns (k: nat, regs1: Regs)
    requires Good(g) && dst !in g.vars && dst.Temp? && (forall v | v in args :: Known(g, v) && SafeOperand(v))
    requires var g2 := PutArgs(AssignBase(g, dst, |args| + 1), g.top, args, 0);
             Extends(Put(g2, c), final) && Extends(g, final) && Placed(p, entry, final)
    requires s.Running? && s.pc == |g.code| && Holds(final.vars, cells, s.regs)
    ensures var g2 := PutArgs(AssignBase(g, dst, |args| + 1), g.top, args, 0);
            && Extends(g, g2) && g2.vars == g.vars[dst := g.top] && g.top < g2.top
            && VmRun(m, p, s, k) == s.(pc := |g2.code|, regs := regs1) && SameOutside(s.regs, regs1, g.top, g2.top)
            && Args(regs1, |args| + 1, g.top) == DenAll(Alias, args, cells)
  {
    hide Good, Extends, Holds, Placed, PutArgs, SameOutside, VmStep, VmRun, Args, ArgsReady;
    var g1 := AssignBase(g, dst, |args| + 1);
    AssignGood(g, dst, |args| + 1);
    PutArgsGood(g1, g.top, args, 0);
    var g2 := PutArgs(g1, g.top, args, 0);
    ExtendsTrans(g, g1, g2);
    ExtendsTop(g1, g2);
    ExtendsPut(g2, c, final);
    PlacedBefore(p, entry, g2, final);
    var vals := DenAll(Alias, args, cells);
    ArgsHeld(g, g1, dst, args, final, cells, s.regs);
    k, regs1 := ArgsRun(m, p, entry, g1, g.top, args, vals, 0, s);
    SameOutsideMore(s.regs, regs1, g.top, g2.top);
    ArgsAre(g1.vars, g.top, args, vals, regs1);
  }

  lemma CallRuns(m: Machine, p: Program, entry: nat -> nat, g: Tg, n: nat, b: nat, i: Instr, final: Tg, cells: Cells,
        s: VmState) returns (k: nat)
    requires (i.CallFn? || i.CallHn?) && Turn(p, entry, g, i, Visit(g, n, b, i), final, cells, s)
    ensures Arrives(m, i, cells, s, VmRun(m, p, s, k), |Visit(g, n, b, i).code|, final.vars) && k > 0
  {
    hide Good, Extends, Holds, Placed, PutArgs, SameOutside, VmRun, Den, Known;
    forall v | v in i.args ensures Known(g, v) && SafeOperand(v) { assert v in Operands(i); }
    var dst, argc := Temp(i.id), |i.args| + 1;
    var g2 := PutArgs(AssignBase(g, dst, argc), g.top, i.args, 0);
    var c := if i.CallFn? then CallN(i.f, argc, g.top) else HandlerN(i.f, argc, g.top);
    ExtendsTrans(g, Put(g2, c), final);
    var k1, regs1 := CallArgsRun(m, p, entry, g, dst, i.args, c, final, cells, s);
    var w := if i.CallFn? then m.call(i.f, DenAll(Alias, i.args, cells), s.tr) else Num(0);
    DefineRuns(m, p, entry, g, g2, c, final, dst, w, cells, s, k1, regs1);
    k := k1 + 1;
  }

  lemma PlacedBefore(p: Program, entry: nat -> nat, g: Tg, final: Tg)
    requires Placed(p, entry, final) && Extends(g, final)
    ensures Placed(p, entry, g)
  {
    PlacedPrefix(p, entry, g, final);
  }

  lemma SameOutsideMore(regs: Regs, regs': Regs, lo: nat, hi: nat)
    requires SameOutside(regs, regs', lo + 1, hi)
    ensures SameOutside(regs, regs', lo, hi)
  {
  }
}
