/**
  Register allocation of the target code generator: every value owns its register, loads share
  the register of their variable, and code, once emitted, stays.
 */
module FlowRegisters {
  import opened Wrappers
  import opened FlowIr
  import opened FlowVm
  import opened FlowTarget

  // ---------------------------------------------------------------- definitions and uses

  function DefOf(i: Instr): Option<Value> {
    match i
    case Alloca(id) => Some(Cell(id))
    case Load(id, x) => Some(Loaded(id, x))
    case Un(id, _, _) => Some(Temp(id))
    case Bin(id, _, _, _) => Some(Temp(id))
    case CallFn(id, _, _) => Some(Temp(id))
    case CallHn(id, _, _) => Some(Temp(id))
    case _ => None
  }

  function Operands(i: Instr): seq<Value> {
    match i
    case Store(x, v) => [Cell(x), v]
    case Load(_, x) => [Cell(x)]
    case Un(_, _, v) => [v]
    case Bin(_, _, a, b) => [a, b]
    case CallFn(_, _, args) => args
    case CallHn(_, _, args) => args
    case CondBr(v, _, _) => [v]
    case Match(_, v, _, _, _) => [v]
    case _ => []
  }

  predicate Earlier(b: nat, i: nat, b': nat, i': nat) {
    b < b' || (b == b' && i < i')
  }

  ghost predicate DefinedAt(G: Cfg, v: Value, b: nat, i: nat) {
    b < |G| && i < |G[b]| && DefOf(G[b][i]) == Some(v)
  }

  /** v is defined by an instruction laid out before position i of block b. */
  ghost predicate DefinedBefore(G: Cfg, v: Value, b: nat, i: nat) {
    exists b': nat, i': nat :: DefinedAt(G, v, b', i') && Earlier(b', i', b, i)
  }

  ghost predicate OrderedAt(G: Cfg, b: nat, i: nat)
    requires b < |G| && i < |G[b]|
  {
    && (forall v | v in Operands(G[b][i]) && !v.K? :: DefinedBefore(G, v, b, i))
    && (DefOf(G[b][i]).Some? ==> !DefinedBefore(G, DefOf(G[b][i]).value, b, i))
  }

  /** In layout order every value is defined once, and before it is used. */
  ghost predicate Ordered(G: Cfg) {
    forall b, i | 0 <= b < |G| && 0 <= i < |G[b]| :: OrderedAt(G, b, i)
  }

  // ---------------------------------------------------------------- the allocator's invariant

  /** Distinct values have distinct registers, except loads, which have their variable's. */
  ghost predicate Good(g: Tg) {
    && (forall v | v in g.vars :: !v.K? && g.vars[v] < g.top)
    && (forall v, w | v in g.vars && w in g.vars && v != w && !v.Loaded? && !w.Loaded? :: g.vars[v] != g.vars[w])
    && (forall v | v in g.vars && v.Loaded? :: Cell(v.x) in g.vars && g.vars[v] == g.vars[Cell(v.x)])
  }

  ghost predicate Known(g: Tg, v: Value) {
    v.K? || v in g.vars
  }

  /** From g to r: code and tables were only added to, registers stay assigned, and a value that
      got its register later got a register that was free in g. */
  ghost predicate Extends(g: Tg, r: Tg) {
    && g.code <= r.code && g.defs <= r.defs && g.top <= r.top
    && (forall v | v in g.vars :: v in r.vars && r.vars[v] == g.vars[v])
    && (forall v | v in r.vars && v !in g.vars && !v.Loaded? :: g.top <= r.vars[v])
  }

  lemma ExtendsTrans(g: Tg, g1: Tg, g2: Tg)
    requires Extends(g, g1) && Extends(g1, g2)
    ensures Extends(g, g2)
  {
  }

  /** Reading a known operand only loads constants, into fresh registers. */
  lemma GetRegKnown(g: Tg, v: Value)
    requires Good(g) && Known(g, v)
    ensures var (g1, r) := GetReg(g, v);
            && Good(g1) && Extends(g, g1) && g1.vars == g.vars && g1.defs == g.defs && r < g1.top
            && (if v.K? then r == g.top && g1.top == g.top + 1 && g1.code == g.code + [LoadConst(r, v.c)]
                else g1 == g && r == g.vars[v])
  {
  }

  lemma AssignGood(g: Tg, v: Value, n: nat)
    requires Good(g) && v !in g.vars && !v.K? && !v.Loaded? && n > 0
    ensures Good(AssignBase(g, v, n)) && Extends(g, AssignBase(g, v, n)) && Assign(g, v) == AssignBase(g, v, 1)
  {
  }

  lemma {:induction false} PutArgsGood(g: Tg, base: nat, args: seq<Value>, i: nat)
    requires Good(g) && i <= |args| && forall v | v in args :: Known(g, v)
    ensures var r := PutArgs(g, base, args, i);
            Good(r) && Extends(g, r) && r.vars == g.vars && r.defs == g.defs
    decreases |args| - i
  {
    if i < |args| {
      var (g1, r) := GetReg(g, args[i]);
      GetRegKnown(g, args[i]);
      var g2 := Put(g1, Mov(base + 1 + i, r));
      PutArgsGood(g2, base, args, i + 1);
      assert Extends(g, g2);
      ExtendsTrans(g, g2, PutArgs(g2, base, args, i + 1));
    }
  }

  ghost predicate VisitKeeps(g: Tg, i: Instr, r: Tg) {
    && Good(r) && Extends(g, r)
    && (forall v :: v in r.vars <==> v in g.vars || DefOf(i) == Some(v))
    && (DefOf(i).Some? && !DefOf(i).value.Loaded? ==> r.vars[DefOf(i).value] == g.top < r.top)
  }

  /** Appending an instruction to what was reached from g. */
  lemma PutKeeps(g: Tg, g1: Tg, c: Code<nat>)
    requires Good(g1) && Extends(g, g1)
    ensures Good(Put(g1, c)) && Extends(g, Put(g1, c))
  {
  }

  /** Assign a register, read an operand. */
  lemma AssignRead(g: Tg, v: Value, w: Value)
    requires Good(g) && v !in g.vars && !v.K? && !v.Loaded? && Known(g, w)
    ensures var g1 := GetReg(Assign(g, v), w).0;
            Good(g1) && Extends(g, g1) && g1.vars == g.vars[v := g.top] && g1.top > g.top
  {
    AssignGood(g, v, 1);
    GetRegKnown(Assign(g, v), w);
    ExtendsTrans(g, Assign(g, v), GetReg(Assign(g, v), w).0);
  }

  lemma AssignReadTwo(g: Tg, v: Value, w: Value, w': Value)
    requires Good(g) && v !in g.vars && !v.K? && !v.Loaded? && Known(g, w) && Known(g, w')
    ensures var g2 := GetReg(GetReg(Assign(g, v), w).0, w').0;
            Good(g2) && Extends(g, g2) && g2.vars == g.vars[v := g.top] && g2.top > g.top
  {
    AssignRead(g, v, w);
    var g1 := GetReg(Assign(g, v), w).0;
    GetRegKnown(g1, w');
    ExtendsTrans(g, g1, GetReg(g1, w').0);
  }

  lemma VisitBinKeeps(g: Tg, n: nat, b: nat, i: Instr)
    requires Good(g) && i.Bin? && Temp(i.id) !in g.vars && Known(g, i.a) && Known(g, i.b)
    ensures VisitKeeps(g, i, Visit(g, n, b, i))
  {
    hide Good, Extends, GetReg;
    AssignRead(g, Temp(i.id), i.a);
    AssignRead(g, Temp(i.id), i.b);
    AssignReadTwo(g, Temp(i.id), i.a, i.b);
    var r := Visit(g, n, b, i);
    var c := r.code[|r.code| - 1];
    PutKeeps(g, GetReg(Assign(g, Temp(i.id)), i.a).0, c);
    PutKeeps(g, GetReg(Assign(g, Temp(i.id)), i.b).0, c);
    PutKeeps(g, GetReg(GetReg(Assign(g, Temp(i.id)), i.a).0, i.b).0, c);
  }

  lemma VisitCallKeeps(g: Tg, n: nat, b: nat, i: Instr)
    requires Good(g) && (i.CallFn? || i.CallHn?) && Temp(i.id) !in g.vars && forall v | v in i.args :: Known(g, v)
    ensures VisitKeeps(g, i, Visit(g, n, b, i))
  {
    hide Good, Extends, PutArgs;
    AssignGood(g, Temp(i.id), |i.args| + 1);
    var g1 := AssignBase(g, Temp(i.id), |i.args| + 1);
    PutArgsGood(g1, g.top, i.args, 0);
    var g2 := PutArgs(g1, g.top, i.args, 0);
    ExtendsTrans(g, g1, g2);
    PutKeeps(g, g2, CallN(i.f, |i.args| + 1, g.top));
    PutKeeps(g, g2, HandlerN(i.f, |i.args| + 1, g.top));
    assert g1.top <= g2.top by { ExtendsTop(g1, g2); }
  }

  lemma ExtendsTop(g: Tg, r: Tg)
    requires Extends(g, r)
    ensures g.top <= r.top
  {
  }

  lemma ExtendsRefl(g: Tg)
    ensures Extends(g, g)
  {
  }

  /** Variables: allocation, store and load. */
  lemma VisitCellKeeps(g: Tg, n: nat, b: nat, i: Instr)
    requires Good(g) && (i.Alloca? || i.Store? || i.Load?)
    requires forall v | v in Operands(i) :: Known(g, v)
    requires DefOf(i).Some? ==> DefOf(i).value !in g.vars
    ensures VisitKeeps(g, i, Visit(g, n, b, i))
  {
    match i
    case Alloca(id) => AssignGood(g, Cell(id), 1);
    case Store(x, v) => assert Cell(x) in Operands(i) && v in Operands(i);
    case Load(id, x) => assert Cell(x) in Operands(i);
  }

  lemma VisitJumpKeeps(g: Tg, n: nat, b: nat, i: Instr)
    requires Good(g) && IsTerminator(i)
    requires forall v | v in Operands(i) :: Known(g, v)
    ensures VisitKeeps(g, i, Visit(g, n, b, i))
  {
    hide Good, Extends, GetReg;
    ExtendsRefl(g);
    match i
    case Br(t) => PutKeeps(g, g, Jmp(t));
    case CondBr(v, t, e) =>
      assert v in Operands(i);
      GetRegKnown(g, v);
      var (g1, r) := GetReg(g, v);
      PutKeeps(g, g1, Jz(r, e));
      PutKeeps(g, g1, Jn(r, t));
      PutKeeps(g, Put(g1, Jn(r, t)), Jmp(e));
    case Match(mc, v, labels, targets, t) =>
      assert v in Operands(i);
      var g1 := g.(defs := g.defs + [Def(mc, labels, targets, t)]);
      DefKeeps(g, Def(mc, labels, targets, t));
      GetRegKnown(g1, v);
      var (g2, r) := GetReg(g1, v);
      ExtendsTrans(g, g1, g2);
      PutKeeps(g, g2, SMatch(r, |g.defs|));
    case Ret(result) => PutKeeps(g, g, Exit(result));
  }

  lemma DefKeeps(g: Tg, d: Def<nat>)
    requires Good(g)
    ensures Good(g.(defs := g.defs + [d])) && Extends(g, g.(defs := g.defs + [d]))
  {
  }

  /** Each instruction keeps the invariant and assigns a register to what it defines, nothing else. */
  lemma VisitKeepsGood(g: Tg, n: nat, b: nat, i: Instr)
    requires Good(g)
    requires forall v | v in Operands(i) :: Known(g, v)
    requires DefOf(i).Some? ==> DefOf(i).value !in g.vars
    ensures VisitKeeps(g, i, Visit(g, n, b, i))
  {
    hide Good, Extends, GetReg, PutArgs;
    match i
    case Alloca(_) => VisitCellKeeps(g, n, b, i);
    case Store(_, _) => VisitCellKeeps(g, n, b, i);
    case Load(_, _) => VisitCellKeeps(g, n, b, i);
    case Un(id, op, v) =>
      assert v in Operands(i);
      AssignRead(g, Temp(id), v);
      PutKeeps(g, GetReg(Assign(g, Temp(id)), v).0, Rr(op, g.top, GetReg(Assign(g, Temp(id)), v).1));
    case Bin(id, op, a, c) =>
      assert a in Operands(i) && c in Operands(i);
      VisitBinKeeps(g, n, b, i);
    case CallFn(id, f, args) => VisitCallKeeps(g, n, b, i);
    case CallHn(id, f, args) => VisitCallKeeps(g, n, b, i);
    case _ => VisitJumpKeeps(g, n, b, i);
  }

  // ---------------------------------------------------------------- the whole handler

  /** A generator about to start a handler: no code, no registers assigned. */
  predicate Start(g0: Tg) {
    g0.code == [] && g0.vars == map[]
  }

  predicate Position(G: Cfg, b: nat, i: nat) {
    b <= |G| && (if b < |G| then i <= |G[b]| else i == 0)
  }

  /** Before each instruction exactly the values laid out earlier have registers. */
  lemma {:induction false} BeforeGood(g0: Tg, G: Cfg, b: nat, i: nat)
    requires Start(g0) && Ordered(G) && Position(G, b, i)
    ensures Good(Before(g0, G, b, i))
    ensures forall v :: v in Before(g0, G, b, i).vars <==> DefinedBefore(G, v, b, i)
    decreases b, i
  {
    hide Good, Visit;
    if i > 0 {
      BeforeGood(g0, G, b, i - 1);
      var g := Before(g0, G, b, i - 1);
      assert OrderedAt(G, b, i - 1);
      VisitKeepsGood(g, |G|, b, G[b][i - 1]);
      forall v ensures DefinedBefore(G, v, b, i) <==> DefinedBefore(G, v, b, i - 1) || DefOf(G[b][i - 1]) == Some(v) {
        DefinedNext(G, v, b, i);
      }
    } else if b > 0 {
      BeforeGood(g0, G, b - 1, |G[b - 1]|);
      forall v ensures DefinedBefore(G, v, b, 0) <==> DefinedBefore(G, v, b - 1, |G[b - 1]|) {
        DefinedBlock(G, v, b);
      }
    } else {
      StartGood(g0);
    }
  }

  lemma StartGood(g0: Tg)
    requires Start(g0)
    ensures Good(g0)
  {
  }

  lemma DefinedNext(G: Cfg, v: Value, b: nat, i: nat)
    requires b < |G| && 0 < i <= |G[b]|
    ensures DefinedBefore(G, v, b, i) <==> DefinedBefore(G, v, b, i - 1) || DefOf(G[b][i - 1]) == Some(v)
  {
    if DefOf(G[b][i - 1]) == Some(v) {
      assert DefinedAt(G, v, b, i - 1) && Earlier(b, i - 1, b, i);
    }
    if DefinedBefore(G, v, b, i - 1) {
      var b': nat, i': nat :| DefinedAt(G, v, b', i') && Earlier(b', i', b, i - 1);
      assert Earlier(b', i', b, i);
    }
    if DefinedBefore(G, v, b, i) {
      var b': nat, i': nat :| DefinedAt(G, v, b', i') && Earlier(b', i', b, i);
      assert Earlier(b', i', b, i - 1) || (b' == b && i' == i - 1);
    }
  }

  lemma DefinedBlock(G: Cfg, v: Value, b: nat)
    requires 0 < b <= |G|
    ensures DefinedBefore(G, v, b, 0) <==> DefinedBefore(G, v, b - 1, |G[b - 1]|)
  {
    if DefinedBefore(G, v, b - 1, |G[b - 1]|) {
      var b': nat, i': nat :| DefinedAt(G, v, b', i') && Earlier(b', i', b - 1, |G[b - 1]|);
      assert Earlier(b', i', b, 0);
    }
    if DefinedBefore(G, v, b, 0) {
      var b': nat, i': nat :| DefinedAt(G, v, b', i') && Earlier(b', i', b, 0);
      assert Earlier(b', i', b - 1, |G[b - 1]|);
    }
  }

  /** What an instruction finds when its turn comes. */
  lemma InstrReady(g0: Tg, G: Cfg, b: nat, i: nat)
    requires Start(g0) && Ordered(G) && b < |G| && i < |G[b]|
    ensures var g := Before(g0, G, b, i);
            && Good(g) && VisitKeeps(g, G[b][i], Before(g0, G, b, i + 1))
            && (forall v | v in Operands(G[b][i]) :: Known(g, v))
            && (DefOf(G[b][i]).Some? ==> DefOf(G[b][i]).value !in g.vars)
  {
    hide Good, Visit, Ordered;
    BeforeGood(g0, G, b, i);
    assert OrderedAt(G, b, i) by { assert Ordered(G); OrderedHere(G, b, i); }
    VisitKeepsGood(Before(g0, G, b, i), |G|, b, G[b][i]);
  }

  lemma OrderedHere(G: Cfg, b: nat, i: nat)
    requires Ordered(G) && b < |G| && i < |G[b]|
    ensures OrderedAt(G, b, i)
  {
  }

  /** Later stages extend earlier ones. */
  lemma {:induction false} BeforeExtends(g0: Tg, G: Cfg, b: nat, i: nat, b': nat, i': nat)
    requires Start(g0) && Ordered(G) && Position(G, b, i) && Position(G, b', i')
    requires Earlier(b, i, b', i') || (b == b' && i == i')
    ensures Extends(Before(g0, G, b, i), Before(g0, G, b', i'))
    decreases b', i'
  {
    hide Good, Visit, Ordered;
    if b == b' && i == i' {
    } else if i' > 0 {
      BeforeExtends(g0, G, b, i, b', i' - 1);
      InstrReady(g0, G, b', i' - 1);
      ExtendsTrans(Before(g0, G, b, i), Before(g0, G, b', i' - 1), Before(g0, G, b', i'));
    } else {
      BeforeExtends(g0, G, b, i, b' - 1, |G[b' - 1]|);
    }
  }
}
