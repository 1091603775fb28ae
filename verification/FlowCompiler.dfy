/**
  The whole compiler, as the daemon runs it on a configuration: one generator lowers the exported
  handlers in turn, and if it reported no error another turns their blocks into code, with one
  match table for all of them.
 */
module FlowCompiler {
  import opened Wrappers
  import opened FlowCore
  import opened FlowAst
  import opened FlowIr
  import opened FlowLowering
  import opened FlowShape
  import opened FlowVm
  import opened FlowTarget
  import opened FlowRegisters
  import opened FlowCorrectness
  import opened FlowRecursion
  import opened FlowPipeline
  import IrGenerator
  import TargetCodeGenerator

  // ---------------------------------------------------------------- one match table for all handlers

  /** All match instructions name entries of a table of n. */
  ghost predicate MatchIdsBelow(code: seq<Code<nat>>, n: nat) {
    forall k | 0 <= k < |code| && code[k].SMatch? :: code[k].id < n
  }

  /** From g to r the table only grew, and match instructions name entries of it. */
  ghost predicate TableGrows(g: Tg, r: Tg) {
    g.defs <= r.defs && (MatchIdsBelow(g.code, |g.defs|) ==> MatchIdsBelow(r.code, |r.defs|))
  }

  lemma GrowsMore(g: Tg, g1: Tg, g2: Tg)
    requires TableGrows(g, g1) && TableGrows(g1, g2)
    ensures TableGrows(g, g2)
  {
  }

  lemma PutTable(g: Tg, r: Tg, c: Code<nat>)
    requires TableGrows(g, r) && (c.SMatch? ==> c.id < |r.defs|)
    ensures TableGrows(g, Put(r, c))
  {
  }

  lemma GetRegTable(g: Tg, g1: Tg, v: Value)
    requires TableGrows(g, g1)
    ensures TableGrows(g, GetReg(g1, v).0)
  {
    if v.K? { PutTable(g, g1, LoadConst(g1.top, v.c)); }
  }

  lemma AssignTable(g: Tg, v: Value, n: nat)
    ensures TableGrows(g, g) && TableGrows(g, FlowTarget.Assign(g, v)) && TableGrows(g, AssignBase(g, v, n))
  {
  }

  lemma {:induction false} PutArgsTable(g: Tg, base: nat, args: seq<Value>, i: nat)
    requires i <= |args|
    ensures TableGrows(g, PutArgs(g, base, args, i))
    decreases |args| - i
  {
    hide TableGrows, GetReg;
    AssignTable(g, K(CInt(0)), 0);
    if i < |args| {
      var (g1, r) := GetReg(g, args[i]);
      GetRegTable(g, g, args[i]);
      var g2 := Put(g1, Mov(base + 1 + i, r));
      PutTable(g, g1, Mov(base + 1 + i, r));
      PutArgsTable(g2, base, args, i + 1);
      GrowsMore(g, g2, PutArgs(g2, base, args, i + 1));
    }
  }

  lemma CallTable(g: Tg, id: nat, args: seq<Value>, c: Code<nat>)
    requires !c.SMatch?
    ensures TableGrows(g, Put(PutArgs(AssignBase(g, Temp(id), |args| + 1), g.top, args, 0), c))
  {
    hide TableGrows, PutArgs;
    var g1 := AssignBase(g, Temp(id), |args| + 1);
    AssignTable(g, Temp(id), |args| + 1);
    PutArgsTable(g1, g.top, args, 0);
    GrowsMore(g, g1, PutArgs(g1, g.top, args, 0));
    PutTable(g, PutArgs(g1, g.top, args, 0), c);
  }

  lemma BinTable(g: Tg, id: nat, op: BinOp, a: Value, b: Value)
    ensures TableGrows(g, VisitBin(g, id, op, a, b))
  {
    hide TableGrows, GetReg, HasImmediate, Exchanges;
    var g1 := FlowTarget.Assign(g, Temp(id));
    AssignTable(g, Temp(id), 1);
    GetRegTable(g, g1, a);
    GetRegTable(g, g1, b);
    GetRegTable(g, GetReg(g1, a).0, b);
    var r := VisitBin(g, id, op, a, b);
    var c := r.code[|r.code| - 1];
    PutTable(g, GetReg(g1, a).0, c);
    PutTable(g, GetReg(g1, b).0, c);
    PutTable(g, GetReg(GetReg(g1, a).0, b).0, c);
  }

  lemma MatchTable(g: Tg, d: Def<nat>, v: Value)
    ensures var (g1, r) := GetReg(g.(defs := g.defs + [d]), v); TableGrows(g, Put(g1, SMatch(r, |g.defs|)))
  {
    hide LoadConst;
    var g0 := g.(defs := g.defs + [d]);
    var (g1, r) := GetReg(g0, v);
    assert TableGrows(g, g0);
    GetRegTable(g, g0, v);
    PutTable(g, g1, SMatch(r, |g.defs|));
  }

  lemma VisitTable(g: Tg, n: nat, b: nat, i: Instr)
    ensures TableGrows(g, Visit(g, n, b, i))
  {
    hide TableGrows, GetReg, PutArgs, VisitBin, LoadConst;
    AssignTable(g, K(CInt(0)), 0);
    match i
    case Alloca(id) => AssignTable(g, Cell(id), 1);
    case Store(x, v) =>
      GetRegTable(g, g, Cell(x));
      var (g1, d) := GetReg(g, Cell(x));
      if v.K? { ConstTable(g, g1, d, v.c); } else if v in g1.vars { PutTable(g, g1, Mov(d, g1.vars[v])); }
    case Load(id, x) =>
      GetRegTable(g, g, Cell(x));
      NameTable(g, GetReg(g, Cell(x)).0, Loaded(id, x), GetReg(g, Cell(x)).1);
    case Un(id, op, v) =>
      AssignTable(g, Temp(id), 1);
      GetRegTable(g, FlowTarget.Assign(g, Temp(id)), v);
      var (g1, r) := GetReg(FlowTarget.Assign(g, Temp(id)), v);
      PutTable(g, g1, Rr(op, g.top, r));
    case Bin(id, op, a, c) => BinTable(g, id, op, a, c);
    case CallFn(id, f, args) => CallTable(g, id, args, CallN(f, |args| + 1, g.top));
    case CallHn(id, f, args) => CallTable(g, id, args, HandlerN(f, |args| + 1, g.top));
    case Br(t) => PutTable(g, g, Jmp(t));
    case CondBr(v, t, e) =>
      GetRegTable(g, g, v);
      var (g1, r) := GetReg(g, v);
      PutTable(g, g1, Jz(r, e));
      PutTable(g, g1, Jn(r, t));
      PutTable(g, Put(g1, Jn(r, t)), Jmp(e));
    case Match(mc, v, labels, targets, t) => MatchTable(g, Def(mc, labels, targets, t), v);
    case Ret(result) => PutTable(g, g, Exit(result));
  }

  lemma ConstTable(g: Tg, r: Tg, d: nat, c: Const)
    requires TableGrows(g, r)
    ensures TableGrows(g, Put(r, LoadConst(d, c)))
  {
    PutTable(g, r, LoadConst(d, c));
  }

  lemma NameTable(g: Tg, r: Tg, v: Value, reg: nat)
    requires TableGrows(g, r)
    ensures TableGrows(g, r.(vars := r.vars[v := reg]))
  {
  }

  lemma {:induction false} BeforeTable(g0: Tg, G: Cfg, b: nat, i: nat)
    requires Position(G, b, i)
    ensures TableGrows(g0, Before(g0, G, b, i))
    decreases b, i
  {
    hide Visit;
    if i > 0 {
      BeforeTable(g0, G, b, i - 1);
      VisitTable(Before(g0, G, b, i - 1), |G|, b, G[b][i - 1]);
    } else if b > 0 {
      BeforeTable(g0, G, b - 1, |G[b - 1]|);
    }
  }

  lemma ResolvedTable(g0: Tg, G: Cfg)
    requires g0.code == []
    ensures var p := Resolve(g0, G); g0.defs <= p.defs && MatchIdsBelow(p.code, |p.defs|)
  {
    hide Before, ResolveDef;
    BeforeTable(g0, G, |G|, 0);
  }

  /** Entries that later handlers add to the table do not matter. */
  lemma {:induction false} MoreEntries(m: Machine, code: seq<Code<nat>>, defs: seq<Def<nat>>, more: seq<Def<nat>>,
        s: VmState, n: nat)
    requires defs <= more && MatchIdsBelow(code, |defs|)
    ensures VmRun(m, Program(code, defs), s, n) == VmRun(m, Program(code, more), s, n)
    decreases n
  {
    hide Evaluate;
    if n > 0 {
      MoreEntries(m, code, defs, more, VmStep(m, Program(code, defs), s), n - 1);
    }
  }

  lemma SameStops(m: Machine, code: seq<Code<nat>>, defs: seq<Def<nat>>, more: seq<Def<nat>>, s: VmState, t: VmState)
    requires defs <= more && MatchIdsBelow(code, |defs|)
    ensures VmReaches(m, Program(code, defs), s, t) <==> VmReaches(m, Program(code, more), s, t)
  {
    hide VmRun;
    forall n: nat ensures VmRun(m, Program(code, defs), s, n) == VmRun(m, Program(code, more), s, n) {
      MoreEntries(m, code, defs, more, s, n);
    }
  }

  // ---------------------------------------------------------------- the compiler

  /** No chain of calls from h comes back to a handler it has passed, or leads to one without a body. */
  ghost predicate Expandable(u: Unit, h: string) {
    !CycleReachable(u, h) && !MissingReachable(u, h)
  }

  /** G are the blocks of handler h. */
  ghost predicate Lowered(m: Machine, u: Unit, h: string, G: Cfg) {
    exists g: Gen :: Fresh(g) && LowerExported(m, u, h, g).errors == [] && G == LowerExported(m, u, h, g).blocks
  }

  /** The code, run from its start with this match table or a longer one, does what handler h means. */
  ghost predicate Means(m: Machine, u: Unit, h: string, code: seq<Code<nat>>, defs: seq<Def<nat>>) {
    MatchIdsBelow(code, |defs|) && (Compilable(m, u, h) ==> Correct(m, u, h, Program(code, defs)))
  }

  ghost predicate Correct(m: Machine, u: Unit, h: string, p: Program) {
    forall tr, result, tr' :: VmReaches(m, p, Running(0, map[], tr), Stopped(result, tr'))
                              <==> Meaning(m, u, h, tr) == Some(Halted(result, tr'))
  }

  lemma LoweredMeans(m: Machine, u: Unit, h: string, g0: Tg, G: Cfg)
    requires Start(g0) && Lowered(m, u, h, G)
    ensures var p := Resolve(g0, G); Means(m, u, h, p.code, p.defs) && g0.defs <= p.defs
  {
    hide Resolve, VmReaches, Meaning, Compilable, LowerExported;
    ResolvedTable(g0, G);
    var g: Gen :| Fresh(g) && LowerExported(m, u, h, g).errors == [] && G == LowerExported(m, u, h, g).blocks;
    if Compilable(m, u, h) {
      forall tr, result, tr'
        ensures VmReaches(m, Resolve(g0, G), Running(0, map[], tr), Stopped(result, tr'))
                <==> Meaning(m, u, h, tr) == Some(Halted(result, tr')) {
        CompilerPreservesMeaning(m, u, h, g, g0, tr, result, tr');
      }
      assert Resolve(g0, G) == Program(Resolve(g0, G).code, Resolve(g0, G).defs);
    }
  }

  lemma StillMeans(m: Machine, u: Unit, h: string, code: seq<Code<nat>>, defs: seq<Def<nat>>, more: seq<Def<nat>>)
    requires Means(m, u, h, code, defs) && defs <= more
    ensures Means(m, u, h, code, more)
  {
    hide VmReaches, Meaning, Compilable;
    if Compilable(m, u, h) {
      forall tr, result, tr'
        ensures VmReaches(m, Program(code, more), Running(0, map[], tr), Stopped(result, tr'))
                <==> Meaning(m, u, h, tr) == Some(Halted(result, tr')) {
        SameStops(m, code, defs, more, Running(0, map[], tr), Stopped(result, tr'));
      }
    }
  }

  /** What lowering one more handler does to the errors. */
  lemma NextLowered(m: Machine, u: Unit, h: string, g: Gen)
    requires forall x | x in g.scope :: g.scope[x] < g.next
    ensures var r := LowerExported(m, u, h, g);
            && (r.errors == [] <==> g.errors == [] && Expandable(u, h))
            && (r.errors == [] ==> Lowered(m, u, h, r.blocks))
  {
    hide LowerHandler, CycleReachable, MissingReachable;
    ErrorFree(m, u, h, g);
    HandlerErrors(m, u, [], h, g.(blocks := [[]], cur := 0));
  }

  /** Lowers the exported handlers; there are no errors exactly if all of them can be expanded. */
  method Lower(host: Machine, unit: Unit, handlers: seq<string>) returns (ok: bool, cfgs: seq<Cfg>)
    requires OwnLocals(unit)
    ensures ok <==> forall k | 0 <= k < |handlers| :: Expandable(unit, handlers[k])
    ensures |cfgs| == |handlers| && (ok ==> forall k | 0 <= k < |handlers| :: Lowered(host, unit, handlers[k], cfgs[k]))
  {
    hide Lowered, Expandable, LowerExported, OwnLocals;
    var ir := new IrGenerator.Generator(host, unit);
    cfgs := [];
    var i := 0;
    while i < |handlers|
      invariant 0 <= i == |cfgs| <= |handlers| && fresh(ir)
      invariant ir.host == host && ir.unit == unit && ir.handlerStack == []
      invariant forall x | x in ir.scope :: ir.scope[x] < ir.next
      invariant ir.errors == [] <==> forall k | 0 <= k < i :: Expandable(unit, handlers[k])
      invariant ir.errors == [] ==> forall k | 0 <= k < i :: Lowered(host, unit, handlers[k], cfgs[k])
    {
      ghost var g := ir.State();
      ir.Generate(handlers[i]);
      NextLowered(host, unit, handlers[i], g);
      cfgs := cfgs + [ir.blocks];
      i := i + 1;
    }
    ok := ir.errors == [];
  }

  /** Compiles a configuration. It fails exactly if some exported handler cannot be expanded;
      otherwise every compilable handler, run by the machine on the common match table, stops with
      a result and a sequence of builtin calls exactly if its source does. */
  method Compile(host: Machine, unit: Unit, handlers: seq<string>)
      returns (ok: bool, code: seq<seq<Code<nat>>>, defs: seq<Def<nat>>)
    requires OwnLocals(unit)
    ensures ok <==> forall k | 0 <= k < |handlers| :: Expandable(unit, handlers[k])
    ensures ok ==> |code| == |handlers|
    ensures ok ==> forall k | 0 <= k < |handlers| && Compilable(host, unit, handlers[k]) ::
                     Correct(host, unit, handlers[k], Program(code[k], defs))
  {
    hide Lowered, Expandable, Compilable, Correct, Resolve, OwnLocals;
    code, defs := [], [];
    var cfgs: seq<Cfg>;
    ok, cfgs := Lower(host, unit, handlers);
    if !ok { return; }
    var target := new TargetCodeGenerator.Generator();
    var i := 0;
    while i < |handlers|
      invariant 0 <= i == |code| <= |handlers| && fresh(target)
      invariant target.Idle()
      invariant forall k | 0 <= k < i :: Means(host, unit, handlers[k], code[k], target.matchDefs)
    {
      ghost var before := target.matchDefs;
      LoweredMeans(host, unit, handlers[i], Tg([], before, map[], target.allocations), cfgs[i]);
      var c := target.Generate(cfgs[i]);
      forall k | 0 <= k < i ensures Means(host, unit, handlers[k], code[k], target.matchDefs) {
        StillMeans(host, unit, handlers[k], code[k], before, target.matchDefs);
      }
      code := code + [c];
      i := i + 1;
    }
    defs := target.matchDefs;
  }
}
