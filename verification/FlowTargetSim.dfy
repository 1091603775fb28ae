/**
  Whole runs: the generated program stops exactly when the blocks it was generated from do,
  with the same result and the same builtin calls.
 */
module FlowTargetSim {
  import opened FlowCore
  import opened FlowIr
  import opened FlowVm
  import opened FlowTarget
  import opened FlowRegisters
  import opened FlowTargetProof

  /** Every instruction but a terminator. Only allocations and loads take no machine steps. */
  lemma StraightRuns(m: Machine, p: Program, entry: nat -> nat, g: Tg, n: nat, b: nat, i: Instr, final: Tg,
        cells: Cells, s: VmState) returns (k: nat)
    requires Lawful(m) && !IsTerminator(i) && Turn(p, entry, g, i, Visit(g, n, b, i), final, cells, s)
    ensures Arrives(m, i, cells, s, VmRun(m, p, s, k), |Visit(g, n, b, i).code|, final.vars)
  {
    hide Good, Extends, Holds, Placed, Lawful, VmRun;
    match i
    case Alloca(id) => k := 0; Run0(m, p, s);
    case Load(id, x) =>
      assert Cell(x) in Operands(i);
      k := 0;
      Run0(m, p, s);
    case Store(_, _) => k := StoreRuns(m, p, entry, g, n, b, i, final, cells, s);
    case Un(_, _, _) => k := UnRuns(m, p, entry, g, n, b, i, final, cells, s);
    case Bin(_, _, _, _) => k := BinRuns(m, p, entry, g, n, b, i, final, cells, s);
    case CallFn(_, _, _) => k := CallRuns(m, p, entry, g, n, b, i, final, cells, s);
    case CallHn(_, _, _) => k := CallRuns(m, p, entry, g, n, b, i, final, cells, s);
  }

  // ---------------------------------------------------------------- terminators

  /** Where the machine is after a terminator: at the address of a block, or stopped. */
  ghost predicate Jumps(m: Machine, entry: nat -> nat, i: Instr, cells: Cells, s: VmState, t: VmState,
        vars: map<Value, nat>)
    requires s.Running?
  {
    match Effect(m, i, cells, s.tr)
    case At(b, _, cells', tr') => t.Running? && t.pc == entry(b) && t.tr == tr' && Holds(vars, cells', t.regs)
    case Halted(result, tr') => t == Stopped(result, tr')
  }

  /** Reading the operand of a branch: the code goes on at g1, the cells are as before. */
  lemma ConditionRuns(m: Machine, p: Program, entry: nat -> nat, g: Tg, v: Value, final: Tg, cells: Cells, s: VmState)
      returns (k: nat, s1: VmState)
    requires Good(g) && Known(g, v) && Extends(g, final) && Extends(GetReg(g, v).0, final) && Placed(p, entry, final)
    requires s.Running? && s.pc == |g.code| && Holds(final.vars, cells, s.regs)
    ensures var (g1, r) := GetReg(g, v);
            && VmRun(m, p, s, k) == s1 && s1.Running? && s1.pc == |g1.code| && s1.tr == s.tr
            && Reg(s1.regs, r) == Seen(v, cells) && Holds(final.vars, cells, s1.regs)
  {
    hide Good, Extends, Holds, Placed, SameOutside, Has, VmRun, GetReg, Seen;
    OperandHeld(g, final, v, cells, s.regs);
    GetRegKnown(g, v);
    var g1 := GetReg(g, v).0;
    PlacedBefore(p, entry, g1, final);
    var regs1: Regs;
    k, regs1 := OperandRuns(m, p, entry, g, v, Seen(v, cells), s);
    s1 := s.(pc := |g1.code|, regs := regs1);
    HoldsUnchanged(g, g1, final, cells, s.regs, regs1);
  }

  lemma SeenAlike(v: Value, cells: Cells)
    ensures var w := Den(Alias, v, cells);
            (Truthy(Seen(v, cells)) <==> Truthy(w)) && (Seen(v, cells).Text? || w.Text? ==> Seen(v, cells) == w)
  {
    if v.K? { DeliveredAlike(v.c); }
  }

  lemma OneMore(m: Machine, p: Program, s: VmState, k: nat, s1: VmState)
    requires VmRun(m, p, s, k) == s1
    ensures VmRun(m, p, s, k + 1) == VmStep(m, p, s1)
  {
    VmRunAdd(m, p, s, k, 1);
    Step1(m, p, s1);
  }

  lemma CondBrRuns(m: Machine, p: Program, entry: nat -> nat, g: Tg, n: nat, b: nat, i: Instr, final: Tg, cells: Cells,
        s: VmState) returns (k: nat)
    requires i.CondBr? && Turn(p, entry, g, i, Visit(g, n, b, i), final, cells, s)
    requires b + 1 < n ==> entry(b + 1) == |Visit(g, n, b, i).code|
    ensures Jumps(m, entry, i, cells, s, VmRun(m, p, s, k), final.vars) && k > 0
  {
    hide Good, Extends, Holds, Placed, VmRun, GetReg, Seen, Den;
    assert i.v in Operands(i);
    var g' := Visit(g, n, b, i);
    ExtendsTrans(g, g', final);
    var (g1, r) := GetReg(g, i.v);
    var s1: VmState;
    var first := if Next(n, b, i.t) then Jz(r, i.e) else Jn(r, i.t);
    if !Next(n, b, i.t) && !Next(n, b, i.e) {
      ExtendsPut(Put(g1, first), Jmp(i.e), final);
    }
    ExtendsPut(g1, first, final);
    k, s1 := ConditionRuns(m, p, entry, g, i.v, final, cells, s);
    SeenAlike(i.v, cells);
    PlacedPut(p, entry, g1, first, final);
    OneMore(m, p, s, k, s1);
    k := k + 1;
    if !Next(n, b, i.t) && !Next(n, b, i.e) && !Truthy(Den(Alias, i.v, cells)) {
      PlacedPut(p, entry, Put(g1, first), Jmp(i.e), final);
      OneMore(m, p, s, k, VmStep(m, p, s1));
      k := k + 1;
    }
  }

  lemma MatchRuns(m: Machine, p: Program, entry: nat -> nat, g: Tg, n: nat, b: nat, i: Instr, final: Tg, cells: Cells,
        s: VmState) returns (k: nat)
    requires i.Match? && |i.targets| == |i.labels| && Turn(p, entry, g, i, Visit(g, n, b, i), final, cells, s)
    requires i.mc in {Head, Tail} ==> forall j | 0 <= j < |i.targets| :: entry(i.targets[j]) != 0
    requires |g.defs| < |p.defs| && p.defs[|g.defs|] == ResolveDef(entry, Def(i.mc, i.labels, i.targets, i.other))
    ensures Jumps(m, entry, i, cells, s, VmRun(m, p, s, k), final.vars) && k > 0
  {
    hide Good, Extends, Holds, Placed, VmRun, GetReg, Evaluate, Seen, Den;
    assert i.v in Operands(i);
    ExtendsTrans(g, Visit(g, n, b, i), final);
    var d := Def(i.mc, i.labels, i.targets, i.other);
    var g0 := g.(defs := g.defs + [d]);
    DefKeeps(g, d);
    var (g1, r) := GetReg(g0, i.v);
    var c := SMatch(r, |g.defs|);
    ExtendsPut(g1, c, final);
    GetRegKnown(g0, i.v);
    ExtendsTrans(g0, g1, final);
    var s1: VmState;
    k, s1 := ConditionRuns(m, p, entry, g0, i.v, final, cells, s);
    SeenAlike(i.v, cells);
    PlacedPut(p, entry, g1, c, final);
    OneMore(m, p, s, k, s1);
    k := k + 1;
    var w := Den(Alias, i.v, cells);
    if w.Text? {
      EvaluateSelects(m, ResolveDef(entry, d), w.s);
    }
  }

  /** Terminators. Only a branch to the block behind takes no machine steps. */
  lemma TerminatorRuns(m: Machine, p: Program, entry: nat -> nat, g: Tg, n: nat, b: nat, i: Instr, final: Tg,
        cells: Cells, s: VmState) returns (k: nat)
    requires IsTerminator(i) && TargetsBelow(n, i) && Turn(p, entry, g, i, Visit(g, n, b, i), final, cells, s)
    requires b + 1 < n ==> entry(b + 1) == |Visit(g, n, b, i).code|
    requires i.Match? && i.mc in {Head, Tail} ==> forall j | 0 <= j < |i.targets| :: entry(i.targets[j]) != 0
    requires i.Match? ==>
               && |g.defs| < |p.defs|
               && p.defs[|g.defs|] == ResolveDef(entry, Def(i.mc, i.labels, i.targets, i.other))
    ensures Jumps(m, entry, i, cells, s, VmRun(m, p, s, k), final.vars)
    ensures k == 0 ==> i.Br? && i.t == b + 1
  {
    hide Good, Extends, Holds, Placed, VmRun, GetReg;
    Run0(m, p, s);
    match i
    case Br(t) =>
      k := 0;
      if !Next(n, b, t) {
        PlacedPut(p, entry, g, Jmp(t), final);
        OneMore(m, p, s, 0, s);
        k := 1;
      }
    case CondBr(_, _, _) => k := CondBrRuns(m, p, entry, g, n, b, i, final, cells, s);
    case Match(_, _, _, _, _) => k := MatchRuns(m, p, entry, g, n, b, i, final, cells, s);
    case Ret(result) =>
      PlacedPut(p, entry, g, Exit(result), final);
      OneMore(m, p, s, 0, s);
      k := 1;
  }

  // ---------------------------------------------------------------- one step of the blocks

  /** The generator can translate G correctly from g0. */
  ghost predicate Translatable(g0: Tg, G: Cfg) {
    Start(g0) && WellFormed(G) && Ordered(G) && Safe(g0, G)
  }

  /** Machine state for a state of the blocks: address of the next instruction, cells in registers. */
  ghost predicate Related(g0: Tg, G: Cfg, s: State, t: VmState) {
    match s
    case At(b, i, cells, tr) =>
      b < |G| && i < |G[b]| && t.Running? && t.pc == |Before(g0, G, b, i).code| && t.tr == tr
          && Holds(Final(g0, G).vars, cells, t.regs)
    case Halted(result, tr) => t == Stopped(result, tr)
  }

  lemma ResolvePlaced(g0: Tg, G: Cfg)
    ensures Placed(Resolve(g0, G), EntryOf(g0, G), Final(g0, G))
  {
  }

  lemma TurnOf(g0: Tg, G: Cfg, s: State, t: VmState)
    requires Translatable(g0, G) && s.At? && Related(g0, G, s, t)
    ensures Turn(Resolve(g0, G), EntryOf(g0, G), Before(g0, G, s.b, s.i), G[s.b][s.i], Before(g0, G, s.b, s.i + 1),
            Final(g0, G), s.cells, t)
    ensures WellFormedBlock(|G|, G[s.b]) && SafeMatch(g0, G, G[s.b][s.i])
  {
    hide Good, Extends, Holds, Placed, Ordered, Before, Visit, SafeInstr, Resolve, WellFormedBlock, VisitKeeps;
    InstrReady(g0, G, s.b, s.i);
    BeforeExtends(g0, G, s.b, s.i + 1, |G|, 0);
    ResolvePlaced(g0, G);
  }

  lemma EffectIsStep(m: Machine, G: Cfg, s: State)
    requires s.At? && s.b < |G| && s.i < |G[s.b]|
    ensures var e := Effect(m, G[s.b][s.i], s.cells, s.tr);
            Step(m, Alias, G, s) == if e.At? && !IsTerminator(G[s.b][s.i]) then e.(b := s.b, i := s.i + 1) else e
  {
  }

  /** One step of the blocks is simulated by k steps of the machine; k is 0 only if the blocks
      moved forward in the layout. */
  lemma StepSimulated(m: Machine, g0: Tg, G: Cfg, s: State, t: VmState) returns (k: nat)
    requires Lawful(m) && Translatable(g0, G) && s.At? && Related(g0, G, s, t)
    ensures var s' := Step(m, Alias, G, s);
            && Related(g0, G, s', VmRun(m, Resolve(g0, G), t, k))
            && (k == 0 ==> s'.At? && Earlier(s.b, s.i, s'.b, s'.i))
  {
    hide Good, Extends, Holds, Placed, Ordered, Visit, Resolve, Turn, VmRun, Lawful, Step, Safe, EntryOf;
    var b, i := s.b, s.i;
    var g, final, p, entry := Before(g0, G, b, i), Final(g0, G), Resolve(g0, G), EntryOf(g0, G);
    TurnOf(g0, G, s, t);
    EffectIsStep(m, G, s);
    Run0(m, p, t);
    if IsTerminator(G[b][i]) {
      EntriesOf(g0, G, b, i);
      k := TerminatorRuns(m, p, entry, g, |G|, b, G[b][i], final, s.cells, t);
      EffectTargets(m, |G|, G[b][i], s.cells, s.tr);
      var e := Effect(m, G[b][i], s.cells, s.tr);
      if e.At? {
        assert WellFormedBlock(|G|, G[e.b]);
        EntryIs(g0, G, e.b);
      }
    } else {
      k := StraightRuns(m, p, entry, g, |G|, b, G[b][i], final, s.cells, t);
    }
  }

  lemma EntryIs(g0: Tg, G: Cfg, b: nat)
    requires b < |G|
    ensures EntryOf(g0, G)(b) == |Before(g0, G, b, 0).code|
  {
  }

  lemma EffectTargets(m: Machine, n: nat, i: Instr, cells: Cells, tr: Trace)
    requires IsTerminator(i) && TargetsBelow(n, i)
    ensures var e := Effect(m, i, cells, tr); e.At? ==> e.b < n && e.i == 0 && (i.Br? ==> e.b == i.t)
  {
  }

  /** Addresses and table entries a terminator of G relies on. */
  lemma EntriesOf(g0: Tg, G: Cfg, b: nat, i: nat)
    requires Translatable(g0, G) && b < |G| && i < |G[b]| && IsTerminator(G[b][i])
    ensures i == |G[b]| - 1 && TargetsBelow(|G|, G[b][i])
    ensures var g := Before(g0, G, b, i); var entry := EntryOf(g0, G); var p := Resolve(g0, G); var x := G[b][i];
            && (b + 1 < |G| ==> entry(b + 1) == |Visit(g, |G|, b, x).code|)
            && (x.Match? && x.mc in {Head, Tail} ==> forall j | 0 <= j < |x.targets| :: entry(x.targets[j]) != 0)
            && (x.Match? ==>
                  && |g.defs| < |p.defs|
                  && p.defs[|g.defs|] == ResolveDef(entry, Def(x.mc, x.labels, x.targets, x.other)))
  {
    hide Good, Ordered;
    assert WellFormedBlock(|G|, G[b]);
    var g, x := Before(g0, G, b, i), G[b][i];
    assert Before(g0, G, b, i + 1) == Visit(g, |G|, b, x);
    if x.Match? {
      InstrReady(g0, G, b, i);
      BeforeExtends(g0, G, b, i + 1, |G|, 0);
      BeforeExtends(g0, G, 0, 0, b, i);
      MatchDefs(g, |G|, b, x);
      assert Final(g0, G).defs[|g.defs|] == Def(x.mc, x.labels, x.targets, x.other);
      assert SafeMatch(g0, G, x);
    }
  }

  lemma MatchDefs(g: Tg, n: nat, b: nat, i: Instr)
    requires i.Match?
    ensures Visit(g, n, b, i).defs == g.defs + [Def(i.mc, i.labels, i.targets, i.other)]
  {
  }

  // ---------------------------------------------------------------- whole runs

  lemma {:induction false} RunSimulated(m: Machine, g0: Tg, G: Cfg, s: State, t: VmState, n: nat) returns (k: nat)
    requires Lawful(m) && Translatable(g0, G) && Related(g0, G, s, t)
    ensures Related(g0, G, Run(m, Alias, G, s, n), VmRun(m, Resolve(g0, G), t, k))
    decreases n
  {
    hide Related, Step, VmStep, Resolve, Translatable, Lawful;
    if n == 0 {
      k := 0;
    } else if s.Halted? {
      HaltedStays(m, Alias, G, s, n);
      k := 0;
    } else {
      var p := Resolve(g0, G);
      var k1 := StepSimulated(m, g0, G, s, t);
      var k2 := RunSimulated(m, g0, G, Step(m, Alias, G, s), VmRun(m, p, t, k1), n - 1);
      VmRunAdd(m, p, t, k1, k2);
      k := k1 + k2;
    }
  }

  /** If the machine stops after n steps, so do the blocks: steps without machine code go
      forward in the layout, so there are only finitely many of them in a row. */
  lemma {:induction false} StopReflected(m: Machine, g0: Tg, G: Cfg, s: State, t: VmState, n: nat) returns (s': State)
    requires Lawful(m) && Translatable(g0, G) && Related(g0, G, s, t)
    requires VmRun(m, Resolve(g0, G), t, n).Stopped?
    ensures Reaches(m, Alias, G, s, s') && s'.Halted? && Related(g0, G, s', VmRun(m, Resolve(g0, G), t, n))
    decreases n, if s.At? then |G| - s.b else 0, if s.At? && s.b < |G| then |G[s.b]| - s.i else 0
  {
    hide Step, VmStep, Resolve, Translatable, Lawful, VmRun, Holds, Reaches;
    var p := Resolve(g0, G);
    if s.Halted? {
      s' := s;
      ReachesRefl(m, Alias, G, s);
      StoppedStays(m, p, t, n);
    } else {
      var k := StepSimulated(m, g0, G, s, t);
      var s1 := Step(m, Alias, G, s);
      var t1 := VmRun(m, p, t, k);
      Run0(m, p, t);
      if n < k {
        VmRunAdd(m, p, t, n, k - n);
        StoppedStays(m, p, VmRun(m, p, t, n), k - n);
        s' := s1;
        ReachesRefl(m, Alias, G, s);
        ReachesStep(m, Alias, G, s, s);
      } else {
        VmRunAdd(m, p, t, k, n - k);
        s' := StopReflected(m, g0, G, s1, t1, n - k);
        ReachesRefl(m, Alias, G, s);
        ReachesStep(m, Alias, G, s, s);
        ReachesTrans(m, Alias, G, s, s1, s');
      }
    }
  }

  /** The generated program and the blocks stop together: started at address 0 with empty
      registers, the program stops with a result and a trace exactly if the blocks, started at
      block 0, do. */
  lemma CodeSimulatesBlocks(m: Machine, g0: Tg, G: Cfg, tr: Trace, result: bool, tr': Trace)
    requires Lawful(m) && Translatable(g0, G)
    ensures Reaches(m, Alias, G, At(0, 0, map[], tr), Halted(result, tr'))
       <==> VmReaches(m, Resolve(g0, G), Running(0, map[], tr), Stopped(result, tr'))
  {
    hide Translatable, Resolve, Step, VmStep, Lawful;
    var s, t, p := At(0, 0, map[], tr), Running(0, map[], tr), Resolve(g0, G);
    InitialRelated(g0, G, tr);
    if Reaches(m, Alias, G, s, Halted(result, tr')) {
      var n: nat :| Run(m, Alias, G, s, n) == Halted(result, tr');
      var k := RunSimulated(m, g0, G, s, t, n);
      assert VmRun(m, p, t, k) == Stopped(result, tr');
    }
    if VmReaches(m, p, t, Stopped(result, tr')) {
      var n: nat :| VmRun(m, p, t, n) == Stopped(result, tr');
      var s' := StopReflected(m, g0, G, s, t, n);
    }
  }

  lemma InitialRelated(g0: Tg, G: Cfg, tr: Trace)
    requires Translatable(g0, G)
    ensures Related(g0, G, At(0, 0, map[], tr), Running(0, map[], tr))
  {
    assert WellFormedBlock(|G|, G[0]);
  }
}
