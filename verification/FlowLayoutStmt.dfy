/**
  Lowering statements and handlers keeps the builder's invariant, so that an exported handler
  becomes code the back end translates correctly.
 */
module FlowLayoutStmt {
  import opened FlowCore
  import opened FlowAst
  import opened FlowIr
  import opened FlowLowering
  import opened FlowShape
  import opened FlowRegisters
  import opened FlowTargetProof
  import opened FlowLayout
  import opened FlowLayoutExpr
  import E = FlowExprProof
  import S = FlowStmtProof

  predicate CompilableStmt(m: Machine, s: Stmt) {
    match s
    case Expression(e) => CompilableExpr(m, e)
    case Assign(_, e) => CompilableExpr(m, e) && SafeC(E.ConstOf(m, e))
    case Compound(ss) => forall t | t in ss :: CompilableStmt(m, t)
    case Cond(c, thn, els) => CompilableExpr(m, c) && CompilableStmt(m, thn) && CompilableStmt(m, els)
    case Switch(_, c, cases, other) =>
      && CompilableExpr(m, c)
      && (forall one | one in cases :: CompilableStmt(m, one.body))
      && (other.Some? ==> CompilableStmt(m, other.value))
    case Invoke(_, args) => forall a | a in args :: CompilableExpr(m, a) && SafeC(E.ConstOf(m, a))
    case Inline(_) => true
  }

  predicate CompilableUnit(m: Machine, u: Unit) {
    forall h | h in u ::
      && (forall l | l in u[h].locals :: CompilableExpr(m, l.init) && SafeC(E.ConstOf(m, l.init)))
      && (u[h].body.Some? ==> CompilableStmt(m, u[h].body.value))
  }

  ghost predicate Owned(stack: seq<string>, vars: set<Var>) {
    forall x | x in vars :: x.owner in stack
  }

  /** The variables at hand in g are at hand in r, which grew from g. */
  lemma VarsAvailScope(stack: seq<string>, vars: set<Var>, g: Gen, r: Gen)
    requires Owned(stack, vars) && Grows(g, r) && SameScope(stack, g, r) && VarsAvail(g, vars)
    ensures VarsAvail(r, vars)
  {
    VarsAvailKept(g, r, vars);
  }

  lemma GoingStmt(stack: seq<string>, vars: set<Var>, g: Gen, r: Gen, open: set<nat>)
    requires Owned(stack, vars) && Grows(g, r) && SameScope(stack, g, r) && Going(g, open, vars)
             && Sound(r, Reopen(open, g, r))
    ensures Going(r, Reopen(open, g, r), vars)
  {
    VarsAvailScope(stack, vars, g, r);
  }

  /** Emitting a store or a builtin handler call after lowering from g to g1. */
  lemma EffectSound(g: Gen, g1: Gen, open: set<nat>, vars: set<Var>, x: Instr)
    requires Grows(g, g1) && Going(g1, Reopen(open, g, g1), vars) && !IsTerminator(x) && !x.Bin?
    requires forall v | v in Operands(x) :: Avail(g1, v) && SafeOperand(v)
    requires DefOf(x).Some? ==> IdOf(DefOf(x).value) == g1.next
    ensures DefOf(x).None? ==> Going(Emit(g1, x), Reopen(open, g, Emit(g1, x)), vars)
    ensures DefOf(x).Some? ==> Going(EmitNew(g1, x), Reopen(open, g, EmitNew(g1, x)), vars)
  {
    hide Sound, SafeInstr;
    SafeSimple(x);
    EmitSound(g1, Reopen(open, g, g1), x);
    GrowsEmit(g1, g1, x);
    VarsAvailKept(g1, EmitNew(g1, x), vars);
    VarsAvailKept(g1, Emit(g1, x), vars);
  }

  lemma {:induction false} StmtSound(m: Machine, u: Unit, stack: seq<string>, s: Stmt, g: Gen, open: set<nat>,
        vars: set<Var>)
    requires WellScoped(u) && CompilableUnit(m, u) && Owned(stack, vars)
    requires Going(g, open, vars) && CompilableStmt(m, s) && StmtOver(s, vars)
    ensures Going(Lower(m, u, stack, s, g), Reopen(open, g, Lower(m, u, stack, s, g)), vars)
    decreases u.Keys - Elems(stack), s, 2
  {
    hide Sound, VarsAvail, LowerExpr, WellScoped, CompilableUnit;
    GoingValid(g, open, vars);
    match s
    case Expression(e) => ExprSound(m, e, g, open, vars);
    case Assign(x, e) => AssignSound(m, x, e, g, open, vars);
    case Compound(ss) => AllSound(m, u, stack, ss, g, open, vars);
    case Cond(_, _, _) => CondSound(m, u, stack, s, g, open, vars);
    case Switch(_, _, _, _) => SwitchSound(m, u, stack, s, g, open, vars);
    case Invoke(f, args) =>
      ArgsSound(m, args, g, open, vars);
      LowerArgsGrows(m, args, g);
      ArgsSafe(m, args, g);
      var (g1, vs) := LowerArgs(m, args, g);
      EffectSound(g, g1, open, vars, CallHn(g1.next, f, vs));
    case Inline(h) => InlineSound(m, u, stack, h, g, open, vars);
  }

  lemma AssignSound(m: Machine, x: Var, e: Expr, g: Gen, open: set<nat>, vars: set<Var>)
    requires Going(g, open, vars) && CompilableExpr(m, e) && SafeC(E.ConstOf(m, e)) && ExprOver(e, vars) && x in vars
    ensures var (g1, v) := LowerExpr(m, e, g); var r := Emit(g1, Store(Lookup(g, x), v));
            Going(r, Reopen(open, g, r), vars)
  {
    hide Sound, LowerExpr;
    GoingValid(g, open, vars);
    ExprSound(m, e, g, open, vars);
    LowerExprGrows(m, e, g);
    E.ConstOfLowered(m, e, g);
    var (g1, v) := LowerExpr(m, e, g);
    EffectSound(g, g1, open, vars, Store(Lookup(g, x), v));
  }

  lemma {:induction false} AllSound(m: Machine, u: Unit, stack: seq<string>, ss: seq<Stmt>, g: Gen, open: set<nat>,
        vars: set<Var>)
    requires WellScoped(u) && CompilableUnit(m, u) && Owned(stack, vars)
    requires Going(g, open, vars) && forall t | t in ss :: CompilableStmt(m, t) && StmtOver(t, vars)
    ensures Going(LowerAll(m, u, stack, ss, g), Reopen(open, g, LowerAll(m, u, stack, ss, g)), vars)
    decreases u.Keys - Elems(stack), ss, 0
  {
    hide Sound, VarsAvail, Lower, WellScoped, CompilableUnit;
    GoingCur(g, open, vars);
    if ss == [] {
      ReopenSame(open, g);
    } else {
      StmtSound(m, u, stack, ss[0], g, open, vars);
      var g1 := Lower(m, u, stack, ss[0], g);
      GoingValid(g, open, vars);
      WellScopedOwns(u);
      LowerGrows(m, u, stack, ss[0], g);
      AllSound(m, u, stack, ss[1..], g1, Reopen(open, g, g1), vars);
      ReopenTwice(open, g, g1, LowerAll(m, u, stack, ss[1..], g1));
    }
  }

  // ---------------------------------------------------------------- handlers

  lemma LocalSound(m: Machine, l: Local, g: Gen, open: set<nat>, vars: set<Var>)
    requires Going(g, open, vars) && CompilableExpr(m, l.init) && SafeC(E.ConstOf(m, l.init)) && ExprOver(l.init, vars)
             && l.x !in vars
    ensures Going(S.LowerLocal(m, l, g), Reopen(open, g, S.LowerLocal(m, l, g)), vars + {l.x})
  {
    hide Sound, LowerExpr;
    GoingValid(g, open, vars);
    ExprSound(m, l.init, g, open, vars);
    LowerExprGrows(m, l.init, g);
    E.ConstOfLowered(m, l.init, g);
    var (g1, v) := LowerExpr(m, l.init, g);
    var open1, cell := Reopen(open, g, g1), g1.next;
    SafeSimple(Alloca(cell));
    EmitSound(g1, open1, Alloca(cell));
    GrowsEmit(g1, g1, Alloca(cell));
    var g2 := EmitNew(g1, Alloca(cell));
    AvailKept(g1, g2, v);
    VarsAvailKept(g1, g2, vars);
    var g3 := g2.(scope := g2.scope[l.x := cell]);
    SoundScope(g2, g3, open1);
    assert VarsAvail(g3, vars + {l.x});
    SafeSimple(Store(cell, v));
    EmitSound(g3, open1, Store(cell, v));
    GrowsEmit(g3, g3, Store(cell, v));
    VarsAvailKept(g3, Emit(g3, Store(cell, v)), vars + {l.x});
  }

  lemma SoundScope(g: Gen, r: Gen, open: set<nat>)
    requires Sound(g, open) && r.Valid() && r.blocks == g.blocks && r.next == g.next
    ensures Sound(r, open)
  {
  }

  lemma GoingFail(g: Gen, open: set<nat>, vars: set<Var>, p: Problem)
    requires Going(g, open, vars)
    ensures Going(Fail(g, p), open, vars)
  {
    SoundScope(g, Fail(g, p), open);
    forall x | x in vars ensures Avail(Fail(g, p), Cell(g.scope[x])) {
      assert Avail(g, Cell(g.scope[x]));
    }
  }

  lemma {:induction false} LocalsSound(m: Machine, h: string, locals: seq<Local>, declared: set<Var>, g: Gen,
        open: set<nat>, vars: set<Var>)
    requires Going(g, open, vars) && LocalsOver(h, locals, declared) && declared <= vars
    requires forall x | x in vars :: x in declared || x.owner != h
    requires forall l | l in locals :: CompilableExpr(m, l.init) && SafeC(E.ConstOf(m, l.init))
    ensures Going(LowerLocals(m, locals, g), Reopen(open, g, LowerLocals(m, locals, g)), vars + LocalVars(locals))
  {
    hide Sound, VarsAvail, LowerExpr, CompilableExpr, SafeC;
    GoingCur(g, open, vars);
    if locals == [] {
      ReopenSame(open, g);
      assert vars + LocalVars(locals) == vars;
    } else {
      var l := locals[0];
      S.OverMore(l.init, declared, vars);
      LocalSound(m, l, g, open, vars);
      GoingValid(g, open, vars);
      S.LowerLocalGrows(m, l, g);
      var g1 := S.LowerLocal(m, l, g);
      LocalsSound(m, h, locals[1..], declared + {l.x}, g1, Reopen(open, g, g1), vars + {l.x});
      S.LocalVarsCons(locals);
      assert vars + {l.x} + LocalVars(locals[1..]) == vars + LocalVars(locals);
      ReopenTwice(open, g, g1, LowerLocals(m, locals[1..], g1));
    }
  }

  lemma {:induction false} InlineSound(m: Machine, u: Unit, stack: seq<string>, h: string, g: Gen, open: set<nat>,
        vars: set<Var>)
    requires WellScoped(u) && CompilableUnit(m, u) && Owned(stack, vars) && Going(g, open, vars)
    ensures Going(LowerHandler(m, u, stack, h, g), Reopen(open, g, LowerHandler(m, u, stack, h, g)), vars)
    decreases u.Keys - Elems(stack), Inline(h), 0
  {
    hide Sound, Lower, LowerLocals, CompilableStmt, StmtOver, CompilableExpr, Avail;
    GoingValid(g, open, vars);
    GoingCur(g, open, vars);
    if h in stack || h !in u {
      ReopenSame(open, g);
      GoingFail(g, open, vars, if h in stack then Recursive(h) else Missing(h));
    } else {
      var locals := u[h].locals;
      LocalsSound(m, h, locals, {}, g, open, vars);
      LowerLocalsGrows(m, locals, g);
      var g1, all := LowerLocals(m, locals, g), vars + LocalVars(locals);
      var open1 := Reopen(open, g, g1);
      if u[h].body.None? {
        GoingFail(g1, open1, all, Missing(h));
      } else {
        ElemsPush(stack, h);
        var body := u[h].body.value;
        S.StmtOverMore(body, LocalVars(locals), all);
        WellScopedOwns(u);
        StmtSound(m, u, stack + [h], body, g1, open1, all);
        LowerGrows(m, u, stack + [h], body, g1);
        ReopenTwice(open, g, g1, Lower(m, u, stack + [h], body, g1));
      }
    }
  }

  // ---------------------------------------------------------------- conditionals

  /** A statement lowered from h, whose block then goes to t; next comes block `next`. */
  lemma {:induction false} ArmSound(m: Machine, u: Unit, stack: seq<string>, s: Stmt, h: Gen, open: set<nat>,
        vars: set<Var>, t: nat, next: nat)
    requires WellScoped(u) && CompilableUnit(m, u) && Owned(stack, vars)
    requires Going(h, open, vars) && CompilableStmt(m, s) && StmtOver(s, vars) && t < |h.blocks|
    requires next < |h.blocks| || next == Lower(m, u, stack, s, h).cur
    ensures Sound(BranchTo(Lower(m, u, stack, s, h), Br(t), next), open - {h.cur})
    decreases u.Keys - Elems(stack), s, 3
  {
    hide Sound, VarsAvail, Lower, WellScoped, CompilableUnit, CompilableStmt, StmtOver;
    GoingValid(h, open, vars);
    GoingCur(h, open, vars);
    WellScopedOwns(u);
    StmtSound(m, u, stack, s, h, open, vars);
    LowerGrows(m, u, stack, s, h);
    var r := Lower(m, u, stack, s, h);
    SafeSimple(Br(t));
    CloseSound(r, Reopen(open, h, r), Br(t));
    assert Reopen(open, h, r) - {r.cur} == open - {h.cur};
    MoveSound(Emit(r, Br(t)), open - {h.cur}, next);
  }

  lemma CondHeadSound(m: Machine, c: Expr, g: Gen, open: set<nat>, vars: set<Var>)
    requires Going(g, open, vars) && CompilableExpr(m, c) && ExprOver(c, vars)
    ensures Sound(CondHead(m, c, g), open - {g.cur} + NewIds(g, 3))
  {
    hide Sound, LowerExpr;
    GoingValid(g, open, vars);
    var n, g0, open0 := |g.blocks|, NewBlocks(g, 3), open + NewIds(g, 3);
    NewSound(g, open, 3);
    GrowsNew(g, g, 3);
    VarsAvailKept(g, g0, vars);
    ExprSound(m, c, g0, open0, vars);
    LowerExprGrows(m, c, g0);
    var (g1, v) := LowerExpr(m, c, g0);
    CloseSound(g1, Reopen(open0, g0, g1), CondBr(v, n, n + 1));
    assert Reopen(open0, g0, g1) - {g1.cur} == open - {g.cur} + NewIds(g, 3);
    MoveSound(Emit(g1, CondBr(v, n, n + 1)), open - {g.cur} + NewIds(g, 3), n);
  }

  lemma {:induction false} CondSound(m: Machine, u: Unit, stack: seq<string>, s: Stmt, g: Gen, open: set<nat>,
        vars: set<Var>)
    requires WellScoped(u) && CompilableUnit(m, u) && Owned(stack, vars) && s.Cond?
    requires Going(g, open, vars) && CompilableStmt(m, s) && StmtOver(s, vars)
    ensures Going(Lower(m, u, stack, s, g), Reopen(open, g, Lower(m, u, stack, s, g)), vars)
    decreases u.Keys - Elems(stack), s, 1
  {
    hide Sound, VarsAvail, LowerExpr, WellScoped, CompilableUnit, Grows, SameScope, CondHead;
    GoingValid(g, open, vars);
    GoingCur(g, open, vars);
    S.CondStages(m, u, stack, s, g);
    S.CondHeadEmpty(m, s.c, g);
    CondHeadSound(m, s.c, g, open, vars);
    var n := |g.blocks|;
    var h1 := CondHead(m, s.c, g);
    var h2 := BranchTo(Lower(m, u, stack, s.thn, h1), Br(n + 2), n + 1);
    var r := Lower(m, u, stack, s, g);
    var open1 := open - {g.cur} + NewIds(g, 3);
    WellScopedOwns(u);
    LowerGrows(m, u, stack, s, g);
    CondGoing(stack, vars, g, h1, h2, open);
    ArmSound(m, u, stack, s.thn, h1, open1, vars, n + 2, n + 1);
    assert open1 - {n} == open - {g.cur} + {n + 1, n + 2};
    ArmSound(m, u, stack, s.els, h2, open1 - {n}, vars, n + 2, n + 2);
    assert open1 - {n} - {n + 1} == Reopen(open, g, r);
    GoingStmt(stack, vars, g, r, open);
  }

  /** Variables and open blocks at the two arms. */
  lemma CondGoing(stack: seq<string>, vars: set<Var>, g: Gen, h1: Gen, h2: Gen, open: set<nat>)
    requires Owned(stack, vars) && Going(g, open, vars)
    requires Grows(g, h1) && h1.cur == |g.blocks| && h1.scope == g.scope && |g.blocks| + 3 <= |h1.blocks|
    requires Grows(g, h2) && h2.cur == |g.blocks| + 1 && SameScope(stack, h1, h2) && |g.blocks| + 3 <= |h2.blocks|
    requires Sound(h1, open - {g.cur} + NewIds(g, 3))
    ensures Going(h1, open - {g.cur} + NewIds(g, 3), vars)
    ensures Sound(h2, open - {g.cur} + NewIds(g, 3) - {|g.blocks|}) ==>
              Going(h2, open - {g.cur} + NewIds(g, 3) - {|g.blocks|}, vars)
  {
    hide Sound;
    VarsAvailScope(stack, vars, g, h1);
    VarsAvailScope(stack, vars, g, h2);
  }

  // ---------------------------------------------------------------- match

  /** A new block in front of the insert point, with the variables known in g. */
  lemma CaseStartSound(stack: seq<string>, vars: set<Var>, g: Gen, g1: Gen, open: set<nat>)
    requires Owned(stack, vars) && VarsAvail'(g, vars) && Grows(g, g1) && SameScope(stack, g, g1)
    requires Sound(g1, open) && forall b | b in open :: b < |g1.blocks|
    ensures Going(S.CaseStart(g1), open + {|g1.blocks|}, vars) && Grows(g, S.CaseStart(g1))
  {
    hide Sound;
    NewSound(g1, open, 1);
    assert open + NewIds(g1, 1) == open + {|g1.blocks|};
    MoveSound(NewBlocks(g1, 1), open + {|g1.blocks|}, |g1.blocks|);
    GrowsNew(g, g1, 1);
    GrowsMove(g, NewBlocks(g1, 1), |g1.blocks|);
    VarsAvailScope(stack, vars, g, S.CaseStart(g1));
  }

  ghost predicate VarsAvail'(g: Gen, vars: set<Var>) {
    g.Valid() && VarsAvail(g, vars)
  }

  /** A case lowered from g1: nothing is left open that was not before. */
  lemma {:induction false} CaseSound(m: Machine, u: Unit, stack: seq<string>, one: Case, cont: nat, o: nat, k: nat,
        g: Gen, g1: Gen, open: set<nat>, vars: set<Var>)
    requires WellScoped(u) && CompilableUnit(m, u) && Owned(stack, vars) && CompilableStmt(m, one.body)
             && StmtOver(one.body, vars)
    requires VarsAvail'(g, vars) && Grows(g, g1) && SameScope(stack, g, g1) && S.HasMatch(g1, o, k)
    requires Sound(g1, open) && (forall b | b in open :: b < |g1.blocks|) && cont < |g1.blocks|
    ensures Sound(S.CaseBody(m, u, stack, one, cont, g1), open)
    ensures Sound(S.LowerCase(m, u, stack, one, cont, o, k, g1), open)
    decreases u.Keys - Elems(stack), one, 0
  {
    hide Sound, VarsAvail, Lower, WellScoped, CompilableUnit, CompilableStmt, StmtOver, SafeInstr;
    var h, n := S.CaseStart(g1), |g1.blocks|;
    CaseStartSound(stack, vars, g, g1, open);
    var body := S.CaseBody(m, u, stack, one, cont, g1);
    ArmSound(m, u, stack, one.body, h, open + {n}, vars, cont, body.cur);
    assert (open + {n}) - {n} == open;
    assert BranchTo(Lower(m, u, stack, one.body, h), Br(cont), body.cur) == body;
    S.CaseBodyGrows(m, u, stack, one, cont, g1);
    AddCasesSound(body, open, o, k, one.labels, n);
  }

  lemma AddCasesSound(g: Gen, open: set<nat>, o: nat, k: nat, labels: seq<Label>, b: nat)
    requires Sound(g, open) && S.HasMatch(g, o, k) && o < b < |g.blocks|
    ensures Sound(AddCases(g, o, k, labels, b), open)
  {
    hide Unique, DefsBelow;
    var i := g.blocks[o][k];
    assert BlockOk(g.blocks, open, o) && InstrOk(g.blocks, o, k);
    PatchSound(g, open, o, k, i.(labels := i.labels + labels, targets := i.targets + seq(|labels|, _ => b)));
  }

  lemma SetElseSound(g: Gen, open: set<nat>, o: nat, k: nat, b: nat)
    requires Sound(g, open) && S.HasMatch(g, o, k) && b < |g.blocks|
    ensures Sound(SetElse(g, o, k, b), open)
  {
    hide Unique, DefsBelow;
    var i := g.blocks[o][k];
    assert BlockOk(g.blocks, open, o) && InstrOk(g.blocks, o, k);
    PatchSound(g, open, o, k, i.(other := b));
  }

  lemma {:induction false} CasesSound(m: Machine, u: Unit, stack: seq<string>, cases: seq<Case>, cont: nat, o: nat,
        k: nat, g: Gen, g1: Gen, open: set<nat>, vars: set<Var>)
    requires WellScoped(u) && CompilableUnit(m, u) && Owned(stack, vars)
    requires forall one | one in cases :: CompilableStmt(m, one.body) && StmtOver(one.body, vars)
    requires VarsAvail'(g, vars) && Grows(g, g1) && SameScope(stack, g, g1) && S.HasMatch(g1, o, k)
    requires (o == g.cur || |g.blocks| <= o) && (o == g.cur ==> |g.blocks[o]| <= k)
    requires Sound(g1, open) && (forall b | b in open :: b < |g1.blocks|) && cont < |g1.blocks|
    ensures Sound(LowerCases(m, u, stack, cases, cont, o, k, g1), open)
    decreases u.Keys - Elems(stack), cases, 0
  {
    hide Sound, VarsAvail, Lower, LowerCases, S.LowerCase, WellScoped, CompilableUnit, CompilableStmt, StmtOver,
        SafeInstr;
    if cases == [] {
      assert LowerCases(m, u, stack, cases, cont, o, k, g1) == g1 by { CasesNil(m, u, stack, cont, o, k, g1); }
    } else {
      CaseSound(m, u, stack, cases[0], cont, o, k, g, g1, open, vars);
      S.LowerCasesCons(m, u, stack, cases, cont, o, k, g1);
      S.LowerCaseKeeps(m, u, stack, cases[0], cont, o, k, g1);
      var g2 := S.LowerCase(m, u, stack, cases[0], cont, o, k, g1);
      CaseGrows(m, u, stack, cases[0], cont, o, k, g, g1);
      CasesSound(m, u, stack, cases[1..], cont, o, k, g, g2, open, vars);
    }
  }

  lemma CasesNil(m: Machine, u: Unit, stack: seq<string>, cont: nat, o: nat, k: nat, g1: Gen)
    ensures LowerCases(m, u, stack, [], cont, o, k, g1) == g1
  {
  }

  lemma CaseGrows(m: Machine, u: Unit, stack: seq<string>, one: Case, cont: nat, o: nat, k: nat, g: Gen, g1: Gen)
    requires WellScoped(u) && Grows(g, g1)
    requires (o == g.cur || |g.blocks| <= o) && (o == g.cur ==> |g.blocks[o]| <= k)
    ensures Grows(g, S.LowerCase(m, u, stack, one, cont, o, k, g1))
  {
    WellScopedOwns(u);
    LowerCasesGrows(m, u, stack, [one], cont, o, k, g, g1);
    S.LowerCasesCons(m, u, stack, [one], cont, o, k, g1);
    CasesNil(m, u, stack, cont, o, k, S.LowerCase(m, u, stack, one, cont, o, k, g1));
  }

  lemma SwitchHeadSound(m: Machine, s: Stmt, g: Gen, open: set<nat>, vars: set<Var>)
    requires Going(g, open, vars) && s.Switch? && CompilableExpr(m, s.c) && ExprOver(s.c, vars)
    ensures var g1 := LowerExpr(m, s.c, g).0; var g2 := S.SwitchHead(m, s, g);
            Sound(g2, open - {g.cur} + {|g1.blocks|}) && Grows(g, g1) && Grows(g, g2) && |g2.blocks| == |g1.blocks| + 1
                && g2.scope == g.scope
  {
    hide Sound, LowerExpr;
    GoingValid(g, open, vars);
    ExprSound(m, s.c, g, open, vars);
    LowerExprGrows(m, s.c, g);
    var (g1, v) := LowerExpr(m, s.c, g);
    var open1, cont := Reopen(open, g, g1), |g1.blocks|;
    NewSound(g1, open1, 1);
    GrowsNew(g1, g1, 1);
    AvailKept(g1, NewBlocks(g1, 1), v);
    var x := Match(s.mc, v, [], [], cont);
    CloseSound(NewBlocks(g1, 1), open1 + NewIds(g1, 1), x);
    assert open1 + NewIds(g1, 1) - {g1.cur} == open - {g.cur} + {cont};
    GrowsNew(g, g1, 1);
    GrowsEmit(g, NewBlocks(g1, 1), x);
  }

  lemma {:induction false} SwitchSound(m: Machine, u: Unit, stack: seq<string>, s: Stmt, g: Gen, open: set<nat>,
        vars: set<Var>)
    requires WellScoped(u) && CompilableUnit(m, u) && Owned(stack, vars) && s.Switch?
    requires Going(g, open, vars) && CompilableStmt(m, s) && StmtOver(s, vars)
    ensures Going(Lower(m, u, stack, s, g), Reopen(open, g, Lower(m, u, stack, s, g)), vars)
    decreases u.Keys - Elems(stack), s, 1
  {
    hide Sound, Avail, Lower, LowerExpr, LowerCases, S.SwitchHead, S.SwitchLast, WellScoped, CompilableUnit, SameScope,
        Grows, S.OnlyMatch;
    GoingValid(g, open, vars);
    GoingCur(g, open, vars);
    S.SwitchParts(m, u, stack, s, g);
    S.SwitchHeadKeeps(m, s, g);
    SwitchHeadSound(m, s, g, open, vars);
    var (g1, v) := LowerExpr(m, s.c, g);
    var o, k, cont := g1.cur, |g1.blocks[g1.cur]|, |g1.blocks|;
    var g2, open2 := S.SwitchHead(m, s, g), open - {g.cur} + {cont};
    MatchPlace(g, g1);
    SameScopeRefl(stack, g, g2);
    WellScopedOwns(u);
    CasesSound(m, u, stack, s.cases, cont, o, k, g, g2, open2, vars);
    LowerCasesGrows(m, u, stack, s.cases, cont, o, k, g, g2);
    S.LowerCasesKeep(m, u, stack, s.cases, cont, o, k, g2);
    var g3 := LowerCases(m, u, stack, s.cases, cont, o, k, g2);
    var r := Lower(m, u, stack, s, g);
    OnlyMatchHas(g2, g3, o, k);
    SameScopeFrom(stack, g, g2, g3);
    LastSound(m, u, stack, s, cont, o, k, g, g3, open2, vars);
    LowerGrows(m, u, stack, s, g);
    S.SwitchLastKeeps(m, u, stack, s.other, cont, o, k, g3);
    GoingStmt(stack, vars, g, r, open);
  }

  lemma OnlyMatchHas(g: Gen, r: Gen, o: nat, k: nat)
    requires S.OnlyMatch(g, r, o, k)
    ensures S.HasMatch(r, o, k) && |g.blocks| <= |r.blocks|
  {
  }

  lemma SameScopeRefl(stack: seq<string>, g: Gen, r: Gen)
    requires r.scope == g.scope
    ensures SameScope(stack, g, r)
  {
  }

  lemma SameScopeFrom(stack: seq<string>, g: Gen, g2: Gen, g3: Gen)
    requires g2.scope == g.scope && SameScope(stack, g2, g3)
    ensures SameScope(stack, g, g3)
  {
  }

  lemma MatchPlace(g: Gen, g1: Gen)
    requires Grows(g, g1)
    ensures g1.cur == g.cur || |g.blocks| <= g1.cur
    ensures g1.cur == g.cur ==> |g.blocks[g.cur]| <= |g1.blocks[g1.cur]|
    ensures |g.blocks| <= |g1.blocks|
  {
  }

  lemma {:induction false} LastSound(m: Machine, u: Unit, stack: seq<string>, s: Stmt, cont: nat, o: nat, k: nat,
        g: Gen, g3: Gen, open: set<nat>, vars: set<Var>)
    requires WellScoped(u) && CompilableUnit(m, u) && Owned(stack, vars) && s.Switch?
    requires CompilableStmt(m, s) && StmtOver(s, vars)
    requires VarsAvail'(g, vars) && Grows(g, g3) && SameScope(stack, g, g3) && S.HasMatch(g3, o, k)
    requires Sound(g3, open) && (forall b | b in open :: b < |g3.blocks|) && cont < |g3.blocks|
    ensures Sound(S.SwitchLast(m, u, stack, s.other, cont, o, k, g3), open)
    decreases u.Keys - Elems(stack), s, 0
  {
    hide Sound, VarsAvail, Lower, WellScoped, CompilableUnit, SafeInstr;
    match s.other
    case Some(t) =>
      var one := Case([], t);
      OtherSound(m, u, stack, t, cont, o, k, g, g3, open, vars);
      S.CaseBodyGrows(m, u, stack, one, cont, g3);
      var body := S.CaseBody(m, u, stack, one, cont, g3);
      SetElseSound(body, open, o, k, |g3.blocks|);
      MoveSound(SetElse(body, o, k, |g3.blocks|), open, cont);
    case None =>
      SetElseSound(g3, open, o, k, cont);
      MoveSound(SetElse(g3, o, k, cont), open, cont);
  }

  /** The `else` part, a statement in a block of its own. */
  lemma {:induction false} OtherSound(m: Machine, u: Unit, stack: seq<string>, t: Stmt, cont: nat, o: nat, k: nat,
        g: Gen, g1: Gen, open: set<nat>, vars: set<Var>)
    requires WellScoped(u) && CompilableUnit(m, u) && Owned(stack, vars) && CompilableStmt(m, t) && StmtOver(t, vars)
    requires VarsAvail'(g, vars) && Grows(g, g1) && SameScope(stack, g, g1)
    requires Sound(g1, open) && (forall b | b in open :: b < |g1.blocks|) && cont < |g1.blocks|
    ensures Sound(S.CaseBody(m, u, stack, Case([], t), cont, g1), open)
    decreases u.Keys - Elems(stack), t, 4
  {
    hide Sound, VarsAvail, Lower, WellScoped, CompilableUnit, CompilableStmt, StmtOver, SafeInstr;
    var h, n := S.CaseStart(g1), |g1.blocks|;
    CaseStartSound(stack, vars, g, g1, open);
    var body := S.CaseBody(m, u, stack, Case([], t), cont, g1);
    S.CaseBodyGrows(m, u, stack, Case([], t), cont, g1);
    ArmSound(m, u, stack, t, h, open + {n}, vars, cont, body.cur);
    assert (open + {n}) - {n} == open;
    assert BranchTo(Lower(m, u, stack, t, h), Br(cont), body.cur) == body;
  }
}
