/**
  Lowered statements, inlined handlers included, do what the statements mean: same variables,
  same builtin calls in the same order, same decision to stop. Holds for both readings of loads.
 */
module FlowStmtProof {
  import opened Wrappers
  import opened FlowCore
  import opened FlowAst
  import opened FlowIr
  import opened FlowLowering
  import opened FlowShape
  import opened FlowExprProof

  predicate FaithfulStmt(m: Machine, s: Stmt) {
    match s
    case Expression(e) => FaithfulExpr(m, e)
    case Assign(_, e) => FaithfulExpr(m, e)
    case Compound(ss) => forall t | t in ss :: FaithfulStmt(m, t)
    case Cond(c, thn, els) => FaithfulExpr(m, c) && FaithfulStmt(m, thn) && FaithfulStmt(m, els)
    case Switch(_, c, cases, other) =>
      && FaithfulExpr(m, c)
      && (forall one | one in cases :: FaithfulStmt(m, one.body))
      && (other.Some? ==> FaithfulStmt(m, other.value))
    case Invoke(_, args) => forall a | a in args :: FaithfulExpr(m, a)
    case Inline(_) => true
  }

  /** No expression of the unit contains one of the two operators the builder gets wrong. */
  predicate FaithfulUnit(m: Machine, u: Unit) {
    forall h | h in u ::
      && (forall l | l in u[h].locals :: FaithfulExpr(m, l.init))
      && (u[h].body.Some? ==> FaithfulStmt(m, u[h].body.value))
  }

  /** `vars` are variables of handlers being expanded, each with a cell of its own. */
  ghost predicate Live(stack: seq<string>, vars: set<Var>, scope: map<Var, nat>) {
    && (forall x | x in vars :: x.owner in stack && x in scope)
    && (forall x, y | x in vars && y in vars && x != y :: scope[x] != scope[y])
  }

  lemma ScopeKept(stack: seq<string>, vars: set<Var>, g: Gen, r: Gen, cells: Cells, store: Store)
    requires Live(stack, vars, g.scope) && SameScope(stack, g, r)
    ensures Live(stack, vars, r.scope)
    ensures Agree(vars, g.scope, cells, store) ==> Agree(vars, r.scope, cells, store)
  {
  }

  /** The run from `start` ends as outcome o says: behind the lowered code, or stopped. */
  ghost predicate Ends(m: Machine, mode: Mode, G: Cfg, start: State, r: Gen, vars: set<Var>, o: Outcome, cells: Cells)
    requires r.Valid()
  {
    && !o.Stuck?
    && (o.Done? ==> Reaches(m, mode, G, start, Here(r, cells, o.tr)) && Agree(vars, r.scope, cells, o.store))
    && (o.Exited? ==> Reaches(m, mode, G, start, Halted(true, o.tr)))
  }

  /** The same, ending at the start of block b. */
  ghost predicate EndsAt(m: Machine, mode: Mode, G: Cfg, start: State, b: nat, scope: map<Var, nat>, vars: set<Var>,
        o: Outcome, cells: Cells)
  {
    && !o.Stuck?
    && (o.Done? ==> Reaches(m, mode, G, start, At(b, 0, cells, o.tr)) && Agree(vars, scope, cells, o.store))
    && (o.Exited? ==> Reaches(m, mode, G, start, Halted(true, o.tr)))
  }

  lemma EndsFrom(m: Machine, mode: Mode, G: Cfg, start: State, mid: State, r: Gen, vars: set<Var>, o: Outcome,
        cells: Cells)
    requires r.Valid() && Reaches(m, mode, G, start, mid) && Ends(m, mode, G, mid, r, vars, o, cells)
    ensures Ends(m, mode, G, start, r, vars, o, cells)
  {
    if o.Done? {
      ReachesTrans(m, mode, G, start, mid, Here(r, cells, o.tr));
    } else if o.Exited? {
      ReachesTrans(m, mode, G, start, mid, Halted(true, o.tr));
    }
  }

  // ---------------------------------------------------------------- statements

  ghost predicate Ready(m: Machine, u: Unit, stack: seq<string>, vars: set<Var>, g: Gen, cells: Cells, store: Store) {
    && Lawful(m) && WellScoped(u) && FaithfulUnit(m, u) && g.Valid()
    && Live(stack, vars, g.scope) && Agree(vars, g.scope, cells, store)
  }

  lemma {:induction false} StmtRuns(m: Machine, mode: Mode, G: Cfg, u: Unit, stack: seq<string>, s: Stmt,
        vars: set<Var>, g: Gen, cells: Cells, store: Store, tr: Trace) returns (cells': Cells)
    requires Ready(m, u, stack, vars, g, cells, store)
    requires FaithfulStmt(m, s) && StmtOver(s, vars)
    requires Covers(g, Lower(m, u, stack, s, g), G) && Lower(m, u, stack, s, g).errors == g.errors
    ensures Lower(m, u, stack, s, g).Valid()
    ensures Ends(m, mode, G, Here(g, cells, tr), Lower(m, u, stack, s, g), vars, Exec(m, u, stack, s, store, tr),
            cells')
    decreases u.Keys - Elems(stack), s, 2
  {
    WellScopedOwns(u);
    LowerGrows(m, u, stack, s, g);
    match s
    case Expression(e) =>
      cells' := ExprRuns(m, mode, G, e, vars, g, cells, store, tr);
      LowerExprGrows(m, e, g);
      AgreeSame(vars, g, cells, cells', store);
    case Assign(x, e) => cells' := AssignRuns(m, mode, G, stack, x, e, vars, g, cells, store, tr);
    case Compound(ss) => cells' := AllRun(m, mode, G, u, stack, ss, vars, g, cells, store, tr);
    case Cond(c, thn, els) => cells' := CondRuns(m, mode, G, u, stack, s, vars, g, cells, store, tr);
    case Switch(mc, c, cases, other) => cells' := SwitchRuns(m, mode, G, u, stack, s, vars, g, cells, store, tr);
    case Invoke(f, args) => cells' := InvokeRuns(m, mode, G, f, args, vars, g, cells, store, tr);
    case Inline(h) => cells' := InlineRuns(m, mode, G, u, stack, h, vars, g, cells, store, tr);
  }

  lemma AssignRuns(m: Machine, mode: Mode, G: Cfg, stack: seq<string>, x: Var, e: Expr, vars: set<Var>, g: Gen,
        cells: Cells, store: Store, tr: Trace) returns (cells': Cells)
    requires Lawful(m) && g.Valid() && Live(stack, vars, g.scope) && Agree(vars, g.scope, cells, store)
    requires FaithfulExpr(m, e) && ExprOver(e, vars) && x in vars
    requires Covers(g, Emit(LowerExpr(m, e, g).0, Store(Lookup(g, x), LowerExpr(m, e, g).1)), G)
    ensures LowerExpr(m, e, g).0.Valid()
    ensures var (w, tr1) := Eval(m, e, store, tr);
            Ends(m, mode, G, Here(g, cells, tr), Emit(LowerExpr(m, e, g).0, Store(Lookup(g, x), LowerExpr(m, e, g).1)),
                 vars, Done(store[x := w], tr1), cells')
  {
    LowerExprGrows(m, e, g);
    var (g1, v) := LowerExpr(m, e, g);
    var i := Store(Lookup(g, x), v);
    GrowsEmit(g1, g1, i);
    GrowsPrefixes(g1, Emit(g1, i));
    CoversParts(g, g1, Emit(g1, i), G);
    var c1 := ExprRuns(m, mode, G, e, vars, g, cells, store, tr);
    var (w, tr1) := Eval(m, e, store, tr);
    AgreeSame(vars, g, cells, c1, store);
    StepHere(m, mode, G, g1, i, c1, tr1, Here(g, cells, tr));
    cells' := c1[Cell(Lookup(g, x)) := w];
  }

  lemma InvokeRuns(m: Machine, mode: Mode, G: Cfg, f: string, args: seq<Expr>, vars: set<Var>, g: Gen, cells: Cells,
        store: Store, tr: Trace) returns (cells': Cells)
    requires Lawful(m) && g.Valid() && Agree(vars, g.scope, cells, store)
    requires forall a | a in args :: FaithfulExpr(m, a) && ExprOver(a, vars)
    requires var (g1, vs) := LowerArgs(m, args, g); Covers(g, EmitNew(g1, CallHn(g1.next, f, vs)), G)
    ensures var (g1, vs) := LowerArgs(m, args, g);
            var r := EmitNew(g1, CallHn(g1.next, f, vs));
            var (ws, tr1) := EvalAll(m, args, store, tr);
            var tr2 := tr1 + [Event(f, ws)];
            r.Valid() && Ends(m, mode, G, Here(g, cells, tr), r, vars,
                              if m.handles(f, ws, tr1) then Exited(tr2) else Done(store, tr2), cells')
  {
    LowerArgsGrows(m, args, g);
    var (g1, vs) := LowerArgs(m, args, g);
    var i := CallHn(g1.next, f, vs);
    GrowsEmit(g1, g1, i);
    GrowsPrefixes(g1, EmitNew(g1, i));
    CoversParts(g, g1, EmitNew(g1, i), G);
    var c1 := ArgsRun(m, mode, G, args, vars, g, cells, store, tr);
    var (ws, tr1) := EvalAll(m, args, store, tr);
    AgreeSame(vars, g, cells, c1, store);
    StepHere(m, mode, G, g1, i, c1, tr1, Here(g, cells, tr));
    cells' := c1[Temp(g1.next) := Num(0)];
  }

  lemma {:induction false} AllRun(m: Machine, mode: Mode, G: Cfg, u: Unit, stack: seq<string>, ss: seq<Stmt>,
        vars: set<Var>, g: Gen, cells: Cells, store: Store, tr: Trace) returns (cells': Cells)
    requires Ready(m, u, stack, vars, g, cells, store)
    requires forall t | t in ss :: FaithfulStmt(m, t) && StmtOver(t, vars)
    requires Covers(g, LowerAll(m, u, stack, ss, g), G) && LowerAll(m, u, stack, ss, g).errors == g.errors
    ensures LowerAll(m, u, stack, ss, g).Valid()
    ensures Ends(m, mode, G, Here(g, cells, tr), LowerAll(m, u, stack, ss, g), vars,
            ExecAll(m, u, stack, ss, store, tr), cells')
    decreases u.Keys - Elems(stack), ss, 0
  {
    WellScopedOwns(u);
    LowerAllGrows(m, u, stack, ss, g);
    cells' := cells;
    if ss == [] {
      ReachesRefl(m, mode, G, Here(g, cells, tr));
    } else {
      LowerGrows(m, u, stack, ss[0], g);
      var g1 := Lower(m, u, stack, ss[0], g);
      LowerAllGrows(m, u, stack, ss[1..], g1);
      var r := LowerAll(m, u, stack, ss[1..], g1);
      GrowsPrefixes(g1, r);
      CoversParts(g, g1, r, G);
      cells' := StmtRuns(m, mode, G, u, stack, ss[0], vars, g, cells, store, tr);
      var o := Exec(m, u, stack, ss[0], store, tr);
      if o.Done? {
        ScopeKept(stack, vars, g, g1, cells', o.store);
        var mid := Here(g1, cells', o.tr);
        cells' := AllRun(m, mode, G, u, stack, ss[1..], vars, g1, cells', o.store, o.tr);
        EndsFrom(m, mode, G, Here(g, cells, tr), mid, r, vars, ExecAll(m, u, stack, ss[1..], o.store, o.tr), cells');
      }
    }
  }

  // ---------------------------------------------------------------- inlined handlers

  lemma {:induction false} OverMore(e: Expr, vars: set<Var>, more: set<Var>)
    requires ExprOver(e, vars) && vars <= more
    ensures ExprOver(e, more)
  {
    match e
    case Unary(_, a) => OverMore(a, vars, more);
    case Binary(_, l, r) => OverMore(l, vars, more); OverMore(r, vars, more);
    case Call(_, args) => forall a | a in args { OverMore(a, vars, more); }
    case _ =>
  }

  lemma {:induction false} StmtOverMore(s: Stmt, vars: set<Var>, more: set<Var>)
    requires StmtOver(s, vars) && vars <= more
    ensures StmtOver(s, more)
  {
    match s
    case Expression(e) => OverMore(e, vars, more);
    case Assign(_, e) => OverMore(e, vars, more);
    case Compound(ss) => forall t | t in ss { StmtOverMore(t, vars, more); }
    case Cond(c, thn, els) => OverMore(c, vars, more); StmtOverMore(thn, vars, more); StmtOverMore(els, vars, more);
    case Switch(_, c, cases, other) =>
      OverMore(c, vars, more);
      forall one | one in cases ensures StmtOver(one.body, more) { StmtOverMore(one.body, vars, more); }
      if other.Some? { StmtOverMore(other.value, vars, more); }
    case Invoke(_, args) => forall a | a in args { OverMore(a, vars, more); }
    case Inline(_) =>
  }

  /** One local: evaluate, allocate, store. */
  function LowerLocal(m: Machine, l: Local, g: Gen): Gen {
    var (g1, v) := LowerExpr(m, l.init, g);
    var g2 := EmitNew(g1, Alloca(g1.next));
    Emit(g2.(scope := g2.scope[l.x := g1.next]), Store(g1.next, v))
  }

  lemma LowerLocalGrows(m: Machine, l: Local, g: Gen)
    requires g.Valid()
    ensures Grows(g, LowerLocal(m, l, g))
  {
    LowerExprGrows(m, l.init, g);
    var (g1, v) := LowerExpr(m, l.init, g);
    GrowsEmit(g, g1, Alloca(g1.next));
    var g2 := EmitNew(g1, Alloca(g1.next));
    var g3 := g2.(scope := g2.scope[l.x := g1.next]);
    assert Grows(g, g3);
    GrowsEmit(g, g3, Store(g1.next, v));
  }

  lemma LocalRuns(m: Machine, mode: Mode, G: Cfg, l: Local, vars: set<Var>, g: Gen, cells: Cells, store: Store,
        tr: Trace) returns (cells': Cells)
    requires Lawful(m) && g.Valid() && FaithfulExpr(m, l.init) && ExprOver(l.init, vars) && l.x !in vars
    requires Agree(vars, g.scope, cells, store)
    requires Covers(g, LowerLocal(m, l, g), G)
    ensures var (w, tr1) := Eval(m, l.init, store, tr);
            var r := LowerLocal(m, l, g);
            && r.Valid() && Reaches(m, mode, G, Here(g, cells, tr), Here(r, cells', tr1))
            && Agree(vars + {l.x}, r.scope, cells', store[l.x := w])
  {
    LocalCovers(m, l, g, G);
    LowerLocalGrows(m, l, g);
    LowerExprGrows(m, l.init, g);
    var (g1, v) := LowerExpr(m, l.init, g);
    var g2 := EmitNew(g1, Alloca(g1.next));
    var g3 := g2.(scope := g2.scope[l.x := g1.next]);
    var c1 := ExprRuns(m, mode, G, l.init, vars, g, cells, store, tr);
    var (w, tr1) := Eval(m, l.init, store, tr);
    StepHere(m, mode, G, g1, Alloca(g1.next), c1, tr1, Here(g, cells, tr));
    StepHere(m, mode, G, g3, Store(g1.next, v), c1, tr1, Here(g, cells, tr));
    cells' := c1[Cell(g1.next) := w];
    AgreeLocal(vars, l.x, w, g, g1.next, cells, c1, store);
  }

  lemma LocalCovers(m: Machine, l: Local, g: Gen, G: Cfg)
    requires g.Valid() && Covers(g, LowerLocal(m, l, g), G)
    ensures var (g1, v) := LowerExpr(m, l.init, g);
            var g2 := EmitNew(g1, Alloca(g1.next));
            && Covers(g, g1, G) && g1.Valid() && |g1.blocks| <= |G| && g2.blocks[g1.cur] <= G[g1.cur]
            && Emit(g2, Store(g1.next, v)).blocks[g1.cur] <= G[g1.cur]
  {
    LowerExprGrows(m, l.init, g);
    var (g1, v) := LowerExpr(m, l.init, g);
    var g2 := EmitNew(g1, Alloca(g1.next));
    var r := LowerLocal(m, l, g);
    assert Prefixes(g1, g2) && Prefixes(g2, r);
    PrefixesTrans(g1, g2, r);
    CoversParts(g, g1, r, G);
    assert g2.blocks[g1.cur] <= r.blocks[g1.cur] <= G[g1.cur];
  }

  lemma AgreeLocal(vars: set<Var>, x: Var, w: Val, g: Gen, cell: nat, cells: Cells, c1: Cells, store: Store)
    requires g.Valid() && Agree(vars, g.scope, cells, store) && SameBelow(cells, c1, g.next) && g.next <= cell
             && x !in vars
    ensures Agree(vars + {x}, g.scope[x := cell], c1[Cell(cell) := w], store[x := w])
  {
    AgreeSame(vars, g, cells, c1, store);
  }

  /** The locals of h: `declared` of them are in place, `vars` also holds the callers' variables. */
  lemma {:induction false} LocalsRun(m: Machine, mode: Mode, G: Cfg, h: string, locals: seq<Local>, declared: set<Var>,
        stack: seq<string>, vars: set<Var>, g: Gen, cells: Cells, store: Store, tr: Trace) returns (cells': Cells)
    requires Lawful(m) && g.Valid() && h in stack && (forall l | l in locals :: FaithfulExpr(m, l.init))
    requires LocalsOver(h, locals, declared) && declared <= vars
    requires forall x | x in vars :: x in declared || x.owner != h
    requires Live(stack, vars, g.scope) && Agree(vars, g.scope, cells, store)
    requires Covers(g, LowerLocals(m, locals, g), G)
    ensures var r := LowerLocals(m, locals, g);
            var (store1, tr1) := InitLocals(m, locals, store, tr);
            && r.Valid() && Reaches(m, mode, G, Here(g, cells, tr), Here(r, cells', tr1))
            && Live(stack, vars + LocalVars(locals), r.scope)
            && Agree(vars + LocalVars(locals), r.scope, cells', store1)
  {
    hide Step, Run, Reaches, LowerExpr, Eval, Lawful, Grows, Covers;
    LowerLocalsGrows(m, locals, g);
    cells' := cells;
    if locals == [] {
      assert vars + LocalVars(locals) == vars;
      ReachesRefl(m, mode, G, Here(g, cells, tr));
    } else {
      var l := locals[0];
      var g1, r := LowerLocal(m, l, g), LowerLocals(m, locals, g);
      LocalsCovers(m, locals, g, G);
      OverMore(l.init, declared, vars);
      var c1 := LocalRuns(m, mode, G, l, vars, g, cells, store, tr);
      var (w, tr1) := Eval(m, l.init, store, tr);
      LiveLocal(m, stack, vars, l, g);
      cells' := LocalsRun(m, mode, G, h, locals[1..], declared + {l.x}, stack, vars + {l.x}, g1, c1, store[l.x := w],
          tr1);
      LocalVarsCons(locals);
      assert vars + {l.x} + LocalVars(locals[1..]) == vars + LocalVars(locals);
      ReachesTrans(m, mode, G, Here(g, cells, tr), Here(g1, c1, tr1),
          Here(r, cells', InitLocals(m, locals, store, tr).1));
    }
  }

  lemma LocalsCovers(m: Machine, locals: seq<Local>, g: Gen, G: Cfg)
    requires g.Valid() && locals != [] && Covers(g, LowerLocals(m, locals, g), G)
    ensures var g1 := LowerLocal(m, locals[0], g);
            && LowerLocals(m, locals, g) == LowerLocals(m, locals[1..], g1)
            && g1.Valid() && Covers(g, g1, G) && Covers(g1, LowerLocals(m, locals[1..], g1), G)
  {
    var g1 := LowerLocal(m, locals[0], g);
    LowerLocalGrows(m, locals[0], g);
    LowerLocalsGrows(m, locals[1..], g1);
    GrowsPrefixes(g1, LowerLocals(m, locals[1..], g1));
    CoversParts(g, g1, LowerLocals(m, locals[1..], g1), G);
  }

  lemma LiveLocal(m: Machine, stack: seq<string>, vars: set<Var>, l: Local, g: Gen)
    requires g.Valid() && Live(stack, vars, g.scope) && l.x.owner in stack && l.x !in vars
    ensures Live(stack, vars + {l.x}, LowerLocal(m, l, g).scope)
  {
    LowerExprGrows(m, l.init, g);
  }

  lemma LocalVarsCons(locals: seq<Local>)
    requires locals != []
    ensures LocalVars(locals) == {locals[0].x} + LocalVars(locals[1..])
  {
    assert locals == [locals[0]] + locals[1..];
  }

  lemma {:induction false} InlineRuns(m: Machine, mode: Mode, G: Cfg, u: Unit, stack: seq<string>, h: string,
        vars: set<Var>, g: Gen, cells: Cells, store: Store, tr: Trace) returns (cells': Cells)
    requires Ready(m, u, stack, vars, g, cells, store)
    requires Covers(g, LowerHandler(m, u, stack, h, g), G) && LowerHandler(m, u, stack, h, g).errors == g.errors
    ensures LowerHandler(m, u, stack, h, g).Valid()
    ensures Ends(m, mode, G, Here(g, cells, tr), LowerHandler(m, u, stack, h, g), vars,
            Exec(m, u, stack, Inline(h), store, tr), cells')
    ensures h in u && h !in stack && u[h].body.Some?
    ensures var o := ExecHandler(m, u, stack, h, store, tr);
            o.Done? ==> Agree(vars + LocalVars(u[h].locals), LowerHandler(m, u, stack, h, g).scope, cells', o.store)
    decreases u.Keys - Elems(stack), Inline(h), 0
  {
    hide Lower, LowerLocals, LowerExpr, FaithfulStmt, StmtOver, Lawful;
    WellScopedOwns(u);
    LowerHandlerGrows(m, u, stack, h, g);
    LowerLocalsGrows(m, u[h].locals, g);
    var locals, body := u[h].locals, u[h].body.value;
    var g1 := LowerLocals(m, locals, g);
    var inner, all := stack + [h], vars + LocalVars(locals);
    ElemsPush(stack, h);
    LowerGrows(m, u, inner, body, g1);
    var r := Lower(m, u, inner, body, g1);
    GrowsPrefixes(g1, r);
    CoversParts(g, g1, r, G);
    var c1 := LocalsRun(m, mode, G, h, locals, {}, inner, vars, g, cells, store, tr);
    var (store1, tr1) := InitLocals(m, locals, store, tr);
    StmtOverMore(body, LocalVars(locals), all);
    cells' := StmtRuns(m, mode, G, u, inner, body, all, g1, c1, store1, tr1);
    EndsFrom(m, mode, G, Here(g, cells, tr), Here(g1, c1, tr1), r, all, Exec(m, u, inner, body, store1, tr1), cells');
  }

  // ---------------------------------------------------------------- conditionals

  lemma ArmBlocks(h: Gen, r: Gen, t: nat, next: nat, G: Cfg)
    requires Grows(h, r) && Covers(h, BranchTo(r, Br(t), next), G)
    ensures Covers(h, r, G)
    ensures |r.blocks| <= |G| && Emit(r, Br(t)).blocks[r.cur] <= G[r.cur]
  {
    GrowsEmit(r, r, Br(t));
    GrowsPrefixes(r, Emit(r, Br(t)));
    assert Covers(h, Emit(r, Br(t)), G);
    CoversParts(h, r, Emit(r, Br(t)), G);
  }

  lemma BranchRuns(m: Machine, mode: Mode, G: Cfg, r: Gen, t: nat, cells: Cells, tr: Trace, start: State)
    requires r.Valid() && |r.blocks| <= |G| && Emit(r, Br(t)).blocks[r.cur] <= G[r.cur]
    requires Reaches(m, mode, G, start, Here(r, cells, tr))
    ensures Reaches(m, mode, G, start, At(t, 0, cells, tr))
  {
    hide Reaches;
    StepHere(m, mode, G, r, Br(t), cells, tr, start);
  }

  /** A statement in a block of its own that ends by going to block t. */
  lemma {:induction false} ArmRuns(m: Machine, mode: Mode, G: Cfg, u: Unit, stack: seq<string>, s: Stmt, vars: set<Var>,
        t: nat, next: nat, h: Gen, cells: Cells, store: Store, tr: Trace, start: State) returns (cells': Cells)
    requires Ready(m, u, stack, vars, h, cells, store)
    requires FaithfulStmt(m, s) && StmtOver(s, vars)
    requires Covers(h, BranchTo(Lower(m, u, stack, s, h), Br(t), next), G)
             && Lower(m, u, stack, s, h).errors == h.errors
    requires Reaches(m, mode, G, start, Here(h, cells, tr))
    ensures EndsAt(m, mode, G, start, t, Lower(m, u, stack, s, h).scope, vars, Exec(m, u, stack, s, store, tr), cells')
    decreases u.Keys - Elems(stack), s, 3
  {
    hide Lower, Exec, Covers, Grows, Reaches, Step, FaithfulStmt, StmtOver, Lawful, FaithfulUnit, WellScoped, OwnLocals;
    WellScopedOwns(u);
    LowerGrows(m, u, stack, s, h);
    var r := Lower(m, u, stack, s, h);
    ArmBlocks(h, r, t, next, G);
    cells' := StmtRuns(m, mode, G, u, stack, s, vars, h, cells, store, tr);
    var o := Exec(m, u, stack, s, store, tr);
    EndsFrom(m, mode, G, start, Here(h, cells, tr), r, vars, o, cells');
    if o.Done? {
      BranchRuns(m, mode, G, r, t, cells', o.tr, start);
    }
  }

  lemma CondHeadRuns(m: Machine, mode: Mode, G: Cfg, c: Expr, vars: set<Var>, g: Gen, cells: Cells, store: Store,
        tr: Trace) returns (c1: Cells)
    requires Lawful(m) && g.Valid() && FaithfulExpr(m, c) && ExprOver(c, vars)
    requires Agree(vars, g.scope, cells, store)
    requires Covers(g, CondHead(m, c, g), G)
    ensures var (w, tr1) := Eval(m, c, store, tr);
            Reaches(m, mode, G, Here(g, cells, tr), At(if Truthy(w) then |g.blocks| else |g.blocks| + 1, 0, c1, tr1))
    ensures Agree(vars, g.scope, c1, store)
  {
    hide LowerExpr, Eval, FaithfulExpr, ExprOver, Lawful, Reaches, Run, Den, Agree, SameBelow;
    var g0 := NewBlocks(g, 3);
    GrowsNew(g, g, 3);
    LowerExprGrows(m, c, g0);
    var (g1, v) := LowerExpr(m, c, g0);
    var n := |g.blocks|;
    var i := CondBr(v, n, n + 1);
    GrowsEmit(g1, g1, i);
    assert Covers(g, Emit(g1, i), G);
    BinaryCovers(G, g, g0, g1, Emit(g1, i));
    CoversHere(g1, i, G);
    c1 := ExprRuns(m, mode, G, c, vars, g0, cells, store, tr);
    var (w, tr1) := Eval(m, c, store, tr);
    AgreeSame(vars, g, cells, c1, store);
    assert Here(g0, cells, tr) == Here(g, cells, tr);
    BranchHere(m, mode, G, g1, v, n, n + 1, c1, tr1, Here(g, cells, tr));
  }

  lemma CondHeadEmpty(m: Machine, c: Expr, g: Gen)
    requires g.Valid()
    ensures var n := |g.blocks|; var h := CondHead(m, c, g);
            n + 3 <= |h.blocks| && h.cur == n && h.blocks[n] == [] && h.blocks[n + 1] == [] && h.blocks[n + 2] == []
  {
    GrowsNew(g, g, 3);
    LowerExprGrows(m, c, NewBlocks(g, 3));
  }

  /** An arm lowered from h, whose blocks n+1 and n+2 are still empty, leaves n+2 empty. */
  lemma {:induction false} CondArm(m: Machine, u: Unit, stack: seq<string>, t: Stmt, g: Gen, h: Gen, r: Gen, b: nat,
        next: nat)
    requires WellScoped(u) && Grows(g, h) && h.cur == b && |g.blocks| <= b < next < |h.blocks| && h.blocks[next] == []
    requires r == BranchTo(Lower(m, u, stack, t, h), Br(|g.blocks| + 2), next)
    ensures Grows(g, r) && SameScope(stack, h, r) && Prefixes(h, r) && r.cur == next && r.blocks[next] == []
            && h.errors <= r.errors
    ensures |h.blocks| <= |r.blocks|
    ensures forall c | 0 <= c < |h.blocks| && c != b :: r.blocks[c] == h.blocks[c]
  {
    WellScopedOwns(u);
    ArmGrows(m, u, stack, t, g, h, Br(|g.blocks| + 2), next);
    LowerGrows(m, u, stack, t, h);
    var r0 := Lower(m, u, stack, t, h);
    GrowsEmit(h, r0, Br(|g.blocks| + 2));
    GrowsPrefixes(h, Emit(r0, Br(|g.blocks| + 2)));
  }

  /** The stages of a conditional: h1 before the first arm, h2 before the second, r behind it. */
  lemma {:induction false} CondStages(m: Machine, u: Unit, stack: seq<string>, s: Stmt, g: Gen)
    requires WellScoped(u) && g.Valid() && s.Cond?
    ensures var n := |g.blocks|;
            var h1 := CondHead(m, s.c, g);
            var h2 := BranchTo(Lower(m, u, stack, s.thn, h1), Br(n + 2), n + 1);
            var r := Lower(m, u, stack, s, g);
            && Grows(g, h1) && h1.cur == n && h1.blocks[n] == [] && h1.scope == g.scope && h1.errors == g.errors
            && Grows(g, h2) && h2.cur == n + 1 && h2.blocks[n + 1] == [] && SameScope(stack, h1, h2) && Prefixes(h1, h2)
            && r.Valid() && r.cur == n + 2 && r.blocks[n + 2] == [] && SameScope(stack, h2, r) && Prefixes(h2, r)
            && h1.errors <= h2.errors <= r.errors && h1.Valid() && h2.Valid()
  {
    hide LowerExpr, CondHead, SameScope, Prefixes, WellScoped;
    var n := |g.blocks|;
    CondHeadGrows(m, s.c, g);
    CondHeadEmpty(m, s.c, g);
    var h1 := CondHead(m, s.c, g);
    var h2 := BranchTo(Lower(m, u, stack, s.thn, h1), Br(n + 2), n + 1);
    CondArm(m, u, stack, s.thn, g, h1, h2, n, n + 1);
    CondArm(m, u, stack, s.els, g, h2, Lower(m, u, stack, s, g), n + 1, n + 2);
  }

  lemma CondCovers(g: Gen, h1: Gen, h2: Gen, r: Gen, G: Cfg)
    requires Grows(g, h1) && Grows(g, h2) && Prefixes(h1, h2) && Prefixes(h2, r) && Covers(g, r, G)
    ensures Covers(g, h1, G) && Covers(h1, h2, G) && Covers(h2, r, G)
  {
    PrefixesTrans(h1, h2, r);
    CoversParts(g, h1, r, G);
    CoversParts(g, h2, r, G);
    ArmCovers(h1, h2, r, G);
  }

  lemma ArmCovers(h1: Gen, h2: Gen, r: Gen, G: Cfg)
    requires Prefixes(h1, h2) && Prefixes(h2, r) && Covers(h1, r, G)
    ensures Covers(h1, h2, G)
  {
    forall b | 0 <= b < |h2.blocks| && (b == h1.cur || |h1.blocks| <= b) ensures h2.blocks[b] <= G[b] {
      assert h2.blocks[b] <= r.blocks[b] <= G[b];
    }
  }

  /** An arm lowered from h to h2, in a statement whose lowering ends in r at the start of block t. */
  lemma {:induction false} ArmEnds(m: Machine, mode: Mode, G: Cfg, u: Unit, stack: seq<string>, s: Stmt, vars: set<Var>,
        t: nat, h: Gen, h2: Gen, r: Gen, cells: Cells, store: Store, tr: Trace, start: State) returns (cells': Cells)
    requires Ready(m, u, stack, vars, h, cells, store) && FaithfulStmt(m, s) && StmtOver(s, vars)
    requires h2 == BranchTo(Lower(m, u, stack, s, h), Br(t), h2.cur) && h2.errors == h.errors && Covers(h, h2, G)
    requires SameScope(stack, h, h2) && SameScope(stack, h2, r) && r.Valid() && r.cur == t && r.blocks[t] == []
    requires Reaches(m, mode, G, start, Here(h, cells, tr))
    ensures Ends(m, mode, G, start, r, vars, Exec(m, u, stack, s, store, tr), cells')
    decreases u.Keys - Elems(stack), s, 4
  {
    cells' := ArmRuns(m, mode, G, u, stack, s, vars, t, h2.cur, h, cells, store, tr, start);
    var o := Exec(m, u, stack, s, store, tr);
    if o.Done? {
      ScopeKept(stack, vars, h, h2, cells', o.store);
      ScopeKept(stack, vars, h2, r, cells', o.store);
    }
  }

  lemma {:induction false} CondRuns(m: Machine, mode: Mode, G: Cfg, u: Unit, stack: seq<string>, s: Stmt,
        vars: set<Var>, g: Gen, cells: Cells, store: Store, tr: Trace) returns (cells': Cells)
    requires Ready(m, u, stack, vars, g, cells, store) && s.Cond?
    requires FaithfulStmt(m, s) && StmtOver(s, vars)
    requires Covers(g, Lower(m, u, stack, s, g), G) && Lower(m, u, stack, s, g).errors == g.errors
    ensures Lower(m, u, stack, s, g).Valid()
    ensures Ends(m, mode, G, Here(g, cells, tr), Lower(m, u, stack, s, g), vars, Exec(m, u, stack, s, store, tr),
            cells')
    decreases u.Keys - Elems(stack), s, 1
  {
    var h1, h2, r := CondGens(m, u, stack, s, g, G);
    cells' := CondArmsRun(m, mode, G, u, stack, s, vars, g, h1, h2, r, cells, store, tr);
  }

  /** Names the stages of a conditional and keeps what running it needs to know about them. */
  lemma {:induction false} CondGens(m: Machine, u: Unit, stack: seq<string>, s: Stmt, g: Gen, G: Cfg)
      returns (h1: Gen, h2: Gen, r: Gen)
    requires WellScoped(u) && g.Valid() && s.Cond?
    requires Covers(g, Lower(m, u, stack, s, g), G) && Lower(m, u, stack, s, g).errors == g.errors
    ensures var n := |g.blocks|;
            && h1 == CondHead(m, s.c, g) && h2 == BranchTo(Lower(m, u, stack, s.thn, h1), Br(n + 2), n + 1)
            && r == Lower(m, u, stack, s, g) == BranchTo(Lower(m, u, stack, s.els, h2), Br(n + 2), n + 2)
            && CondReady(stack, n, g, h1, h2, r, G)
  {
    hide Grows, Covers, Prefixes, SameScope, LowerExpr;
    CondStages(m, u, stack, s, g);
    h1 := CondHead(m, s.c, g);
    h2 := BranchTo(Lower(m, u, stack, s.thn, h1), Br(|g.blocks| + 2), |g.blocks| + 1);
    r := Lower(m, u, stack, s, g);
    CondCovers(g, h1, h2, r, G);
  }

  ghost predicate CondReady(stack: seq<string>, n: nat, g: Gen, h1: Gen, h2: Gen, r: Gen, G: Cfg) {
    && Covers(g, h1, G) && Covers(h1, h2, G) && Covers(h2, r, G)
    && h1.Valid() && h1.cur == n && h1.blocks[n] == [] && h1.scope == g.scope
    && h2.Valid() && h2.cur == n + 1 && h2.blocks[n + 1] == []
    && r.Valid() && r.cur == n + 2 && r.blocks[n + 2] == []
    && g.errors == h1.errors == h2.errors == r.errors
    && SameScope(stack, h1, h2) && SameScope(stack, h2, r)
  }

  lemma {:induction false} CondArmsRun(m: Machine, mode: Mode, G: Cfg, u: Unit, stack: seq<string>, s: Stmt,
        vars: set<Var>, g: Gen, h1: Gen, h2: Gen, r: Gen, cells: Cells, store: Store, tr: Trace) returns (cells': Cells)
    requires Ready(m, u, stack, vars, g, cells, store) && s.Cond?
    requires FaithfulStmt(m, s) && StmtOver(s, vars)
    requires h1 == CondHead(m, s.c, g)
             && h2 == BranchTo(Lower(m, u, stack, s.thn, h1), Br(|g.blocks| + 2), |g.blocks| + 1)
    requires r == BranchTo(Lower(m, u, stack, s.els, h2), Br(|g.blocks| + 2), |g.blocks| + 2)
    requires CondReady(stack, |g.blocks|, g, h1, h2, r, G)
    ensures Ends(m, mode, G, Here(g, cells, tr), r, vars, Exec(m, u, stack, s, store, tr), cells')
    decreases u.Keys - Elems(stack), s, 0
  {
    hide Lower, LowerExpr;
    var c1 := CondHeadRuns(m, mode, G, s.c, vars, g, cells, store, tr);
    var (w, tr1) := Eval(m, s.c, store, tr);
    ScopeKept(stack, vars, h1, h2, c1, store);
    if Truthy(w) {
      cells' := ArmEnds(m, mode, G, u, stack, s.thn, vars, |g.blocks| + 2, h1, h2, r, c1, store, tr1,
          Here(g, cells, tr));
    } else {
      cells' := ArmEnds(m, mode, G, u, stack, s.els, vars, |g.blocks| + 2, h2, r, r, c1, store, tr1,
          Here(g, cells, tr));
    }
  }

  // ---------------------------------------------------------------- match

  /** One case: its block, and its labels added to the match instruction. */
  function LowerCase(m: Machine, u: Unit, stack: seq<string>, one: Case, cont: nat, o: nat, k: nat, g: Gen): Gen {
    AddCases(CaseBody(m, u, stack, one, cont, g), o, k, one.labels, |g.blocks|)
  }

  function CaseStart(g: Gen): Gen {
    MoveTo(NewBlocks(g, 1), |g.blocks|)
  }

  function CaseBody(m: Machine, u: Unit, stack: seq<string>, one: Case, cont: nat, g: Gen): Gen {
    Emit(Lower(m, u, stack, one.body, CaseStart(g)), Br(cont))
  }

  /** For each label, the block of its case. */
  function CaseBlocks(m: Machine, u: Unit, stack: seq<string>, cases: seq<Case>, cont: nat, o: nat, k: nat,
        g: Gen): (r: seq<nat>)
    ensures |r| == |Labels(cases)|
  {
    if cases == [] then [] else
      seq(|cases[0].labels|, _ => |g.blocks|)
      + CaseBlocks(m, u, stack, cases[1..], cont, o, k, LowerCase(m, u, stack, cases[0], cont, o, k, g))
  }

  /** g has the match instruction of these cases at position k of block o. */
  ghost predicate HasMatch(g: Gen, o: nat, k: nat) {
    g.Valid() && o < |g.blocks| && k < |g.blocks[o]| && g.blocks[o][k].Match?
  }

  /** From g to r only new blocks and the match instruction were written. */
  ghost predicate OnlyMatch(g: Gen, r: Gen, o: nat, k: nat) {
    && HasMatch(g, o, k) && HasMatch(r, o, k)
    && |g.blocks| <= |r.blocks| && g.errors <= r.errors
    && (forall b | 0 <= b < |g.blocks| && b != o :: r.blocks[b] == g.blocks[b])
    && |r.blocks[o]| == |g.blocks[o]|
    && (forall i | 0 <= i < |g.blocks[o]| && i != k :: r.blocks[o][i] == g.blocks[o][i])
  }

  lemma OnlyMatchTrans(g: Gen, g1: Gen, g2: Gen, o: nat, k: nat)
    requires OnlyMatch(g, g1, o, k) && OnlyMatch(g1, g2, o, k)
    ensures OnlyMatch(g, g2, o, k)
  {
  }

  ghost predicate MatchGrew(g: Gen, r: Gen, o: nat, k: nat, labels: seq<Label>, targets: seq<nat>)
    requires HasMatch(g, o, k) && HasMatch(r, o, k)
  {
    var i := g.blocks[o][k];
    r.blocks[o][k] == i.(labels := i.labels + labels, targets := i.targets + targets)
  }

  lemma {:induction false} CaseBodyGrows(m: Machine, u: Unit, stack: seq<string>, one: Case, cont: nat, g: Gen)
    requires WellScoped(u) && g.Valid()
    ensures var h := CaseStart(g); var r := CaseBody(m, u, stack, one, cont, g);
            && Grows(h, r) && SameScope(stack, g, r) && g.errors <= r.errors
            && |g.blocks| < |r.blocks| && (forall b | 0 <= b < |g.blocks| :: r.blocks[b] == g.blocks[b])
  {
    WellScopedOwns(u);
    var h := CaseStart(g);
    LowerGrows(m, u, stack, one.body, h);
    GrowsEmit(h, Lower(m, u, stack, one.body, h), Br(cont));
  }

  lemma {:induction false} LowerCaseKeeps(m: Machine, u: Unit, stack: seq<string>, one: Case, cont: nat, o: nat, k: nat,
        g: Gen)
    requires WellScoped(u) && HasMatch(g, o, k)
    ensures var r := LowerCase(m, u, stack, one, cont, o, k, g); var body := CaseBody(m, u, stack, one, cont, g);
            && OnlyMatch(g, r, o, k) && SameScope(stack, g, r)
            && MatchGrew(g, r, o, k, one.labels, seq(|one.labels|, _ => |g.blocks|))
            && |r.blocks| == |body.blocks| > |g.blocks| && r.scope == body.scope && r.errors == body.errors
            && (forall b | |g.blocks| <= b < |r.blocks| :: r.blocks[b] == body.blocks[b])
  {
    hide Lower;
    CaseBodyGrows(m, u, stack, one, cont, g);
  }

  lemma {:induction false} LowerCasesKeep(m: Machine, u: Unit, stack: seq<string>, cases: seq<Case>, cont: nat, o: nat,
        k: nat, g: Gen)
    requires WellScoped(u) && HasMatch(g, o, k)
    ensures var r := LowerCases(m, u, stack, cases, cont, o, k, g);
            && OnlyMatch(g, r, o, k) && SameScope(stack, g, r)
            && MatchGrew(g, r, o, k, Labels(cases), CaseBlocks(m, u, stack, cases, cont, o, k, g))
    decreases cases
  {
    hide Lower, LowerCase, WellScoped, AddCases, Emit;
    if cases == [] {
      assert g.blocks[o][k].labels + [] == g.blocks[o][k].labels;
      assert g.blocks[o][k].targets + [] == g.blocks[o][k].targets;
    } else {
      var g1 := LowerCase(m, u, stack, cases[0], cont, o, k, g);
      LowerCasesCons(m, u, stack, cases, cont, o, k, g);
      LowerCaseKeeps(m, u, stack, cases[0], cont, o, k, g);
      LowerCasesKeep(m, u, stack, cases[1..], cont, o, k, g1);
      var r := LowerCases(m, u, stack, cases[1..], cont, o, k, g1);
      OnlyMatchTrans(g, g1, r, o, k);
      var i := g.blocks[o][k];
      var ts := CaseBlocks(m, u, stack, cases[1..], cont, o, k, g1);
      assert i.labels + cases[0].labels + Labels(cases[1..]) == i.labels + Labels(cases);
      assert i.targets + seq(|cases[0].labels|, _ => |g.blocks|) + ts
          == i.targets + CaseBlocks(m, u, stack, cases, cont, o, k, g);
    }
  }

  lemma LowerCasesCons(m: Machine, u: Unit, stack: seq<string>, cases: seq<Case>, cont: nat, o: nat, k: nat, g: Gen)
    requires cases != []
    ensures LowerCases(m, u, stack, cases, cont, o, k, g)
         == LowerCases(m, u, stack, cases[1..], cont, o, k, LowerCase(m, u, stack, cases[0], cont, o, k, g))
  {
  }

  /** Everything emitted into new blocks between g and r is in the finished program. */
  ghost predicate CoversNew(g: Gen, r: Gen, G: Cfg) {
    |r.blocks| <= |G| && (forall b | |g.blocks| <= b < |r.blocks| :: r.blocks[b] <= G[b])
  }

  /** The case of the j-th label, run from the start of its block. */
  lemma {:induction false} CaseRuns(m: Machine, mode: Mode, G: Cfg, u: Unit, stack: seq<string>, cases: seq<Case>,
        cont: nat, o: nat, k: nat, vars: set<Var>, g: Gen, j: nat, cells: Cells, store: Store, tr: Trace, start: State)
      returns (cells': Cells)
    requires Ready(m, u, stack, vars, g, cells, store) && HasMatch(g, o, k)
    requires forall one | one in cases :: FaithfulStmt(m, one.body) && StmtOver(one.body, vars)
    requires var r := LowerCases(m, u, stack, cases, cont, o, k, g); CoversNew(g, r, G) && r.errors == g.errors
    requires j < |Labels(cases)|
    requires Reaches(m, mode, G, start, At(CaseBlocks(m, u, stack, cases, cont, o, k, g)[j], 0, cells, tr))
    ensures EndsAt(m, mode, G, start, cont, LowerCases(m, u, stack, cases, cont, o, k, g).scope, vars,
                   Exec(m, u, stack, CaseOf(cases, j).body, store, tr), cells')
    decreases u.Keys - Elems(stack), cases, 0
  {
    hide Lower, LowerCase, LowerCases, Exec, SameScope, FaithfulStmt, StmtOver, FaithfulUnit, WellScoped, Lawful;
    var g1 := LowerCase(m, u, stack, cases[0], cont, o, k, g);
    LowerCasesCons(m, u, stack, cases, cont, o, k, g);
    LowerCaseKeeps(m, u, stack, cases[0], cont, o, k, g);
    LowerCasesKeep(m, u, stack, cases[1..], cont, o, k, g1);
    ScopeKept(stack, vars, g, g1, cells, store);
    if j < |cases[0].labels| {
      var r := LowerCases(m, u, stack, cases, cont, o, k, g);
      cells' := FirstCaseRuns(m, mode, G, u, stack, cases[0], cont, o, k, vars, g, r, cells, store, tr, start);
    } else {
      cells' := CaseRuns(m, mode, G, u, stack, cases[1..], cont, o, k, vars, g1, j - |cases[0].labels|, cells, store,
          tr, start);
    }
  }

  lemma {:induction false} FirstCaseRuns(m: Machine, mode: Mode, G: Cfg, u: Unit, stack: seq<string>, one: Case,
        cont: nat, o: nat, k: nat, vars: set<Var>, g: Gen, r: Gen, cells: Cells, store: Store, tr: Trace, start: State)
      returns (cells': Cells)
    requires Ready(m, u, stack, vars, g, cells, store) && HasMatch(g, o, k)
    requires FaithfulStmt(m, one.body) && StmtOver(one.body, vars)
    requires var g1 := LowerCase(m, u, stack, one, cont, o, k, g);
             OnlyMatch(g1, r, o, k) && SameScope(stack, g1, r)
    requires CoversNew(g, r, G) && r.errors == g.errors
    requires Reaches(m, mode, G, start, At(|g.blocks|, 0, cells, tr))
    ensures EndsAt(m, mode, G, start, cont, r.scope, vars, Exec(m, u, stack, one.body, store, tr), cells')
    decreases u.Keys - Elems(stack), one, 0
  {
    hide Lower, LowerCase, Exec, FaithfulStmt, StmtOver, FaithfulUnit, WellScoped, Lawful;
    LowerCaseKeeps(m, u, stack, one, cont, o, k, g);
    CaseBodyGrows(m, u, stack, one, cont, g);
    var h := CaseStart(g);
    var body := CaseBody(m, u, stack, one, cont, g);
    var g1 := LowerCase(m, u, stack, one, cont, o, k, g);
    assert Covers(h, body, G) by {
      forall b | 0 <= b < |body.blocks| && (b == h.cur || |h.blocks| <= b) ensures body.blocks[b] <= G[b] {
        assert body.blocks[b] == g1.blocks[b] == r.blocks[b];
      }
    }
    cells' := ArmRuns(m, mode, G, u, stack, one.body, vars, cont, body.cur, h, cells, store, tr, start);
    var o1 := Exec(m, u, stack, one.body, store, tr);
    if o1.Done? {
      ScopeKept(stack, vars, g, g1, cells', o1.store);
      ScopeKept(stack, vars, g1, r, cells', o1.store);
    }
  }

  /** The condition of a `match`, the block behind it, and the instruction without cases. */
  function SwitchHead(m: Machine, s: Stmt, g: Gen): Gen
    requires s.Switch?
  {
    var (g1, v) := LowerExpr(m, s.c, g);
    Emit(NewBlocks(g1, 1), Match(s.mc, v, [], [], |g1.blocks|))
  }

  /** The `else` part and the move to the block behind. */
  function SwitchLast(m: Machine, u: Unit, stack: seq<string>, other: Option<Stmt>, cont: nat, o: nat, k: nat,
        g: Gen): Gen
  {
    match other
    case Some(t) => MoveTo(SetElse(CaseBody(m, u, stack, Case([], t), cont, g), o, k, |g.blocks|), cont)
    case None => MoveTo(SetElse(g, o, k, cont), cont)
  }

  function ElseBlock(other: Option<Stmt>, cont: nat, g: Gen): nat {
    if other.Some? then |g.blocks| else cont
  }

  lemma SwitchParts(m: Machine, u: Unit, stack: seq<string>, s: Stmt, g: Gen)
    requires s.Switch? && g.Valid()
    ensures var (g1, v) := LowerExpr(m, s.c, g);
            var cont, o := |g1.blocks|, g1.cur;
            && g1.Valid()
            && Lower(m, u, stack, s, g)
               == SwitchLast(m, u, stack, s.other, cont, o, |g1.blocks[o]|,
                             LowerCases(m, u, stack, s.cases, cont, o, |g1.blocks[o]|, SwitchHead(m, s, g)))
  {
    LowerExprGrows(m, s.c, g);
  }

  lemma {:induction false} SwitchLastKeeps(m: Machine, u: Unit, stack: seq<string>, other: Option<Stmt>, cont: nat,
        o: nat, k: nat, g: Gen)
    requires WellScoped(u) && HasMatch(g, o, k) && cont < |g.blocks|
    ensures var r := SwitchLast(m, u, stack, other, cont, o, k, g);
            && OnlyMatch(g, r, o, k) && SameScope(stack, g, r) && r.cur == cont
            && r.blocks[o][k] == g.blocks[o][k].(other := ElseBlock(other, cont, g))
            && (other.Some? ==>
                  var body := CaseBody(m, u, stack, Case([], other.value), cont, g);
                  && |r.blocks| == |body.blocks| && r.errors == body.errors && r.scope == body.scope
                  && (forall b | |g.blocks| <= b < |r.blocks| :: r.blocks[b] == body.blocks[b]))
  {
    hide Lower;
    if other.Some? {
      CaseBodyGrows(m, u, stack, Case([], other.value), cont, g);
    }
  }

  /** The finished match instruction and everything around it. */
  ghost predicate SwitchReady(m: Machine, u: Unit, stack: seq<string>, s: Stmt, g: Gen, g2: Gen, g3: Gen, r: Gen,
        o: nat, k: nat, cont: nat, G: Cfg)
    requires s.Switch?
  {
    var (g1, v) := LowerExpr(m, s.c, g);
    && Covers(g, g1, G) && g1.Valid() && o == g1.cur && k == |g1.blocks[o]| && cont == |g1.blocks|
    && HasMatch(g2, o, k) && cont < |g3.blocks| && g2.scope == g.scope && g2.errors == g.errors == g3.errors == r.errors
    && SameScope(stack, g2, g3) && HasMatch(g3, o, k) && SameScope(stack, g3, r)
    && CoversNew(g2, g3, G) && CoversNew(g3, r, G)
    && o < |G| && k < |G[o]|
    && G[o][k] == Match(s.mc, v, Labels(s.cases), CaseBlocks(m, u, stack, s.cases, cont, o, k, g2),
        ElseBlock(s.other, cont, g3))
    && r.Valid() && r.cur == cont && r.blocks[cont] == []
  }

  lemma SwitchHeadKeeps(m: Machine, s: Stmt, g: Gen)
    requires s.Switch? && g.Valid()
    ensures var (g1, v) := LowerExpr(m, s.c, g); var g2 := SwitchHead(m, s, g);
            g1.Valid() &&
            var o, k, cont := g1.cur, |g1.blocks[g1.cur]|, |g1.blocks|;
            && Grows(g, g1) && HasMatch(g2, o, k) && g2.scope == g.scope && g2.errors == g.errors
            && |g2.blocks| == cont + 1 && g2.blocks[cont] == []
            && g2.blocks[o] == g1.blocks[o] + [Match(s.mc, v, [], [], cont)]
            && (forall b | 0 <= b < cont && b != o :: g2.blocks[b] == g1.blocks[b])
  {
    LowerExprGrows(m, s.c, g);
  }

  lemma {:induction false} SwitchGens(m: Machine, u: Unit, stack: seq<string>, s: Stmt, g: Gen, G: Cfg)
      returns (g2: Gen, g3: Gen, r: Gen, o: nat, k: nat, cont: nat)
    requires WellScoped(u) && g.Valid() && s.Switch?
    requires Covers(g, Lower(m, u, stack, s, g), G) && Lower(m, u, stack, s, g).errors == g.errors
    ensures g2 == SwitchHead(m, s, g) && r == Lower(m, u, stack, s, g)
    ensures SwitchReady(m, u, stack, s, g, g2, g3, r, o, k, cont, G)
    ensures g3 == LowerCases(m, u, stack, s.cases, cont, o, k, g2)
            && r == SwitchLast(m, u, stack, s.other, cont, o, k, g3)
  {
    hide Lower, LowerCases, SwitchHead, SwitchLast, LowerExpr, SameScope, WellScoped;
    SwitchParts(m, u, stack, s, g);
    SwitchHeadKeeps(m, s, g);
    var (g1, v) := LowerExpr(m, s.c, g);
    o, k, cont := g1.cur, |g1.blocks[g1.cur]|, |g1.blocks|;
    g2 := SwitchHead(m, s, g);
    LowerCasesKeep(m, u, stack, s.cases, cont, o, k, g2);
    g3 := LowerCases(m, u, stack, s.cases, cont, o, k, g2);
    SwitchLastKeeps(m, u, stack, s.other, cont, o, k, g3);
    r := SwitchLast(m, u, stack, s.other, cont, o, k, g3);
    OnlyMatchTrans(g2, g3, r, o, k);
    SwitchCovers(g, g1, g2, g3, r, o, k, G);
    var ts := CaseBlocks(m, u, stack, s.cases, cont, o, k, g2);
    assert [] + Labels(s.cases) == Labels(s.cases) && [] + ts == ts;
  }

  lemma SwitchCovers(g: Gen, g1: Gen, g2: Gen, g3: Gen, r: Gen, o: nat, k: nat, G: Cfg)
    requires Grows(g, g1) && o == g1.cur && k == |g1.blocks[o]|
    requires |g2.blocks| == |g1.blocks| + 1 && |g2.blocks[o]| == k + 1 && g1.blocks[o] <= g2.blocks[o]
    requires forall b | 0 <= b < |g1.blocks| && b != o :: g2.blocks[b] == g1.blocks[b]
    requires OnlyMatch(g2, g3, o, k) && OnlyMatch(g3, r, o, k) && OnlyMatch(g2, r, o, k) && Covers(g, r, G)
    ensures Covers(g, g1, G) && CoversNew(g2, g3, G) && CoversNew(g3, r, G)
    ensures o < |G| && k < |G[o]| && G[o][k] == r.blocks[o][k]
  {
    forall b | 0 <= b < |g1.blocks| && (b == g.cur || |g.blocks| <= b) ensures g1.blocks[b] <= G[b] {
      assert r.blocks[b] <= G[b];
      if b == o {
        assert g1.blocks[o] == g2.blocks[o][..k] == r.blocks[o][..k];
      }
    }
    forall b | |g2.blocks| <= b < |g3.blocks| ensures g3.blocks[b] <= G[b] {
      assert g3.blocks[b] == r.blocks[b];
    }
  }

  lemma ExecSwitch(m: Machine, u: Unit, stack: seq<string>, s: Stmt, store: Store, tr: Trace)
    requires s.Switch?
    ensures var (v, tr1) := Eval(m, s.c, store, tr); var j := Select(m, s.mc, Labels(s.cases), v);
            Exec(m, u, stack, s, store, tr) ==
              if j.Some? then Exec(m, u, stack, CaseOf(s.cases, j.value).body, store, tr1)
              else if s.other.Some? then Exec(m, u, stack, s.other.value, store, tr1) else Done(store, tr1)
  {
  }

  lemma {:induction false} SwitchRuns(m: Machine, mode: Mode, G: Cfg, u: Unit, stack: seq<string>, s: Stmt,
        vars: set<Var>, g: Gen, cells: Cells, store: Store, tr: Trace) returns (cells': Cells)
    requires Ready(m, u, stack, vars, g, cells, store) && s.Switch?
    requires FaithfulStmt(m, s) && StmtOver(s, vars)
    requires Covers(g, Lower(m, u, stack, s, g), G) && Lower(m, u, stack, s, g).errors == g.errors
    ensures Lower(m, u, stack, s, g).Valid()
    ensures Ends(m, mode, G, Here(g, cells, tr), Lower(m, u, stack, s, g), vars, Exec(m, u, stack, s, store, tr),
            cells')
    decreases u.Keys - Elems(stack), s, 1
  {
    hide Lower, LowerCases, SwitchHead, SwitchLast, LowerExpr, SameScope, WellScoped, FaithfulUnit, Lawful, Fits, Pick,
      OwnLocals, SameBelow, Exec;
    ExecSwitch(m, u, stack, s, store, tr);
    var g2, g3, r, o, k, cont := SwitchGens(m, u, stack, s, g, G);
    var (g1, v) := LowerExpr(m, s.c, g);
    var c1 := ExprRuns(m, mode, G, s.c, vars, g, cells, store, tr);
    var (w, tr1) := Eval(m, s.c, store, tr);
    AgreeSame(vars, g, cells, c1, store);
    ReachesStep(m, mode, G, Here(g, cells, tr), Here(g1, c1, tr1));
    ScopeKept(stack, vars, g2, g3, c1, store);
    var j := Select(m, s.mc, Labels(s.cases), w);
    var start := Here(g, cells, tr);
    if j.Some? {
      cells' := CaseRuns(m, mode, G, u, stack, s.cases, cont, o, k, vars, g2, j.value, c1, store, tr1, start);
      var out := Exec(m, u, stack, CaseOf(s.cases, j.value).body, store, tr1);
      if out.Done? { ScopeKept(stack, vars, g3, r, cells', out.store); }
    } else if s.other.Some? {
      cells' := OtherRuns(m, mode, G, u, stack, s, cont, o, k, vars, g3, r, c1, store, tr1, start);
    } else {
      cells' := c1;
      ScopeKept(stack, vars, g3, r, c1, store);
    }
  }

  lemma {:induction false} OtherRuns(m: Machine, mode: Mode, G: Cfg, u: Unit, stack: seq<string>, s: Stmt, cont: nat,
        o: nat, k: nat, vars: set<Var>, g3: Gen, r: Gen, cells: Cells, store: Store, tr: Trace, start: State)
      returns (cells': Cells)
    requires Ready(m, u, stack, vars, g3, cells, store) && HasMatch(g3, o, k) && s.Switch? && s.other.Some?
    requires FaithfulStmt(m, s.other.value) && StmtOver(s.other.value, vars)
    requires r == SwitchLast(m, u, stack, s.other, cont, o, k, g3) && cont < |g3.blocks| && r.errors == g3.errors
    requires r.Valid() && r.cur == cont && r.blocks[cont] == [] && CoversNew(g3, r, G)
    requires Reaches(m, mode, G, start, At(|g3.blocks|, 0, cells, tr))
    ensures Ends(m, mode, G, start, r, vars, Exec(m, u, stack, s.other.value, store, tr), cells')
    decreases u.Keys - Elems(stack), s, 0
  {
    hide Lower, SwitchLast, WellScoped, FaithfulUnit, Lawful, FaithfulStmt, StmtOver, Exec;
    var t := s.other.value;
    SwitchLastKeeps(m, u, stack, s.other, cont, o, k, g3);
    CaseBodyGrows(m, u, stack, Case([], t), cont, g3);
    var h := CaseStart(g3);
    var body := CaseBody(m, u, stack, Case([], t), cont, g3);
    assert Covers(h, body, G);
    cells' := ArmRuns(m, mode, G, u, stack, t, vars, cont, body.cur, h, cells, store, tr, start);
  }
}
