/**
  What lowering leaves alone: blocks that were finished before, the instructions already at the
  insert point, and the variables of the handlers being expanded.
 */
module FlowShape {
  import opened Wrappers
  import opened FlowCore
  import opened FlowAst
  import opened FlowIr
  import opened FlowLowering

  /** From g on, only new blocks and the tail of the current block were written. */
  ghost predicate Grows(g: Gen, r: Gen) {
    && g.Valid() && r.Valid()
    && g.next <= r.next
    && g.errors <= r.errors
    && |g.blocks| <= |r.blocks|
    && (forall b | 0 <= b < |g.blocks| && b != g.cur :: r.blocks[b] == g.blocks[b])
    && g.blocks[g.cur] <= r.blocks[g.cur]
    && (r.cur == g.cur || |g.blocks| <= r.cur)
  }

  ghost predicate Below(v: Value, n: nat) {
    match v
    case K(_) => true
    case Loaded(id, x) => id < n && x < n
    case Temp(id) => id < n
    case Cell(id) => id < n
  }

  ghost predicate AllBelow(vs: seq<Value>, n: nat) {
    forall v | v in vs :: Below(v, n)
  }

  /** Lowering an expression also keeps scope and errors, and yields an operand already known. */
  ghost predicate ExprGrows(g: Gen, r: (Gen, Value)) {
    Grows(g, r.0) && r.0.scope == g.scope && r.0.errors == g.errors && Below(r.1, r.0.next)
  }

  lemma GrowsTrans(g: Gen, g1: Gen, g2: Gen)
    requires Grows(g, g1) && Grows(g1, g2)
    ensures Grows(g, g2)
  {
  }

  lemma GrowsEmit(g: Gen, g1: Gen, i: Instr)
    requires Grows(g, g1)
    ensures Grows(g, Emit(g1, i)) && Grows(g, EmitNew(g1, i))
  {
    if g1.cur != g.cur {
      assert Emit(g1, i).blocks[g.cur] == g1.blocks[g.cur];
    }
  }

  lemma GrowsMove(g: Gen, g1: Gen, b: nat)
    requires Grows(g, g1) && |g.blocks| <= b < |g1.blocks|
    ensures Grows(g, MoveTo(g1, b))
  {
  }

  lemma GrowsNew(g: Gen, g1: Gen, n: nat)
    requires Grows(g, g1)
    ensures Grows(g, NewBlocks(g1, n))
  {
  }

  /** Rewriting an instruction that was emitted after g. */
  lemma GrowsPatch(g: Gen, g1: Gen, o: nat, k: nat, i: Instr)
    requires Grows(g, g1)
    requires o == g.cur || |g.blocks| <= o
    requires o == g.cur ==> |g.blocks[o]| <= k
    ensures Grows(g, Patch(g1, o, k, i))
  {
  }

  lemma {:induction false} LowerExprGrows(m: Machine, e: Expr, g: Gen)
    requires g.Valid()
    ensures ExprGrows(g, LowerExpr(m, e, g))
    decreases e, 1
  {
    match e
    case Lit(_) =>
    case Use(x) => UseGrows(m, x, g);
    case Unary(op, a) =>
      LowerExprGrows(m, a, g);
      var (g1, v) := LowerExpr(m, a, g);
      GrowsEmit(g, g1, Un(g1.next, op, v));
    case Binary(op, l, r) =>
      if op == BOr {
        LowerOrGrows(m, l, r, g);
      } else {
        LowerExprGrows(m, l, g);
        var (g1, a) := LowerExpr(m, l, g);
        LowerExprGrows(m, r, g1);
        var (g2, b) := LowerExpr(m, r, g1);
        GrowsTrans(g, g1, g2);
        CreateBinGrows(m, g, g2, op, a, b);
      }
    case Call(f, args) =>
      LowerArgsGrows(m, args, g);
      var (g1, vs) := LowerArgs(m, args, g);
      GrowsEmit(g, g1, CallFn(g1.next, f, vs));
  }

  lemma UseGrows(m: Machine, x: Var, g: Gen)
    requires g.Valid()
    ensures ExprGrows(g, LowerExpr(m, Use(x), g))
  {
    GrowsEmit(g, g, Load(g.next, Lookup(g, x)));
  }

  lemma CreateBinGrows(m: Machine, g: Gen, g2: Gen, op: BinOp, a: Value, b: Value)
    requires Grows(g, g2) && Below(b, g2.next)
    ensures var r := CreateBin(m, g2, op, a, b);
            Grows(g, r.0) && r.0.scope == g2.scope && r.0.errors == g2.errors && Below(r.1, r.0.next)
  {
    GrowsEmit(g, g2, Bin(g2.next, if op == BXor then BAnd else op, a, b));
  }

  lemma BelowMore(v: Value, n: nat, k: nat)
    requires Below(v, n) && n <= k
    ensures Below(v, k)
  {
  }

  lemma {:induction false} LowerArgsGrows(m: Machine, es: seq<Expr>, g: Gen)
    requires g.Valid()
    ensures var r := LowerArgs(m, es, g);
            Grows(g, r.0) && r.0.scope == g.scope && r.0.errors == g.errors && AllBelow(r.1, r.0.next)
    decreases es, 0
  {
    if es != [] {
      LowerExprGrows(m, es[0], g);
      var (g1, v) := LowerExpr(m, es[0], g);
      LowerArgsGrows(m, es[1..], g1);
      GrowsTrans(g, g1, LowerArgs(m, es[1..], g1).0);
      BelowMore(v, g1.next, LowerArgs(m, es[1..], g1).0.next);
    }
  }

  lemma {:induction false} OrHeadGrows(m: Machine, l: Expr, g: Gen)
    requires g.Valid()
    ensures ExprGrows(g, OrHead(m, l, g))
    ensures |g.blocks| + 3 <= |OrHead(m, l, g).0.blocks|
    ensures OrHead(m, l, g).0.next > g.next
    decreases l, 2
  {
    GrowsNew(g, g, 3);
    GrowsEmit(g, NewBlocks(g, 3), Alloca(g.next));
    var g0 := EmitNew(NewBlocks(g, 3), Alloca(g.next));
    LowerExprGrows(m, l, g0);
    var (g1, a) := LowerExpr(m, l, g0);
    GrowsTrans(g, g0, g1);
    GrowsEmit(g, g1, CondBr(a, |g.blocks|, |g.blocks| + 1));
  }

  lemma OrLeftGrows(g: Gen, g1: Gen, a: Value, cell: nat, n: nat)
    requires Grows(g, g1) && n == |g.blocks| && n + 3 <= |g1.blocks|
    ensures Grows(g, OrLeft(g1, a, cell, n))
  {
    GrowsMove(g, g1, n);
    var h := MoveTo(g1, n);
    GrowsEmit(g, h, Store(cell, a));
    var h1 := Emit(h, Store(cell, a));
    GrowsEmit(g, h1, Br(n + 2));
    GrowsMove(g, Emit(h1, Br(n + 2)), n + 1);
  }

  lemma OrTailGrows(g: Gen, g2: Gen, b: Value, cell: nat, n: nat)
    requires Grows(g, g2) && n == |g.blocks| && n + 3 <= |g2.blocks|
    ensures Grows(g, OrTail(g2, b, cell, n))
  {
    GrowsEmit(g, g2, Store(cell, b));
    var h := Emit(g2, Store(cell, b));
    GrowsEmit(g, h, Br(n + 2));
    GrowsMove(g, Emit(h, Br(n + 2)), n + 2);
  }

  lemma {:induction false} LowerOrGrows(m: Machine, l: Expr, r: Expr, g: Gen)
    requires g.Valid()
    ensures ExprGrows(g, LowerOr(m, l, r, g))
    decreases Binary(BOr, l, r), 0
  {
    var n := |g.blocks|;
    OrHeadGrows(m, l, g);
    var (g1, a) := OrHead(m, l, g);
    OrLeftGrows(g, g1, a, g.next, n);
    var h := OrLeft(g1, a, g.next, n);
    LowerExprGrows(m, r, h);
    var (g2, b) := LowerExpr(m, r, h);
    GrowsTrans(g, h, g2);
    OrTailGrows(g, g2, b, g.next, n);
  }

  // ---------------------------------------------------------------- statements

  /** The variables owned by handlers in `stack` keep their cells. */
  ghost predicate SameScope(stack: seq<string>, g: Gen, r: Gen) {
    forall x: Var | x.owner in stack :: (x in g.scope <==> x in r.scope) && (x in g.scope ==> g.scope[x] == r.scope[x])
  }

  ghost predicate OwnLocals(u: Unit) {
    forall h | h in u :: forall l | l in u[h].locals :: l.x.owner == h
  }

  lemma {:induction false} OwnLocalsOf(h: string, locals: seq<Local>, vars: set<Var>)
    requires LocalsOver(h, locals, vars)
    ensures forall l | l in locals :: l.x.owner == h
  {
    if locals != [] {
      OwnLocalsOf(h, locals[1..], vars + {locals[0].x});
    }
  }

  lemma WellScopedOwns(u: Unit)
    requires WellScoped(u)
    ensures OwnLocals(u)
  {
    forall h | h in u ensures forall l | l in u[h].locals :: l.x.owner == h {
      OwnLocalsOf(h, u[h].locals, {});
    }
  }

  lemma {:induction false} LowerLocalsGrows(m: Machine, locals: seq<Local>, g: Gen)
    requires g.Valid()
    ensures var r := LowerLocals(m, locals, g);
            Grows(g, r) && r.errors == g.errors
    ensures forall x | x !in LocalVars(locals) ::
              var r := LowerLocals(m, locals, g);
              (x in g.scope <==> x in r.scope) && (x in g.scope ==> g.scope[x] == r.scope[x])
  {
    if locals != [] {
      LowerExprGrows(m, locals[0].init, g);
      var (g1, v) := LowerExpr(m, locals[0].init, g);
      var cell := g1.next;
      GrowsEmit(g, g1, Alloca(cell));
      var g2 := EmitNew(g1, Alloca(cell));
      var g3 := g2.(scope := g2.scope[locals[0].x := cell]);
      assert Grows(g, g3);
      GrowsEmit(g, g3, Store(cell, v));
      var g4 := Emit(g3, Store(cell, v));
      LowerLocalsGrows(m, locals[1..], g4);
      GrowsTrans(g, g4, LowerLocals(m, locals[1..], g4));
      assert locals[0].x in LocalVars(locals);
      assert LocalVars(locals[1..]) <= LocalVars(locals);
    }
  }

  lemma {:induction false} LowerGrows(m: Machine, u: Unit, stack: seq<string>, s: Stmt, g: Gen)
    requires g.Valid() && OwnLocals(u)
    ensures Grows(g, Lower(m, u, stack, s, g)) && SameScope(stack, g, Lower(m, u, stack, s, g))
    decreases u.Keys - Elems(stack), s, 1
  {
    match s
    case Expression(e) => LowerExprGrows(m, e, g);
    case Assign(x, e) =>
      LowerExprGrows(m, e, g);
      var (g1, v) := LowerExpr(m, e, g);
      GrowsEmit(g, g1, Store(Lookup(g, x), v));
    case Compound(ss) => LowerAllGrows(m, u, stack, ss, g);
    case Cond(c, thn, els) => LowerCondGrows(m, u, stack, s, g);
    case Switch(mc, c, cases, other) => LowerSwitchGrows(m, u, stack, mc, c, cases, other, g);
    case Invoke(f, args) =>
      LowerArgsGrows(m, args, g);
      var (g1, vs) := LowerArgs(m, args, g);
      GrowsEmit(g, g1, CallHn(g1.next, f, vs));
    case Inline(h) => LowerHandlerGrows(m, u, stack, h, g);
  }

  lemma {:induction false} LowerAllGrows(m: Machine, u: Unit, stack: seq<string>, ss: seq<Stmt>, g: Gen)
    requires g.Valid() && OwnLocals(u)
    ensures Grows(g, LowerAll(m, u, stack, ss, g)) && SameScope(stack, g, LowerAll(m, u, stack, ss, g))
    decreases u.Keys - Elems(stack), ss, 0
  {
    if ss != [] {
      LowerGrows(m, u, stack, ss[0], g);
      var g1 := Lower(m, u, stack, ss[0], g);
      LowerAllGrows(m, u, stack, ss[1..], g1);
      GrowsTrans(g, g1, LowerAll(m, u, stack, ss[1..], g1));
    }
  }

  lemma {:induction false} LowerHandlerGrows(m: Machine, u: Unit, stack: seq<string>, h: string, g: Gen)
    requires g.Valid() && OwnLocals(u)
    ensures Grows(g, LowerHandler(m, u, stack, h, g)) && SameScope(stack, g, LowerHandler(m, u, stack, h, g))
    decreases u.Keys - Elems(stack), Inline(h), 0
  {
    if h !in stack && h in u {
      LowerLocalsGrows(m, u[h].locals, g);
      var g1 := LowerLocals(m, u[h].locals, g);
      assert SameScope(stack, g, g1);
      if u[h].body.Some? {
        ElemsPush(stack, h);
        LowerGrows(m, u, stack + [h], u[h].body.value, g1);
        GrowsTrans(g, g1, Lower(m, u, stack + [h], u[h].body.value, g1));
      }
    }
  }

  lemma GrowsBranch(g: Gen, g1: Gen, i: Instr, b: nat)
    requires Grows(g, g1) && |g.blocks| <= b < |g1.blocks|
    ensures Grows(g, BranchTo(g1, i, b))
  {
    GrowsEmit(g, g1, i);
    GrowsMove(g, Emit(g1, i), b);
  }

  lemma CondHeadGrows(m: Machine, c: Expr, g: Gen)
    requires g.Valid()
    ensures var h := CondHead(m, c, g);
            Grows(g, h) && h.scope == g.scope && h.errors == g.errors && |g.blocks| + 3 <= |h.blocks|
  {
    GrowsNew(g, g, 3);
    LowerExprGrows(m, c, NewBlocks(g, 3));
    var (g1, v) := LowerExpr(m, c, NewBlocks(g, 3));
    GrowsTrans(g, NewBlocks(g, 3), g1);
    GrowsBranch(g, g1, CondBr(v, |g.blocks|, |g.blocks| + 1), |g.blocks|);
  }

  /** One arm of a conditional: statement t lowered from h, then on to block b. */
  lemma {:induction false} ArmGrows(m: Machine, u: Unit, stack: seq<string>, t: Stmt, g: Gen, h: Gen, i: Instr, b: nat)
    requires OwnLocals(u) && Grows(g, h) && |g.blocks| <= b < |h.blocks|
    ensures var r := BranchTo(Lower(m, u, stack, t, h), i, b);
            Grows(g, r) && SameScope(stack, h, r) && |h.blocks| <= |r.blocks|
    decreases u.Keys - Elems(stack), t, 2
  {
    LowerGrows(m, u, stack, t, h);
    var r := Lower(m, u, stack, t, h);
    GrowsTrans(g, h, r);
    GrowsBranch(g, r, i, b);
  }

  lemma {:induction false} LowerCondGrows(m: Machine, u: Unit, stack: seq<string>, s: Stmt, g: Gen)
    requires g.Valid() && OwnLocals(u) && s.Cond?
    ensures Grows(g, Lower(m, u, stack, s, g)) && SameScope(stack, g, Lower(m, u, stack, s, g))
    decreases u.Keys - Elems(stack), s, 0
  {
    hide CondHead, Grows, SameScope, BranchTo, OwnLocals;
    var n := |g.blocks|;
    CondHeadGrows(m, s.c, g);
    var h1 := CondHead(m, s.c, g);
    ArmGrows(m, u, stack, s.thn, g, h1, Br(n + 2), n + 1);
    var h2 := BranchTo(Lower(m, u, stack, s.thn, h1), Br(n + 2), n + 1);
    ArmGrows(m, u, stack, s.els, g, h2, Br(n + 2), n + 2);
    ScopeSteps(stack, g, h1, h2, BranchTo(Lower(m, u, stack, s.els, h2), Br(n + 2), n + 2));
  }

  lemma ScopeSteps(stack: seq<string>, g: Gen, h1: Gen, h2: Gen, r: Gen)
    requires h1.scope == g.scope && SameScope(stack, h1, h2) && SameScope(stack, h2, r)
    ensures SameScope(stack, g, r)
  {
  }

  lemma {:induction false} LowerSwitchGrows(m: Machine, u: Unit, stack: seq<string>, mc: MatchClass, c: Expr,
        cases: seq<Case>, other: Option<Stmt>, g: Gen)
    requires g.Valid() && OwnLocals(u)
    ensures var s := Switch(mc, c, cases, other);
            Grows(g, Lower(m, u, stack, s, g)) && SameScope(stack, g, Lower(m, u, stack, s, g))
    decreases u.Keys - Elems(stack), Switch(mc, c, cases, other), 0
  {
    hide LowerExpr, LowerCases;
    LowerExprGrows(m, c, g);
    var (g1, v) := LowerExpr(m, c, g);
    var cont := |g1.blocks|;
    var o := g1.cur;
    var k := |g1.blocks[o]|;
    GrowsNew(g, g1, 1);
    GrowsEmit(g, NewBlocks(g1, 1), Match(mc, v, [], [], cont));
    var g2 := Emit(NewBlocks(g1, 1), Match(mc, v, [], [], cont));
    LowerCasesGrows(m, u, stack, cases, cont, o, k, g, g2);
    var g3 := LowerCases(m, u, stack, cases, cont, o, k, g2);
    match other {
      case Some(t) => OtherGrows(m, u, stack, t, cont, o, k, g, g3);
      case None =>
        SetElseGrows(g, g3, o, k, cont);
        GrowsMove(g, SetElse(g3, o, k, cont), cont);
    }
  }

  /** The block of the `else` arm. */
  lemma {:induction false} OtherGrows(m: Machine, u: Unit, stack: seq<string>, t: Stmt, cont: nat, o: nat, k: nat,
        g: Gen, g3: Gen)
    requires OwnLocals(u) && Grows(g, g3) && SameScope(stack, g, g3) && |g.blocks| <= cont < |g3.blocks|
    requires o == g.cur || |g.blocks| <= o
    requires o == g.cur ==> |g.blocks[o]| <= k
    ensures var n := |g3.blocks|; var h := MoveTo(NewBlocks(g3, 1), n);
            var g4 := Emit(Lower(m, u, stack, t, h), Br(cont));
            var r := MoveTo(SetElse(g4, o, k, n), cont);
            Grows(g, r) && SameScope(stack, g, r)
    decreases u.Keys - Elems(stack), t, 2
  {
    var n := |g3.blocks|;
    GrowsNew(g, g3, 1);
    GrowsMove(g, NewBlocks(g3, 1), n);
    var h := MoveTo(NewBlocks(g3, 1), n);
    LowerGrows(m, u, stack, t, h);
    var g4 := Lower(m, u, stack, t, h);
    GrowsTrans(g, h, g4);
    GrowsEmit(g, g4, Br(cont));
    SetElseGrows(g, Emit(g4, Br(cont)), o, k, n);
    GrowsMove(g, SetElse(Emit(g4, Br(cont)), o, k, n), cont);
  }

  lemma SetElseGrows(g: Gen, g1: Gen, o: nat, k: nat, b: nat)
    requires Grows(g, g1)
    requires o == g.cur || |g.blocks| <= o
    requires o == g.cur ==> |g.blocks[o]| <= k
    ensures Grows(g, SetElse(g1, o, k, b)) && |SetElse(g1, o, k, b).blocks| == |g1.blocks|
    ensures SetElse(g1, o, k, b).scope == g1.scope
  {
    var i := MatchAt(g1, o, k);
    if i.Match? {
      GrowsPatch(g, g1, o, k, i.(other := b));
    }
  }

  lemma AddCasesGrows(g: Gen, g1: Gen, o: nat, k: nat, labels: seq<Label>, b: nat)
    requires Grows(g, g1)
    requires o == g.cur || |g.blocks| <= o
    requires o == g.cur ==> |g.blocks[o]| <= k
    ensures Grows(g, AddCases(g1, o, k, labels, b)) && |AddCases(g1, o, k, labels, b).blocks| == |g1.blocks|
    ensures AddCases(g1, o, k, labels, b).scope == g1.scope
  {
    var i := MatchAt(g1, o, k);
    if i.Match? {
      GrowsPatch(g, g1, o, k, i.(labels := i.labels + labels, targets := i.targets + seq(|labels|, _ => b)));
    }
  }

  /** Here g is the state before the whole `match`, g2 the one before these cases. */
  lemma {:induction false} LowerCasesGrows(m: Machine, u: Unit, stack: seq<string>, cases: seq<Case>, cont: nat, o: nat,
        k: nat, g: Gen, g2: Gen)
    requires OwnLocals(u) && Grows(g, g2)
    requires o == g.cur || |g.blocks| <= o
    requires o == g.cur ==> |g.blocks[o]| <= k
    ensures var r := LowerCases(m, u, stack, cases, cont, o, k, g2);
            Grows(g, r) && SameScope(stack, g2, r) && |g2.blocks| <= |r.blocks|
    decreases u.Keys - Elems(stack), cases, 0
  {
    if cases != [] {
      var n := |g2.blocks|;
      GrowsNew(g, g2, 1);
      GrowsMove(g, NewBlocks(g2, 1), n);
      var h := MoveTo(NewBlocks(g2, 1), n);
      var one := cases[0];
      LowerGrows(m, u, stack, one.body, h);
      var h1 := Lower(m, u, stack, one.body, h);
      GrowsTrans(g, h, h1);
      GrowsEmit(g, h1, Br(cont));
      AddCasesGrows(g, Emit(h1, Br(cont)), o, k, one.labels, n);
      LowerCasesGrows(m, u, stack, cases[1..], cont, o, k, g, AddCases(Emit(h1, Br(cont)), o, k, one.labels, n));
    }
  }
}
