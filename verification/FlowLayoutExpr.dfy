/**
  Lowering an expression keeps the builder's invariant.
 */
module FlowLayoutExpr {
  import opened FlowCore
  import opened FlowAst
  import opened FlowIr
  import opened FlowLowering
  import opened FlowShape
  import opened FlowRegisters
  import opened FlowTargetProof
  import opened FlowLayout
  import E = FlowExprProof

  /** The open blocks after lowering went from g to r: the current block moved. */
  function Reopen(open: set<nat>, g: Gen, r: Gen): set<nat> {
    open - {g.cur} + {r.cur}
  }

  /** The builder may go on at g: sound, its current block open, the variables at hand. */
  ghost predicate Going(g: Gen, open: set<nat>, vars: set<Var>) {
    Sound(g, open) && g.cur in open && (forall b | b in open :: b < |g.blocks|) && VarsAvail(g, vars)
  }

  lemma ReopenTwice(open: set<nat>, g: Gen, g1: Gen, g2: Gen)
    requires Grows(g, g1) && g.cur in open && forall b | b in open :: b < |g.blocks|
    ensures Reopen(Reopen(open, g, g1), g1, g2) == Reopen(open, g, g2)
  {
  }

  lemma StandSafe(op: BinOp, id: nat, a: Value, b: Value)
    requires CompilableBin(op, E.AsConst(a), E.AsConst(b)) && Emitted(op, E.AsConst(a), E.AsConst(b))
    ensures SafeInstr(Bin(id, if op == BXor then BAnd else op, a, b))
  {
  }

  ghost predicate ExprSoundAt(g: Gen, open: set<nat>, vars: set<Var>, r: (Gen, Value)) {
    r.0.Valid() && Going(r.0, Reopen(open, g, r.0), vars) && Avail(r.0, r.1)
  }

  lemma {:induction false} ExprSound(m: Machine, e: Expr, g: Gen, open: set<nat>, vars: set<Var>)
    requires Going(g, open, vars) && CompilableExpr(m, e) && ExprOver(e, vars)
    ensures ExprSoundAt(g, open, vars, LowerExpr(m, e, g))
    decreases e, 1
  {
    hide Sound, VarsAvail, SafeInstr;
    GoingValid(g, open, vars);
    LowerExprGrows(m, e, g);
    match e
    case Lit(_) => ReopenSame(open, g);
    case Use(x) => UseSound(m, x, g, open, vars);
    case Unary(op, a) =>
      ExprSound(m, a, g, open, vars);
      LowerExprGrows(m, a, g);
      E.ConstOfLowered(m, a, g);
      var (g1, v) := LowerExpr(m, a, g);
      if !(v.K? && FoldsUn(op, v.c)) {
        SafeSimple(Un(g1.next, op, v));
        DefineSound(g, g1, open, vars, Un(g1.next, op, v));
      }
    case Binary(op, l, r) =>
      if op == BOr {
        OrSound(m, l, r, g, open, vars);
      } else {
        BinarySound(m, e, g, open, vars);
      }
    case Call(f, args) =>
      ArgsSound(m, args, g, open, vars);
      LowerArgsGrows(m, args, g);
      var (g1, vs) := LowerArgs(m, args, g);
      ArgsSafe(m, args, g);
      SafeSimple(CallFn(g1.next, f, vs));
      DefineSound(g, g1, open, vars, CallFn(g1.next, f, vs));
  }

  lemma SafeSimple(x: Instr)
    requires !x.Bin? && forall v | v in Operands(x) :: SafeOperand(v)
    ensures SafeInstr(x)
  {
  }

  lemma VarsAvailSame(g: Gen, r: Gen, vars: set<Var>)
    requires Grows(g, r) && VarsAvail(g, vars) && r.scope == g.scope
    ensures VarsAvail(r, vars)
  {
    VarsAvailKept(g, r, vars);
  }

  lemma GoingValid(g: Gen, open: set<nat>, vars: set<Var>)
    requires Going(g, open, vars)
    ensures g.Valid()
  {
  }

  lemma ReopenSame(open: set<nat>, g: Gen)
    requires g.cur in open
    ensures Reopen(open, g, g) == open
  {
  }

  /** Emitting a defining instruction after lowering from g to g1. */
  lemma DefineSound(g: Gen, g1: Gen, open: set<nat>, vars: set<Var>, x: Instr)
    requires Grows(g, g1) && Going(g1, Reopen(open, g, g1), vars) && !IsTerminator(x)
    requires SafeInstr(x) && (forall v | v in Operands(x) :: Avail(g1, v))
    requires DefOf(x).Some? && IdOf(DefOf(x).value) == g1.next
    ensures ExprSoundAt(g, open, vars, (EmitNew(g1, x), DefOf(x).value))
  {
    hide Sound, SafeInstr;
    var open1 := Reopen(open, g, g1);
    EmitSound(g1, open1, x);
    GrowsEmit(g1, g1, x);
    VarsAvailKept(g1, EmitNew(g1, x), vars);
    assert Reopen(open, g, EmitNew(g1, x)) == open1;
  }

  lemma UseSound(m: Machine, x: Var, g: Gen, open: set<nat>, vars: set<Var>)
    requires Going(g, open, vars) && x in vars
    ensures ExprSoundAt(g, open, vars, LowerExpr(m, Use(x), g))
  {
    ReopenSame(open, g);
    DefineSound(g, g, open, vars, Load(g.next, g.scope[x]));
  }

  lemma {:induction false} ArgsSound(m: Machine, es: seq<Expr>, g: Gen, open: set<nat>, vars: set<Var>)
    requires Going(g, open, vars) && forall a | a in es :: CompilableExpr(m, a) && ExprOver(a, vars)
    ensures var (r, vs) := LowerArgs(m, es, g);
            r.Valid() && Going(r, Reopen(open, g, r), vars) && forall v | v in vs :: Avail(r, v)
    decreases es, 0
  {
    hide Sound, VarsAvail, SafeInstr, Avail;
    GoingValid(g, open, vars);
    LowerArgsGrows(m, es, g);
    if es == [] {
      ReopenSame(open, g);
    } else {
      ExprSound(m, es[0], g, open, vars);
      LowerExprGrows(m, es[0], g);
      var (g1, v) := LowerExpr(m, es[0], g);
      ArgsSound(m, es[1..], g1, Reopen(open, g, g1), vars);
      LowerArgsGrows(m, es[1..], g1);
      var (g2, vs) := LowerArgs(m, es[1..], g1);
      AvailKept(g1, g2, v);
      ReopenTwice(open, g, g1, g2);
    }
  }

  lemma {:induction false} ArgsSafe(m: Machine, es: seq<Expr>, g: Gen)
    requires forall a | a in es :: SafeC(E.ConstOf(m, a))
    ensures forall v | v in LowerArgs(m, es, g).1 :: SafeOperand(v)
  {
    if es != [] {
      E.ConstOfLowered(m, es[0], g);
      ArgsSafe(m, es[1..], LowerExpr(m, es[0], g).0);
    }
  }

  lemma {:induction false} BinarySound(m: Machine, e: Expr, g: Gen, open: set<nat>, vars: set<Var>)
    requires Going(g, open, vars) && CompilableExpr(m, e) && ExprOver(e, vars) && e.Binary? && e.op != BOr
    ensures ExprSoundAt(g, open, vars, LowerExpr(m, e, g))
    decreases e, 0
  {
    hide Sound, VarsAvail, SafeInstr, Avail, Going, CompilableBin, CreateBin;
    GoingValid(g, open, vars);
    ExprSound(m, e.l, g, open, vars);
    LowerExprGrows(m, e.l, g);
    var (g1, a) := LowerExpr(m, e.l, g);
    ExprSound(m, e.r, g1, Reopen(open, g, g1), vars);
    LowerExprGrows(m, e.r, g1);
    var (g2, b) := LowerExpr(m, e.r, g1);
    AvailKept(g1, g2, a);
    GoingCur(g, open, vars);
    ReopenTwice(open, g, g1, g2);
    GrowsTrans(g, g1, g2);
    E.ConstOfLowered(m, e.l, g);
    E.ConstOfLowered(m, e.r, g1);
    CreateBinSound(m, g, g2, open, vars, e.op, a, b);
  }

  lemma GoingCur(g: Gen, open: set<nat>, vars: set<Var>)
    requires Going(g, open, vars)
    ensures g.cur in open && forall b | b in open :: b < |g.blocks|
  {
  }

  lemma CreateBinSound(m: Machine, g: Gen, g2: Gen, open: set<nat>, vars: set<Var>, op: BinOp, a: Value, b: Value)
    requires Grows(g, g2) && Going(g2, Reopen(open, g, g2), vars) && Avail(g2, a) && Avail(g2, b) && op != BOr
    requires CompilableBin(op, E.AsConst(a), E.AsConst(b))
    ensures ExprSoundAt(g, open, vars, CreateBin(m, g2, op, a, b))
  {
    hide Sound, VarsAvail, SafeInstr;
    if Emitted(op, E.AsConst(a), E.AsConst(b)) {
      StandSafe(op, g2.next, a, b);
      DefineSound(g, g2, open, vars, Bin(g2.next, if op == BXor then BAnd else op, a, b));
    }
  }

  // ---------------------------------------------------------------- `or`

  /** Before the left side: three more open blocks and the result cell. */
  lemma OrStartSound(g: Gen, open: set<nat>, vars: set<Var>)
    requires Going(g, open, vars)
    ensures var g0 := EmitNew(NewBlocks(g, 3), Alloca(g.next));
            Going(g0, open + NewIds(g, 3), vars) && Grows(g, g0) && Avail(g0, Cell(g.next))
  {
    hide SafeInstr;
    NewSound(g, open, 3);
    GrowsNew(g, g, 3);
    SafeSimple(Alloca(g.next));
    EmitSound(NewBlocks(g, 3), open + NewIds(g, 3), Alloca(g.next));
    GrowsEmit(g, NewBlocks(g, 3), Alloca(g.next));
    VarsAvailKept(g, EmitNew(NewBlocks(g, 3), Alloca(g.next)), vars);
  }

  /** The left side and the branch: the starting block is closed, the three others stay open. */
  lemma {:induction false} OrHeadSound(m: Machine, l: Expr, g: Gen, open: set<nat>, vars: set<Var>)
    requires Going(g, open, vars) && CompilableExpr(m, l) && ExprOver(l, vars) && SafeC(E.ConstOf(m, l))
    ensures OrHead(m, l, g).0.Valid() && Sound(OrHead(m, l, g).0, open - {g.cur} + NewIds(g, 3))
    decreases l, 2
  {
    hide Sound, VarsAvail, Avail;
    OrStartSound(g, open, vars);
    GoingValid(g, open, vars);
    var g0 := EmitNew(NewBlocks(g, 3), Alloca(g.next));
    var n, open0 := |g.blocks|, open + NewIds(g, 3);
    ExprSound(m, l, g0, open0, vars);
    LowerExprGrows(m, l, g0);
    E.ConstOfLowered(m, l, g0);
    var (g1, a) := LowerExpr(m, l, g0);
    CloseSound(g1, Reopen(open0, g0, g1), CondBr(a, n, n + 1));
    assert Reopen(open0, g0, g1) - {g1.cur} == open - {g.cur} + NewIds(g, 3);
  }

  /** A value defined in the block where the `or` starts is known in its blocks. */
  lemma StoreOperands(g: Gen, h: Gen, a: Value)
    requires h.Valid() && |g.blocks| <= h.cur && g.cur < |g.blocks| && (a.K? || DefinedIn(h.blocks, a, g.cur))
    ensures Avail(h, a)
  {
    if !a.K? {
      var i: nat :| DefinedAt(h.blocks, a, g.cur, i);
      assert Earlier(g.cur, i, h.cur, |h.blocks[h.cur]|);
    }
  }

  /** Stores a value into the result cell and goes to the last block. */
  lemma StoreAndClose(g: Gen, open: set<nat>, cell: nat, v: Value, t: nat)
    requires Sound(g, open) && g.cur in open && t < |g.blocks|
    requires Avail(g, v) && Avail(g, Cell(cell)) && SafeOperand(v)
    ensures Sound(Emit(Emit(g, Store(cell, v)), Br(t)), open - {g.cur})
  {
    hide BlockOk, Unique, DefsBelow;
    EmitSound(g, open, Store(cell, v));
    CloseSound(Emit(g, Store(cell, v)), open, Br(t));
  }

  lemma {:induction false} OrLeftSound(m: Machine, l: Expr, g: Gen, open: set<nat>, vars: set<Var>)
    requires Going(g, open, vars) && CompilableExpr(m, l) && ExprOver(l, vars) && SafeC(E.ConstOf(m, l)) && Early(m, l)
    ensures var (g1, a) := OrHead(m, l, g); var h := OrLeft(g1, a, g.next, |g.blocks|);
            Going(h, open - {g.cur} + {|g.blocks| + 1, |g.blocks| + 2}, vars) && Grows(g, h)
    decreases l, 3
  {
    hide Sound, VarsAvail, LowerExpr, CompilableExpr, ExprOver, Early, SafeC, E.ConstOf, Moves, OrHead, Grows;
    GoingValid(g, open, vars);
    var n := |g.blocks|;
    OrHeadSound(m, l, g, open, vars);
    OrHeadGrows(m, l, g);
    var (g1, a) := OrHead(m, l, g);
    var open1 := open - {g.cur} + NewIds(g, 3);
    MoveSound(g1, open1, n);
    var h0 := MoveTo(g1, n);
    OrLeftValue(m, l, g);
    StoreOperands(g, h0, a);
    StoreOperands(g, h0, Cell(g.next));
    StoreAndClose(h0, open1, g.next, a, n + 2);
    var h1 := Emit(Emit(h0, Store(g.next, a)), Br(n + 2));
    MoveSound(h1, open1 - {n}, n + 1);
    OrLeftGrows(g, g1, a, g.next, n);
    var h := OrLeft(g1, a, g.next, n);
    assert open1 - {n} == open - {g.cur} + {n + 1, n + 2};
    VarsAvailSame(g, h, vars);
  }

  lemma GrowsValid(g: Gen, r: Gen)
    requires Grows(g, r)
    ensures r.Valid()
  {
  }

  lemma OrLeftValue(m: Machine, l: Expr, g: Gen)
    requires g.Valid() && Early(m, l) && SafeC(E.ConstOf(m, l))
    ensures var (g1, a) := OrHead(m, l, g); (a.K? || DefinedIn(g1.blocks, a, g.cur)) && SafeOperand(a)
    ensures DefinedIn(OrHead(m, l, g).0.blocks, Cell(g.next), g.cur)
  {
    hide LowerExpr, DefinedIn, E.ConstOf, Early, Moves, Emit, Grows, SafeConst;
    var g0 := EmitNew(NewBlocks(g, 3), Alloca(g.next));
    GrowsNew(g, g, 3);
    GrowsEmit(g, NewBlocks(g, 3), Alloca(g.next));
    LowerExprGrows(m, l, g0);
    var (g1', a) := LowerExpr(m, l, g0);
    EarlyDefined(m, l, g0);
    E.ConstOfLowered(m, l, g0);
    var x := CondBr(a, |g.blocks|, |g.blocks| + 1);
    assert g1'.Valid() by { GrowsValid(g0, g1'); }
    if !a.K? { DefinedInEmit(g1', x, a, g.cur); }
    OrHeadCell(m, l, g);
  }

  /** The right side, lowered from h, and its store: only the last block stays open. */
  lemma {:induction false} OrRightSound(m: Machine, r: Expr, g: Gen, h: Gen, open: set<nat>, vars: set<Var>, n: nat)
    requires g.Valid() && n == |g.blocks| && g.cur !in open && (forall b | b in open :: b < n)
    requires Going(h, open + {n + 1, n + 2}, vars) && h.cur == n + 1 && n + 3 <= |h.blocks|
    requires CompilableExpr(m, r) && ExprOver(r, vars) && SafeC(E.ConstOf(m, r))
    requires LowerExpr(m, r, h).0.Valid() && DefinedIn(LowerExpr(m, r, h).0.blocks, Cell(g.next), g.cur)
    ensures var (g2, b) := LowerExpr(m, r, h); Sound(OrTail(g2, b, g.next, n), open + {n + 2})
    decreases r, 2
  {
    hide Sound, VarsAvail, LowerExpr, CompilableExpr, ExprOver, E.ConstOf, DefinedIn, SafeInstr;
    GoingValid(h, open + {n + 1, n + 2}, vars);
    ExprSound(m, r, h, open + {n + 1, n + 2}, vars);
    LowerExprGrows(m, r, h);
    E.ConstOfLowered(m, r, h);
    var (g2, b) := LowerExpr(m, r, h);
    var open2 := Reopen(open + {n + 1, n + 2}, h, g2);
    StoreOperands(g, g2, Cell(g.next));
    StoreAndClose(g2, open2, g.next, b, n + 2);
    assert open2 - {g2.cur} == open + {n + 2};
    MoveSound(Emit(Emit(g2, Store(g.next, b)), Br(n + 2)), open + {n + 2}, n + 2);
  }

  lemma {:induction false} OrSound(m: Machine, l: Expr, r: Expr, g: Gen, open: set<nat>, vars: set<Var>)
    requires Going(g, open, vars) && CompilableExpr(m, Binary(BOr, l, r)) && ExprOver(Binary(BOr, l, r), vars)
    ensures ExprSoundAt(g, open, vars, LowerOr(m, l, r, g))
    decreases Binary(BOr, l, r), 0
  {
    hide Sound, VarsAvail, LowerExpr, OrLeft, OrHead, OrTail, E.ConstOf, Early, Moves, DefinedIn;
    GoingValid(g, open, vars);
    var n := |g.blocks|;
    OrLeftSound(m, l, g, open, vars);
    var (g1, a) := OrHead(m, l, g);
    var h := OrLeft(g1, a, g.next, n);
    OrLeftCur(g1, a, g.next, n);
    OrCellKnown(m, l, r, g);
    LowerExprGrows(m, r, h);
    assert open - {g.cur} + {n + 1, n + 2} == (open - {g.cur}) + {n + 1, n + 2};
    OrRightSound(m, r, g, h, open - {g.cur}, vars, n);
    LowerOrGrows(m, l, r, g);
    var last := LowerOr(m, l, r, g).0;
    OrTailCur(LowerExpr(m, r, h).0, LowerExpr(m, r, h).1, g.next, n);
    VarsAvailSame(g, last, vars);
    OrCellDefined(m, l, r, g);
    StoreOperands(g, last, Cell(g.next));
  }

  lemma OrTailCur(g2: Gen, b: Value, cell: nat, n: nat)
    ensures OrTail(g2, b, cell, n).cur == n + 2
  {
  }

  lemma OrLeftCur(g1: Gen, a: Value, cell: nat, n: nat)
    ensures OrLeft(g1, a, cell, n).cur == n + 1 && |OrLeft(g1, a, cell, n).blocks| == |g1.blocks|
    ensures OrLeft(g1, a, cell, n).scope == g1.scope
  {
  }

  lemma OrCellKnown(m: Machine, l: Expr, r: Expr, g: Gen)
    requires g.Valid()
    ensures var (g1, a) := OrHead(m, l, g); var h := OrLeft(g1, a, g.next, |g.blocks|);
            h.Valid() && DefinedIn(LowerExpr(m, r, h).0.blocks, Cell(g.next), g.cur) && |g.blocks| + 3 <= |h.blocks|
            && h.scope == g.scope
  {
    hide LowerExpr;
    OrHeadGrows(m, l, g);
    OrCellDefined(m, l, r, g);
    var (g1, a) := OrHead(m, l, g);
    OrLeftGrows(g, g1, a, g.next, |g.blocks|);
    var h := OrLeft(g1, a, g.next, |g.blocks|);
    var i: nat :| DefinedAt(g1.blocks, Cell(g.next), g.cur, i);
    assert DefinedAt(h.blocks, Cell(g.next), g.cur, i);
    LowerExprGrows(m, r, h);
    DefinedInKept(h, LowerExpr(m, r, h).0, Cell(g.next), g.cur);
  }
}
