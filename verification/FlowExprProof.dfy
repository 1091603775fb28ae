/**
  Lowered expressions compute what the expressions mean, under both readings of loads.
 */
module FlowExprProof {
  import opened Wrappers
  import opened FlowCore
  import opened FlowAst
  import opened FlowIr
  import opened FlowLowering
  import opened FlowShape

  // ---------------------------------------------------------------- operators built correctly

  /** The constant an expression is folded to, if it is. */
  function ConstOf(m: Machine, e: Expr): Option<Const> {
    match e
    case Lit(c) => Some(c)
    case Use(_) => None
    case Call(_, _) => None
    case Unary(op, a) =>
      var c := ConstOf(m, a);
      if c.Some? && FoldsUn(op, c.value) then Some(m.foldUn(op, c.value)) else None
    case Binary(op, l, r) =>
      if op == BOr then None else FoldOf(m, op, ConstOf(m, l), ConstOf(m, r))
  }

  function FoldOf(m: Machine, op: BinOp, a: Option<Const>, b: Option<Const>): Option<Const> {
    if a.Some? && b.Some? && FoldsBin(op, a.value, b.value) then Some(m.foldBin(op, a.value, b.value))
    else if op == SAdd && a == Some(CText("")) then b
    else if op == SAdd && !(a.Some? && a.value.CText?) && b == Some(CText("")) then b
    else None
  }

  /** When the builder makes the operator it was asked for: an exclusive or must be folded, and
      an empty string on the right of a concatenation needs a constant on its left. */
  predicate FaithfulBin(op: BinOp, a: Option<Const>, b: Option<Const>) {
    && (op == BXor ==> a.Some? && b.Some? && FoldsBin(op, a.value, b.value))
    && (op == SAdd && b == Some(CText("")) ==> a.Some? && a.value.CText?)
  }

  predicate FaithfulExpr(m: Machine, e: Expr) {
    match e
    case Lit(_) => true
    case Use(_) => true
    case Unary(_, a) => FaithfulExpr(m, a)
    case Binary(op, l, r) =>
      FaithfulExpr(m, l) && FaithfulExpr(m, r) && (op == BOr || FaithfulBin(op, ConstOf(m, l), ConstOf(m, r)))
    case Call(_, args) => forall a | a in args :: FaithfulExpr(m, a)
  }

  function AsConst(v: Value): Option<Const> {
    if v.K? then Some(v.c) else None
  }

  lemma {:induction false} ConstOfLowered(m: Machine, e: Expr, g: Gen)
    ensures AsConst(LowerExpr(m, e, g).1) == ConstOf(m, e)
  {
    match e
    case Lit(_) =>
    case Use(_) =>
    case Call(_, _) =>
    case Unary(op, a) => ConstOfLowered(m, a, g);
    case Binary(op, l, r) =>
      if op != BOr {
        ConstOfLowered(m, l, g);
        ConstOfLowered(m, r, LowerExpr(m, l, g).0);
      }
  }

  // ---------------------------------------------------------------- running what was emitted

  /** The state in which the next instruction to run is the next one to be emitted. */
  function Here(g: Gen, cells: Cells, tr: Trace): State
    requires g.Valid()
  {
    At(g.cur, |g.blocks[g.cur]|, cells, tr)
  }

  /** The finished program G contains everything that was emitted between g and r. */
  ghost predicate Covers(g: Gen, r: Gen, G: Cfg) {
    && |r.blocks| <= |G|
    && (forall b | 0 <= b < |r.blocks| && (b == g.cur || |g.blocks| <= b) :: r.blocks[b] <= G[b])
  }

  ghost predicate Prefixes(g: Gen, r: Gen) {
    && |g.blocks| <= |r.blocks|
    && (forall b | 0 <= b < |g.blocks| :: g.blocks[b] <= r.blocks[b])
  }

  lemma GrowsPrefixes(g: Gen, r: Gen)
    requires Grows(g, r)
    ensures Prefixes(g, r)
  {
  }

  lemma PrefixesTrans(g: Gen, g1: Gen, g2: Gen)
    requires Prefixes(g, g1) && Prefixes(g1, g2)
    ensures Prefixes(g, g2)
  {
    forall b | 0 <= b < |g.blocks| ensures g.blocks[b] <= g2.blocks[b] {
      assert g.blocks[b] <= g1.blocks[b] <= g2.blocks[b];
    }
  }

  /** What covers a stretch covers its beginning and its end. */
  lemma CoversParts(g: Gen, g1: Gen, g2: Gen, G: Cfg)
    requires Grows(g, g1) && Prefixes(g1, g2) && Covers(g, g2, G)
    ensures Covers(g, g1, G) && Covers(g1, g2, G)
  {
    forall b | 0 <= b < |g1.blocks| && (b == g.cur || |g.blocks| <= b) ensures g1.blocks[b] <= G[b] {
      assert g1.blocks[b] <= g2.blocks[b] <= G[b];
    }
  }

  lemma Fetch(g: Gen, i: Instr, G: Cfg)
    requires g.Valid() && |g.blocks| <= |G| && Emit(g, i).blocks[g.cur] <= G[g.cur]
    ensures |g.blocks[g.cur]| < |G[g.cur]| && G[g.cur][|g.blocks[g.cur]|] == i
  {
    assert Emit(g, i).blocks[g.cur][|g.blocks[g.cur]|] == i;
  }

  ghost predicate SameBelow(cells: Cells, cells': Cells, n: nat) {
    forall v: Value | !v.K? && Below(v, n) :: Get(cells, v) == Get(cells', v)
  }

  ghost predicate Agree(vars: set<Var>, scope: map<Var, nat>, cells: Cells, store: Store) {
    forall x | x in vars :: x in scope && Get(cells, Cell(scope[x])) == Read(store, x)
  }

  lemma AgreeSame(vars: set<Var>, g: Gen, cells: Cells, cells': Cells, store: Store)
    requires g.Valid() && Agree(vars, g.scope, cells, store) && SameBelow(cells, cells', g.next)
    ensures Agree(vars, g.scope, cells', store)
  {
    forall x | x in vars ensures Get(cells', Cell(g.scope[x])) == Read(store, x) {
      assert Below(Cell(g.scope[x]), g.next);
    }
  }

  lemma DenSame(mode: Mode, v: Value, cells: Cells, cells': Cells, n: nat)
    requires Below(v, n) && SameBelow(cells, cells', n)
    ensures Den(mode, v, cells) == Den(mode, v, cells')
  {
    if v.Loaded? {
      assert Below(Cell(v.x), n);
    }
  }

  lemma SameTrans(c: Cells, c1: Cells, c2: Cells, n: nat, k: nat)
    requires SameBelow(c, c1, n) && SameBelow(c1, c2, k) && n <= k
    ensures SameBelow(c, c2, n)
  {
    forall v: Value | !v.K? && Below(v, n) ensures Get(c, v) == Get(c2, v) {
      BelowMore(v, n, k);
    }
  }

  /** Running one emitted instruction that writes only the key k. */
  lemma StepHere(m: Machine, mode: Mode, G: Cfg, g: Gen, i: Instr, cells: Cells, tr: Trace, s: State)
    requires g.Valid() && |g.blocks| <= |G| && Emit(g, i).blocks[g.cur] <= G[g.cur]
    requires Reaches(m, mode, G, s, Here(g, cells, tr))
    ensures G[g.cur][|g.blocks[g.cur]|] == i
    ensures Reaches(m, mode, G, s, Step(m, mode, G, Here(g, cells, tr)))
  {
    Fetch(g, i, G);
    ReachesStep(m, mode, G, s, Here(g, cells, tr));
  }

  /** A conditional branch at the insert point goes where its operand says. */
  lemma BranchHere(m: Machine, mode: Mode, G: Cfg, g: Gen, v: Value, t: nat, e: nat, cells: Cells, tr: Trace, s: State)
    requires g.Valid() && |g.blocks| <= |G| && Emit(g, CondBr(v, t, e)).blocks[g.cur] <= G[g.cur]
    requires Reaches(m, mode, G, s, Here(g, cells, tr))
    ensures Reaches(m, mode, G, s, At(if Truthy(Den(mode, v, cells)) then t else e, 0, cells, tr))
  {
    hide Reaches, Den;
    StepHere(m, mode, G, g, CondBr(v, t, e), cells, tr, s);
  }

  lemma CoversHere(g: Gen, x: Instr, G: Cfg)
    requires g.Valid() && Covers(g, Emit(g, x), G)
    ensures |g.blocks| <= |G| && Emit(g, x).blocks[g.cur] <= G[g.cur]
  {
  }

  /** Everything a run of lowered code must deliver for an expression. */
  ghost predicate Delivers(m: Machine, mode: Mode, G: Cfg, g: Gen, cells: Cells, tr: Trace, r: (Gen, Value),
        cells': Cells, w: Val, tr': Trace)
    requires g.Valid() && r.0.Valid()
  {
    && Reaches(m, mode, G, Here(g, cells, tr), Here(r.0, cells', tr'))
    && SameBelow(cells, cells', g.next)
    && Den(mode, r.1, cells') == w
  }

  lemma {:induction false} ExprRuns(m: Machine, mode: Mode, G: Cfg, e: Expr, vars: set<Var>, g: Gen, cells: Cells,
        store: Store, tr: Trace) returns (cells': Cells)
    requires Lawful(m) && g.Valid() && FaithfulExpr(m, e) && ExprOver(e, vars)
    requires Agree(vars, g.scope, cells, store)
    requires Covers(g, LowerExpr(m, e, g).0, G)
    ensures LowerExpr(m, e, g).0.Valid()
    ensures Delivers(m, mode, G, g, cells, tr, LowerExpr(m, e, g), cells', Eval(m, e, store, tr).0,
            Eval(m, e, store, tr).1)
    decreases e, 2
  {
    LowerExprGrows(m, e, g);
    ReachesRefl(m, mode, G, Here(g, cells, tr));
    match e
    case Lit(_) => cells' := cells;
    case Use(x) => cells' := UseRuns(m, mode, G, x, vars, g, cells, store, tr);
    case Unary(op, a) => cells' := UnaryRuns(m, mode, G, op, a, vars, g, cells, store, tr);
    case Binary(op, l, r) =>
      if op == BOr {
        cells' := OrRuns(m, mode, G, l, r, vars, g, cells, store, tr);
      } else {
        cells' := BinaryRuns(m, mode, G, op, l, r, vars, g, cells, store, tr);
      }
    case Call(f, args) => cells' := CallRuns(m, mode, G, f, args, vars, g, cells, store, tr);
  }

  lemma UseRuns(m: Machine, mode: Mode, G: Cfg, x: Var, vars: set<Var>, g: Gen, cells: Cells, store: Store, tr: Trace)
      returns (cells': Cells)
    requires g.Valid() && x in vars && Agree(vars, g.scope, cells, store)
    requires Covers(g, LowerExpr(m, Use(x), g).0, G)
    ensures LowerExpr(m, Use(x), g).0.Valid()
    ensures Delivers(m, mode, G, g, cells, tr, LowerExpr(m, Use(x), g), cells', Read(store, x), tr)
  {
    UseGrows(m, x, g);
    var cell := Lookup(g, x);
    ReachesRefl(m, mode, G, Here(g, cells, tr));
    StepHere(m, mode, G, g, Load(g.next, cell), cells, tr, Here(g, cells, tr));
    cells' := if mode == Alias then cells else cells[Loaded(g.next, cell) := Get(cells, Cell(cell))];
  }

  lemma {:induction false} UnaryRuns(m: Machine, mode: Mode, G: Cfg, op: UnOp, a: Expr, vars: set<Var>, g: Gen,
        cells: Cells, store: Store, tr: Trace) returns (cells': Cells)
    requires Lawful(m) && g.Valid() && FaithfulExpr(m, a) && ExprOver(a, vars)
    requires Agree(vars, g.scope, cells, store)
    requires Covers(g, LowerExpr(m, Unary(op, a), g).0, G)
    ensures LowerExpr(m, Unary(op, a), g).0.Valid()
    ensures Delivers(m, mode, G, g, cells, tr, LowerExpr(m, Unary(op, a), g), cells',
                     m.un(op, Eval(m, a, store, tr).0), Eval(m, a, store, tr).1)
    decreases a, 3
  {
    hide LowerExpr, Eval, Grows, Prefixes, Reaches, Step, FaithfulExpr, ExprOver, Agree, Lawful;
    UnaryIs(m, op, a, g);
    LowerExprGrows(m, a, g);
    var (g1, v) := LowerExpr(m, a, g);
    var i := Un(g1.next, op, v);
    GrowsEmit(g, g1, i);
    GrowsEmit(g1, g1, i);
    GrowsPrefixes(g1, EmitNew(g1, i));
    assert Prefixes(g1, g1) by { PrefixesSelf(g1); }
    CoversParts(g, g1, CreateUn(m, g1, op, v).0, G);
    cells' := ExprRuns(m, mode, G, a, vars, g, cells, store, tr);
    var (w, tr1) := Eval(m, a, store, tr);
    if v.K? && FoldsUn(op, v.c) {
      FoldedUn(m, mode, op, v, cells');
    } else {
      UnRunsHere(m, mode, G, g, g1, op, v, cells, cells', tr, tr1);
      cells' := cells'[Temp(g1.next) := m.un(op, Den(mode, v, cells'))];
    }
  }

  lemma UnaryIs(m: Machine, op: UnOp, a: Expr, g: Gen)
    ensures LowerExpr(m, Unary(op, a), g) == CreateUn(m, LowerExpr(m, a, g).0, op, LowerExpr(m, a, g).1)
  {
  }

  lemma PrefixesSelf(g: Gen)
    requires g.Valid()
    ensures Prefixes(g, g)
  {
  }

  lemma FoldedUn(m: Machine, mode: Mode, op: UnOp, v: Value, cells: Cells)
    requires Lawful(m) && v.K?
    ensures Den(mode, K(m.foldUn(op, v.c)), cells) == m.un(op, Den(mode, v, cells))
  {
  }

  /** An operator instruction at the insert point leaves its result in a new cell. */
  lemma UnRunsHere(m: Machine, mode: Mode, G: Cfg, g: Gen, g1: Gen, op: UnOp, v: Value, cells: Cells, cells1: Cells,
        tr: Trace, tr1: Trace)
    requires g.Valid() && g1.Valid() && g.next <= g1.next && Covers(g1, EmitNew(g1, Un(g1.next, op, v)), G)
    requires Reaches(m, mode, G, Here(g, cells, tr), Here(g1, cells1, tr1)) && SameBelow(cells, cells1, g.next)
    ensures var w := m.un(op, Den(mode, v, cells1)); var r := EmitNew(g1, Un(g1.next, op, v));
            Delivers(m, mode, G, g, cells, tr, (r, Temp(g1.next)), cells1[Temp(g1.next) := w], w, tr1)
  {
    hide Reaches;
    StepHere(m, mode, G, g1, Un(g1.next, op, v), cells1, tr1, Here(g, cells, tr));
  }

  /** The built operator yields the meaning of `op`, once both operands are available. */
  lemma CreateBinRuns(m: Machine, mode: Mode, G: Cfg, op: BinOp, g: Gen, a: Value, b: Value, cells: Cells, tr: Trace)
      returns (cells': Cells)
    requires Lawful(m) && g.Valid() && FaithfulBin(op, AsConst(a), AsConst(b))
    requires Covers(g, CreateBin(m, g, op, a, b).0, G)
    ensures CreateBin(m, g, op, a, b).0.Valid()
    ensures Delivers(m, mode, G, g, cells, tr, CreateBin(m, g, op, a, b), cells',
                     m.bin(op, Den(mode, a, cells), Den(mode, b, cells)), tr)
  {
    ReachesRefl(m, mode, G, Here(g, cells, tr));
    cells' := cells;
    var r := CreateBin(m, g, op, a, b);
    if r.1 == Temp(g.next) && r.0 != g {
      StepHere(m, mode, G, g, Bin(g.next, op, a, b), cells, tr, Here(g, cells, tr));
      cells' := cells[Temp(g.next) := m.bin(op, Den(mode, a, cells), Den(mode, b, cells))];
    }
  }

  lemma {:induction false} BinaryRuns(m: Machine, mode: Mode, G: Cfg, op: BinOp, l: Expr, r: Expr, vars: set<Var>,
        g: Gen, cells: Cells, store: Store, tr: Trace) returns (cells': Cells)
    requires Lawful(m) && g.Valid() && op != BOr
    requires FaithfulExpr(m, Binary(op, l, r)) && ExprOver(Binary(op, l, r), vars)
    requires Agree(vars, g.scope, cells, store)
    requires Covers(g, LowerExpr(m, Binary(op, l, r), g).0, G)
    ensures LowerExpr(m, Binary(op, l, r), g).0.Valid()
    ensures var (w, tr') := Eval(m, Binary(op, l, r), store, tr);
            Delivers(m, mode, G, g, cells, tr, LowerExpr(m, Binary(op, l, r), g), cells', w, tr')
    decreases Binary(op, l, r), 0
  {
    LowerExprGrows(m, l, g);
    var (g1, a) := LowerExpr(m, l, g);
    LowerExprGrows(m, r, g1);
    var (g2, b) := LowerExpr(m, r, g1);
    CreateBinGrows(m, g2, g2, op, a, b);
    var g3 := CreateBin(m, g2, op, a, b).0;
    ConstOfLowered(m, l, g);
    ConstOfLowered(m, r, g1);
    BinaryCovers(G, g, g1, g2, g3);
    var c1 := ExprRuns(m, mode, G, l, vars, g, cells, store, tr);
    var (w1, tr1) := Eval(m, l, store, tr);
    AgreeSame(vars, g, cells, c1, store);
    var c2 := ExprRuns(m, mode, G, r, vars, g1, c1, store, tr1);
    var (w2, tr2) := Eval(m, r, store, tr1);
    DenSame(mode, a, c1, c2, g1.next);
    cells' := CreateBinRuns(m, mode, G, op, g2, a, b, c2, tr2);
    SameTrans(cells, c1, c2, g.next, g1.next);
    SameTrans(cells, c2, cells', g.next, g2.next);
    ReachesTrans(m, mode, G, Here(g, cells, tr), Here(g1, c1, tr1), Here(g2, c2, tr2));
    ReachesTrans(m, mode, G, Here(g, cells, tr), Here(g2, c2, tr2), Here(g3, cells', tr2));
  }

  lemma BinaryCovers(G: Cfg, g: Gen, g1: Gen, g2: Gen, g3: Gen)
    requires Grows(g, g1) && Grows(g1, g2) && Grows(g2, g3) && Covers(g, g3, G)
    ensures Covers(g, g1, G) && Covers(g1, g2, G) && Covers(g2, g3, G)
  {
    GrowsPrefixes(g1, g2);
    GrowsPrefixes(g2, g3);
    PrefixesTrans(g1, g2, g3);
    CoversParts(g, g1, g3, G);
    CoversParts(g1, g2, g3, G);
  }

  // ---------------------------------------------------------------- calls

  lemma {:induction false} ArgsRun(m: Machine, mode: Mode, G: Cfg, es: seq<Expr>, vars: set<Var>, g: Gen, cells: Cells,
        store: Store, tr: Trace) returns (cells': Cells)
    requires Lawful(m) && g.Valid()
    requires forall a | a in es :: FaithfulExpr(m, a) && ExprOver(a, vars)
    requires Agree(vars, g.scope, cells, store)
    requires Covers(g, LowerArgs(m, es, g).0, G)
    ensures LowerArgs(m, es, g).0.Valid()
    ensures Reaches(m, mode, G, Here(g, cells, tr), Here(LowerArgs(m, es, g).0, cells', EvalAll(m, es, store, tr).1))
    ensures SameBelow(cells, cells', g.next)
    ensures DenAll(mode, LowerArgs(m, es, g).1, cells') == EvalAll(m, es, store, tr).0
    decreases es, 0
  {
    hide Step, Run, Reaches, Lawful, FaithfulExpr, ExprOver;
    LowerArgsGrows(m, es, g);
    if es == [] {
      cells' := cells;
      ReachesRefl(m, mode, G, Here(g, cells, tr));
    } else {
      LowerExprGrows(m, es[0], g);
      var (g1, v) := LowerExpr(m, es[0], g);
      LowerArgsGrows(m, es[1..], g1);
      var (g2, vs) := LowerArgs(m, es[1..], g1);
      GrowsPrefixes(g1, g2);
      CoversParts(g, g1, g2, G);
      var c1 := ExprRuns(m, mode, G, es[0], vars, g, cells, store, tr);
      var (w1, tr1) := Eval(m, es[0], store, tr);
      AgreeSame(vars, g, cells, c1, store);
      cells' := ArgsRun(m, mode, G, es[1..], vars, g1, c1, store, tr1);
      DenSame(mode, v, c1, cells', g1.next);
      SameTrans(cells, c1, cells', g.next, g1.next);
      ReachesTrans(m, mode, G, Here(g, cells, tr), Here(g1, c1, tr1), Here(g2, cells', EvalAll(m, es, store, tr).1));
      assert DenAll(mode, [v] + vs, cells') == [Den(mode, v, cells')] + DenAll(mode, vs, cells');
    }
  }

  lemma {:induction false} CallRuns(m: Machine, mode: Mode, G: Cfg, f: string, args: seq<Expr>, vars: set<Var>, g: Gen,
        cells: Cells, store: Store, tr: Trace) returns (cells': Cells)
    requires Lawful(m) && g.Valid()
    requires FaithfulExpr(m, Call(f, args)) && ExprOver(Call(f, args), vars)
    requires Agree(vars, g.scope, cells, store)
    requires Covers(g, LowerExpr(m, Call(f, args), g).0, G)
    ensures LowerExpr(m, Call(f, args), g).0.Valid()
    ensures var (w, tr') := Eval(m, Call(f, args), store, tr);
            Delivers(m, mode, G, g, cells, tr, LowerExpr(m, Call(f, args), g), cells', w, tr')
    decreases Call(f, args), 0
  {
    LowerArgsGrows(m, args, g);
    var (g1, vs) := LowerArgs(m, args, g);
    var i := CallFn(g1.next, f, vs);
    GrowsEmit(g1, g1, i);
    GrowsPrefixes(g1, EmitNew(g1, i));
    CoversParts(g, g1, EmitNew(g1, i), G);
    var c1 := ArgsRun(m, mode, G, args, vars, g, cells, store, tr);
    var (ws, tr1) := EvalAll(m, args, store, tr);
    StepHere(m, mode, G, g1, i, c1, tr1, Here(g, cells, tr));
    cells' := c1[Temp(g1.next) := m.call(f, ws, tr1)];
    assert SameBelow(c1, cells', g1.next);
    SameTrans(cells, c1, cells', g.next, g1.next);
  }

  // ---------------------------------------------------------------- `or`

  lemma {:induction false} OrHeadRuns(m: Machine, mode: Mode, G: Cfg, l: Expr, vars: set<Var>, g: Gen, cells: Cells,
        store: Store, tr: Trace) returns (c1: Cells)
    requires Lawful(m) && g.Valid() && FaithfulExpr(m, l) && ExprOver(l, vars)
    requires Agree(vars, g.scope, cells, store)
    requires Covers(g, OrHead(m, l, g).0, G)
    ensures var (w, tr1) := Eval(m, l, store, tr);
            && Reaches(m, mode, G, Here(g, cells, tr), At(if Truthy(w) then |g.blocks| else |g.blocks| + 1, 0, c1, tr1))
            && Den(mode, OrHead(m, l, g).1, c1) == w
    ensures SameBelow(cells, c1, g.next + 1)
    decreases l, 3
  {
    hide LowerExpr, Eval, FaithfulExpr, ExprOver, Lawful, Reaches, Run, Den, Covers, Agree;
    OrHeadGrows(m, l, g);
    var n := |g.blocks|;
    var ga := NewBlocks(g, 3);
    GrowsNew(g, g, 3);
    GrowsEmit(g, ga, Alloca(g.next));
    var g0 := EmitNew(ga, Alloca(g.next));
    LowerExprGrows(m, l, g0);
    var (g1, a) := LowerExpr(m, l, g0);
    var i := CondBr(a, n, n + 1);
    GrowsEmit(g1, g1, i);
    BinaryCovers(G, g, g0, g1, Emit(g1, i));
    CoversHere(g1, i, G);
    AllocaRuns(m, mode, G, g, ga, g0, cells, tr);
    c1 := ExprRuns(m, mode, G, l, vars, g0, cells, store, tr);
    var (w, tr1) := Eval(m, l, store, tr);
    ReachesTrans(m, mode, G, Here(g, cells, tr), Here(g0, cells, tr), Here(g1, c1, tr1));
    BranchHere(m, mode, G, g1, a, n, n + 1, c1, tr1, Here(g, cells, tr));
  }

  lemma AllocaRuns(m: Machine, mode: Mode, G: Cfg, g: Gen, ga: Gen, g0: Gen, cells: Cells, tr: Trace)
    requires g.Valid() && ga == NewBlocks(g, 3) && g0 == EmitNew(ga, Alloca(g.next)) && Covers(g, g0, G)
    ensures Reaches(m, mode, G, Here(g, cells, tr), Here(g0, cells, tr))
  {
    hide Reaches;
    ReachesRefl(m, mode, G, Here(g, cells, tr));
    StepHere(m, mode, G, ga, Alloca(g.next), cells, tr, Here(g, cells, tr));
  }

  /** Both arms of `or` store their value into the result cell and go to the last block. */
  lemma StoreAndLeave(m: Machine, mode: Mode, G: Cfg, g: Gen, cell: nat, v: Value, t: nat, cells: Cells, tr: Trace,
        s: State)
    requires g.Valid() && |g.blocks| <= |G| && Emit(Emit(g, Store(cell, v)), Br(t)).blocks[g.cur] <= G[g.cur]
    requires Reaches(m, mode, G, s, Here(g, cells, tr))
    ensures Reaches(m, mode, G, s, At(t, 0, cells[Cell(cell) := Den(mode, v, cells)], tr))
  {
    var g1 := Emit(g, Store(cell, v));
    assert g1.blocks[g.cur] <= Emit(g1, Br(t)).blocks[g.cur];
    StepHere(m, mode, G, g, Store(cell, v), cells, tr, s);
    StepHere(m, mode, G, g1, Br(t), cells[Cell(cell) := Den(mode, v, cells)], tr, s);
  }

  /** The blocks of `l or r` in the finished program. */
  lemma {:induction false} OrCovers(m: Machine, l: Expr, r: Expr, g: Gen, G: Cfg)
    requires g.Valid() && Covers(g, LowerOr(m, l, r, g).0, G)
    ensures var n := |g.blocks|;
            var (g1, a) := OrHead(m, l, g);
            var h := OrLeft(g1, a, g.next, n);
            var (g2, b) := LowerExpr(m, r, h);
            && Covers(g, g1, G) && Covers(h, g2, G) && Grows(h, g2) && Below(a, g1.next) && n + 3 <= |G|
            && h.Valid() && h.cur == n + 1 && h.blocks[n + 1] == [] && h.scope == g.scope && h.next == g1.next > g.next
            && [Store(g.next, a), Br(n + 2)] <= G[n]
            && g2.Valid() && |g2.blocks| <= |G|
            && Emit(Emit(g2, Store(g.next, b)), Br(n + 2)).blocks[g2.cur] <= G[g2.cur]
            && LowerOr(m, l, r, g).0.Valid() && LowerOr(m, l, r, g).0.cur == n + 2
            && LowerOr(m, l, r, g).0.blocks[n + 2] == []
  {
    hide LowerExpr, Step, Run;
    var n := |g.blocks|;
    OrHeadGrows(m, l, g);
    OrHeadEmpty(m, l, g);
    var (g1, a) := OrHead(m, l, g);
    OrLeftGrows(g, g1, a, g.next, n);
    var h := OrLeft(g1, a, g.next, n);
    LowerExprGrows(m, r, h);
    var (g2, b) := LowerExpr(m, r, h);
    GrowsTrans(g, h, g2);
    OrTailGrows(g, g2, b, g.next, n);
    var g3 := LowerOr(m, l, r, g).0;
    assert Prefixes(g1, h);
    GrowsPrefixes(h, g2);
    assert Prefixes(g2, g3);
    PrefixesTrans(h, g2, g3);
    PrefixesTrans(g1, h, g3);
    CoversParts(g, g1, g3, G);
    CoversParts(g, h, g3, G);
    CoversParts(h, g2, g3, G);
    assert h.blocks[n] == [Store(g.next, a), Br(n + 2)];
    assert h.blocks[n] <= G[n];
    assert g3.blocks[g2.cur] <= G[g2.cur];
  }

  lemma {:induction false} OrHeadEmpty(m: Machine, l: Expr, g: Gen)
    requires g.Valid()
    ensures var n := |g.blocks|; var g1 := OrHead(m, l, g).0;
            n + 3 <= |g1.blocks| && g1.blocks[n] == [] && g1.blocks[n + 1] == [] && g1.blocks[n + 2] == []
            && g1.cur != n && g1.cur != n + 1 && g1.cur != n + 2
  {
    GrowsNew(g, g, 3);
    GrowsEmit(g, NewBlocks(g, 3), Alloca(g.next));
    var g0 := EmitNew(NewBlocks(g, 3), Alloca(g.next));
    LowerExprGrows(m, l, g0);
  }

  /** The left side was true: its value becomes the result, the right side does not run. */
  lemma {:induction false} OrTrueRuns(m: Machine, mode: Mode, G: Cfg, l: Expr, r: Expr, g: Gen, c1: Cells, tr1: Trace,
        start: State)
    requires g.Valid() && Covers(g, LowerOr(m, l, r, g).0, G)
    requires Reaches(m, mode, G, start, At(|g.blocks|, 0, c1, tr1))
    ensures LowerOr(m, l, r, g).0.Valid()
    ensures Reaches(m, mode, G, start,
                    Here(LowerOr(m, l, r, g).0, c1[Cell(g.next) := Den(mode, OrHead(m, l, g).1, c1)], tr1))
  {
    hide LowerExpr, Covers, Run, Den, Grows, Prefixes, OrHead, OrLeft;
    OrCovers(m, l, r, g, G);
    var n, a := |g.blocks|, OrHead(m, l, g).1;
    assert G[n][0] == Store(g.next, a) && G[n][1] == Br(n + 2);
    ReachesStep(m, mode, G, start, At(n, 0, c1, tr1));
    ReachesStep(m, mode, G, start, At(n, 1, c1[Cell(g.next) := Den(mode, a, c1)], tr1));
  }

  /** The left side was false: the right side runs and its value is stored. */
  lemma {:induction false} OrFalseRuns(m: Machine, mode: Mode, G: Cfg, l: Expr, r: Expr, vars: set<Var>, g: Gen,
        c1: Cells, store: Store, tr1: Trace, start: State) returns (c2: Cells)
    requires Lawful(m) && g.Valid() && FaithfulExpr(m, r) && ExprOver(r, vars)
    requires Agree(vars, g.scope, c1, store) && Covers(g, LowerOr(m, l, r, g).0, G)
    requires Reaches(m, mode, G, start, At(|g.blocks| + 1, 0, c1, tr1))
    ensures LowerOr(m, l, r, g).0.Valid()
    ensures var (w, tr2) := Eval(m, r, store, tr1);
            Reaches(m, mode, G, start, Here(LowerOr(m, l, r, g).0, c2[Cell(g.next) := w], tr2))
    ensures SameBelow(c1, c2, g.next)
    decreases Binary(BOr, l, r), 0
  {
    hide Run, Reaches, LowerExpr, FaithfulExpr, Lawful;
    OrCovers(m, l, r, g, G);
    var n := |g.blocks|;
    var (g1, a) := OrHead(m, l, g);
    var h := OrLeft(g1, a, g.next, n);
    var (g2, b) := LowerExpr(m, r, h);
    c2 := ExprRuns(m, mode, G, r, vars, h, c1, store, tr1);
    var (w, tr2) := Eval(m, r, store, tr1);
    ReachesTrans(m, mode, G, start, Here(h, c1, tr1), Here(g2, c2, tr2));
    StoreAndLeave(m, mode, G, g2, g.next, b, n + 2, c2, tr2, start);
    SameTrans(c1, c1, c2, g.next, h.next);
  }

  lemma {:induction false} OrRuns(m: Machine, mode: Mode, G: Cfg, l: Expr, r: Expr, vars: set<Var>, g: Gen,
        cells: Cells, store: Store, tr: Trace) returns (cells': Cells)
    requires Lawful(m) && g.Valid()
    requires FaithfulExpr(m, Binary(BOr, l, r)) && ExprOver(Binary(BOr, l, r), vars)
    requires Agree(vars, g.scope, cells, store)
    requires Covers(g, LowerOr(m, l, r, g).0, G)
    ensures LowerOr(m, l, r, g).0.Valid()
    ensures var (w, tr') := Eval(m, Binary(BOr, l, r), store, tr);
            Delivers(m, mode, G, g, cells, tr, LowerOr(m, l, r, g), cells', w, tr')
    decreases Binary(BOr, l, r), 1
  {
    hide Step, Run, LowerExpr, OrHead, OrLeft, OrTail, Grows, Prefixes, FaithfulBin, Lawful;
    assert Covers(g, OrHead(m, l, g).0, G) by { OrCovers(m, l, r, g, G); }
    var c1 := OrHeadRuns(m, mode, G, l, vars, g, cells, store, tr);
    var (w1, tr1) := Eval(m, l, store, tr);
    AgreeMore(vars, g, g, cells, c1, store);
    if Truthy(w1) {
      OrTrueRuns(m, mode, G, l, r, g, c1, tr1, Here(g, cells, tr));
      cells' := c1[Cell(g.next) := w1];
    } else {
      var c2 := OrFalseRuns(m, mode, G, l, r, vars, g, c1, store, tr1, Here(g, cells, tr));
      SameTrans(cells, c1, c2, g.next, g.next);
      cells' := c2[Cell(g.next) := Eval(m, r, store, tr1).0];
    }
  }

  lemma AgreeMore(vars: set<Var>, g: Gen, h: Gen, cells: Cells, c1: Cells, store: Store)
    requires g.Valid() && h.scope == g.scope
    requires Agree(vars, g.scope, cells, store) && SameBelow(cells, c1, g.next + 1)
    ensures Agree(vars, h.scope, c1, store) && SameBelow(cells, c1, g.next)
  {
    forall v: Value | !v.K? && Below(v, g.next) ensures Get(cells, v) == Get(c1, v) {
      BelowMore(v, g.next, g.next + 1);
    }
    AgreeSame(vars, g, cells, c1, store);
  }
}
