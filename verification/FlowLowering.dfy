/**
  Lowering of Flow programs to basic blocks, as functions from generator state to generator
  state. The imperative generator in module IrGenerator computes exactly these functions.
 */
module FlowLowering {
  import opened FlowCore
  import opened FlowAst
  import opened FlowIr

  datatype Problem = Recursive(h: string) | Missing(h: string)

  /** `cur` is the insert point, `next` the identity of the next instruction, `scope` the cell
      of each variable seen so far. Blocks are laid out in the order they are created. */
  datatype Gen = Gen(blocks: Cfg, cur: nat, next: nat, scope: map<Var, nat>, errors: seq<Problem>) {
    predicate Valid() {
      && cur < |blocks|
      && (forall x | x in scope :: scope[x] < next)
    }
  }

  // ---------------------------------------------------------------- building blocks

  /** Appends an instruction at the insert point. */
  function Emit(g: Gen, i: Instr): (r: Gen)
    ensures g.Valid() ==> r.Valid()
    ensures r.cur == g.cur && |r.blocks| == |g.blocks| && r.next == g.next && r.scope == g.scope && r.errors == g.errors
  {
    if g.cur < |g.blocks| then g.(blocks := g.blocks[g.cur := g.blocks[g.cur] + [i]]) else g
  }

  /** Appends an instruction that takes the next identity. */
  function EmitNew(g: Gen, i: Instr): (r: Gen) {
    Emit(g, i).(next := g.next + 1)
  }

  function NewBlocks(g: Gen, n: nat): Gen {
    g.(blocks := g.blocks + seq(n, _ => []))
  }

  function MoveTo(g: Gen, b: nat): Gen {
    g.(cur := b)
  }

  function Fail(g: Gen, p: Problem): Gen {
    g.(errors := g.errors + [p])
  }

  function Lookup(g: Gen, x: Var): nat {
    if x in g.scope then g.scope[x] else 0
  }

  predicate FoldsUn(op: UnOp, c: Const) {
    match op
    case Neg | Not | I2S => c.CInt?
    case BNot => c.CBool?
    case S2I => c.CText?
    case _ => c.CHandle?
  }

  predicate FoldsBin(op: BinOp, c: Const, d: Const) {
    if Numeric(op) then c.CInt? && d.CInt?
    else if op in {BAnd, BXor} then c.CBool? && d.CBool?
    else if op in {IpEq, IpNe, IpInCidr} then c.CHandle? && d.CHandle?
    else op != BOr && c.CText? && d.CText?
  }

  function CreateUn(m: Machine, g: Gen, op: UnOp, v: Value): (Gen, Value) {
    if v.K? && FoldsUn(op, v.c) then (g, K(m.foldUn(op, v.c)))
    else (EmitNew(g, Un(g.next, op, v)), Temp(g.next))
  }

  /** Folds constants; drops an empty string on the left of a concatenation. With an empty
      string on the right the code also returns its right operand, and a non-constant
      exclusive or is built as a conjunction. */
  function CreateBin(m: Machine, g: Gen, op: BinOp, a: Value, b: Value): (Gen, Value) {
    if a.K? && b.K? && FoldsBin(op, a.c, b.c) then (g, K(m.foldBin(op, a.c, b.c)))
    else if op == SAdd && a == K(CText("")) then (g, b)
    else if op == SAdd && !(a.K? && a.c.CText?) && b == K(CText("")) then (g, b)
    else (EmitNew(g, Bin(g.next, if op == BXor then BAnd else op, a, b)), Temp(g.next))
  }

  // ---------------------------------------------------------------- expressions

  function LowerExpr(m: Machine, e: Expr, g: Gen): (Gen, Value)
    decreases e, 1
  {
    match e
    case Lit(c) => (g, K(c))
    case Use(x) =>
      var cell := Lookup(g, x);
      (EmitNew(g, Load(g.next, cell)), Loaded(g.next, cell))
    case Unary(op, a) =>
      var (g1, v) := LowerExpr(m, a, g);
      CreateUn(m, g1, op, v)
    case Binary(op, l, r) =>
      if op == BOr then LowerOr(m, l, r, g) else
        var (g1, a) := LowerExpr(m, l, g);
        var (g2, b) := LowerExpr(m, r, g1);
        CreateBin(m, g2, op, a, b)
    case Call(f, args) =>
      var (g1, vs) := LowerArgs(m, args, g);
      (EmitNew(g1, CallFn(g1.next, f, vs)), Temp(g1.next))
  }

  function LowerArgs(m: Machine, es: seq<Expr>, g: Gen): (r: (Gen, seq<Value>))
    ensures |r.1| == |es|
    decreases es, 0
  {
    if es == [] then (g, []) else
      var (g1, v) := LowerExpr(m, es[0], g);
      var (g2, vs) := LowerArgs(m, es[1..], g1);
      (g2, [v] + vs)
  }

  /** Start of `l or r`: the three blocks, the result cell, the left side and the branch. */
  function OrHead(m: Machine, l: Expr, g: Gen): (Gen, Value)
    decreases l, 2
  {
    var (g1, a) := LowerExpr(m, l, EmitNew(NewBlocks(g, 3), Alloca(g.next)));
    (Emit(g1, CondBr(a, |g.blocks|, |g.blocks| + 1)), a)
  }

  /** The block that runs when the left side is true, leaving the insert point at the other. */
  function OrLeft(g: Gen, a: Value, cell: nat, n: nat): Gen {
    MoveTo(Emit(Emit(MoveTo(g, n), Store(cell, a)), Br(n + 2)), n + 1)
  }

  function OrTail(g: Gen, b: Value, cell: nat, n: nat): Gen {
    MoveTo(Emit(Emit(g, Store(cell, b)), Br(n + 2)), n + 2)
  }

  function LowerOr(m: Machine, l: Expr, r: Expr, g: Gen): (Gen, Value)
    decreases Binary(BOr, l, r), 0
  {
    var n := |g.blocks|;
    var (g1, a) := OrHead(m, l, g);
    var (g2, b) := LowerExpr(m, r, OrLeft(g1, a, g.next, n));
    (OrTail(g2, b, g.next, n), Cell(g.next))
  }

  // ---------------------------------------------------------------- statements

  /** Ends the current block and goes on in block b. */
  function BranchTo(g: Gen, i: Instr, b: nat): Gen {
    MoveTo(Emit(g, i), b)
  }

  /** Start of a conditional: the three blocks, the condition and the branch. */
  function CondHead(m: Machine, c: Expr, g: Gen): Gen {
    var (g1, v) := LowerExpr(m, c, NewBlocks(g, 3));
    BranchTo(g1, CondBr(v, |g.blocks|, |g.blocks| + 1), |g.blocks|)
  }

  function Lower(m: Machine, u: Unit, stack: seq<string>, s: Stmt, g: Gen): Gen
    decreases u.Keys - Elems(stack), s, 1
  {
    match s
    case Expression(e) => LowerExpr(m, e, g).0
    case Assign(x, e) =>
      var (g1, v) := LowerExpr(m, e, g);
      Emit(g1, Store(Lookup(g, x), v))
    case Compound(ss) => LowerAll(m, u, stack, ss, g)
    case Cond(c, thn, els) =>
      var n := |g.blocks|;
      var g1 := Lower(m, u, stack, thn, CondHead(m, c, g));
      var g2 := Lower(m, u, stack, els, BranchTo(g1, Br(n + 2), n + 1));
      BranchTo(g2, Br(n + 2), n + 2)
    case Switch(mc, c, cases, other) =>
      var (g1, v) := LowerExpr(m, c, g);
      var cont := |g1.blocks|;
      var o := g1.cur;
      var k := if o < |g1.blocks| then |g1.blocks[o]| else 0;
      var g2 := Emit(NewBlocks(g1, 1), Match(mc, v, [], [], cont));
      var g3 := LowerCases(m, u, stack, cases, cont, o, k, g2);
      (match other
       case Some(t) =>
         var n := |g3.blocks|;
         var g4 := Lower(m, u, stack, t, MoveTo(NewBlocks(g3, 1), n));
         MoveTo(SetElse(Emit(g4, Br(cont)), o, k, n), cont)
       case None => MoveTo(SetElse(g3, o, k, cont), cont))
    case Invoke(f, args) =>
      var (g1, vs) := LowerArgs(m, args, g);
      EmitNew(g1, CallHn(g1.next, f, vs))
    case Inline(h) => LowerHandler(m, u, stack, h, g)
  }

  function LowerAll(m: Machine, u: Unit, stack: seq<string>, ss: seq<Stmt>, g: Gen): Gen
    decreases u.Keys - Elems(stack), ss, 0
  {
    if ss == [] then g else LowerAll(m, u, stack, ss[1..], Lower(m, u, stack, ss[0], g))
  }

  /** One block per case; the match instruction at position k of block o learns of the case's
      labels once the block is complete. */
  function LowerCases(m: Machine, u: Unit, stack: seq<string>, cases: seq<Case>, cont: nat, o: nat, k: nat, g: Gen): Gen
    decreases u.Keys - Elems(stack), cases, 0
  {
    if cases == [] then g else
      var n := |g.blocks|;
      var one := cases[0];
      var g1 := Lower(m, u, stack, one.body, MoveTo(NewBlocks(g, 1), n));
      LowerCases(m, u, stack, cases[1..], cont, o, k, AddCases(Emit(g1, Br(cont)), o, k, one.labels, n))
  }

  function Patch(g: Gen, o: nat, k: nat, i: Instr): Gen {
    if o < |g.blocks| && k < |g.blocks[o]| then g.(blocks := g.blocks[o := g.blocks[o][k := i]]) else g
  }

  function MatchAt(g: Gen, o: nat, k: nat): Instr {
    if o < |g.blocks| && k < |g.blocks[o]| then g.blocks[o][k] else Ret(false)
  }

  function AddCases(g: Gen, o: nat, k: nat, labels: seq<Label>, b: nat): Gen {
    var i := MatchAt(g, o, k);
    if i.Match? then
      Patch(g, o, k, i.(labels := i.labels + labels, targets := i.targets + seq(|labels|, _ => b)))
    else g
  }

  function SetElse(g: Gen, o: nat, k: nat, b: nat): Gen {
    var i := MatchAt(g, o, k);
    if i.Match? then Patch(g, o, k, i.(other := b)) else g
  }

  /** Expands handler `h` in place: its variables first, then its body. */
  function LowerHandler(m: Machine, u: Unit, stack: seq<string>, h: string, g: Gen): Gen
    decreases u.Keys - Elems(stack), Inline(h), 0
  {
    if h in stack then Fail(g, Recursive(h))
    else if h !in u then Fail(g, Missing(h))
    else
      var g1 := LowerLocals(m, u[h].locals, g);
      if u[h].body.None? then Fail(g1, Missing(h)) else
        ElemsPush(stack, h);
        Lower(m, u, stack + [h], u[h].body.value, g1)
  }

  function LowerLocals(m: Machine, locals: seq<Local>, g: Gen): Gen
    decreases locals
  {
    if locals == [] then g else
      var (g1, v) := LowerExpr(m, locals[0].init, g);
      var cell := g1.next;
      var g2 := EmitNew(g1, Alloca(cell));
      LowerLocals(m, locals[1..], Emit(g2.(scope := g2.scope[locals[0].x := cell]), Store(cell, v)))
  }

  /** An exported handler: expanded into a fresh entry block that ends by returning false. */
  function LowerExported(m: Machine, u: Unit, h: string, g: Gen): Gen {
    Emit(LowerHandler(m, u, [], h, g.(blocks := [[]], cur := 0)), Ret(false))
  }
}
