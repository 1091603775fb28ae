/**
  What lowering hands to the code generator: blocks that each end in one terminator, operands
  that are defined before they are used in layout order, and instructions the generator
  translates correctly. The one exception is an `or` whose left value is computed behind a
  nested `or`: its block is laid out before the block that defines the value.
 */
module FlowLayout {
  import opened Wrappers
  import opened FlowCore
  import opened FlowAst
  import opened FlowIr
  import opened FlowLowering
  import opened FlowShape
  import opened FlowRegisters
  import opened FlowTargetProof
  import E = FlowExprProof

  // ---------------------------------------------------------------- the invariant of the builder

  /** Branches stay inside the handler, and a match goes to blocks laid out behind it. */
  predicate TargetsOk(n: nat, b: nat, i: Instr) {
    TargetsBelow(n, i) && (i.Match? ==> forall k | 0 <= k < |i.targets| :: b < i.targets[k])
  }

  ghost predicate InstrOk(G: Cfg, b: nat, i: nat)
    requires b < |G| && i < |G[b]|
  {
    && SafeInstr(G[b][i]) && TargetsOk(|G|, b, G[b][i])
    && (forall v | v in Operands(G[b][i]) && !v.K? :: DefinedBefore(G, v, b, i))
  }

  /** Block b, which is still open or ends in its only terminator. */
  ghost predicate BlockOk(G: Cfg, open: set<nat>, b: nat)
    requires b < |G|
  {
    && (b !in open ==> |G[b]| > 0)
    && (forall i | 0 <= i < |G[b]| :: InstrOk(G, b, i))
    && (forall i | 0 <= i < |G[b]| :: IsTerminator(G[b][i]) <==> b !in open && i == |G[b]| - 1)
  }

  function IdOf(v: Value): nat {
    match v
    case K(_) => 0
    case Temp(id) => id
    case Cell(id) => id
    case Loaded(id, _) => id
  }

  /** Every value is defined at one place. */
  ghost predicate Unique(G: Cfg) {
    forall v, b, i, b', i' | DefinedAt(G, v, b, i) && DefinedAt(G, v, b', i') :: b == b' && i == i'
  }

  ghost predicate DefsBelow(G: Cfg, n: nat) {
    forall v, b, i | DefinedAt(G, v, b, i) :: IdOf(v) < n
  }

  ghost predicate Sound(g: Gen, open: set<nat>) {
    && g.Valid()
    && (forall b | 0 <= b < |g.blocks| :: BlockOk(g.blocks, open, b))
    && Unique(g.blocks) && DefsBelow(g.blocks, g.next)
  }

  /** Operand v may be used at the insert point. */
  ghost predicate Avail(g: Gen, v: Value)
    requires g.Valid()
  {
    v.K? || DefinedBefore(g.blocks, v, g.cur, |g.blocks[g.cur]|)
  }

  ghost predicate VarsAvail(g: Gen, vars: set<Var>)
    requires g.Valid()
  {
    forall x | x in vars :: x in g.scope && Avail(g, Cell(g.scope[x]))
  }

  // ---------------------------------------------------------------- definitions stay

  lemma DefinedKept(G: Cfg, G': Cfg, v: Value, b: nat, i: nat)
    requires |G| <= |G'| && forall c | 0 <= c < |G| :: G[c] <= G'[c]
    requires DefinedBefore(G, v, b, i)
    ensures DefinedBefore(G', v, b, i)
  {
    var b': nat, i': nat :| DefinedAt(G, v, b', i') && Earlier(b', i', b, i);
    assert DefinedAt(G', v, b', i');
  }

  /** What was available stays available: at the same insert point, or in a block made later. */
  lemma AvailKept(g: Gen, r: Gen, v: Value)
    requires Grows(g, r) && Avail(g, v)
    ensures Avail(r, v)
  {
    if !v.K? {
      var b': nat, i': nat :| DefinedAt(g.blocks, v, b', i') && Earlier(b', i', g.cur, |g.blocks[g.cur]|);
      assert DefinedAt(r.blocks, v, b', i');
      assert Earlier(b', i', r.cur, |r.blocks[r.cur]|);
    }
  }

  lemma VarsAvailKept(g: Gen, r: Gen, vars: set<Var>)
    requires Grows(g, r) && VarsAvail(g, vars)
    requires forall x | x in vars :: x in r.scope && (x in g.scope ==> r.scope[x] == g.scope[x])
    ensures VarsAvail(r, vars)
  {
    forall x | x in vars ensures Avail(r, Cell(r.scope[x])) {
      AvailKept(g, r, Cell(g.scope[x]));
    }
  }

  // ---------------------------------------------------------------- builder steps

  lemma InstrOkKept(G: Cfg, G': Cfg, b: nat, i: nat)
    requires |G| <= |G'| && (forall c | 0 <= c < |G| :: G[c] <= G'[c])
    requires b < |G| && i < |G[b]| && InstrOk(G, b, i)
    ensures InstrOk(G', b, i)
  {
    forall v | v in Operands(G'[b][i]) && !v.K? ensures DefinedBefore(G', v, b, i) {
      DefinedKept(G, G', v, b, i);
    }
  }

  /** The positions of g with x appended to the current block. */
  lemma DefinedAppended(g: Gen, x: Instr, v: Value, b: nat, i: nat)
    requires g.Valid() && DefinedAt(Emit(g, x).blocks, v, b, i)
    ensures DefinedAt(g.blocks, v, b, i) || (b == g.cur && i == |g.blocks[g.cur]| && DefOf(x) == Some(v))
  {
  }

  lemma UniqueEmit(g: Gen, x: Instr, n: nat)
    requires g.Valid() && Unique(g.blocks) && DefsBelow(g.blocks, g.next) && g.next <= n
    requires DefOf(x).Some? ==> IdOf(DefOf(x).value) == g.next < n
    ensures Unique(Emit(g, x).blocks) && DefsBelow(Emit(g, x).blocks, n)
  {
    var G := Emit(g, x).blocks;
    forall v, b, i, b', i' | DefinedAt(G, v, b, i) && DefinedAt(G, v, b', i') ensures b == b' && i == i' {
      DefinedAppended(g, x, v, b, i);
      DefinedAppended(g, x, v, b', i');
    }
    forall v, b, i | DefinedAt(G, v, b, i) ensures IdOf(v) < n {
      DefinedAppended(g, x, v, b, i);
    }
  }

  lemma BlocksEmit(g: Gen, open: set<nat>, open': set<nat>, x: Instr)
    requires Sound(g, open) && g.cur in open
    requires SafeInstr(x) && TargetsOk(|g.blocks|, g.cur, x) && (forall v | v in Operands(x) :: Avail(g, v))
    requires open' == if IsTerminator(x) then open - {g.cur} else open
    ensures forall b | 0 <= b < |g.blocks| :: BlockOk(Emit(g, x).blocks, open', b)
  {
    var G := Emit(g, x).blocks;
    forall b | 0 <= b < |G| ensures BlockOk(G, open', b) {
      assert BlockOk(g.blocks, open, b);
      forall i | 0 <= i < |G[b]| ensures InstrOk(G, b, i) {
        if i < |g.blocks[b]| {
          InstrOkKept(g.blocks, G, b, i);
        } else {
          forall v | v in Operands(x) && !v.K? ensures DefinedBefore(G, v, b, i) {
            DefinedKept(g.blocks, G, v, b, i);
          }
        }
      }
    }
  }

  /** Appending an instruction whose operands are available. */
  lemma EmitSound(g: Gen, open: set<nat>, x: Instr)
    requires Sound(g, open) && g.cur in open && !IsTerminator(x)
    requires SafeInstr(x) && (forall v | v in Operands(x) :: Avail(g, v))
    requires DefOf(x).Some? ==> IdOf(DefOf(x).value) == g.next
    ensures DefOf(x).None? ==> Sound(Emit(g, x), open)
    ensures Sound(EmitNew(g, x), open)
    ensures DefOf(x).Some? ==> Avail(EmitNew(g, x), DefOf(x).value)
  {
    hide BlockOk, Unique, DefsBelow, InstrOk, SafeInstr;
    assert TargetsOk(|g.blocks|, g.cur, x);
    BlocksEmit(g, open, open, x);
    UniqueEmit(g, x, g.next + 1);
    if DefOf(x).None? {
      UniqueEmit(g, x, g.next);
    } else {
      var r := EmitNew(g, x);
      assert DefinedAt(r.blocks, DefOf(x).value, g.cur, |g.blocks[g.cur]|);
      assert Earlier(g.cur, |g.blocks[g.cur]|, r.cur, |r.blocks[r.cur]|);
    }
  }

  /** Ending the current block. */
  lemma CloseSound(g: Gen, open: set<nat>, x: Instr)
    requires Sound(g, open) && g.cur in open && IsTerminator(x)
    requires SafeInstr(x) && TargetsOk(|g.blocks|, g.cur, x) && (forall v | v in Operands(x) :: Avail(g, v))
    ensures Sound(Emit(g, x), open - {g.cur})
  {
    hide BlockOk, Unique, DefsBelow, InstrOk, SafeInstr;
    BlocksEmit(g, open, open - {g.cur}, x);
    UniqueEmit(g, x, g.next);
  }

  lemma MoveSound(g: Gen, open: set<nat>, b: nat)
    requires Sound(g, open) && b < |g.blocks|
    ensures Sound(MoveTo(g, b), open)
  {
  }

  function NewIds(g: Gen, n: nat): (r: set<nat>)
    ensures forall b :: b in r <==> |g.blocks| <= b < |g.blocks| + n
  {
    if n == 0 then {} else NewIds(g, n - 1) + {|g.blocks| + n - 1}
  }

  lemma NewSound(g: Gen, open: set<nat>, n: nat)
    requires Sound(g, open) && forall b | b in open :: b < |g.blocks|
    ensures Sound(NewBlocks(g, n), open + NewIds(g, n))
  {
    hide SafeInstr;
    var r := NewBlocks(g, n);
    forall b | 0 <= b < |r.blocks| ensures BlockOk(r.blocks, open + NewIds(g, n), b) {
      if b < |g.blocks| {
        assert BlockOk(g.blocks, open, b);
        forall i | 0 <= i < |r.blocks[b]| ensures InstrOk(r.blocks, b, i) {
          InstrOkKept(g.blocks, r.blocks, b, i);
        }
      }
    }
    assert forall v, b, i :: DefinedAt(r.blocks, v, b, i) <==> DefinedAt(g.blocks, v, b, i);
  }

  /** A match instruction that learns of more cases, laid out behind it. */
  lemma PatchSound(g: Gen, open: set<nat>, o: nat, k: nat, x: Instr)
    requires Sound(g, open) && o < |g.blocks| && k < |g.blocks[o]| && g.blocks[o][k].Match? && x.Match?
    requires x.v == g.blocks[o][k].v && TargetsOk(|g.blocks|, o, x)
    ensures Sound(Patch(g, o, k, x), open)
  {
    hide Unique, DefsBelow;
    var r := Patch(g, o, k, x);
    assert forall v, b, i :: DefinedAt(r.blocks, v, b, i) <==> DefinedAt(g.blocks, v, b, i);
    forall b | 0 <= b < |r.blocks| ensures BlockOk(r.blocks, open, b) {
      assert BlockOk(g.blocks, open, b);
      forall i | 0 <= i < |r.blocks[b]| ensures InstrOk(r.blocks, b, i) {
        assert InstrOk(g.blocks, b, i);
        PatchedDefined(g.blocks, r.blocks, b, i);
      }
    }
    PatchedUnique(g.blocks, r.blocks, g.next);
  }

  lemma PatchedDefined(G: Cfg, G': Cfg, b: nat, i: nat)
    requires forall v, b, i :: DefinedAt(G', v, b, i) <==> DefinedAt(G, v, b, i)
    ensures forall v :: DefinedBefore(G, v, b, i) ==> DefinedBefore(G', v, b, i)
  {
    forall v | DefinedBefore(G, v, b, i) ensures DefinedBefore(G', v, b, i) {
      var b': nat, i': nat :| DefinedAt(G, v, b', i') && Earlier(b', i', b, i);
      assert DefinedAt(G', v, b', i');
    }
  }

  lemma PatchedUnique(G: Cfg, G': Cfg, n: nat)
    requires forall v, b, i :: DefinedAt(G', v, b, i) <==> DefinedAt(G, v, b, i)
    requires Unique(G) && DefsBelow(G, n)
    ensures Unique(G') && DefsBelow(G', n)
  {
  }

  // ---------------------------------------------------------------- expressions the back end translates

  /** Whether lowering an expression ends in another block: whether it contains an `or`. */
  predicate Moves(e: Expr) {
    match e
    case Lit(_) => false
    case Use(_) => false
    case Unary(_, a) => Moves(a)
    case Binary(op, l, r) => op == BOr || Moves(l) || Moves(r)
    case Call(_, args) => exists a | a in args :: Moves(a)
  }

  /** Whether the value of an expression is a constant or is defined in the block in which its
      evaluation starts: it contains no `or`, or is one, or only passes one on. */
  predicate Early(m: Machine, e: Expr) {
    || !Moves(e)
    || E.ConstOf(m, e).Some?
    || (e.Binary? && e.op == BOr)
    || (e.Binary? && e.op == SAdd && E.ConstOf(m, e.l) == Some(CText("")) && !Moves(e.l) && Early(m, e.r))
  }

  predicate SafeC(c: Option<Const>) {
    c.Some? ==> SafeConst(c.value)
  }

  function Stand(c: Option<Const>): Value {
    if c.Some? then K(c.value) else Temp(0)
  }

  /** Whether an operator becomes an instruction. */
  predicate Emitted(op: BinOp, a: Option<Const>, b: Option<Const>) {
    && !(a.Some? && b.Some? && FoldsBin(op, a.value, b.value))
    && !(op == SAdd && a == Some(CText("")))
    && !(op == SAdd && !(a.Some? && a.value.CText?) && b == Some(CText("")))
  }

  /** Expressions whose code the back end gets right: constants fit their operand fields, no
      operator that does not commute has a constant on its left only, and the left value of an
      `or` is defined in time. */
  predicate CompilableExpr(m: Machine, e: Expr) {
    match e
    case Lit(_) => true
    case Use(_) => true
    case Unary(_, a) => CompilableExpr(m, a) && (E.ConstOf(m, e).None? ==> SafeC(E.ConstOf(m, a)))
    case Binary(op, l, r) =>
      && CompilableExpr(m, l) && CompilableExpr(m, r)
      && (if op == BOr then SafeC(E.ConstOf(m, l)) && SafeC(E.ConstOf(m, r)) && Early(m, l)
          else CompilableBin(op, E.ConstOf(m, l), E.ConstOf(m, r)))
    case Call(_, args) => forall a | a in args :: CompilableExpr(m, a) && SafeC(E.ConstOf(m, a))
  }

  predicate CompilableBin(op: BinOp, a: Option<Const>, b: Option<Const>) {
    Emitted(op, a, b) ==> SafeInstr(Bin(0, if op == BXor then BAnd else op, Stand(a), Stand(b)))
  }

  // ---------------------------------------------------------------- where values are defined

  lemma {:induction false} NoMove(m: Machine, e: Expr, g: Gen)
    requires !Moves(e)
    ensures LowerExpr(m, e, g).0.cur == g.cur
    decreases e, 1
  {
    match e
    case Lit(_) =>
    case Use(_) =>
    case Unary(_, a) => NoMove(m, a, g);
    case Binary(op, l, r) =>
      NoMove(m, l, g);
      NoMove(m, r, LowerExpr(m, l, g).0);
    case Call(_, args) => NoMoveArgs(m, args, g);
  }

  lemma {:induction false} NoMoveArgs(m: Machine, es: seq<Expr>, g: Gen)
    requires forall a | a in es :: !Moves(a)
    ensures LowerArgs(m, es, g).0.cur == g.cur
    decreases es, 0
  {
    if es != [] {
      NoMove(m, es[0], g);
      NoMoveArgs(m, es[1..], LowerExpr(m, es[0], g).0);
    }
  }

  ghost predicate DefinedIn(G: Cfg, v: Value, b: nat) {
    exists i: nat :: DefinedAt(G, v, b, i)
  }

  lemma DefinedHere(g: Gen, x: Instr)
    requires g.Valid() && DefOf(x).Some?
    ensures DefinedIn(EmitNew(g, x).blocks, DefOf(x).value, g.cur)
  {
    assert DefinedAt(EmitNew(g, x).blocks, DefOf(x).value, g.cur, |g.blocks[g.cur]|);
  }

  lemma DefinedInKept(g: Gen, r: Gen, v: Value, b: nat)
    requires Grows(g, r) && DefinedIn(g.blocks, v, b)
    ensures DefinedIn(r.blocks, v, b)
  {
    var i: nat :| DefinedAt(g.blocks, v, b, i);
    assert DefinedAt(r.blocks, v, b, i);
  }

  lemma DefinedInEmit(g: Gen, x: Instr, v: Value, b: nat)
    requires g.Valid() && DefinedIn(g.blocks, v, b)
    ensures DefinedIn(Emit(g, x).blocks, v, b)
  {
    var i: nat :| DefinedAt(g.blocks, v, b, i);
    assert DefinedAt(Emit(g, x).blocks, v, b, i);
  }

  /** Without an `or`, all code and the value's definition are in the current block. */
  lemma {:induction false} NoMoveDefined(m: Machine, e: Expr, g: Gen)
    requires g.Valid() && !Moves(e)
    ensures var (r, v) := LowerExpr(m, e, g); v.K? || DefinedIn(r.blocks, v, g.cur)
  {
    match e
    case Lit(_) =>
    case Use(x) => DefinedHere(g, Load(g.next, Lookup(g, x)));
    case Unary(op, a) =>
      LowerExprGrows(m, a, g);
      NoMove(m, a, g);
      var (g1, v) := LowerExpr(m, a, g);
      DefinedHere(g1, Un(g1.next, op, v));
    case Binary(op, l, r) =>
      LowerExprGrows(m, l, g);
      NoMove(m, l, g);
      var (g1, a) := LowerExpr(m, l, g);
      LowerExprGrows(m, r, g1);
      NoMove(m, r, g1);
      NoMoveDefined(m, r, g1);
      var (g2, b) := LowerExpr(m, r, g1);
      DefinedHere(g2, Bin(g2.next, if op == BXor then BAnd else op, a, b));
    case Call(f, args) =>
      LowerArgsGrows(m, args, g);
      NoMoveArgs(m, args, g);
      var (g1, vs) := LowerArgs(m, args, g);
      DefinedHere(g1, CallFn(g1.next, f, vs));
  }

  lemma OrHeadCell(m: Machine, l: Expr, g: Gen)
    requires g.Valid()
    ensures DefinedIn(OrHead(m, l, g).0.blocks, Cell(g.next), g.cur)
  {
    hide LowerExpr;
    var n := |g.blocks|;
    var g0 := EmitNew(NewBlocks(g, 3), Alloca(g.next));
    DefinedHere(NewBlocks(g, 3), Alloca(g.next));
    LowerExprGrows(m, l, g0);
    var (g1, a) := LowerExpr(m, l, g0);
    GrowsEmit(g0, g1, CondBr(a, n, n + 1));
    DefinedInKept(g0, OrHead(m, l, g).0, Cell(g.next), g.cur);
  }

  /** Every block keeps its instructions and may get more. */
  ghost predicate Longer(a: seq<seq<Instr>>, b: seq<seq<Instr>>) {
    |a| <= |b| && forall i | 0 <= i < |a| :: a[i] <= b[i]
  }

  lemma LongerKeeps(a: seq<seq<Instr>>, b: seq<seq<Instr>>, v: Value, at: nat)
    requires Longer(a, b) && DefinedIn(a, v, at)
    ensures DefinedIn(b, v, at)
  {
    var i: nat :| DefinedAt(a, v, at, i);
    assert DefinedAt(b, v, at, i);
  }

  lemma OrLeftLonger(g: Gen, a: Value, cell: nat, n: nat)
    requires g.Valid() && n + 3 <= |g.blocks|
    ensures Longer(g.blocks, OrLeft(g, a, cell, n).blocks)
  {
  }

  lemma OrTailLonger(g: Gen, b: Value, cell: nat, n: nat)
    requires g.Valid() && n + 3 <= |g.blocks|
    ensures Longer(g.blocks, OrTail(g, b, cell, n).blocks)
  {
  }

  lemma OrCellDefined(m: Machine, l: Expr, r: Expr, g: Gen)
    requires g.Valid()
    ensures DefinedIn(LowerOr(m, l, r, g).0.blocks, Cell(g.next), g.cur)
    ensures DefinedIn(OrHead(m, l, g).0.blocks, Cell(g.next), g.cur)
  {
    hide LowerExpr, OrHead, OrLeft, OrTail, DefinedIn;
    var n := |g.blocks|;
    OrHeadCell(m, l, g);
    var (g1, a) := OrHead(m, l, g);
    OrHeadGrows(m, l, g);
    OrLeftLonger(g1, a, g.next, n);
    var h := OrLeft(g1, a, g.next, n);
    LongerKeeps(g1.blocks, h.blocks, Cell(g.next), g.cur);
    OrLeftGrows(g, g1, a, g.next, n);
    LowerExprGrows(m, r, h);
    var (h1, b) := LowerExpr(m, r, h);
    LongerKeeps(h.blocks, h1.blocks, Cell(g.next), g.cur);
    OrTailLonger(h1, b, g.next, n);
    LongerKeeps(h1.blocks, OrTail(h1, b, g.next, n).blocks, Cell(g.next), g.cur);
  }

  /** The value of an early expression is defined where its evaluation starts. */
  lemma {:induction false} EarlyDefined(m: Machine, e: Expr, g: Gen)
    requires g.Valid() && Early(m, e)
    ensures var (r, v) := LowerExpr(m, e, g); v.K? || DefinedIn(r.blocks, v, g.cur)
  {
    E.ConstOfLowered(m, e, g);
    if !Moves(e) {
      NoMoveDefined(m, e, g);
    } else if E.ConstOf(m, e).None? {
      if e.op == BOr {
        OrCellDefined(m, e.l, e.r, g);
      } else {
        LowerExprGrows(m, e.l, g);
        NoMove(m, e.l, g);
        E.ConstOfLowered(m, e.l, g);
        EarlyDefined(m, e.r, LowerExpr(m, e.l, g).0);
      }
    }
  }
}
