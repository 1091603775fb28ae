/**
  The left value of an `or` is stored in a block that is laid out before the code of the left
  side, apart from what that side puts into the block where it starts. The code generator knows
  the value there exactly if it is early; otherwise it leaves the store out.
 */
module FlowLate {
  import opened Wrappers
  import opened FlowCore
  import opened FlowAst
  import opened FlowIr
  import opened FlowLowering
  import opened FlowShape
  import opened FlowVm
  import opened FlowTarget
  import opened FlowRegisters
  import opened FlowLayout
  import opened FlowTidy
  import opened FlowTidyExpr
  import opened FlowTidyStmt
  import E = FlowExprProof

  // ---------------------------------------------------------------- who has a register

  /** From g to r registers were given to some of the values vs and to no others. */
  ghost predicate Gives(g: Tg, r: Tg, vs: seq<Value>) {
    (forall v | v in g.vars :: v in r.vars) && (forall v | v in r.vars :: v in g.vars || v in vs)
  }

  lemma GivesMore(g: Tg, g1: Tg, g2: Tg, vs: seq<Value>, ws: seq<Value>, all: seq<Value>)
    requires Gives(g, g1, vs) && Gives(g1, g2, ws) && (forall v | v in vs :: v in all)
             && (forall v | v in ws :: v in all)
    ensures Gives(g, g2, all)
  {
  }

  lemma GetRegGives(g: Tg, v: Value)
    ensures Gives(g, GetReg(g, v).0, [v])
  {
  }

  lemma AssignGives(g: Tg, v: Value, n: nat)
    ensures Gives(g, AssignBase(g, v, n), [v]) && v in AssignBase(g, v, n).vars
    ensures Gives(g, FlowTarget.Assign(g, v), [v]) && v in FlowTarget.Assign(g, v).vars
  {
  }

  lemma {:induction false} PutArgsGives(g: Tg, base: nat, args: seq<Value>, i: nat)
    requires i <= |args|
    ensures Gives(g, PutArgs(g, base, args, i), args)
    decreases |args| - i
  {
    hide Gives, GetReg;
    if i == |args| {
      GivesNone(g, args);
    } else {
      var (g1, r) := GetReg(g, args[i]);
      GetRegGives(g, args[i]);
      var g2 := Put(g1, Mov(base + 1 + i, r));
      PutGives(g, g1, Mov(base + 1 + i, r), [args[i]]);
      PutArgsGives(g2, base, args, i + 1);
      GivesMore(g, g2, PutArgs(g2, base, args, i + 1), [args[i]], args, args);
    }
  }

  lemma GivesNone(g: Tg, vs: seq<Value>)
    ensures Gives(g, g, vs)
  {
  }

  lemma PutGives(g: Tg, r: Tg, c: Code<nat>, vs: seq<Value>)
    requires Gives(g, r, vs)
    ensures Gives(g, Put(r, c), vs)
  {
  }

  lemma CallGives(g: Tg, id: nat, args: seq<Value>, c: Code<nat>)
    ensures var r := Put(PutArgs(AssignBase(g, Temp(id), |args| + 1), g.top, args, 0), c);
            Gives(g, r, [Temp(id)] + args) && Temp(id) in r.vars
  {
    hide PutArgs;
    var g1 := AssignBase(g, Temp(id), |args| + 1);
    AssignGives(g, Temp(id), |args| + 1);
    PutArgsGives(g1, g.top, args, 0);
    GivesMore(g, g1, PutArgs(g1, g.top, args, 0), [Temp(id)], args, [Temp(id)] + args);
  }

  lemma BinGives(g: Tg, id: nat, op: BinOp, a: Value, b: Value)
    ensures var r := VisitBin(g, id, op, a, b); Gives(g, r, [Temp(id), a, b]) && Temp(id) in r.vars
  {
    hide GetReg, HasImmediate, Exchanges;
    var g1 := FlowTarget.Assign(g, Temp(id));
    AssignGives(g, Temp(id), 1);
    GetRegGives(g1, a);
    GetRegGives(g1, b);
    GetRegGives(GetReg(g1, a).0, b);
  }

  /** Registers are given to what an instruction defines or uses, and to nothing else. */
  lemma VisitVars(g: Tg, n: nat, b: nat, i: Instr)
    ensures var r := Visit(g, n, b, i);
            && (forall v | v in g.vars :: v in r.vars) && (DefOf(i).Some? ==> DefOf(i).value in r.vars)
            && (forall v | v in r.vars :: v in g.vars || DefOf(i) == Some(v) || v in Operands(i))
  {
    hide LoadConst, VisitBin, GetReg, PutArgs;
    match i
    case Alloca(_) =>
    case Store(x, v) => GetRegGives(g, Cell(x));
    case Load(_, x) => GetRegGives(g, Cell(x));
    case Un(id, _, v) => GetRegGives(FlowTarget.Assign(g, Temp(id)), v);
    case Bin(id, op, a, c) => BinGives(g, id, op, a, c);
    case CallFn(id, f, args) => CallGives(g, id, args, CallN(f, |args| + 1, g.top));
    case CallHn(id, f, args) => CallGives(g, id, args, HandlerN(f, |args| + 1, g.top));
    case CondBr(v, _, _) => GetRegGives(g, v);
    case Match(mc, v, labels, targets, t) => GetRegGives(g.(defs := g.defs + [Def(mc, labels, targets, t)]), v);
    case _ =>
  }

  lemma MentionedNext(G: Cfg, v: Value, b: nat, i: nat)
    requires b < |G| && 0 < i <= |G[b]| && (MentionedBefore(G, v, b, i - 1) || v in Operands(G[b][i - 1]))
    ensures MentionedBefore(G, v, b, i)
  {
    if MentionedBefore(G, v, b, i - 1) {
      var b': nat, i': nat :| MentionedAt(G, v, b', i') && Earlier(b', i', b, i - 1);
      assert Earlier(b', i', b, i);
    } else {
      assert MentionedAt(G, v, b, i - 1) && Earlier(b, i - 1, b, i);
    }
  }

  lemma MentionedBlock(G: Cfg, v: Value, b: nat)
    requires 0 < b <= |G| && MentionedBefore(G, v, b - 1, |G[b - 1]|)
    ensures MentionedBefore(G, v, b, 0)
  {
    var b': nat, i': nat :| MentionedAt(G, v, b', i') && Earlier(b', i', b - 1, |G[b - 1]|);
    assert Earlier(b', i', b, 0);
  }

  /** Whatever the order of definitions and uses: what was defined has a register, and what has
      one was defined or used. */
  lemma {:induction false} BeforeVars(g0: Tg, G: Cfg, b: nat, i: nat)
    requires Start(g0) && Position(G, b, i)
    ensures forall v | DefinedBefore(G, v, b, i) :: v in Before(g0, G, b, i).vars
    ensures forall v | v in Before(g0, G, b, i).vars :: DefinedBefore(G, v, b, i) || MentionedBefore(G, v, b, i)
    decreases b, i
  {
    hide Visit, DefinedBefore, MentionedBefore;
    if i > 0 {
      BeforeVars(g0, G, b, i - 1);
      var g, x := Before(g0, G, b, i - 1), G[b][i - 1];
      VisitVars(g, |G|, b, x);
      forall v ensures DefinedBefore(G, v, b, i) <==> DefinedBefore(G, v, b, i - 1) || DefOf(x) == Some(v) {
        DefinedNext(G, v, b, i);
      }
      forall v | MentionedBefore(G, v, b, i - 1) || v in Operands(x) ensures MentionedBefore(G, v, b, i) {
        MentionedNext(G, v, b, i);
      }
    } else if b > 0 {
      BeforeVars(g0, G, b - 1, |G[b - 1]|);
      forall v ensures DefinedBefore(G, v, b, 0) <==> DefinedBefore(G, v, b - 1, |G[b - 1]|) { DefinedBlock(G, v, b); }
      forall v | MentionedBefore(G, v, b - 1, |G[b - 1]|)
        ensures MentionedBefore(G, v, b, 0) { MentionedBlock(G, v, b); }
    } else {
      forall v ensures !DefinedBefore(G, v, 0, 0) { NothingBefore(G, v); }
    }
  }

  lemma NothingBefore(G: Cfg, v: Value)
    ensures !DefinedBefore(G, v, 0, 0)
  {
  }

  // ---------------------------------------------------------------- where the left value is

  ghost predicate DefinedSomewhere(G: Cfg, v: Value) {
    exists b: nat, i: nat :: DefinedAt(G, v, b, i)
  }

  lemma InSomewhere(G: Cfg, v: Value, b: nat)
    requires DefinedIn(G, v, b)
    ensures DefinedSomewhere(G, v)
  {
  }

  lemma {:induction false} ValueDefined(m: Machine, e: Expr, g: Gen)
    requires g.Valid()
    ensures var (r, v) := LowerExpr(m, e, g); v.K? || DefinedSomewhere(r.blocks, v)
    decreases e
  {
    hide DefinedIn, DefinedSomewhere, Grows, FoldsBin;
    var (r, v) := LowerExpr(m, e, g);
    match e
    case Lit(_) =>
    case Use(x) => Somewhere(g, Load(g.next, Lookup(g, x)));
    case Unary(op, a) =>
      LowerExprGrows(m, a, g);
      var (g1, w) := LowerExpr(m, a, g);
      GrowsNext(g, g1);
      Somewhere(g1, Un(g1.next, op, w));
    case Binary(op, l, r) =>
      if op == BOr {
        OrCellDefined(m, l, r, g);
        InSomewhere(LowerOr(m, l, r, g).0.blocks, Cell(g.next), g.cur);
      } else {
        LowerExprGrows(m, l, g);
        var (g1, a) := LowerExpr(m, l, g);
        GrowsNext(g, g1);
        LowerExprGrows(m, r, g1);
        ValueDefined(m, r, g1);
        var (g2, b) := LowerExpr(m, r, g1);
        GrowsNext(g1, g2);
        Somewhere(g2, Bin(g2.next, if op == BXor then BAnd else op, a, b));
      }
    case Call(f, args) =>
      LowerArgsGrows(m, args, g);
      var (g1, vs) := LowerArgs(m, args, g);
      GrowsNext(g, g1);
      Somewhere(g1, CallFn(g1.next, f, vs));
  }

  lemma Somewhere(g: Gen, x: Instr)
    requires g.Valid() && DefOf(x).Some?
    ensures DefinedSomewhere(EmitNew(g, x).blocks, DefOf(x).value)
  {
    DefinedHere(g, x);
    InSomewhere(EmitNew(g, x).blocks, DefOf(x).value, g.cur);
  }

  /** In a program that contains the `or` lowered at g, the left value is defined before the block
      that stores it exactly if it is early. */
  lemma LeftValuePlace(m: Machine, l: Expr, g: Gen, G: Cfg)
    requires g.Valid() && IdsBelow(g.blocks, g.next) && E.Covers(g, OrHead(m, l, g).0, G) && Unique(G)
    ensures var a := OrHead(m, l, g).1; a.K? || DefinedBefore(G, a, |g.blocks|, 0) <==> Early(m, l)
    ensures var a := OrHead(m, l, g).1; (!Early(m, l) ==> !a.K?) && (a.K? || g.next < IdOf(a))
  {
    hide LowerExpr, IdsBelow, DefinedIn, Untouched, Early, Grows, Unique, DefinedBefore, DefinedSomewhere, E.Covers;
    var n, g0 := |g.blocks|, OrStart(g);
    OrStartIds(g);
    OrHeadGrows(m, l, g);
    LowerExprGrows(m, l, g0);
    LowerIds(m, l, g0);
    EarlyExact(m, l, g0);
    ValueDefined(m, l, g0);
    var (h, a) := OrHead(m, l, g);
    var g1 := LowerExpr(m, l, g0).0;
    GrowsNext(g0, g1);
    GrowsNext(g, h);
    if !a.K? {
      if Early(m, l) {
        DefinedInEmit(g1, CondBr(a, n, n + 1), a, g.cur);
        CoveredBefore(g, h, G, a);
      } else {
        LateAfter(g, g1, h, CondBr(a, n, n + 1), G, a);
      }
    }
  }

  lemma CoveredBefore(g: Gen, h: Gen, G: Cfg, a: Value)
    requires g.Valid() && E.Covers(g, h, G) && DefinedIn(h.blocks, a, g.cur)
    ensures DefinedBefore(G, a, |g.blocks|, 0)
  {
    var i: nat :| DefinedAt(h.blocks, a, g.cur, i);
    assert DefinedAt(G, a, g.cur, i) && Earlier(g.cur, i, |g.blocks|, 0);
  }

  lemma LateAfter(g: Gen, g1: Gen, h: Gen, x: Instr, G: Cfg, a: Value)
    requires g1.Valid() && h == Emit(g1, x) && Grows(g, h) && IdsBelow(g.blocks, g.next) && E.Covers(g, h, G)
             && Unique(G)
    requires DefinedSomewhere(g1.blocks, a) && Untouched(g1.blocks, a, g.cur) && IdOf(a) > g.next
    ensures !DefinedBefore(G, a, |g.blocks|, 0)
  {
    var b: nat, i: nat :| DefinedAt(g1.blocks, a, b, i);
    assert DefinedAt(h.blocks, a, b, i);
    if b < |g.blocks| {
      assert DefinedAt(g.blocks, a, b, i);
      assert false;
    }
    assert DefinedAt(G, a, b, i);
    forall b': nat, i': nat | Earlier(b', i', |g.blocks|, 0) ensures !DefinedAt(G, a, b', i') { }
  }

  // ---------------------------------------------------------------- what becomes of the store

  /** For every `or` in the code of an exported handler, lowered when the generator was in state g:
      its left arm starts with the store of the left value, and the code generator emits a move or
      a constant load for that store exactly if the left side is early. Otherwise nothing is
      emitted, and the result cell keeps whatever it held. */
  lemma LeftStoreExact(m: Machine, u: Unit, h: string, e: Gen, g0: Tg, l: Expr, r: Expr, g: Gen)
    requires (forall x | x in e.scope :: e.scope[x] < e.next) && Start(g0)
    requires g.Valid() && IdsBelow(g.blocks, g.next)
    requires E.Covers(g, LowerOr(m, l, r, g).0, LowerExported(m, u, h, e).blocks)
    ensures var G, n, a := LowerExported(m, u, h, e).blocks, |g.blocks|, OrHead(m, l, g).1;
            && n < |G| && |G[n]| > 0 && G[n][0] == Store(g.next, a)
            && StoreCode(Before(g0, G, n, 0), Before(g0, G, n, 1), g.next, a, Early(m, l))
  {
    hide LowerExported, LowerExpr, OrHead, OrLeft, IdsBelow, Early, Start, Grows, E.Covers, Tracking, DefinedBefore,
      MentionedBefore, Unique, DefsBelow, MentionsBelow, VisitStore;
    var entry := ExportedTidy(m, u, h, e);
    var G, n, a := LowerExported(m, u, h, e).blocks, |g.blocks|, OrHead(m, l, g).1;
    E.OrCovers(m, l, r, g, G);
    assert G[n][0] == [Store(g.next, a), Br(n + 2)][0];
    LeftValuePlace(m, l, g, G);
    BeforeVars(g0, G, n, 0);
    var t := Before(g0, G, n, 0);
    assert Before(g0, G, n, 1) == VisitStore(t, g.next, a);
    if Early(m, l) {
      StoredIfKnown(t, g.next, a);
    } else {
      assert Late(G, n, 0);
      assert Quiet(LowerExported(m, u, h, e), a, n, 0);
      SkippedIfUnknown(t, g.next, a);
    }
  }

  /** From t to t' the code generator stored v into a cell, or it did not. */
  ghost predicate StoreCode(t: Tg, t': Tg, cell: nat, v: Value, stored: bool) {
    var d := GetReg(t, Cell(cell)).1;
    if !stored then t'.code == t.code && !v.K? && v !in t.vars
    else if v.K? then t'.code == t.code + [LoadConst(d, v.c)]
    else v in t.vars && t'.code == t.code + [Mov(d, t.vars[v])]
  }

  lemma StoredIfKnown(t: Tg, cell: nat, v: Value)
    requires v.K? || v in t.vars
    ensures StoreCode(t, VisitStore(t, cell, v), cell, v, true)
  {
  }

  lemma SkippedIfUnknown(t: Tg, cell: nat, v: Value)
    requires !v.K? && v !in t.vars && v != Cell(cell)
    ensures StoreCode(t, VisitStore(t, cell, v), cell, v, false)
  {
  }
}
