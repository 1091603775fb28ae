/**
  Lowering an expression keeps the builder tidy. The only store that can be laid out before its
  value is the one for the left side of an `or`, and it is exactly if that side is not early.
 */
module FlowTidyExpr {
  import opened Wrappers
  import opened FlowCore
  import opened FlowAst
  import opened FlowIr
  import opened FlowLowering
  import opened FlowShape
  import opened FlowRegisters
  import opened FlowLayout
  import opened FlowLayoutExpr
  import opened FlowTidy
  import E = FlowExprProof

  // ---------------------------------------------------------------- identities

  ghost predicate IdsBelow(G: Cfg, n: nat) {
    DefsBelow(G, n) && MentionsBelow(G, n)
  }

  lemma EmitIds(g: Gen, x: Instr, n: nat)
    requires g.Valid() && IdsBelow(g.blocks, g.next) && g.next <= n
    requires forall v | v in Operands(x) && !v.K? :: IdBelow(v, n)
    requires DefOf(x).Some? ==> IdOf(DefOf(x).value) < n
    ensures IdsBelow(Emit(g, x).blocks, n)
  {
    EmitMentions(g, x, n);
    var r := Emit(g, x);
    forall v, b: nat, i: nat | DefinedAt(r.blocks, v, b, i) ensures IdOf(v) < n {
      DefinedAppended(g, x, v, b, i);
    }
  }

  lemma BelowId(v: Value, n: nat)
    requires Below(v, n) && !v.K?
    ensures IdBelow(v, n)
  {
  }

  lemma BelowIds(vs: seq<Value>, n: nat)
    requires AllBelow(vs, n)
    ensures forall v | v in vs && !v.K? :: IdBelow(v, n)
  {
    forall v | v in vs && !v.K? ensures IdBelow(v, n) { BelowId(v, n); }
  }

  lemma NewIdsBelow(g: Gen, k: nat)
    requires IdsBelow(g.blocks, g.next)
    ensures IdsBelow(NewBlocks(g, k).blocks, g.next)
  {
    var r := NewBlocks(g, k);
    forall v, b: nat, i: nat | DefinedAt(r.blocks, v, b, i) ensures IdOf(v) < g.next {
      assert DefinedAt(g.blocks, v, b, i);
    }
    forall v, b: nat, i: nat | MentionedAt(r.blocks, v, b, i) && !v.K? ensures IdBelow(v, g.next) {
      assert MentionedAt(g.blocks, v, b, i);
    }
  }

  /** Everything lowering speaks of has an identity below the next one, and its value is new. */
  lemma {:induction false} LowerIds(m: Machine, e: Expr, g: Gen)
    requires g.Valid() && IdsBelow(g.blocks, g.next)
    ensures var (r, v) := LowerExpr(m, e, g);
            r.Valid() && IdsBelow(r.blocks, r.next) && (v.K? || g.next <= IdOf(v) < r.next)
    decreases e, 1
  {
    hide IdsBelow, Lookup, FoldsUn, FoldsBin, Grows;
    LowerExprGrows(m, e, g);
    GrowsNext(g, LowerExpr(m, e, g).0);
    match e
    case Lit(_) =>
    case Use(x) => UseIds(m, x, g);
    case Unary(op, a) =>
      LowerExprGrows(m, a, g);
      LowerIds(m, a, g);
      var (g1, v) := LowerExpr(m, a, g);
      GrowsNext(g, g1);
      BelowIds([v], g1.next);
      EmitNewIds(g1, Un(g1.next, op, v));
    case Binary(op, l, r) =>
      if op == BOr { OrIds(m, l, r, g); } else { BinaryIds(m, e, g); }
    case Call(f, args) =>
      LowerArgsGrows(m, args, g);
      ArgsIds(m, args, g);
      var (g1, vs) := LowerArgs(m, args, g);
      GrowsNext(g, g1);
      BelowIds(vs, g1.next);
      EmitNewIds(g1, CallFn(g1.next, f, vs));
  }

  lemma GrowsNext(g: Gen, r: Gen)
    requires Grows(g, r)
    ensures g.next <= r.next && r.Valid() && |g.blocks| <= |r.blocks|
  {
  }

  lemma EmitNewIds(g: Gen, x: Instr)
    requires g.Valid() && IdsBelow(g.blocks, g.next)
    requires forall v | v in Operands(x) && !v.K? :: IdBelow(v, g.next)
    requires DefOf(x).Some? ==> IdOf(DefOf(x).value) == g.next
    ensures IdsBelow(EmitNew(g, x).blocks, g.next + 1)
  {
    EmitIds(g, x, g.next + 1);
  }

  lemma UseIds(m: Machine, x: Var, g: Gen)
    requires g.Valid() && IdsBelow(g.blocks, g.next)
    ensures var (r, v) := LowerExpr(m, Use(x), g); IdsBelow(r.blocks, r.next)
  {
    EmitIds(g, Load(g.next, Lookup(g, x)), g.next + 1);
  }

  lemma {:induction false} BinaryIds(m: Machine, e: Expr, g: Gen)
    requires g.Valid() && IdsBelow(g.blocks, g.next) && e.Binary? && e.op != BOr
    ensures var (r, v) := LowerExpr(m, e, g);
            IdsBelow(r.blocks, r.next) && (v.K? || g.next <= IdOf(v) < r.next)
    decreases e, 0
  {
    hide IdsBelow, FoldsBin, Grows;
    LowerExprGrows(m, e.l, g);
    LowerIds(m, e.l, g);
    var (g1, a) := LowerExpr(m, e.l, g);
    GrowsNext(g, g1);
    LowerExprGrows(m, e.r, g1);
    LowerIds(m, e.r, g1);
    var (g2, b) := LowerExpr(m, e.r, g1);
    GrowsNext(g1, g2);
    BelowMore(a, g1.next, g2.next);
    BelowIds([a, b], g2.next);
    EmitNewIds(g2, Bin(g2.next, if e.op == BXor then BAnd else e.op, a, b));
  }

  lemma {:induction false} ArgsIds(m: Machine, es: seq<Expr>, g: Gen)
    requires g.Valid() && IdsBelow(g.blocks, g.next)
    ensures var (r, vs) := LowerArgs(m, es, g);
            r.Valid() && IdsBelow(r.blocks, r.next) && g.next <= r.next
    decreases es, 0
  {
    hide IdsBelow, Grows;
    if es != [] {
      LowerExprGrows(m, es[0], g);
      LowerIds(m, es[0], g);
      GrowsNext(g, LowerExpr(m, es[0], g).0);
      ArgsIds(m, es[1..], LowerExpr(m, es[0], g).0);
    }
  }

  /** The generator behind the result cell of an `or`. */
  function OrStart(g: Gen): Gen {
    EmitNew(NewBlocks(g, 3), Alloca(g.next))
  }

  lemma OrStartIds(g: Gen)
    requires g.Valid() && IdsBelow(g.blocks, g.next)
    ensures OrStart(g).Valid() && IdsBelow(OrStart(g).blocks, g.next + 1) && Grows(g, OrStart(g))
  {
    hide IdsBelow;
    GrowsNew(g, g, 3);
    NewIdsBelow(g, 3);
    EmitNewIds(NewBlocks(g, 3), Alloca(g.next));
    GrowsEmit(g, NewBlocks(g, 3), Alloca(g.next));
  }

  lemma StoreIds(g: Gen, cell: nat, v: Value, t: nat)
    requires g.Valid() && IdsBelow(g.blocks, g.next) && cell < g.next && Below(v, g.next)
    ensures IdsBelow(Emit(Emit(g, Store(cell, v)), Br(t)).blocks, g.next)
  {
    hide IdsBelow;
    BelowIds([Cell(cell), v], g.next);
    EmitIds(g, Store(cell, v), g.next);
    EmitIds(Emit(g, Store(cell, v)), Br(t), g.next);
  }

  lemma {:induction false} OrLeftIds(m: Machine, l: Expr, g: Gen)
    requires g.Valid() && IdsBelow(g.blocks, g.next)
    ensures var (g1, a) := OrHead(m, l, g); var h := OrLeft(g1, a, g.next, |g.blocks|);
            h.Valid() && IdsBelow(h.blocks, h.next) && g.next < h.next && |g.blocks| + 3 <= |h.blocks|
    decreases l, 2
  {
    hide IdsBelow, LowerExpr, Grows;
    var n, g0 := |g.blocks|, OrStart(g);
    OrStartIds(g);
    GrowsNext(g, g0);
    LowerIds(m, l, g0);
    LowerExprGrows(m, l, g0);
    var (g1, a) := LowerExpr(m, l, g0);
    GrowsNext(g0, g1);
    BelowIds([a], g1.next);
    EmitIds(g1, CondBr(a, n, n + 1), g1.next);
    StoreIds(MoveTo(Emit(g1, CondBr(a, n, n + 1)), n), g.next, a, n + 2);
  }

  lemma {:induction false} OrIds(m: Machine, l: Expr, r: Expr, g: Gen)
    requires g.Valid() && IdsBelow(g.blocks, g.next)
    ensures var h := LowerOr(m, l, r, g).0; h.Valid() && IdsBelow(h.blocks, h.next) && g.next < h.next
    decreases Binary(BOr, l, r), 0
  {
    hide IdsBelow, LowerExpr, Grows, OrHead, OrLeft;
    OrLeftIds(m, l, g);
    var (g1, a) := OrHead(m, l, g);
    var h := OrLeft(g1, a, g.next, |g.blocks|);
    LowerIds(m, r, h);
    LowerExprGrows(m, r, h);
    var (h1, b) := LowerExpr(m, r, h);
    GrowsNext(h, h1);
    StoreIds(h1, g.next, b, |g.blocks| + 2);
  }

  // ---------------------------------------------------------------- where late values are

  /** An expression that contains an `or` ends in a new block, and has used up an identity. */
  lemma {:induction false} MovesAway(m: Machine, e: Expr, g: Gen)
    requires g.Valid() && Moves(e)
    ensures LowerExpr(m, e, g).0.cur >= |g.blocks| && LowerExpr(m, e, g).0.next > g.next
    decreases e, 1
  {
    match e
    case Unary(_, a) => MovesAway(m, a, g);
    case Binary(op, l, r) =>
      if op != BOr {
        LowerExprGrows(m, l, g);
        var g1 := LowerExpr(m, l, g).0;
        LowerExprGrows(m, r, g1);
        if Moves(l) { MovesAway(m, l, g); }
        if Moves(r) { MovesAway(m, r, g1); }
      } else {
        OrMovesAway(m, l, r, g);
      }
    case Call(_, args) =>
      LowerArgsGrows(m, args, g);
      MovesAwayArgs(m, args, g);
  }

  lemma OrMovesAway(m: Machine, l: Expr, r: Expr, g: Gen)
    requires g.Valid()
    ensures LowerOr(m, l, r, g).0.cur >= |g.blocks| && LowerOr(m, l, r, g).0.next > g.next
  {
    hide LowerExpr, OrHead, Emit;
    OrHeadGrows(m, l, g);
    var (g1, a) := OrHead(m, l, g);
    OrLeftGrows(g, g1, a, g.next, |g.blocks|);
    LowerExprGrows(m, r, OrLeft(g1, a, g.next, |g.blocks|));
  }

  lemma {:induction false} MovesAwayArgs(m: Machine, es: seq<Expr>, g: Gen)
    requires g.Valid() && exists a | a in es :: Moves(a)
    ensures LowerArgs(m, es, g).0.cur >= |g.blocks|
    decreases es, 0
  {
    LowerExprGrows(m, es[0], g);
    var g1 := LowerExpr(m, es[0], g).0;
    LowerArgsGrows(m, es[1..], g1);
    if Moves(es[0]) {
      MovesAway(m, es[0], g);
    } else {
      var a :| a in es && Moves(a);
      assert a in es[1..];
      MovesAwayArgs(m, es[1..], g1);
    }
  }

  /** No instruction of block b defines v or uses it. */
  ghost predicate Untouched(G: Cfg, v: Value, b: nat) {
    forall i: nat :: !DefinedAt(G, v, b, i) && !MentionedAt(G, v, b, i)
  }

  /** A value made after the insert point has left a block is not touched in that block. */
  lemma NewElsewhere(g1: Gen, r: Gen, v: Value, b: nat)
    requires Grows(g1, r) && IdsBelow(g1.blocks, g1.next) && b < |g1.blocks| && b != g1.cur
    requires !v.K? && IdOf(v) >= g1.next && v != Cell(0)
    ensures Untouched(r.blocks, v, b)
  {
    assert r.blocks[b] == g1.blocks[b];
    forall i: nat ensures !DefinedAt(r.blocks, v, b, i) && !MentionedAt(r.blocks, v, b, i) {
      assert DefinedAt(r.blocks, v, b, i) <==> DefinedAt(g1.blocks, v, b, i);
      assert MentionedAt(r.blocks, v, b, i) <==> MentionedAt(g1.blocks, v, b, i);
    }
  }

  lemma UntouchedUndefined(G: Cfg, v: Value, b: nat)
    requires Untouched(G, v, b)
    ensures !DefinedIn(G, v, b)
  {
  }

  /** The value of an expression is a constant or defined in the block where its evaluation
      starts exactly when it is early; otherwise that block does not even use it. */
  lemma {:induction false} EarlyExact(m: Machine, e: Expr, g: Gen)
    requires g.Valid() && IdsBelow(g.blocks, g.next)
    ensures var (r, v) := LowerExpr(m, e, g);
            && (v.K? || DefinedIn(r.blocks, v, g.cur) <==> Early(m, e))
            && (!Early(m, e) ==> !v.K? && Untouched(r.blocks, v, g.cur))
    decreases e
  {
    hide IdsBelow, DefinedIn, Untouched;
    if Early(m, e) {
      EarlyDefined(m, e, g);
    } else {
      match e {
        case Unary(op, a) => LateUnary(m, op, a, g);
        case Binary(op, l, r) => LateBinary(m, op, l, r, g);
        case Call(f, args) => LateCall(m, f, args, g);
      }
      UntouchedUndefined(LowerExpr(m, e, g).0.blocks, LowerExpr(m, e, g).1, g.cur);
    }
  }

  lemma LateUnary(m: Machine, op: UnOp, a: Expr, g: Gen)
    requires g.Valid() && IdsBelow(g.blocks, g.next) && !Early(m, Unary(op, a))
    ensures var (r, v) := LowerExpr(m, Unary(op, a), g); !v.K? && Untouched(r.blocks, v, g.cur)
  {
    hide IdsBelow, Untouched;
    E.ConstOfLowered(m, Unary(op, a), g);
    LowerExprGrows(m, a, g);
    LowerIds(m, a, g);
    MovesAway(m, a, g);
    var (g1, v) := LowerExpr(m, a, g);
    GrowsEmit(g1, g1, Un(g1.next, op, v));
    NewElsewhere(g1, EmitNew(g1, Un(g1.next, op, v)), Temp(g1.next), g.cur);
  }

  lemma LateCall(m: Machine, f: string, args: seq<Expr>, g: Gen)
    requires g.Valid() && IdsBelow(g.blocks, g.next) && !Early(m, Call(f, args))
    ensures var (r, v) := LowerExpr(m, Call(f, args), g); !v.K? && Untouched(r.blocks, v, g.cur)
  {
    hide IdsBelow, Untouched;
    LowerArgsGrows(m, args, g);
    ArgsIds(m, args, g);
    MovesAwayArgs(m, args, g);
    var (g1, vs) := LowerArgs(m, args, g);
    GrowsEmit(g1, g1, CallFn(g1.next, f, vs));
    NewElsewhere(g1, EmitNew(g1, CallFn(g1.next, f, vs)), Temp(g1.next), g.cur);
  }

  lemma {:induction false} LateBinary(m: Machine, op: BinOp, l: Expr, r: Expr, g: Gen)
    requires g.Valid() && IdsBelow(g.blocks, g.next) && !Early(m, Binary(op, l, r))
    ensures var (h, v) := LowerExpr(m, Binary(op, l, r), g); !v.K? && Untouched(h.blocks, v, g.cur)
    decreases Binary(op, l, r), 0
  {
    hide IdsBelow, DefinedIn, Untouched, Grows;
    E.ConstOfLowered(m, Binary(op, l, r), g);
    E.ConstOfLowered(m, l, g);
    LowerExprGrows(m, l, g);
    LowerIds(m, l, g);
    var (g1, a) := LowerExpr(m, l, g);
    E.ConstOfLowered(m, r, g1);
    LowerExprGrows(m, r, g1);
    LowerIds(m, r, g1);
    var (g2, b) := LowerExpr(m, r, g1);
    GrowsParts(g, g1, g2);
    if op == SAdd && a == K(CText("")) {
      if Moves(l) {
        MovesAway(m, l, g);
        NewElsewhere(g1, g2, b, g.cur);
      } else {
        NoMove(m, l, g);
        EarlyExact(m, r, g1);
      }
    } else {
      if Moves(l) { MovesAway(m, l, g); }
      if Moves(r) { MovesAway(m, r, g1); }
      var i := Bin(g2.next, if op == BXor then BAnd else op, a, b);
      GrowsEmit(g2, g2, i);
      NewElsewhere(g2, EmitNew(g2, i), Temp(g2.next), g.cur);
    }
  }

  lemma GrowsParts(g: Gen, g1: Gen, g2: Gen)
    requires Grows(g, g1) && Grows(g1, g2)
    ensures g1.Valid() && g2.Valid() && g.cur < |g.blocks| <= |g1.blocks| <= |g2.blocks| && g2.next >= g1.next >= g.next
    ensures (g1.cur == g.cur || |g.blocks| <= g1.cur) && (g2.cur == g1.cur || |g1.blocks| <= g2.cur)
  {
    assert Grows(g1, g1);
  }

  // ---------------------------------------------------------------- expressions

  /** Lowering went from g to r.0 and delivered r.1, a new value that may be used there. */
  ghost predicate ExprTidied(g: Gen, entry: seq<set<Value>>, r: (Gen, Value), entry': seq<set<Value>>) {
    && Grows(g, r.0) && Keeps(g, entry, r.0, entry')
    && r.0.Valid() && |entry'| == |r.0.blocks| && Usable(r.0, entry', r.1) && (r.1.K? || g.next <= IdOf(r.1))
  }

  ghost predicate AllUsable(g: Gen, entry: seq<set<Value>>, vs: seq<Value>)
    requires g.Valid() && |g.blocks| == |entry|
  {
    forall v | v in vs :: Usable(g, entry, v)
  }

  lemma KeepsSelf(g: Gen, entry: seq<set<Value>>)
    requires Tidy(g, entry)
    ensures Keeps(g, entry, g, entry) && Grows(g, g)
  {
  }

  lemma UsableOperands(g: Gen, entry: seq<set<Value>>, x: Instr, n: nat)
    requires Tidy(g, entry) && AllUsable(g, entry, Operands(x)) && g.next <= n
    requires DefOf(x).Some? ==> IdOf(DefOf(x).value) == g.next < n
    ensures Appendable(g, x, n)
    ensures forall v | v in Operands(x) && v.Loaded? :: v in Now(g, entry)
  {
    TidySize(g, entry);
    hide Neat, Tracking, NotLate, Now, Quiet, Avail;
    forall v | v in Operands(x) && !v.K? ensures NotLate(g.blocks, v) && IdBelow(v, n) {
      assert Usable(g, entry, v);
    }
    if x.Store? { assert x.v in Operands(x) && Usable(g, entry, x.v); }
  }

  /** A value with a new identity is waited for by no store. */
  lemma NewNotLate(g: Gen, v: Value)
    requires Neat(g) && IdOf(v) >= g.next
    ensures NotLate(g.blocks, v)
  {
    forall b: nat, i: nat | Late(g.blocks, b, i) ensures g.blocks[b][i].v != v { LateMentioned(g, b, i); }
  }

  lemma VarNotLate(g: Gen, x: Var)
    requires Neat(g)
    ensures NotLate(g.blocks, Cell(Lookup(g, x)))
  {
    forall b: nat, i: nat | Late(g.blocks, b, i) ensures g.blocks[b][i].v != Cell(Lookup(g, x)) {
      assert Quiet(g, g.blocks[b][i].v, b, i);
    }
  }

  /** Appending an instruction that defines v. */
  lemma DefineTidy(g: Gen, entry: seq<set<Value>>, x: Instr, v: Value)
    requires Tidy(g, entry) && Appendable(g, x, g.next + 1) && InstrTracked(entry, Now(g, entry), x)
    requires DefOf(x) == Some(v) && IdOf(v) == g.next && (x.Load? ==> x.x <= g.next)
    ensures ExprTidied(g, entry, (EmitNew(g, x), v), entry)
  {
    hide Neat, Tracking, Appendable, InstrTracked;
    TidySize(g, entry);
    var r := EmitNew(g, x);
    TidySize(r, entry) by { EmitTidy(g, entry, x, g.next + 1); }
    EmitTidy(g, entry, x, g.next + 1);
    GrowsEmit(g, g, x);
    NewNotLate(g, v);
    EmitNotLate(g, x, v);
    forall w | NotLate(g.blocks, w) && IdOf(w) < g.next ensures NotLate(r.blocks, w) { EmitNotLate(g, x, w); }
    assert DefinedAt(r.blocks, v, g.cur, |g.blocks[g.cur]|);
    assert Earlier(g.cur, |g.blocks[g.cur]|, r.cur, |r.blocks[r.cur]|);
  }

  /** The same after lowering the operands. */
  lemma ThenDefine(g: Gen, entry: seq<set<Value>>, g1: Gen, e1: seq<set<Value>>, x: Instr, v: Value)
    requires Grows(g, g1) && Keeps(g, entry, g1, e1) && |e1| == |g1.blocks| && AllUsable(g1, e1, Operands(x))
    requires DefOf(x) == Some(v) && IdOf(v) == g1.next && !x.Load? && Targets(x) == []
    ensures ExprTidied(g, entry, (EmitNew(g1, x), v), e1)
  {
    hide Tidy, Appendable, Now, NotLate, Usable, AllUsable;
    assert Tidy(g1, e1);
    UsableOperands(g1, e1, x, g1.next + 1);
    DefineTidy(g1, e1, x, v);
    GrowsTrans(g, g1, EmitNew(g1, x));
    KeepsTrans(g, entry, g1, e1, EmitNew(g1, x), e1);
  }

  lemma {:induction false} ExprTidy(m: Machine, e: Expr, g: Gen, entry: seq<set<Value>>)
      returns (entry': seq<set<Value>>)
    requires Tidy(g, entry)
    ensures ExprTidied(g, entry, LowerExpr(m, e, g), entry')
    decreases e, 1
  {
    hide Tidy, Keeps, Usable, Grows, Lookup;
    TidySize(g, entry);
    match e
    case Lit(_) =>
      entry' := entry;
      LitTidy(g, entry, e.c);
    case Use(x) =>
      entry' := entry;
      UseTidy(m, x, g, entry);
    case Unary(op, a) =>
      entry' := ExprTidy(m, a, g, entry);
      UnaryTidy(m, op, a, g, entry, entry');
    case Binary(op, l, r) =>
      if op == BOr {
        entry' := OrTidy(m, l, r, g, entry);
      } else {
        entry' := BinaryTidy(m, e, g, entry);
      }
    case Call(f, args) =>
      var vs: seq<Value>;
      entry', vs := ArgsTidy(m, args, g, entry);
      var g1 := LowerArgs(m, args, g).0;
      ThenDefine(g, entry, g1, entry', CallFn(g1.next, f, vs), Temp(g1.next));
  }

  lemma LitTidy(g: Gen, entry: seq<set<Value>>, c: Const)
    requires Tidy(g, entry)
    ensures ExprTidied(g, entry, (g, K(c)), entry)
  {
    hide Neat, Tracking;
    TidySize(g, entry);
    KeepsSelf(g, entry);
  }

  lemma UseTidy(m: Machine, x: Var, g: Gen, entry: seq<set<Value>>)
    requires Tidy(g, entry)
    ensures ExprTidied(g, entry, LowerExpr(m, Use(x), g), entry)
  {
    hide Neat, Tracking, ExprTidied;
    var i := Load(g.next, Lookup(g, x));
    VarNotLate(g, x);
    DefineTidy(g, entry, i, Loaded(g.next, Lookup(g, x)));
  }

  lemma ConstUsable(g: Gen, entry: seq<set<Value>>, c: Const)
    requires g.Valid() && |g.blocks| == |entry|
    ensures Usable(g, entry, K(c))
  {
  }

  lemma UnaryTidy(m: Machine, op: UnOp, a: Expr, g: Gen, entry: seq<set<Value>>, entry': seq<set<Value>>)
    requires ExprTidied(g, entry, LowerExpr(m, a, g), entry')
    ensures ExprTidied(g, entry, LowerExpr(m, Unary(op, a), g), entry')
  {
    hide Keeps, Usable, Grows;
    var (g1, v) := LowerExpr(m, a, g);
    if !(v.K? && FoldsUn(op, v.c)) {
      ThenDefine(g, entry, g1, entry', Un(g1.next, op, v), Temp(g1.next));
    } else {
      ConstUsable(g1, entry', m.foldUn(op, v.c));
    }
  }

  lemma {:induction false} BinaryTidy(m: Machine, e: Expr, g: Gen, entry: seq<set<Value>>)
      returns (entry': seq<set<Value>>)
    requires Tidy(g, entry) && e.Binary? && e.op != BOr
    ensures ExprTidied(g, entry, LowerExpr(m, e, g), entry')
    decreases e, 0
  {
    hide Tidy, Usable, Grows, FoldsBin;
    var e1 := ExprTidy(m, e.l, g, entry);
    var (g1, a) := LowerExpr(m, e.l, g);
    entry' := ExprTidy(m, e.r, g1, e1);
    var (g2, b) := LowerExpr(m, e.r, g1);
    UsableKept(g1, e1, g2, entry', a);
    GrowsTrans(g, g1, g2);
    KeepsTrans(g, entry, g1, e1, g2, entry');
    CreateTidy(m, g, entry, g2, entry', e.op, a, b, g1.next);
  }

  lemma CreateTidy(m: Machine, g: Gen, entry: seq<set<Value>>, g2: Gen, e2: seq<set<Value>>, op: BinOp, a: Value,
        b: Value, k: nat)
    requires Grows(g, g2) && Keeps(g, entry, g2, e2) && |e2| == |g2.blocks| && Usable(g2, e2, a) && Usable(g2, e2, b)
    requires b.K? || g.next <= k <= IdOf(b)
    ensures ExprTidied(g, entry, CreateBin(m, g2, op, a, b), e2)
  {
    hide Keeps, Usable, Grows;
    GrowsNext(g, g2);
    var x := Bin(g2.next, if op == BXor then BAnd else op, a, b);
    if CreateBin(m, g2, op, a, b) == (EmitNew(g2, x), Temp(g2.next)) {
      ThenDefine(g, entry, g2, e2, x, Temp(g2.next));
    } else if a.K? && b.K? {
      ConstUsable(g2, e2, m.foldBin(op, a.c, b.c));
    }
  }

  lemma {:induction false} ArgsTidy(m: Machine, es: seq<Expr>, g: Gen, entry: seq<set<Value>>)
      returns (entry': seq<set<Value>>, vs: seq<Value>)
    requires Tidy(g, entry)
    ensures vs == LowerArgs(m, es, g).1
    ensures var r := LowerArgs(m, es, g).0;
            Grows(g, r) && Keeps(g, entry, r, entry') && r.Valid() && |entry'| == |r.blocks| && AllUsable(r, entry', vs)
    decreases es, 0
  {
    hide Tidy, Usable, Grows, Keeps;
    if es == [] {
      entry', vs := entry, [];
      KeepsSelf(g, entry);
      TidySize(g, entry);
    } else {
      var e1 := ExprTidy(m, es[0], g, entry);
      var (g1, v) := LowerExpr(m, es[0], g);
      KeepsTidy(g, entry, g1, e1);
      entry', vs := ArgsTidy(m, es[1..], g1, e1);
      var g2 := LowerArgs(m, es[1..], g1).0;
      UsableKept(g1, e1, g2, entry', v);
      GrowsTrans(g, g1, g2);
      KeepsTrans(g, entry, g1, e1, g2, entry');
      vs := [v] + vs;
    }
  }

  lemma KeepsTidy(g: Gen, entry: seq<set<Value>>, r: Gen, entry': seq<set<Value>>)
    requires Keeps(g, entry, r, entry')
    ensures Tidy(r, entry') && entry <= entry' && g.next <= r.next
  {
  }

  // ---------------------------------------------------------------- `or`

  /** While an `or` that started in g is built: loads known in g are counted on in its last two
      blocks, and no store waits for an older value or for the result cell. */
  ghost predicate OrOpen(g: Gen, entry: seq<set<Value>>, h: Gen, e: seq<set<Value>>) {
    && Tidy(g, entry) && Tidy(h, e) && g.next < h.next && |g.blocks| + 3 <= |e| && entry <= e
    && e[|g.blocks| + 1] == Now(g, entry) == e[|g.blocks| + 2]
    && (forall v | NotLate(g.blocks, v) && IdOf(v) < g.next :: NotLate(h.blocks, v))
    && NotLate(h.blocks, Cell(g.next))
  }

  /** What the block of the left arm may count on: also the left value, if it is a load. */
  function LeftLoads(now: set<Value>, a: Value): set<Value> {
    if a.Loaded? then now + {a} else now
  }

  lemma {:induction false} LoadedCell(m: Machine, e: Expr, g: Gen)
    requires g.Valid()
    ensures var v := LowerExpr(m, e, g).1; v.Loaded? ==> exists x :: v.x == Lookup(g, x)
  {
    hide Grows, CreateBin, Lookup, OrHead, OrLeft;
    match e
    case Use(x) => assert LowerExpr(m, e, g).1.x == Lookup(g, x);
    case Binary(op, l, r) =>
      if op != BOr {
        LowerExprGrows(m, l, g);
        var (g1, a) := LowerExpr(m, l, g);
        GrowsNext(g, g1);
        LoadedCell(m, r, g1);
        var (g2, b) := LowerExpr(m, r, g1);
        CreatedLoad(m, g2, op, a, b);
        SameLookup(g, g1, b);
      }
    case _ =>
  }

  lemma CreatedLoad(m: Machine, g: Gen, op: BinOp, a: Value, b: Value)
    ensures var v := CreateBin(m, g, op, a, b).1; v.Loaded? ==> v == b
  {
  }

  lemma SameLookup(g: Gen, g1: Gen, v: Value)
    requires g1.scope == g.scope && (v.Loaded? ==> exists x :: v.x == Lookup(g1, x))
    ensures v.Loaded? ==> exists x :: v.x == Lookup(g, x)
  {
    assert forall x :: Lookup(g1, x) == Lookup(g, x);
  }

  lemma LoadedSmall(m: Machine, e: Expr, g: Gen)
    requires g.Valid()
    ensures var v := LowerExpr(m, e, g).1; v.Loaded? ==> v.x == 0 || v.x < g.next
  {
    hide LowerExpr;
    LoadedCell(m, e, g);
  }

  lemma NowBelow(g: Gen, entry: seq<set<Value>>)
    requires Tidy(g, entry)
    ensures LoadsBelow(Now(g, entry), g.next)
  {
  }

  lemma OrStartTidy(g: Gen, entry: seq<set<Value>>, a: Value) returns (e: seq<set<Value>>)
    requires Tidy(g, entry) && (a.Loaded? ==> a.x <= g.next)
    ensures e == entry + [LeftLoads(Now(g, entry), a), Now(g, entry), Now(g, entry)]
    ensures OrOpen(g, entry, OrStart(g), e) && Now(OrStart(g), e) == Now(g, entry) && Grows(g, OrStart(g))
  {
    hide Neat, Current, Tracked, NotLate;
    TidySize(g, entry);
    var now := Now(g, entry);
    var sets := [LeftLoads(now, a), now, now];
    e := entry + sets;
    OrStartNeat(g);
    NowBelow(g, entry);
    OrStartTracking(g, entry, sets);
    GrowsNew(g, g, 3);
    GrowsEmit(g, NewBlocks(g, 3), Alloca(g.next));
  }

  lemma OrStartTracking(g: Gen, entry: seq<set<Value>>, sets: seq<set<Value>>)
    requires Tidy(g, entry) && |sets| == 3 && forall k | 0 <= k < 3 :: LoadsBelow(sets[k], g.next + 1)
    ensures Tracking(OrStart(g), entry + sets) && |entry + sets| == |OrStart(g).blocks|
    ensures g.cur < |g.blocks| == |entry| && Now(OrStart(g), entry + sets) == Now(g, entry)
  {
    hide Neat, Tracked, LoadsBelow, Current, InstrTracked;
    TidySize(g, entry);
    var g1, x, e := NewBlocks(g, 3), Alloca(g.next), entry + sets;
    NewTracked(g.blocks, entry, sets);
    assert InstrTracked(e, Now(g1, e), x) by { NoOperands(e, Now(g1, e), x); }
    EmitTracked(g1, e, x);
    OrStartBounds(g, entry, sets);
  }

  lemma NoOperands(e: seq<set<Value>>, now: set<Value>, x: Instr)
    requires x.Alloca?
    ensures InstrTracked(e, now, x) && After(now, x) == now
  {
  }

  lemma OrStartBounds(g: Gen, entry: seq<set<Value>>, sets: seq<set<Value>>)
    requires Tidy(g, entry) && |sets| == 3 && forall k | 0 <= k < 3 :: LoadsBelow(sets[k], g.next + 1)
    ensures var r := OrStart(g); var e := entry + sets;
            |e| == |r.blocks| && forall b | 0 <= b < |r.blocks| :: LoadsBelow(Current(e[b], r.blocks[b]), r.next)
  {
    hide Neat, Tracked;
    TrackedSize(g.blocks, entry);
    var r, e := OrStart(g), entry + sets;
    forall b | 0 <= b < |r.blocks| ensures LoadsBelow(Current(e[b], r.blocks[b]), r.next) {
      if b == g.cur {
        CurrentAppend(e[b], g.blocks[b], Alloca(g.next));
      } else if b >= |g.blocks| {
        EmptyTracked(e, e[b]);
      }
      if b < |g.blocks| { assert LoadsBelow(Current(entry[b], g.blocks[b]), g.next); }
    }
  }

  lemma OrStartNeat(g: Gen)
    requires g.Valid() && Neat(g)
    ensures OrStart(g).Valid() && Neat(OrStart(g)) && NotLate(OrStart(g).blocks, Cell(g.next))
    ensures forall v :: NotLate(g.blocks, v) ==> NotLate(OrStart(g).blocks, v)
  {
    hide Neat, NotLate;
    var g1, x := NewBlocks(g, 3), Alloca(g.next);
    NewSaid(g, 3);
    SaidNeat(g, g1);
    EmitNeat(g1, x, g.next + 1);
    NewNotLate(g, Cell(g.next));
    forall v | NotLate(g.blocks, v) ensures NotLate(OrStart(g).blocks, v) { EmitNotLate(g1, x, v); }
  }

  /** The left side and the branch. */
  lemma {:induction false} OrHeadTidy(m: Machine, l: Expr, g: Gen, entry: seq<set<Value>>) returns (e: seq<set<Value>>)
    requires Tidy(g, entry)
    ensures var (h, a) := OrHead(m, l, g);
            && OrOpen(g, entry, h, e) && |g.blocks| < |e| && e[|g.blocks|] == LeftLoads(Now(g, entry), a)
            && (a.K? || (NotLate(h.blocks, a) && g.next < IdOf(a) < h.next))
    decreases l, 2
  {
    hide Tidy, LowerExpr, NotLate, Now, Appendable, Usable;
    TidySize(g, entry);
    var n, g0 := |g.blocks|, OrStart(g);
    var a := LowerExpr(m, l, g0).1;
    assert g0.Valid() by { GrowsNew(g, g, 3); }
    LoadedSmall(m, l, g0);
    var e0 := OrStartTidy(g, entry, a);
    e := ExprTidy(m, l, g0, e0);
    var g1 := LowerExpr(m, l, g0).0;
    var x := CondBr(a, n, n + 1);
    TidySize(g1, e);
    UsableOperands(g1, e, x, g1.next);
    assert a.Loaded? ==> a in Now(g1, e) by { UsableLoad(g1, e, a); }
    assert e[n] == e0[n] && e[n + 1] == e0[n + 1] && e[n + 2] == e0[n + 2];
    EmitTidy(g1, e, x, g1.next);
    LeftKept(g1, e, x, a);
    forall v | NotLate(g.blocks, v) && IdOf(v) < g.next
      ensures NotLate(Emit(g1, x).blocks, v) { EmitNotLate(g1, x, v); }
    EmitNotLate(g1, x, Cell(g.next));
  }

  lemma UsableLoad(g: Gen, entry: seq<set<Value>>, v: Value)
    requires g.Valid() && |g.blocks| == |entry| && Usable(g, entry, v)
    ensures v.Loaded? ==> v in Now(g, entry)
    ensures v.K? || (NotLate(g.blocks, v) && IdOf(v) < g.next)
  {
  }

  lemma LeftKept(g: Gen, entry: seq<set<Value>>, x: Instr, a: Value)
    requires g.Valid() && |g.blocks| == |entry| && Usable(g, entry, a) && !x.Store?
    ensures a.K? || (NotLate(Emit(g, x).blocks, a) && IdOf(a) < g.next)
  {
    if !a.K? { EmitNotLate(g, x, a); }
  }

  /** The left value is defined before the block that stores it, or nothing before that block speaks of it. */
  lemma {:induction false} LeftQuiet(m: Machine, l: Expr, g: Gen)
    requires g.Valid() && IdsBelow(g.blocks, g.next)
    ensures var (h, a) := OrHead(m, l, g); var n := |g.blocks|; var h0 := MoveTo(h, n);
            && h0.Valid() && h.blocks[n] == [] && (a.K? || g.next < IdOf(a))
            && (if Early(m, l) then Avail(h0, a) else !a.K? && Quiet(h0, a, n, 0))
  {
    hide LowerExpr, IdsBelow, DefinedIn, Untouched, Early, Moves, DefinedBefore, MentionedBefore;
    var n, g0 := |g.blocks|, OrStart(g);
    OrStartIds(g);
    E.OrHeadEmpty(m, l, g);
    OrHeadGrows(m, l, g);
    LowerIds(m, l, g0);
    LowerExprGrows(m, l, g0);
    EarlyExact(m, l, g0);
    var (h, a) := OrHead(m, l, g);
    var g1 := LowerExpr(m, l, g0).0;
    if Early(m, l) {
      if !a.K? { DefinedInEmit(g1, CondBr(a, n, n + 1), a, g.cur); }
      StoreOperands(g, MoveTo(h, n), a);
    } else {
      LateMoves(m, l);
      MovesAway(m, l, g0);
      assert h.blocks[g.cur] == g1.blocks[g.cur];
      UntouchedSame(g1.blocks, h.blocks, a, g.cur);
      LateUnmentioned(g, h, a);
      LookupSmall(g, a);
    }
  }

  lemma LateMoves(m: Machine, e: Expr)
    requires !Early(m, e)
    ensures Moves(e)
  {
  }

  lemma UntouchedSame(G: Cfg, G': Cfg, v: Value, b: nat)
    requires Untouched(G, v, b) && b < |G| && b < |G'| && G[b] == G'[b]
    ensures Untouched(G', v, b)
  {
    forall i: nat ensures !DefinedAt(G', v, b, i) && !MentionedAt(G', v, b, i) {
      assert !DefinedAt(G, v, b, i) && !MentionedAt(G, v, b, i);
    }
  }

  lemma LookupSmall(g: Gen, a: Value)
    requires g.Valid() && IdOf(a) > g.next
    ensures forall x: Var :: a != Cell(Lookup(g, x))
  {
  }

  /** A value with a new identity that the starting block does not use is not used before block n. */
  lemma LateUnmentioned(g: Gen, h: Gen, a: Value)
    requires Grows(g, h) && IdsBelow(g.blocks, g.next) && IdOf(a) > g.next && !a.K? && Untouched(h.blocks, a, g.cur)
    ensures !MentionedBefore(h.blocks, a, |g.blocks|, 0)
  {
    forall b: nat, i: nat | Earlier(b, i, |g.blocks|, 0) ensures !MentionedAt(h.blocks, a, b, i) {
      if b != g.cur { assert MentionedAt(h.blocks, a, b, i) <==> MentionedAt(g.blocks, a, b, i); }
    }
  }

  /** The left arm: its store, wherever its value is defined, and the branch. */
  lemma {:induction false} OrLeftTidy(m: Machine, l: Expr, g: Gen, entry: seq<set<Value>>) returns (e: seq<set<Value>>)
    requires Tidy(g, entry)
    ensures var (g1, a) := OrHead(m, l, g); OrOpen(g, entry, OrLeft(g1, a, g.next, |g.blocks|), e)
    decreases l, 3
  {
    hide Tidy, OrHead, NotLate, Now, Avail, Quiet, LoadsBelow, Early;
    TidySize(g, entry);
    var n := |g.blocks|;
    e := OrHeadTidy(m, l, g, entry);
    var (h, a) := OrHead(m, l, g);
    OrHeadGrows(m, l, g);
    assert IdsBelow(g.blocks, g.next) by { TidyIds(g, entry); }
    LeftQuiet(m, l, g);
    var h0, x := MoveTo(h, n), Store(g.next, a);
    MoveTidy(h, e, n);
    TidySize(h0, e);
    assert Now(h0, e) == e[n] by { EmptyNow(h0, e); }
    EmitTidy(h0, e, x, h0.next);
    var h1 := Emit(h0, x);
    assert Now(g, entry) <= Now(h1, e) by { NowBelow(g, entry);
           StillLoaded(Now(g, entry), LeftLoads(Now(g, entry), a), g.next, a); }
    EmitTidy(h1, e, Br(n + 2), h1.next);
    var h2 := Emit(h1, Br(n + 2));
    MoveTidy(h2, e, n + 1);
    forall v | NotLate(h.blocks, v) && IdOf(v) <= g.next ensures NotLate(h2.blocks, v) {
      EmitNotLate(h0, x, v);
      EmitNotLate(h1, Br(n + 2), v);
    }
  }

  lemma TidyIds(g: Gen, entry: seq<set<Value>>)
    requires Tidy(g, entry)
    ensures IdsBelow(g.blocks, g.next)
  {
  }

  lemma EmptyNow(g: Gen, entry: seq<set<Value>>)
    requires g.cur < |g.blocks| == |entry| && g.blocks[g.cur] == []
    ensures Now(g, entry) == entry[g.cur]
  {
  }

  /** A store to a new cell leaves older loads up to date. */
  lemma StillLoaded(now: set<Value>, more: set<Value>, cell: nat, v: Value)
    requires LoadsBelow(now, cell) && now <= more
    ensures now <= After(more, Store(cell, v))
  {
  }

  lemma {:induction false} OrTidy(m: Machine, l: Expr, r: Expr, g: Gen, entry: seq<set<Value>>)
      returns (e: seq<set<Value>>)
    requires Tidy(g, entry)
    ensures ExprTidied(g, entry, LowerOr(m, l, r, g), e)
    decreases Binary(BOr, l, r), 0
  {
    hide Tidy, OrHead, OrLeft, LowerExpr, NotLate, Now, Usable;
    TidySize(g, entry);
    var n := |g.blocks|;
    var e1 := OrLeftTidy(m, l, g, entry);
    var (g1, a) := OrHead(m, l, g);
    var h := OrLeft(g1, a, g.next, n);
    E.OrHeadEmpty(m, l, g);
    OrHeadGrows(m, l, g);
    OrLeftEmpty(g1, a, g.next, n);
    e := ExprTidy(m, r, h, e1);
    var (g2, b) := LowerExpr(m, r, h);
    assert Now(h, e1) == Now(g, entry) by { TidySize(h, e1); EmptyNow(h, e1); }
    OrTailTidy(g, entry, h, e1, g2, e, b);
    OrAvail(m, l, r, g);
    LowerOrGrows(m, l, r, g);
    CellUsable(LowerOr(m, l, r, g).0, e, g.next);
  }

  lemma CellUsable(g: Gen, entry: seq<set<Value>>, cell: nat)
    requires g.Valid() && |g.blocks| == |entry| && Avail(g, Cell(cell)) && NotLate(g.blocks, Cell(cell))
             && cell < g.next
    ensures Usable(g, entry, Cell(cell))
  {
  }

  lemma OrLeftEmpty(g1: Gen, a: Value, cell: nat, n: nat)
    requires g1.Valid() && n + 3 <= |g1.blocks| && g1.blocks[n + 1] == [] && g1.blocks[n + 2] == []
    ensures var h := OrLeft(g1, a, cell, n);
            h.cur == n + 1 && |h.blocks| == |g1.blocks| && h.blocks[n + 1] == [] == h.blocks[n + 2]
  {
  }

  lemma OrAvail(m: Machine, l: Expr, r: Expr, g: Gen)
    requires g.Valid()
    ensures var h := LowerOr(m, l, r, g).0; h.Valid() && Avail(h, Cell(g.next))
  {
    hide LowerExpr, OrHead, OrLeft;
    LowerOrGrows(m, l, r, g);
    OrCellDefined(m, l, r, g);
    StoreOperands(g, LowerOr(m, l, r, g).0, Cell(g.next));
  }

  /** The right value stored, and on to the last block. */
  lemma OrTailTidy(g: Gen, entry: seq<set<Value>>, h: Gen, e1: seq<set<Value>>, g2: Gen, e: seq<set<Value>>, b: Value)
    requires OrOpen(g, entry, h, e1) && h.cur == |g.blocks| + 1 && |h.blocks| >= |g.blocks| + 3
             && h.blocks[|g.blocks| + 2] == []
    requires |h.blocks| == |e1| && h.cur < |h.blocks| && Now(h, e1) == Now(g, entry)
    requires ExprTidied(h, e1, (g2, b), e)
    ensures var r := OrTail(g2, b, g.next, |g.blocks|);
            && Keeps(g, entry, r, e) && r.Valid() && |e| == |r.blocks|
            && NotLate(r.blocks, Cell(g.next)) && g.next < r.next
  {
    hide Tidy, NotLate, Now, LoadsBelow, Appendable;
    var n, x := |g.blocks|, Store(g.next, b);
    TidySize(g2, e);
    assert NotLate(g2.blocks, Cell(g.next));
    StoreAppendable(g2, e, g.next, b);
    EmitTidy(g2, e, x, g2.next);
    var h1 := Emit(g2, x);
    TidySize(g, entry);
    assert Now(g, entry) <= Now(h1, e) by { NowBelow(g, entry); StillLoaded(Now(g, entry), Now(g2, e), g.next, b); }
    assert e[n + 2] == e1[n + 2];
    BrTidy(h1, e, n + 2);
    var h2 := Emit(h1, Br(n + 2));
    MoveTidy(h2, e, n + 2);
    forall v | NotLate(g2.blocks, v) ensures NotLate(h2.blocks, v) {
      StoredNotLate(g2, e, g.next, b, v);
      EmitNotLate(h1, Br(n + 2), v);
    }
    EmptyNow(MoveTo(h2, n + 2), e);
  }

  lemma BrTidy(g: Gen, e: seq<set<Value>>, t: nat)
    requires Tidy(g, e) && t < |e| && e[t] <= Now(g, e)
    ensures Tidy(Emit(g, Br(t)), e)
  {
    hide Neat, Tracking;
    EmitTidy(g, e, Br(t), g.next);
  }

  lemma StoreAppendable(g: Gen, e: seq<set<Value>>, cell: nat, v: Value)
    requires Tidy(g, e) && Usable(g, e, v) && NotLate(g.blocks, Cell(cell)) && IdBelow(Cell(cell), g.next)
    ensures Appendable(g, Store(cell, v), g.next) && InstrTracked(e, Now(g, e), Store(cell, v))
  {
  }

  lemma StoredNotLate(g: Gen, e: seq<set<Value>>, cell: nat, w: Value, v: Value)
    requires g.Valid() && |e| == |g.blocks| && Usable(g, e, w) && NotLate(g.blocks, v)
    ensures NotLate(Emit(g, Store(cell, w)).blocks, v)
  {
    EmitNotLate(g, Store(cell, w), v);
  }
}
