/**
  The generator that walks a unit and builds basic blocks, with its insert point, scope and
  handler stack. Each method computes the function of module FlowLowering it is named after.
 */
module IrGenerator {
  import opened FlowCore
  import opened FlowAst
  import opened FlowIr
  import opened FlowLowering
  import opened FlowShape

  lemma NewThree(g: Gen)
    ensures NewBlocks(NewBlocks(NewBlocks(g, 1), 1), 1) == NewBlocks(g, 3)
  {
  }

  /** The stages of an `or` have room for its three blocks. */
  lemma OrSizes(m: Machine, l: Expr, r: Expr, g: Gen)
    requires g.Valid()
    ensures var n := |g.blocks|;
            var (g1, a) := OrHead(m, l, g);
            var h := OrLeft(g1, a, g.next, n);
            var g2 := LowerExpr(m, r, h).0;
            && NewBlocks(g, 3).Valid() && EmitNew(NewBlocks(g, 3), Alloca(g.next)).Valid() && g1.Valid()
            && n + 3 <= |g1.blocks|
            && h.Valid() && |h.blocks| == |g1.blocks| && g2.Valid() && |h.blocks| <= |g2.blocks|
            && LowerOr(m, l, r, g).0.Valid()
            && g2.scope == h.scope == g1.scope == g.scope && g2.errors == h.errors == g1.errors == g.errors
  {
    OrHeadGrows(m, l, g);
    var (g1, a) := OrHead(m, l, g);
    OrLeftGrows(g, g1, a, g.next, |g.blocks|);
    LowerExprGrows(m, r, OrLeft(g1, a, g.next, |g.blocks|));
    LowerOrGrows(m, l, r, g);
  }

  /** The stages of a conditional have room for its three blocks. */
  lemma CondSizes(m: Machine, u: Unit, stack: seq<string>, s: Stmt, g: Gen)
    requires g.Valid() && OwnLocals(u) && s.Cond?
    ensures var n := |g.blocks|;
            var h1 := CondHead(m, s.c, g);
            var h2 := BranchTo(Lower(m, u, stack, s.thn, h1), Br(n + 2), n + 1);
            && NewBlocks(g, 3).Valid() && LowerExpr(m, s.c, NewBlocks(g, 3)).0.Valid()
            && |LowerExpr(m, s.c, NewBlocks(g, 3)).0.blocks| == |h1.blocks|
            && LowerExpr(m, s.c, NewBlocks(g, 3)).0.scope == g.scope
            && LowerExpr(m, s.c, NewBlocks(g, 3)).0.errors == g.errors
            && h1.Valid() && n + 3 <= |h1.blocks| && h2.Valid() && n + 3 <= |h2.blocks|
            && Lower(m, u, stack, s, g).Valid() && n + 3 <= |Lower(m, u, stack, s.els, h2).blocks|
  {
    hide LowerExpr, SameScope, OwnLocals, Emit;
    var n := |g.blocks|;
    GrowsNew(g, g, 3);
    LowerExprGrows(m, s.c, NewBlocks(g, 3));
    CondHeadGrows(m, s.c, g);
    var h1 := CondHead(m, s.c, g);
    ArmGrows(m, u, stack, s.thn, g, h1, Br(n + 2), n + 1);
    var h2 := BranchTo(Lower(m, u, stack, s.thn, h1), Br(n + 2), n + 1);
    ArmGrows(m, u, stack, s.els, g, h2, Br(n + 2), n + 2);
  }

  class Generator {
    const host: Machine
    const unit: Unit

    var blocks: Cfg
    var insertPoint: nat
    var next: nat
    var scope: map<Var, nat>
    var errors: seq<Problem>
    var handlerStack: seq<string>
    var result: Value

    ghost function State(): Gen
      reads this
    {
      Gen(blocks, insertPoint, next, scope, errors)
    }

    /** Instructions can be inserted, and the unit's handlers own their variables. */
    ghost predicate Ready()
      reads this
    {
      State().Valid() && OwnLocals(unit)
    }

    constructor (host: Machine, unit: Unit)
      ensures this.host == host && this.unit == unit
      ensures State() == Gen([], 0, 0, map[], []) && handlerStack == []
    {
      this.host, this.unit := host, unit;
      blocks, insertPoint, next, scope, errors := [], 0, 0, map[], [];
      handlerStack, result := [], K(CInt(0));
    }

    // -------------------------------------------------------------- builder

    method Insert(i: Instr)
      requires Ready()
      modifies this`blocks
      ensures State() == Emit(old(State()), i) && Ready()
    {
      blocks := blocks[insertPoint := blocks[insertPoint] + [i]];
    }

    method InsertNew(i: Instr, v: Value)
      requires Ready()
      modifies this`blocks, this`next, this`result
      ensures State() == EmitNew(old(State()), i) && Ready() && result == v
    {
      Insert(i);
      next := next + 1;
      result := v;
    }

    method CreateBlock() returns (b: nat)
      modifies this`blocks
      ensures State() == NewBlocks(old(State()), 1) && b == |old(blocks)|
      ensures old(Ready()) ==> Ready()
    {
      b := |blocks|;
      blocks := blocks + [[]];
      assert blocks == NewBlocks(old(State()), 1).blocks;
    }

    method SetInsertPoint(b: nat)
      requires Ready() && b < |blocks|
      modifies this`insertPoint
      ensures State() == MoveTo(old(State()), b) && Ready()
    {
      insertPoint := b;
    }

    method ReportError(p: Problem)
      modifies this`errors
      ensures State() == Fail(old(State()), p)
    {
      errors := errors + [p];
    }

    // -------------------------------------------------------------- expressions

    method Codegen(e: Expr)
      requires Ready()
      modifies this`blocks, this`insertPoint, this`next, this`result
      ensures (State(), result) == LowerExpr(host, e, old(State())) && Ready()
      decreases e, 1
    {
      LowerExprGrows(host, e, State());
      match e {
        case Lit(c) => result := K(c);
        case Use(x) =>
          var cell := if x in scope then scope[x] else 0;
          InsertNew(Load(next, cell), Loaded(next, cell));
        case Unary(op, a) =>
          Codegen(a);
          if result.K? && FoldsUn(op, result.c) {
            result := K(host.foldUn(op, result.c));
          } else {
            InsertNew(Un(next, op, result), Temp(next));
          }
        case Binary(op, l, r) =>
          if op == BOr {
            CodegenOr(l, r);
          } else {
            Codegen(l);
            var lhs := result;
            Codegen(r);
            CreateBinary(op, lhs, result);
          }
        case Call(f, args) =>
          var values := CodegenArgs(args);
          InsertNew(CallFn(next, f, values), Temp(next));
      }
    }

    method CreateBinary(op: BinOp, a: Value, b: Value)
      requires Ready()
      modifies this`blocks, this`next, this`result
      ensures (State(), result) == CreateBin(host, old(State()), op, a, b) && Ready()
    {
      if a.K? && b.K? && FoldsBin(op, a.c, b.c) {
        result := K(host.foldBin(op, a.c, b.c));
      } else if op == SAdd && a == K(CText("")) {
        result := b;
      } else if op == SAdd && !(a.K? && a.c.CText?) && b == K(CText("")) {
        result := b;
      } else {
        InsertNew(Bin(next, if op == BXor then BAnd else op, a, b), Temp(next));
      }
    }

    method CodegenArgs(args: seq<Expr>) returns (values: seq<Value>)
      requires Ready()
      modifies this`blocks, this`insertPoint, this`next, this`result
      ensures (State(), values) == LowerArgs(host, args, old(State())) && Ready()
      decreases args, 0
    {
      values := [];
      assert args[0..] == args;
      for i := 0 to |args|
        invariant Ready()
        invariant scope == old(scope) && errors == old(errors)
        invariant LowerArgs(host, args, old(State())).0 == LowerArgs(host, args[i..], State()).0
        invariant LowerArgs(host, args, old(State())).1 == values + LowerArgs(host, args[i..], State()).1
      {
        ghost var rest := LowerArgs(host, args[i..], State()).1;
        Codegen(args[i]);
        assert args[i..][1..] == args[i + 1..];
        assert values + rest == values + [result] + LowerArgs(host, args[i + 1..], State()).1;
        values := values + [result];
      }
      assert args[|args|..] == [] && LowerArgs(host, [], State()) == (State(), []) && values + [] == values;
    }

    /** The left side of `or`, its branch, and the block that keeps its value. */
    method CodegenOrLeft(l: Expr) returns (cell: nat, left: nat)
      requires Ready()
      modifies this`blocks, this`insertPoint, this`next, this`result
      ensures cell == old(next) && left == |old(blocks)| && Ready()
      ensures var (g1, a) := OrHead(host, l, old(State())); State() == OrLeft(g1, a, cell, left)
      decreases l, 2
    {
      hide Grows, LowerExpr, ExprGrows, Emit;
      ghost var start := State();
      OrSizes(host, l, l, start);
      left := CreateBlock();
      var right := CreateBlock();
      var cont := CreateBlock();
      NewThree(start);
      cell := next;
      InsertNew(Alloca(cell), Cell(cell));
      Codegen(l);
      var lhs := result;
      Insert(CondBr(lhs, left, right));
      assert (State(), lhs) == OrHead(host, l, start);
      SetInsertPoint(left);
      Insert(Store(cell, lhs));
      Insert(Br(cont));
      SetInsertPoint(right);
    }

    method CodegenOr(l: Expr, r: Expr)
      requires Ready()
      modifies this`blocks, this`insertPoint, this`next, this`result
      ensures (State(), result) == LowerOr(host, l, r, old(State())) && Ready()
      decreases Binary(BOr, l, r), 0
    {
      hide Grows, LowerExpr, ExprGrows, Emit, OrHead, OrLeft;
      OrSizes(host, l, r, State());
      var cell, left := CodegenOrLeft(l);
      Codegen(r);
      Insert(Store(cell, result));
      Insert(Br(left + 2));
      SetInsertPoint(left + 2);
      result := Cell(cell);
    }

    // -------------------------------------------------------------- statements

    method CodegenStmt(s: Stmt)
      requires Ready()
      modifies this`blocks, this`insertPoint, this`next, this`result, this`scope, this`errors, this`handlerStack
      ensures State() == Lower(host, unit, old(handlerStack), s, old(State())) && Ready()
      ensures handlerStack == old(handlerStack)
      decreases unit.Keys - Elems(handlerStack), s, 1
    {
      LowerGrows(host, unit, handlerStack, s, State());
      match s {
        case Expression(e) => Codegen(e);
        case Assign(x, e) =>
          var cell := if x in scope then scope[x] else 0;
          Codegen(e);
          Insert(Store(cell, result));
        case Compound(ss) => CodegenAll(ss);
        case Cond(_, _, _) => CodegenCond(s);
        case Switch(_, _, _, _) => CodegenMatch(s);
        case Invoke(f, args) =>
          var values := CodegenArgs(args);
          InsertNew(CallHn(next, f, values), Temp(next));
        case Inline(h) => CodegenInline(h);
      }
    }

    method CodegenAll(ss: seq<Stmt>)
      requires Ready()
      modifies this`blocks, this`insertPoint, this`next, this`result, this`scope, this`errors, this`handlerStack
      ensures State() == LowerAll(host, unit, old(handlerStack), ss, old(State())) && Ready()
      ensures handlerStack == old(handlerStack)
      decreases unit.Keys - Elems(handlerStack), ss, 0
    {
      for i := 0 to |ss|
        invariant Ready() && handlerStack == old(handlerStack)
        invariant LowerAll(host, unit, handlerStack, ss[i..], State())
                  == LowerAll(host, unit, handlerStack, ss, old(State()))
      {
        CodegenStmt(ss[i]);
        assert ss[i..][1..] == ss[i + 1..];
      }
    }

    method CodegenCond(s: Stmt)
      requires Ready() && s.Cond?
      modifies this`blocks, this`insertPoint, this`next, this`result, this`scope, this`errors, this`handlerStack
      ensures State() == Lower(host, unit, old(handlerStack), s, old(State())) && Ready()
      ensures handlerStack == old(handlerStack)
      decreases unit.Keys - Elems(handlerStack), s, 0
    {
      hide Grows, LowerExpr, Emit, LowerOr, LowerCases, LowerAll, LowerHandler, LowerExported;
      ghost var start := State();
      CondSizes(host, unit, handlerStack, s, start);
      var trueBlock := CreateBlock();
      var falseBlock := CreateBlock();
      var contBlock := CreateBlock();
      NewThree(start);
      Codegen(s.c);
      Insert(CondBr(result, trueBlock, falseBlock));
      SetInsertPoint(trueBlock);
      assert State() == CondHead(host, s.c, start);
      CodegenStmt(s.thn);
      Insert(Br(contBlock));
      SetInsertPoint(falseBlock);
      CodegenStmt(s.els);
      Insert(Br(contBlock));
      SetInsertPoint(contBlock);
    }

    /** Adds labels to a match instruction that is already part of a block. */
    method AddCase(o: nat, k: nat, labels: seq<Label>, b: nat)
      requires Ready()
      modifies this`blocks
      ensures State() == AddCases(old(State()), o, k, labels, b) && Ready()
    {
      if o < |blocks| && k < |blocks[o]| && blocks[o][k].Match? {
        var i := blocks[o][k];
        var i' := i.(labels := i.labels + labels, targets := i.targets + seq(|labels|, _ => b));
        blocks := blocks[o := blocks[o][k := i']];
      }
    }

    method SetElseBlock(o: nat, k: nat, b: nat)
      requires Ready()
      modifies this`blocks
      ensures State() == SetElse(old(State()), o, k, b) && Ready()
    {
      if o < |blocks| && k < |blocks[o]| && blocks[o][k].Match? {
        var i := blocks[o][k];
        blocks := blocks[o := blocks[o][k := i.(other := b)]];
      }
    }

    method CodegenCases(cases: seq<Case>, cont: nat, o: nat, k: nat)
      requires Ready()
      modifies this`blocks, this`insertPoint, this`next, this`result, this`scope, this`errors, this`handlerStack
      ensures State() == LowerCases(host, unit, old(handlerStack), cases, cont, o, k, old(State())) && Ready()
      ensures handlerStack == old(handlerStack) && |old(blocks)| <= |blocks|
      decreases unit.Keys - Elems(handlerStack), cases, 0
    {
      for i := 0 to |cases|
        invariant Ready() && handlerStack == old(handlerStack) && |old(blocks)| <= |blocks|
        invariant LowerCases(host, unit, handlerStack, cases[i..], cont, o, k, State())
               == LowerCases(host, unit, handlerStack, cases, cont, o, k, old(State()))
      {
        var one := cases[i];
        var bb := CreateBlock();
        SetInsertPoint(bb);
        LowerGrows(host, unit, handlerStack, one.body, State());
        CodegenStmt(one.body);
        Insert(Br(cont));
        AddCase(o, k, one.labels, bb);
        assert cases[i..][1..] == cases[i + 1..];
      }
    }

    method CodegenMatch(s: Stmt)
      requires Ready() && s.Switch?
      modifies this`blocks, this`insertPoint, this`next, this`result, this`scope, this`errors, this`handlerStack
      ensures State() == Lower(host, unit, old(handlerStack), s, old(State())) && Ready()
      ensures handlerStack == old(handlerStack)
      decreases unit.Keys - Elems(handlerStack), s, 0
    {
      hide Grows, LowerExpr, LowerCases, Emit;
      assert Lower(host, unit, handlerStack, s, State()).Valid() by { LowerGrows(host, unit, handlerStack, s, State());
             }
      Codegen(s.c);
      var cond := result;
      var cont := CreateBlock();
      var o, k := insertPoint, |blocks[insertPoint]|;
      Insert(Match(s.mc, cond, [], [], cont));
      CodegenCases(s.cases, cont, o, k);
      if s.other.Some? {
        var bb := CreateBlock();
        SetInsertPoint(bb);
        ghost var size := |blocks|;
        assert |Lower(host, unit, handlerStack, s.other.value, State()).blocks| >= size by {
          LowerGrows(host, unit, handlerStack, s.other.value, State());
        }
        CodegenStmt(s.other.value);
        Insert(Br(cont));
        SetElseBlock(o, k, bb);
      } else {
        SetElseBlock(o, k, cont);
      }
      SetInsertPoint(cont);
    }

    // -------------------------------------------------------------- handlers

    method CodegenInline(h: string)
      requires Ready()
      modifies this`blocks, this`insertPoint, this`next, this`result, this`scope, this`errors, this`handlerStack
      ensures State() == LowerHandler(host, unit, old(handlerStack), h, old(State())) && Ready()
      ensures handlerStack == old(handlerStack)
      decreases unit.Keys - Elems(handlerStack), Inline(h), 0
    {
      LowerHandlerGrows(host, unit, handlerStack, h, State());
      if h in handlerStack {
        ReportError(Recursive(h));
        return;
      }
      if h !in unit {
        ReportError(Missing(h));
        return;
      }
      ElemsPush(handlerStack, h);
      handlerStack := handlerStack + [h];
      LowerLocalsGrows(host, unit[h].locals, State());
      CodegenLocals(unit[h].locals);
      if unit[h].body.None? {
        ReportError(Missing(h));
      } else {
        CodegenStmt(unit[h].body.value);
      }
      handlerStack := handlerStack[..|handlerStack| - 1];
    }

    method CodegenLocals(locals: seq<Local>)
      requires Ready()
      modifies this`blocks, this`insertPoint, this`next, this`result, this`scope
      ensures State() == LowerLocals(host, locals, old(State())) && Ready()
    {
      for i := 0 to |locals|
        invariant Ready() && errors == old(errors)
        invariant LowerLocals(host, locals[i..], State()) == LowerLocals(host, locals, old(State()))
      {
        LowerExprGrows(host, locals[i].init, State());
        Codegen(locals[i].init);
        var initializer, cell := result, next;
        InsertNew(Alloca(cell), Cell(cell));
        scope := scope[locals[i].x := cell];
        Insert(Store(cell, initializer));
        assert locals[i..][1..] == locals[i + 1..];
      }
    }

    /** Generates an exported handler into blocks of its own. */
    method Generate(h: string)
      requires handlerStack == [] && OwnLocals(unit) && (forall x | x in scope :: scope[x] < next)
      modifies this`blocks, this`insertPoint, this`next, this`result, this`scope, this`errors, this`handlerStack
      ensures State() == LowerExported(host, unit, h, old(State())) && Ready()
      ensures handlerStack == []
    {
      blocks, insertPoint := [], 0;
      var entryPoint := CreateBlock();
      assert blocks == [[]];
      SetInsertPoint(entryPoint);
      CodegenInline(h);
      Insert(Ret(false));
    }
  }
}
