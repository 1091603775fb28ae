/**
  Two programs that the code generator gets wrong because a value is used, in layout order, before
  it is defined: a handler with an `or` whose left value is late, and blocks that no handler gives.
 */
module FlowWitness {
  import opened Wrappers
  import opened FlowCore
  import opened FlowAst
  import opened FlowIr
  import opened FlowLowering
  import opened FlowVm
  import opened FlowTarget
  import opened FlowRegisters
  import opened FlowTargetProof
  import opened FlowStmtProof
  import opened FlowCorrectness
  import E = FlowExprProof

  // ---------------------------------------------------------------- a host

  /** Unary operators negate, builtin functions return `answer`, and builtin handlers take over. */
  function Host(answer: int): Machine {
    Machine(
      (_, v) => if v == Num(0) then Num(1) else Num(0),
      (op, v, w) => if op == SAdd && v == Text("") then w else Num(0),
      (_, c) => if ConstVal(c) == Num(0) then CInt(1) else CInt(0),
      (op, c, d) => if op == SAdd && ConstVal(c) == Text("") then d else CInt(0),
      (_, _, _) => Num(answer),
      (_, _, _) => true,
      (_, _) => false)
  }

  lemma HostLawful(answer: int)
    ensures Lawful(Host(answer))
  {
    var m := Host(answer);
    forall op, c ensures ConstVal(m.foldUn(op, c)) == m.un(op, ConstVal(c)) { }
    forall op, c, d ensures ConstVal(m.foldBin(op, c, d)) == m.bin(op, ConstVal(c), ConstVal(d)) { }
  }

  // ---------------------------------------------------------------- a late left value

  function Test(): Expr {
    Binary(BOr, Unary(BNot, Binary(BOr, Call("f", []), Call("g", []))), Call("h", []))
  }

  /** `handler main { if (not (f() or g())) or h() { yes } }` */
  function LateUnit(): Unit {
    map["main" := Handler([], Some(Cond(Test(), Invoke("yes", []), Compound([]))))]
  }

  const F := Event("f", [])
  const G := Event("g", [])
  const YES := Event("yes", [])

  lemma EvalCall(m: Machine, f: string, store: Store, tr: Trace)
    ensures Eval(m, Call(f, []), store, tr) == (m.call(f, [], tr), tr + [Event(f, [])])
  {
    assert EvalAll(m, [], store, tr) == ([], tr);
  }

  /** With builtins that return 0 the source makes the test come out true and calls `yes`. */
  lemma SourceSaysYes()
    ensures Meaning(Host(0), LateUnit(), "main", []) == Some(Halted(true, [F, G, YES]))
  {
    hide Lawful;
    var m, u := Host(0), LateUnit();
    assert [] + [F] == [F] && [F] + [G] == [F, G] && [F, G] + [YES] == [F, G, YES];
    EvalCall(m, "f", map[], []);
    EvalCall(m, "g", map[], [F]);
    var inner := Binary(BOr, Call("f", []), Call("g", []));
    assert Eval(m, inner, map[], []) == (Num(0), [F, G]);
    assert Eval(m, Unary(BNot, inner), map[], []) == (Num(1), [F, G]);
    assert Eval(m, Test(), map[], []) == (Num(1), [F, G]);
    var body := u["main"].body.value;
    assert EvalAll(m, [], map[], [F, G]) == ([], [F, G]);
    assert Exec(m, u, ["main"], Invoke("yes", []), map[], [F, G]) == Exited([F, G, YES]);
    assert Exec(m, u, ["main"], body, map[], []) == Exited([F, G, YES]);
    assert [] + ["main"] == ["main"];
    assert ExecHandler(m, u, [], "main", map[], []) == Exited([F, G, YES]);
  }

  lemma LowerCall(m: Machine, f: string, g: Gen)
    ensures LowerExpr(m, Call(f, []), g) == (EmitNew(g, CallFn(g.next, f, [])), Temp(g.next))
  {
    assert LowerArgs(m, [], g) == (g, []);
  }

  /** The generator with the given blocks. */
  function Built(blocks: Cfg, cur: nat, next: nat): Gen {
    Gen(blocks, cur, next, map[], [])
  }

  lemma Three(a: Cfg, cur: nat, next: nat)
    ensures NewBlocks(Built(a, cur, next), 3) == Built(a + [[], [], []], cur, next)
  {
    assert NewBlocks(Built(a, cur, next), 3).blocks == a + [[], [], []];
  }

  lemma Puts(a: Cfg, b: Cfg, cur: nat, next: nat, i: Instr)
    requires cur < |a| == |b| && b[cur] == a[cur] + [i] && forall k | 0 <= k < |a| && k != cur :: b[k] == a[k]
    ensures Emit(Built(a, cur, next), i) == Built(b, cur, next)
  {
    assert a[cur := a[cur] + [i]] == b;
  }

  // The ten blocks, in layout order: the entry, the two arms of the conditional and what follows
  // it, the outer `or` (left, right, behind), and the inner one.

  const ENTRY: Block := [Alloca(0), Alloca(1), CallFn(2, "f", []), CondBr(Temp(2), 7, 8)]
  const THEN: Block := [CallHn(6, "yes", []), Br(3)]
  const OUTER_LEFT: Block := [Store(0, Temp(4)), Br(6)]
  const OUTER_RIGHT: Block := [CallFn(5, "h", []), Store(0, Temp(5)), Br(6)]
  const LEFT: Block := [Store(1, Temp(2)), Br(9)]
  const RIGHT: Block := [CallFn(3, "g", []), Store(1, Temp(3)), Br(9)]
  const LAST: Block := [Un(4, BNot, Cell(1)), CondBr(Temp(4), 4, 5)]

  function LateBlocks(): Cfg {
    [ENTRY, THEN, [Br(3)], [Ret(false)], OUTER_LEFT, OUTER_RIGHT, [CondBr(Cell(0), 1, 2)], LEFT, RIGHT, LAST]
  }

  lemma InnerHead(m: Machine)
    ensures OrHead(m, Call("f", []), Built([[Alloca(0)], [], [], [], [], [], []], 0, 1))
         == (Built([ENTRY, [], [], [], [], [], [], [], [], []], 0, 3), Temp(2))
  {
    var a: Cfg := [[Alloca(0)], [], [], [], [], [], []];
    Three(a, 0, 1);
    var b: Cfg := [[Alloca(0)], [], [], [], [], [], [], [], [], []];
    assert a + [[], [], []] == b;
    var c: Cfg := [[Alloca(0), Alloca(1)], [], [], [], [], [], [], [], [], []];
    Puts(b, c, 0, 1, Alloca(1));
    LowerCall(m, "f", Built(c, 0, 2));
    var d: Cfg := [[Alloca(0), Alloca(1), CallFn(2, "f", [])], [], [], [], [], [], [], [], [], []];
    Puts(c, d, 0, 2, CallFn(2, "f", []));
    Puts(d, [ENTRY, [], [], [], [], [], [], [], [], []], 0, 3, CondBr(Temp(2), 7, 8));
  }

  lemma InnerLeft()
    ensures OrLeft(Built([ENTRY, [], [], [], [], [], [], [], [], []], 0, 3), Temp(2), 1, 7)
         == Built([ENTRY, [], [], [], [], [], [], LEFT, [], []], 8, 3)
  {
    var a: Cfg := [ENTRY, [], [], [], [], [], [], [], [], []];
    var b: Cfg := [ENTRY, [], [], [], [], [], [], [Store(1, Temp(2))], [], []];
    Puts(a, b, 7, 3, Store(1, Temp(2)));
    Puts(b, [ENTRY, [], [], [], [], [], [], LEFT, [], []], 7, 3, Br(9));
  }

  /** The inner `or`, from the block that holds the outer cell. */
  lemma LowerInner(m: Machine)
    ensures LowerOr(m, Call("f", []), Call("g", []), Built([[Alloca(0)], [], [], [], [], [], []], 0, 1))
         == (Built([ENTRY, [], [], [], [], [], [], LEFT, RIGHT, []], 9, 4), Cell(1))
  {
    hide OrHead, OrLeft, LowerExpr, Emit;
    InnerHead(m);
    InnerLeft();
    var a: Cfg := [ENTRY, [], [], [], [], [], [], LEFT, [], []];
    LowerCall(m, "g", Built(a, 8, 3));
    var b: Cfg := [ENTRY, [], [], [], [], [], [], LEFT, [CallFn(3, "g", [])], []];
    Puts(a, b, 8, 3, CallFn(3, "g", []));
    var c: Cfg := [ENTRY, [], [], [], [], [], [], LEFT, [CallFn(3, "g", []), Store(1, Temp(3))], []];
    Puts(b, c, 8, 4, Store(1, Temp(3)));
    Puts(c, [ENTRY, [], [], [], [], [], [], LEFT, RIGHT, []], 8, 4, Br(9));
  }

  lemma OuterHead(m: Machine)
    ensures OrHead(m, Unary(BNot, Binary(BOr, Call("f", []), Call("g", []))), Built([[], [], [], []], 0, 0))
         == (Built([ENTRY, [], [], [], [], [], [], LEFT, RIGHT, LAST], 9, 5), Temp(4))
  {
    hide LowerOr, Emit;
    var a: Cfg := [[], [], [], []];
    Three(a, 0, 0);
    var b: Cfg := [[], [], [], [], [], [], []];
    assert a + [[], [], []] == b;
    Puts(b, [[Alloca(0)], [], [], [], [], [], []], 0, 0, Alloca(0));
    LowerInner(m);
    var c: Cfg := [ENTRY, [], [], [], [], [], [], LEFT, RIGHT, []];
    var d: Cfg := [ENTRY, [], [], [], [], [], [], LEFT, RIGHT, [Un(4, BNot, Cell(1))]];
    Puts(c, d, 9, 4, Un(4, BNot, Cell(1)));
    Puts(d, [ENTRY, [], [], [], [], [], [], LEFT, RIGHT, LAST], 9, 5, CondBr(Temp(4), 4, 5));
    E.UnaryIs(m, BNot, Binary(BOr, Call("f", []), Call("g", [])), Built([[Alloca(0)], [], [], [], [], [], []], 0, 1));
  }

  lemma OuterLeft()
    ensures OrLeft(Built([ENTRY, [], [], [], [], [], [], LEFT, RIGHT, LAST], 9, 5), Temp(4), 0, 4)
         == Built([ENTRY, [], [], [], OUTER_LEFT, [], [], LEFT, RIGHT, LAST], 5, 5)
  {
    var a: Cfg := [ENTRY, [], [], [], [], [], [], LEFT, RIGHT, LAST];
    var b: Cfg := [ENTRY, [], [], [], [Store(0, Temp(4))], [], [], LEFT, RIGHT, LAST];
    Puts(a, b, 4, 5, Store(0, Temp(4)));
    Puts(b, [ENTRY, [], [], [], OUTER_LEFT, [], [], LEFT, RIGHT, LAST], 4, 5, Br(6));
  }

  lemma LowerTest(m: Machine)
    ensures LowerExpr(m, Test(), Built([[], [], [], []], 0, 0))
         == (Built([ENTRY, [], [], [], OUTER_LEFT, OUTER_RIGHT, [], LEFT, RIGHT, LAST], 6, 6), Cell(0))
  {
    hide OrHead, OrLeft, Emit;
    OuterHead(m);
    OuterLeft();
    var a: Cfg := [ENTRY, [], [], [], OUTER_LEFT, [], [], LEFT, RIGHT, LAST];
    LowerCall(m, "h", Built(a, 5, 5));
    var b: Cfg := [ENTRY, [], [], [], OUTER_LEFT, [CallFn(5, "h", [])], [], LEFT, RIGHT, LAST];
    Puts(a, b, 5, 5, CallFn(5, "h", []));
    var c: Cfg := [ENTRY, [], [], [], OUTER_LEFT, [CallFn(5, "h", []), Store(0, Temp(5))], [], LEFT, RIGHT, LAST];
    Puts(b, c, 5, 6, Store(0, Temp(5)));
    Puts(c, [ENTRY, [], [], [], OUTER_LEFT, OUTER_RIGHT, [], LEFT, RIGHT, LAST], 5, 6, Br(6));
  }

  lemma LowerHead(m: Machine)
    ensures CondHead(m, Test(), Built([[]], 0, 0))
         == Built([ENTRY, [], [], [], OUTER_LEFT, OUTER_RIGHT, [CondBr(Cell(0), 1, 2)], LEFT, RIGHT, LAST], 1, 6)
  {
    hide LowerExpr, Emit;
    var a: Cfg, b: Cfg := [[]], [[], [], [], []];
    Three(a, 0, 0);
    assert a + [[], [], []] == b;
    LowerTest(m);
    Puts([ENTRY, [], [], [], OUTER_LEFT, OUTER_RIGHT, [], LEFT, RIGHT, LAST],
         [ENTRY, [], [], [], OUTER_LEFT, OUTER_RIGHT, [CondBr(Cell(0), 1, 2)], LEFT, RIGHT, LAST], 6, 6,
             CondBr(Cell(0), 1, 2));
  }

  /** The first arm of the conditional. */
  lemma LowerThen(m: Machine)
    ensures var test: Block := [CondBr(Cell(0), 1, 2)];
            var a: Cfg := [ENTRY, [], [], [], OUTER_LEFT, OUTER_RIGHT, test, LEFT, RIGHT, LAST];
            var c: Cfg := [ENTRY, THEN, [], [], OUTER_LEFT, OUTER_RIGHT, test, LEFT, RIGHT, LAST];
            BranchTo(Lower(m, LateUnit(), ["main"], Invoke("yes", []), Built(a, 1, 6)), Br(3), 2) == Built(c, 2, 7)
  {
    hide Emit;
    var test: Block := [CondBr(Cell(0), 1, 2)];
    var a: Cfg := [ENTRY, [], [], [], OUTER_LEFT, OUTER_RIGHT, test, LEFT, RIGHT, LAST];
    var b: Cfg := [ENTRY, [CallHn(6, "yes", [])], [], [], OUTER_LEFT, OUTER_RIGHT, test, LEFT, RIGHT, LAST];
    Puts(a, b, 1, 6, CallHn(6, "yes", []));
    assert LowerArgs(m, [], Built(a, 1, 6)) == (Built(a, 1, 6), []);
    Puts(b, [ENTRY, THEN, [], [], OUTER_LEFT, OUTER_RIGHT, test, LEFT, RIGHT, LAST], 1, 7, Br(3));
  }

  /** The second arm, which is empty, and the return. */
  lemma LowerElse(m: Machine)
    ensures var test: Block := [CondBr(Cell(0), 1, 2)];
            var c: Cfg := [ENTRY, THEN, [], [], OUTER_LEFT, OUTER_RIGHT, test, LEFT, RIGHT, LAST];
            Emit(BranchTo(Lower(m, LateUnit(), ["main"], Compound([]), Built(c, 2, 7)), Br(3), 3), Ret(false))
            == Built(LateBlocks(), 3, 7)
  {
    hide Emit;
    var test: Block := [CondBr(Cell(0), 1, 2)];
    var c: Cfg := [ENTRY, THEN, [], [], OUTER_LEFT, OUTER_RIGHT, test, LEFT, RIGHT, LAST];
    var d: Cfg := [ENTRY, THEN, [Br(3)], [], OUTER_LEFT, OUTER_RIGHT, test, LEFT, RIGHT, LAST];
    assert LowerAll(m, LateUnit(), ["main"], [], Built(c, 2, 7)) == Built(c, 2, 7);
    Puts(c, d, 2, 7, Br(3));
    Puts(d, LateBlocks(), 3, 7, Ret(false));
  }

  lemma LowerCond(m: Machine, u: Unit, stack: seq<string>, s: Stmt, g: Gen)
    requires s.Cond?
    ensures var n := |g.blocks|;
            var h := BranchTo(Lower(m, u, stack, s.thn, CondHead(m, s.c, g)), Br(n + 2), n + 1);
            Lower(m, u, stack, s, g) == BranchTo(Lower(m, u, stack, s.els, h), Br(n + 2), n + 2)
  {
  }

  /** The handler, lowered. */
  lemma LateLowered(m: Machine)
    ensures LowerExported(m, LateUnit(), "main", Built([], 0, 0)) == Built(LateBlocks(), 3, 7)
  {
    hide LowerExpr, CondHead, Lower, LateBlocks, Emit, BranchTo;
    var u := LateUnit();
    LowerHead(m);
    LowerThen(m);
    LowerElse(m);
    var start := Built([[]], 0, 0);
    LowerCond(m, u, ["main"], u["main"].body.value, start);
    assert [] + ["main"] == ["main"];
    assert LowerLocals(m, [], start) == start;
  }

  /** What the code generator makes of the blocks, with jumps that name blocks. Block 4 emits only
      its jump: when the generator gets there, Temp(4) has no register. */
  const LATE_CODE: seq<Code<nat>> :=
    [ CallN("f", 1, 2), Jn(2, 7), Jmp(8),
      HandlerN("yes", 1, 3), Jmp(3),
      Exit(false),
      Jmp(6),
      CallN("h", 1, 4), Mov(0, 4),
      Jn(0, 1), Jmp(2),
      Mov(1, 2), Jmp(9),
      CallN("g", 1, 5), Mov(1, 5),
      Rr(BNot, 6, 1), Jn(6, 4), Jmp(5) ]

  function NoCode(): Tg {
    Tg([], [], map[], 0)
  }

  /** The generator with the first n instructions of the code emitted. */
  function Emitted(code: seq<Code<nat>>, n: nat, vars: map<Value, nat>, top: nat): Tg
    requires n <= |code|
  {
    Tg(code[..n], [], vars, top)
  }

  const VARS1: map<Value, nat> := map[Cell(0) := 0, Cell(1) := 1, Temp(2) := 2]
  const VARS2 := VARS1[Temp(6) := 3]
  const VARS6 := VARS2[Temp(5) := 4]
  const VARS9 := VARS6[Temp(3) := 5]

  lemma BeforeNext(G: Cfg, b: nat, i: nat)
    requires b < |G| && i < |G[b]|
    ensures Before(NoCode(), G, b, i + 1) == Visit(Before(NoCode(), G, b, i), |G|, b, G[b][i])
    ensures b + 1 <= |G| && i + 1 == |G[b]| ==> Before(NoCode(), G, b + 1, 0) == Before(NoCode(), G, b, i + 1)
  {
  }

  // What each kind of instruction adds to the code.

  lemma More(code: seq<Code<nat>>, n: nat, c: Code<nat>, vars: map<Value, nat>, top: nat)
    requires n < |code| && c == code[n]
    ensures Put(Emitted(code, n, vars, top), c) == Emitted(code, n + 1, vars, top)
  {
    assert code[..n] + [c] == code[..n + 1];
  }

  lemma VisitCall(code: seq<Code<nat>>, size: nat, n: nat, vars: map<Value, nat>, top: nat, b: nat, x: Instr)
    requires n < |code| && (x.CallFn? || x.CallHn?) && x.args == []
    requires code[n] == if x.CallFn? then CallN(x.f, 1, top) else HandlerN(x.f, 1, top)
    ensures Visit(Emitted(code, n, vars, top), size, b, x) == Emitted(code, n + 1, vars[Temp(x.id) := top], top + 1)
  {
    More(code, n, code[n], vars[Temp(x.id) := top], top + 1);
  }

  lemma VisitStored(code: seq<Code<nat>>, size: nat, n: nat, vars: map<Value, nat>, top: nat, b: nat, x: nat, v: Value)
    requires n < |code| && Cell(x) in vars && !v.K?
    requires v in vars ==> code[n] == Mov(vars[Cell(x)], vars[v])
    ensures Visit(Emitted(code, n, vars, top), size, b, Store(x, v)) == if v in vars then Emitted(code, n + 1, vars,
            top) else Emitted(code, n, vars, top)
  {
    if v in vars { More(code, n, code[n], vars, top); }
  }

  lemma VisitBr(code: seq<Code<nat>>, size: nat, n: nat, vars: map<Value, nat>, top: nat, b: nat, t: nat)
    requires n < |code| && t < size && (t != b + 1 ==> code[n] == Jmp(t))
    ensures Visit(Emitted(code, n, vars, top), size, b, Br(t)) == if t == b + 1 then Emitted(code, n, vars, top)
            else Emitted(code, n + 1, vars, top)
  {
    if t != b + 1 { More(code, n, Jmp(t), vars, top); }
  }

  lemma VisitCond(code: seq<Code<nat>>, size: nat, n: nat, vars: map<Value, nat>, top: nat, b: nat, v: Value, t: nat,
        e: nat)
    requires n + 1 < |code| && v in vars && t != b + 1 && e != b + 1
    requires code[n] == Jn(vars[v], t) && code[n + 1] == Jmp(e)
    ensures Visit(Emitted(code, n, vars, top), size, b, CondBr(v, t, e)) == Emitted(code, n + 2, vars, top)
  {
    More(code, n, code[n], vars, top);
    More(code, n + 1, code[n + 1], vars, top);
  }

  lemma VisitUn(code: seq<Code<nat>>, size: nat, n: nat, vars: map<Value, nat>, top: nat, b: nat, id: nat, op: UnOp,
        v: Value)
    requires n < |code| && v in vars && v != Temp(id) && code[n] == Rr(op, top, vars[v])
    ensures Visit(Emitted(code, n, vars, top), size, b, Un(id, op, v)) == Emitted(code, n + 1, vars[Temp(id) := top],
            top + 1)
  {
    More(code, n, code[n], vars[Temp(id) := top], top + 1);
  }

  lemma VisitRet(code: seq<Code<nat>>, size: nat, n: nat, vars: map<Value, nat>, top: nat, b: nat, result: bool)
    requires n < |code| && code[n] == Exit(result)
    ensures Visit(Emitted(code, n, vars, top), size, b, Ret(result)) == Emitted(code, n + 1, vars, top)
  {
    More(code, n, Exit(result), vars, top);
  }

  lemma EntryCode()
    ensures Before(NoCode(), LateBlocks(), 1, 0) == Emitted(LATE_CODE, 3, VARS1, 3)
  {
    hide Before, LateBlocks, Emitted, Visit;
    var G := LateBlocks();
    BlocksAre();
    BeforeNext(G, 0, 0);
    BeforeNext(G, 0, 1);
    BeforeNext(G, 0, 2);
    BeforeNext(G, 0, 3);
    var two: map<Value, nat> := map[Cell(0) := 0, Cell(1) := 1];
    assert Before(NoCode(), G, 0, 2) == Emitted(LATE_CODE, 0, two, 2) by { Allocas(); }
    VisitCall(LATE_CODE, 10, 0, two, 2, 0, CallFn(2, "f", []));
    assert two[Temp(2) := 2] == VARS1;
    VisitCond(LATE_CODE, 10, 1, VARS1, 3, 0, Temp(2), 7, 8);
  }

  lemma Allocas()
    ensures Before(NoCode(), LateBlocks(), 0, 2) == Emitted(LATE_CODE, 0, map[Cell(0) := 0, Cell(1) := 1], 2)
  {
    var G := LateBlocks();
    assert Before(NoCode(), G, 0, 1) == Visit(NoCode(), 10, 0, Alloca(0));
    assert Before(NoCode(), G, 0, 2) == Visit(Visit(NoCode(), 10, 0, Alloca(0)), 10, 0, Alloca(1));
    assert LATE_CODE[..0] == [];
    assert map[][Cell(0) := 0][Cell(1) := 1] == map[Cell(0) := 0, Cell(1) := 1];
  }

  lemma BlocksAre()
    ensures var G := LateBlocks();
            && |G| == 10 && G[0] == ENTRY && G[1] == THEN && G[2] == [Br(3)] && G[3] == [Ret(false)]
            && G[4] == OUTER_LEFT
            && G[5] == OUTER_RIGHT && G[6] == [CondBr(Cell(0), 1, 2)] && G[7] == LEFT && G[8] == RIGHT && G[9] == LAST
  {
  }

  /** Blocks 1 to 4. The store in block 4 leaves no trace. */
  lemma ArmsCode()
    requires Before(NoCode(), LateBlocks(), 1, 0) == Emitted(LATE_CODE, 3, VARS1, 3)
    ensures var G := LateBlocks();
            && |G| == 10 && Before(NoCode(), G, 2, 0) == Before(NoCode(), G, 3, 0) == Emitted(LATE_CODE, 5, VARS2, 4)
            && Before(NoCode(), G, 4, 0) == Emitted(LATE_CODE, 6, VARS2, 4)
            && Before(NoCode(), G, 5, 0) == Emitted(LATE_CODE, 7, VARS2, 4)
  {
    hide LateBlocks, Before, Emitted, Visit;
    var G := LateBlocks();
    BlocksAre();
    BeforeNext(G, 1, 0);
    BeforeNext(G, 1, 1);
    VisitCall(LATE_CODE, 10, 3, VARS1, 3, 1, CallHn(6, "yes", []));
    VisitBr(LATE_CODE, 10, 4, VARS2, 4, 1, 3);
    BeforeNext(G, 2, 0);
    VisitBr(LATE_CODE, 10, 5, VARS2, 4, 2, 3);
    BeforeNext(G, 3, 0);
    VisitRet(LATE_CODE, 10, 5, VARS2, 4, 3, false);
    BeforeNext(G, 4, 0);
    BeforeNext(G, 4, 1);
    VisitStored(LATE_CODE, 10, 6, VARS2, 4, 4, 0, Temp(4));
    VisitBr(LATE_CODE, 10, 6, VARS2, 4, 4, 6);
  }

  lemma OuterCode()
    requires Before(NoCode(), LateBlocks(), 5, 0) == Emitted(LATE_CODE, 7, VARS2, 4)
    ensures var G := LateBlocks();
            && |G| == 10
            && Before(NoCode(), G, 6, 0) == Emitted(LATE_CODE, 9, VARS6, 5)
            && Before(NoCode(), G, 7, 0) == Emitted(LATE_CODE, 11, VARS6, 5)
  {
    hide LateBlocks, Before, Emitted, Visit;
    var G := LateBlocks();
    BlocksAre();
    BeforeNext(G, 5, 0);
    BeforeNext(G, 5, 1);
    BeforeNext(G, 5, 2);
    VisitCall(LATE_CODE, 10, 7, VARS2, 4, 5, CallFn(5, "h", []));
    VisitStored(LATE_CODE, 10, 8, VARS6, 5, 5, 0, Temp(5));
    VisitBr(LATE_CODE, 10, 9, VARS6, 5, 5, 6);
    BeforeNext(G, 6, 0);
    VisitCond(LATE_CODE, 10, 9, VARS6, 5, 6, Cell(0), 1, 2);
  }

  lemma InnerCode()
    requires Before(NoCode(), LateBlocks(), 7, 0) == Emitted(LATE_CODE, 11, VARS6, 5)
    ensures var G := LateBlocks();
            && |G| == 10
            && Before(NoCode(), G, 8, 0) == Emitted(LATE_CODE, 13, VARS6, 5)
            && Before(NoCode(), G, 9, 0) == Emitted(LATE_CODE, 15, VARS9, 6)
            && Final(NoCode(), G) == Emitted(LATE_CODE, 18, VARS9[Temp(4) := 6], 7)
  {
    hide LateBlocks, Before, Emitted, Visit;
    var G := LateBlocks();
    BlocksAre();
    BeforeNext(G, 7, 0);
    BeforeNext(G, 7, 1);
    VisitStored(LATE_CODE, 10, 11, VARS6, 5, 7, 1, Temp(2));
    VisitBr(LATE_CODE, 10, 12, VARS6, 5, 7, 9);
    BeforeNext(G, 8, 0);
    BeforeNext(G, 8, 1);
    BeforeNext(G, 8, 2);
    VisitCall(LATE_CODE, 10, 13, VARS6, 5, 8, CallFn(3, "g", []));
    VisitStored(LATE_CODE, 10, 14, VARS9, 6, 8, 1, Temp(3));
    VisitBr(LATE_CODE, 10, 15, VARS9, 6, 8, 9);
    BeforeNext(G, 9, 0);
    BeforeNext(G, 9, 1);
    VisitUn(LATE_CODE, 10, 15, VARS9, 6, 9, 4, BNot, Cell(1));
    VisitCond(LATE_CODE, 10, 16, VARS9[Temp(4) := 6], 7, 9, Temp(4), 4, 5);
  }

  /** Addresses of the blocks. */
  lemma LateEntries()
    ensures var entry := EntryOf(NoCode(), LateBlocks());
            entry(1) == 3 && entry(2) == 5 && entry(4) == 6 && entry(6) == 9 && entry(7) == 11 && entry(8) == 13
    ensures Final(NoCode(), LateBlocks()).code == LATE_CODE
  {
    hide LateBlocks, Before, Emitted;
    EntryCode();
    ArmsCode();
    OuterCode();
    InnerCode();
    EmittedCode();
  }

  lemma ResolvedAt(k: nat)
    requires k < |LATE_CODE| && Final(NoCode(), LateBlocks()).code == LATE_CODE
    ensures var c := Resolve(NoCode(), LateBlocks()).code;
            |c| == |LATE_CODE| && c[k] == ResolveCode(EntryOf(NoCode(), LateBlocks()), LATE_CODE[k])
  {
    hide LateBlocks, Before, Final, EntryOf, ResolveCode;
  }

  /** The finished program, as far as it is run: the tests, and what comes after them. */
  lemma ResolvedTests()
    ensures var c := Resolve(NoCode(), LateBlocks()).code;
            && |c| == 18 && c[0] == CallN("f", 1, 2) && c[1] == Jn(2, 11) && c[2] == Jmp(13)
            && c[13] == CallN("g", 1, 5)
            && c[14] == Mov(1, 5) && c[15] == Rr(BNot, 6, 1) && c[16] == Jn(6, 6)
  {
    hide LateBlocks, Resolve, Final, EntryOf;
    LateEntries();
    ResolvedAt(0);
    ResolvedAt(1);
    ResolvedAt(2);
    ResolvedAt(13);
    ResolvedAt(14);
    ResolvedAt(15);
    ResolvedAt(16);
  }

  lemma ResolvedRest()
    ensures var c := Resolve(NoCode(), LateBlocks()).code;
            |c| == 18 && c[5] == Exit(false) && c[6] == Jmp(9) && c[9] == Jn(0, 3) && c[10] == Jmp(5)
  {
    hide LateBlocks, Resolve, Final, EntryOf;
    LateEntries();
    ResolvedAt(5);
    ResolvedAt(6);
    ResolvedAt(9);
    ResolvedAt(10);
  }

  lemma EmittedCode()
    ensures forall n: nat, vars: map<Value, nat>, top: nat | n <= 18 :: |Emitted(LATE_CODE, n, vars, top).code| == n
    ensures forall vars: map<Value, nat>, top: nat :: Emitted(LATE_CODE, 18, vars, top).code == LATE_CODE
  {
    assert LATE_CODE[..18] == LATE_CODE;
  }

  lemma Stops(m: Machine, p: Program, s: VmState, n: nat, t: VmState)
    requires VmRun(m, p, VmStep(m, p, s), n) == t
    ensures VmRun(m, p, s, n + 1) == t
  {
  }

  /** The machine calls `f` and `g`. */
  lemma MachineCalls(m: Machine, p: Program)
    requires m == Host(0) && p == Resolve(NoCode(), LateBlocks())
    ensures VmRun(m, p, Running(0, map[], []), 4) == Running(14, map[2 := Num(0), 5 := Num(0)], [F, G])
  {
    hide LateBlocks, Resolve, VmRun;
    ResolvedTests();
    var r1: Regs, r2: Regs := map[2 := Num(0)], map[2 := Num(0), 5 := Num(0)];
    assert r1[5 := Num(0)] == r2;
    assert Args(map[], 1, 2) == [] && Args(r1, 1, 5) == [];
    assert [] + [F] == [F] && [F] + [G] == [F, G];
    var t := Running(14, r2, [F, G]);
    Run0(m, p, t);
    Stops(m, p, Running(13, r1, [F]), 0, t);
    Stops(m, p, Running(2, r1, [F]), 1, t);
    Stops(m, p, Running(1, r1, [F]), 2, t);
    Stops(m, p, Running(0, map[], []), 3, t);
  }

  /** It computes the left value and goes to the left arm, but then finds nothing in the result cell. */
  lemma MachineSaysNo()
    ensures VmReaches(Host(0), Resolve(NoCode(), LateBlocks()), Running(0, map[], []), Stopped(false, [F, G]))
  {
    hide LateBlocks, Resolve, VmRun;
    ResolvedTests();
    ResolvedRest();
    var m, p := Host(0), Resolve(NoCode(), LateBlocks());
    var r2: Regs := map[2 := Num(0), 5 := Num(0)];
    var r3 := r2[1 := Num(0)];
    var r4 := r3[6 := Num(1)];
    var t := Stopped(false, [F, G]);
    Run0(m, p, t);
    Stops(m, p, Running(5, r4, [F, G]), 0, t);
    Stops(m, p, Running(10, r4, [F, G]), 1, t);
    Stops(m, p, Running(9, r4, [F, G]), 2, t);
    Stops(m, p, Running(6, r4, [F, G]), 3, t);
    Stops(m, p, Running(16, r4, [F, G]), 4, t);
    Stops(m, p, Running(15, r3, [F, G]), 5, t);
    Stops(m, p, Running(14, r2, [F, G]), 6, t);
    MachineCalls(m, p);
    VmRunAdd(m, p, Running(0, map[], []), 4, 7);
    assert VmRun(m, p, Running(0, map[], []), 11) == t;
  }

  /** A handler that meets every other assumption of the correctness theorems and whose compiled
      form does something else: the source calls `f`, `g` and `yes` and stops there, the machine
      calls `f` and `g` and returns. */
  lemma LateStoreLost()
    ensures Lawful(Host(0)) && WellScoped(LateUnit()) && FaithfulUnit(Host(0), LateUnit())
    ensures var r := LowerExported(Host(0), LateUnit(), "main", Built([], 0, 0));
            var p := Resolve(NoCode(), r.blocks);
            && r.errors == []
            && Meaning(Host(0), LateUnit(), "main", []) == Some(Halted(true, [F, G, YES]))
            && VmReaches(Host(0), p, Running(0, map[], []), Stopped(false, [F, G]))
            && !VmReaches(Host(0), p, Running(0, map[], []), Stopped(true, [F, G, YES]))
  {
    hide Resolve, VmReaches, LateBlocks, Meaning, LowerExported;
    HostLawful(0);
    LateFaithful();
    LateLowered(Host(0));
    SourceSaysYes();
    MachineSaysNo();
    var s, p := Running(0, map[], []), Resolve(NoCode(), LateBlocks());
    if VmReaches(Host(0), p, s, Stopped(true, [F, G, YES])) {
      StoppedUnique(Host(0), p, s, Stopped(false, [F, G]), Stopped(true, [F, G, YES]));
      assert false;
    }
  }

  lemma LateFaithful()
    ensures WellScoped(LateUnit()) && FaithfulUnit(Host(0), LateUnit())
  {
    hide Test, E.FaithfulExpr, ExprOver;
    TestFaithful(Host(0));
    TestScoped();
    var body := LateUnit()["main"].body.value;
    assert LocalVars([]) == {};
    assert FaithfulStmt(Host(0), body) && StmtOver(body, {});
  }

  lemma TestFaithful(m: Machine)
    ensures E.FaithfulExpr(m, Test())
  {
    hide E.ConstOf, E.FaithfulBin;
    var f, g, h := Call("f", []), Call("g", []), Call("h", []);
    assert E.FaithfulExpr(m, f) && E.FaithfulExpr(m, g) && E.FaithfulExpr(m, h);
    assert E.FaithfulExpr(m, Unary(BNot, Binary(BOr, f, g)));
  }

  lemma TestScoped()
    ensures ExprOver(Test(), {})
  {
    var f, g, h := Call("f", []), Call("g", []), Call("h", []);
    assert ExprOver(f, {}) && ExprOver(g, {}) && ExprOver(h, {});
    assert ExprOver(Unary(BNot, Binary(BOr, f, g)), {});
  }

  // ---------------------------------------------------------------- a use laid out before its definition

  function Crossed(): Cfg {
    [[Br(2)], [CondBr(Temp(0), 3, 4)], [CallFn(0, "f", []), Br(1)], [Ret(true)], [Ret(false)]]
  }

  const CROSSED_CODE: seq<Code<nat>> :=
    [Jmp(2), Jn(0, 3), Jmp(4), CallN("f", 1, 1), Jmp(1), Exit(true), Exit(false)]

  /** The use takes register 0 for the value, the definition then takes register 1. */
  lemma CrossedCode()
    ensures var G, g0, c := Crossed(), NoCode(), CROSSED_CODE;
            && Before(g0, G, 1, 0) == Emitted(c, 1, map[], 0)
            && Before(g0, G, 2, 0) == Emitted(c, 3, map[Temp(0) := 0], 1)
            && Before(g0, G, 3, 0) == Emitted(c, 5, map[Temp(0) := 1], 2)
            && Before(g0, G, 4, 0) == Emitted(c, 6, map[Temp(0) := 1], 2)
            && Final(g0, G) == Emitted(c, 7, map[Temp(0) := 1], 2)
  {
    hide Before, Visit, Emitted;
    var G, c := Crossed(), CROSSED_CODE;
    CrossedStart();
    BeforeNext(G, 0, 0);
    VisitBr(c, 5, 0, map[], 0, 0, 2);
    BeforeNext(G, 1, 0);
    VisitUnknown(c, 5, 1, 0, 1, Temp(0), 3, 4);
    BeforeNext(G, 2, 0);
    BeforeNext(G, 2, 1);
    VisitCall(c, 5, 3, map[Temp(0) := 0], 1, 2, CallFn(0, "f", []));
    assert map[Temp(0) := 0][Temp(0) := 1] == map[Temp(0) := 1];
    VisitBr(c, 5, 4, map[Temp(0) := 1], 2, 2, 1);
    BeforeNext(G, 3, 0);
    VisitRet(c, 5, 5, map[Temp(0) := 1], 2, 3, true);
    BeforeNext(G, 4, 0);
    VisitRet(c, 5, 6, map[Temp(0) := 1], 2, 4, false);
  }

  lemma CrossedStart()
    ensures Before(NoCode(), Crossed(), 0, 0) == Emitted(CROSSED_CODE, 0, map[], 0)
  {
    assert CROSSED_CODE[..0] == [];
  }

  /** A branch on a value without a register gives it one. */
  lemma VisitUnknown(code: seq<Code<nat>>, size: nat, n: nat, top: nat, b: nat, v: Value, t: nat, e: nat)
    requires n + 1 < |code| && !v.K? && t != b + 1 && e != b + 1 && code[n] == Jn(top, t) && code[n + 1] == Jmp(e)
    ensures Visit(Emitted(code, n, map[], top), size, b, CondBr(v, t, e))
            == Emitted(code, n + 2, map[v := top], top + 1)
  {
    var none: map<Value, nat> := map[];
    assert none[v := top] == map[v := top];
    More(code, n, code[n], map[v := top], top + 1);
    More(code, n + 1, code[n + 1], map[v := top], top + 1);
  }

  lemma CrossedResolved()
    ensures Resolve(NoCode(), Crossed())
            == Program([Jmp(3), Jn(0, 5), Jmp(6), CallN("f", 1, 1), Jmp(1), Exit(true), Exit(false)], [])
  {
    hide Before;
    CrossedCode();
    assert CROSSED_CODE[..7] == CROSSED_CODE;
  }

  /** Without definitions before uses the theorem on code and blocks fails: here the blocks stop
      with true, the code generated from them with false. */
  lemma CrossedDiffers()
    ensures var G, m, p := Crossed(), Host(1), Resolve(NoCode(), Crossed());
            && Lawful(m) && Start(NoCode()) && WellFormed(G) && Safe(NoCode(), G) && !Ordered(G)
            && Reaches(m, Alias, G, At(0, 0, map[], []), Halted(true, [F]))
            && VmReaches(m, p, Running(0, map[], []), Stopped(false, [F]))
            && !VmReaches(m, p, Running(0, map[], []), Stopped(true, [F]))
  {
    hide Resolve, VmReaches, Reaches, Lawful, Before;
    HostLawful(1);
    CrossedShape();
    CrossedBlocks();
    CrossedMachine();
    if VmReaches(Host(1), Resolve(NoCode(), Crossed()), Running(0, map[], []), Stopped(true, [F])) {
      StoppedUnique(Host(1), Resolve(NoCode(), Crossed()), Running(0, map[], []), Stopped(false, [F]),
          Stopped(true, [F]));
      assert false;
    }
  }

  lemma CrossedShape()
    ensures WellFormed(Crossed()) && Safe(NoCode(), Crossed()) && !Ordered(Crossed())
  {
    hide Crossed, WellFormedBlock, Safe, OrderedAt;
    assert |Crossed()| == 5 by { CrossedFormed(0); }
    forall b: nat | b < 5 ensures WellFormedBlock(5, Crossed()[b]) { CrossedFormed(b); }
    CrossedSafe();
    CrossedUnordered();
  }

  lemma CrossedFormed(b: nat)
    requires b < 5
    ensures |Crossed()| == 5 && WellFormedBlock(5, Crossed()[b])
  {
  }

  lemma CrossedSafe()
    ensures Safe(NoCode(), Crossed())
  {
    hide Entry, Before, SafeOperand;
    var G := Crossed();
    forall b: nat, i: nat | b < |G| && i < |G[b]| ensures SafeInstr(G[b][i]) && SafeMatch(NoCode(), G, G[b][i]) {
      SafeNoConst(G[b][i]);
    }
  }

  lemma SafeNoConst(i: Instr)
    requires !i.Bin? && !i.Match? && forall v | v in Operands(i) :: !v.K?
    ensures SafeInstr(i) && forall g0, G :: SafeMatch(g0, G, i)
  {
  }

  lemma CrossedUnordered()
    ensures |Crossed()| == 5 && |Crossed()[1]| == 1 && !OrderedAt(Crossed(), 1, 0)
  {
    var G := Crossed();
    assert Temp(0) in Operands(G[1][0]);
    forall b: nat, i: nat | Earlier(b, i, 1, 0) ensures !DefinedAt(G, Temp(0), b, i) { }
  }

  lemma CrossedBlocks()
    ensures Reaches(Host(1), Alias, Crossed(), At(0, 0, map[], []), Halted(true, [F]))
  {
    hide Reaches;
    var m, G, s := Host(1), Crossed(), At(0, 0, map[], []);
    var cells: Cells := map[Temp(0) := Num(1)];
    assert DenAll(Alias, [], map[]) == [] && [] + [F] == [F];
    ReachesRefl(m, Alias, G, s);
    ReachesStep(m, Alias, G, s, s);
    ReachesStep(m, Alias, G, s, At(2, 0, map[], []));
    ReachesStep(m, Alias, G, s, At(2, 1, cells, [F]));
    ReachesStep(m, Alias, G, s, At(1, 0, cells, [F]));
    ReachesStep(m, Alias, G, s, At(3, 0, cells, [F]));
  }

  lemma CrossedMachine()
    ensures VmReaches(Host(1), Resolve(NoCode(), Crossed()), Running(0, map[], []), Stopped(false, [F]))
  {
    hide Resolve, VmRun;
    CrossedResolved();
    var m, p := Host(1), Resolve(NoCode(), Crossed());
    var regs: Regs := map[1 := Num(1)];
    assert Args(map[], 1, 1) == [] && [] + [F] == [F];
    var t := Stopped(false, [F]);
    Run0(m, p, t);
    Stops(m, p, Running(6, regs, [F]), 0, t);
    Stops(m, p, Running(2, regs, [F]), 1, t);
    Stops(m, p, Running(1, regs, [F]), 2, t);
    Stops(m, p, Running(4, regs, [F]), 3, t);
    Stops(m, p, Running(3, map[], []), 4, t);
    Stops(m, p, Running(0, map[], []), 5, t);
    assert VmRun(m, p, Running(0, map[], []), 6) == t;
  }
}
