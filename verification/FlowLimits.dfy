/**
  Where the compiler stops being right: for each assumption of the correctness theorems, that it
  is needed.
 */
module FlowLimits {
  import opened FlowCore
  import opened FlowIr
  import opened FlowLowering
  import opened FlowVm
  import opened FlowTarget
  import opened FlowTargetProof
  import E = FlowExprProof

  // ---------------------------------------------------------------- telling machines apart

  /** A lawful machine on which operator op is 1 on (u, v), and on (v, u) if it must be, and
      differs elsewhere. */
  function Probe(op: BinOp, u: Val, v: Val): Machine {
    Machine(
      (_, _) => Num(0),
      (o, x, y) => ProbeBin(op, u, v, o, x, y),
      (_, _) => CInt(0),
      (o, c, d) => ProbeFold(op, u, v, o, c, d),
      (_, _, _) => Num(0),
      (_, _, _) => false,
      (_, _) => false)
  }

  function ProbeBin(op: BinOp, u: Val, v: Val, o: BinOp, x: Val, y: Val): Val {
    if o == SAdd && x == Text("") then y
    else if o == op && ((x == u && y == v) || (Commutative(op) && x == v && y == u)) then Num(1)
    else Num(0)
  }

  function ProbeFold(op: BinOp, u: Val, v: Val, o: BinOp, c: Const, d: Const): Const {
    if o == SAdd && ConstVal(c) == Text("") then d
    else if ProbeBin(op, u, v, o, ConstVal(c), ConstVal(d)) == Num(1) then CInt(1) else CInt(0)
  }

  lemma ProbeFolds(op: BinOp, u: Val, v: Val, o: BinOp, c: Const, d: Const)
    ensures ConstVal(ProbeFold(op, u, v, o, c, d)) == ProbeBin(op, u, v, o, ConstVal(c), ConstVal(d))
  {
  }

  lemma ProbeCommutes(op: BinOp, u: Val, v: Val, o: BinOp, x: Val, y: Val)
    requires Commutative(o)
    ensures ProbeBin(op, u, v, o, x, y) == ProbeBin(op, u, v, o, y, x)
  {
  }

  lemma ProbeLawful(op: BinOp, u: Val, v: Val)
    ensures Lawful(Probe(op, u, v))
  {
    hide ProbeFold, ConstVal, Commutative;
    var m := Probe(op, u, v);
    forall o, c, d ensures ConstVal(m.foldBin(o, c, d))
        == m.bin(o, ConstVal(c), ConstVal(d)) { ProbeFolds(op, u, v, o, c, d); }
    forall o, x, y | Commutative(o) ensures m.bin(o, x, y) == m.bin(o, y, x) { ProbeCommutes(op, u, v, o, x, y); }
    forall o, c ensures ConstVal(m.foldUn(o, c)) == m.un(o, ConstVal(c)) { ZeroVal(); }
  }

  lemma ZeroVal()
    ensures ConstVal(CInt(0)) == Num(0)
  {
  }

  // ---------------------------------------------------------------- the builder

  /** An operand's run-time value, x unless it is a constant. */
  function ValueOf(a: Value, x: Val): Val {
    if a.K? then ConstVal(a.c) else x
  }

  /** What CreateBin delivers for operands a and b with run-time values x and y. */
  function Built(m: Machine, op: BinOp, a: Value, b: Value, x: Val, y: Val): Val {
    if a.K? && b.K? && FoldsBin(op, a.c, b.c) then ConstVal(m.foldBin(op, a.c, b.c))
    else if op == SAdd && a == K(CText("")) then ValueOf(b, y)
    else if op == SAdd && !(a.K? && a.c.CText?) && b == K(CText("")) then ValueOf(b, y)
    else m.bin(if op == BXor then BAnd else op, ValueOf(a, x), ValueOf(b, y))
  }

  /** The builder's value is the value its result stands for. */
  lemma BuiltIsCreated(m: Machine, g: Gen, op: BinOp, a: Value, b: Value, mode: Mode, cells: Cells)
    requires g.Valid()
    ensures var (r, v) := CreateBin(m, g, op, a, b); var x, y := Den(mode, a, cells), Den(mode, b, cells);
            if r == g then Den(mode, v, cells) == Built(m, op, a, b, x, y)
            else
              var op' := if op == BXor then BAnd else op;
              v == Temp(g.next) && r == EmitNew(g, Bin(g.next, op', a, b))
                  && m.bin(op', x, y) == Built(m, op, a, b, x, y)
  {
  }

  /** The builder makes the operator it was asked for, on every lawful machine and all operand
      values, exactly when the operation is faithful. */
  lemma BuilderExact(op: BinOp, a: Value, b: Value)
    requires op != BOr
    ensures (forall m, x, y | Lawful(m) :: Built(m, op, a, b, x, y) == m.bin(op, ValueOf(a, x), ValueOf(b, y)))
       <==> E.FaithfulBin(op, E.AsConst(a), E.AsConst(b))
  {
    hide Lawful, Built, E.FaithfulBin, Probe;
    if E.FaithfulBin(op, E.AsConst(a), E.AsConst(b)) {
      forall m, x, y | Lawful(m) ensures Built(m, op, a, b, x, y) == m.bin(op, ValueOf(a, x), ValueOf(b, y)) {
        FaithfulIsRight(m, op, a, b, x, y);
      }
    } else {
      var x := Text("q");
      ProbeLawful(op, ValueOf(a, x), ValueOf(b, x));
      UnfaithfulDiffers(op, a, b);
    }
  }

  lemma FaithfulIsRight(m: Machine, op: BinOp, a: Value, b: Value, x: Val, y: Val)
    requires Lawful(m) && op != BOr && E.FaithfulBin(op, E.AsConst(a), E.AsConst(b))
    ensures Built(m, op, a, b, x, y) == m.bin(op, ValueOf(a, x), ValueOf(b, y))
  {
  }

  lemma UnfaithfulDiffers(op: BinOp, a: Value, b: Value)
    requires op != BOr && !E.FaithfulBin(op, E.AsConst(a), E.AsConst(b))
    ensures var x := Text("q"); var m := Probe(op, ValueOf(a, x), ValueOf(b, x));
            Built(m, op, a, b, x, x) != m.bin(op, ValueOf(a, x), ValueOf(b, x))
  {
    var x := Text("q");
    var u, v := ValueOf(a, x), ValueOf(b, x);
    assert op == SAdd ==> u != Text("") || (a.K? && a.c == CText(""));
  }

  // ---------------------------------------------------------------- the code generator

  function InRegister(a: Value, x: Val): Val {
    if a.K? then Delivered(a.c) else x
  }

  /** What the instruction that VisitBin emits computes. */
  function EmittedBin(m: Machine, op: BinOp, a: Value, b: Value, x: Val, y: Val): Val {
    if HasImmediate(op) && b.K? && b.c.CInt? then m.bin(op, InRegister(a, x), Num(Imm(b.c.n)))
    else if Exchanges(op) && a.K? && a.c.CInt? then m.bin(op, InRegister(b, y), Num(Imm(a.c.n)))
    else m.bin(if op == BOr then BAnd else op, InRegister(a, x), InRegister(b, y))
  }

  /** Given registers that hold what its operands deliver, the last instruction of VisitBin
      computes just that. */
  lemma EmittedRuns(m: Machine, p: Program, g: Tg, id: nat, op: BinOp, a: Value, b: Value, x: Val, y: Val, s: VmState)
    requires var c := VisitBin(g, id, op, a, b).code;
             c != [] && s.Running? && s.pc < |p.code| && p.code[s.pc] == c[|c| - 1]
    requires var (g1, r) := GetReg(FlowTarget.Assign(g, Temp(id)), a); var (g2, q) := GetReg(g1, b);
             var q' := GetReg(FlowTarget.Assign(g, Temp(id)), b).1;
             if HasImmediate(op) && b.K? && b.c.CInt? then Reg(s.regs, r) == InRegister(a, x)
             else if Exchanges(op) && a.K? && a.c.CInt? then Reg(s.regs, q') == InRegister(b, y)
             else Reg(s.regs, r) == InRegister(a, x) && Reg(s.regs, q) == InRegister(b, y)
    ensures VmStep(m, p, s) == s.(pc := s.pc + 1, regs := s.regs[g.top := EmittedBin(m, op, a, b, x, y)])
  {
    hide GetReg, LoadConst, InRegister, Imm, Numeric, Args, Evaluate, HasImmediate, Exchanges;
  }

  /** The parser's type check: no boolean constant where a number is expected. */
  predicate Typed(op: BinOp, a: Value, b: Value) {
    Numeric(op) ==> !(a.K? && a.c.CBool?) && !(b.K? && b.c.CBool?)
  }

  /** The code computes the operator, on every lawful machine and all operand values, exactly
      when the instruction is safe: a constant on the left of an operator that does not commute,
      an immediate wider than 16 bits or negative, and a disjunction are not. */
  lemma EmitterExact(op: BinOp, a: Value, b: Value)
    requires Typed(op, a, b)
    ensures (forall m, x, y | Lawful(m) :: EmittedBin(m, op, a, b, x, y) == m.bin(op, ValueOf(a, x), ValueOf(b, y)))
       <==> SafeInstr(Bin(0, op, a, b))
  {
    if SafeInstr(Bin(0, op, a, b)) {
      forall m, x, y | Lawful(m) ensures EmittedBin(m, op, a, b, x, y) == m.bin(op, ValueOf(a, x), ValueOf(b, y)) {
        SafeIsRight(m, op, a, b, x, y);
      }
    } else {
      var x := Text("q");
      var m := Probe(op, ValueOf(a, x), ValueOf(b, x));
      ProbeLawful(op, ValueOf(a, x), ValueOf(b, x));
      UnsafeDiffers(op, a, b);
    }
  }

  /** The same condition on the operator and the constants alone. */
  predicate RightCode(op: BinOp, a: Value, b: Value) {
    if b.K? && b.c.CInt? && op in {Add, Sub, Mul, Div, Rem, Shl, Shr, Pow, And, Or, Xor,
                                   NumEq, NumNe, NumLe, NumGe, NumLt, NumGt} then
      0 <= b.c.n <= 65535 && Unharmed(a)
    else if a.K? && a.c.CInt? && op in {Add, Sub, Mul, Div, Rem, Shl, Shr, And, Or, Xor,
                                        NumEq, NumNe, NumLe, NumGe, NumLt, NumGt} then
      0 <= a.c.n <= 65535 && op in {Add, Mul, And, Or, Xor, NumEq, NumNe}
    else op != BOr && Unharmed(a) && Unharmed(b)
  }

  /** Not a negative number of 16 bits. */
  predicate Unharmed(a: Value) {
    a.K? && a.c.CInt? ==> a.c.n < -32768 || a.c.n >= 0
  }

  lemma EmitterListed(op: BinOp, a: Value, b: Value)
    requires Typed(op, a, b)
    ensures (forall m, x, y | Lawful(m) :: EmittedBin(m, op, a, b, x, y) == m.bin(op, ValueOf(a, x), ValueOf(b, y)))
       <==> RightCode(op, a, b)
  {
    hide EmittedBin, Lawful, SafeInstr, RightCode;
    EmitterExact(op, a, b);
    ListedAsSafe(op, a, b);
  }

  lemma ListedAsSafe(op: BinOp, a: Value, b: Value)
    ensures RightCode(op, a, b) <==> SafeInstr(Bin(0, op, a, b))
  {
  }

  lemma SafeIsRight(m: Machine, op: BinOp, a: Value, b: Value, x: Val, y: Val)
    requires Lawful(m) && SafeInstr(Bin(0, op, a, b))
    ensures EmittedBin(m, op, a, b, x, y) == m.bin(op, ValueOf(a, x), ValueOf(b, y))
  {
    if b.K? && b.c.CInt? { ImmediateExact(b.c.n); }
    if a.K? && a.c.CInt? { ImmediateExact(a.c.n); }
  }

  lemma UnsafeDiffers(op: BinOp, a: Value, b: Value)
    requires !SafeInstr(Bin(0, op, a, b)) && Typed(op, a, b)
    ensures var x := Text("q"); var m := Probe(op, ValueOf(a, x), ValueOf(b, x));
            EmittedBin(m, op, a, b, x, x) != m.bin(op, ValueOf(a, x), ValueOf(b, x))
  {
    hide Imm;
    var x := Text("q");
    var u, v := ValueOf(a, x), ValueOf(b, x);
    var r, q := InRegister(a, x), InRegister(b, x);
    DeliveredApart(a, b);
    if HasImmediate(op) && b.K? && b.c.CInt? {
      ImmediateExact(b.c.n);
      ImmediateRange(b.c.n);
      assert ProbeBin(op, u, v, op, u, v) == Num(1);
      assert ProbeBin(op, u, v, op, r, Num(Imm(b.c.n))) == Num(0);
    } else if Exchanges(op) && a.K? && a.c.CInt? {
      ImmediateExact(a.c.n);
      assert ProbeBin(op, u, v, op, u, v) == Num(1);
      assert ProbeBin(op, u, v, op, q, Num(Imm(a.c.n))) == Num(0);
    } else if op == SAdd && u == Text("") {
      assert ProbeBin(op, u, v, op, u, v) == v;
    } else {
      assert ProbeBin(op, u, v, op, u, v) == Num(1);
      assert ProbeBin(op, u, v, if op == BOr then BAnd else op, r, q) == Num(0);
    }
  }

  lemma ImmediateRange(n: int)
    ensures 0 <= Imm(n) < 0x1_0000
  {
  }

  /** Loading an unsafe constant changes it, and never into the other operand while that one changes into it. */
  lemma DeliveredApart(a: Value, b: Value)
    ensures var x := Text("q");
            && (InRegister(a, x) == ValueOf(a, x) <==> SafeOperand(a))
            && (InRegister(b, x) == ValueOf(b, x) <==> SafeOperand(b))
            && (InRegister(a, x) == ValueOf(b, x) && InRegister(b, x) == ValueOf(a, x) ==>
                  SafeOperand(a) && SafeOperand(b))
  {
  }
}
