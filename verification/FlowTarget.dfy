/**
  Code generation for the register machine, as functions from generator state to generator
  state. Jumps name blocks here; the imperative generator in module TargetCodeGenerator emits
  placeholders and patches them, and is proved to produce the resolved form of this code.
 */
module FlowTarget {
  import opened FlowCore
  import opened FlowIr
  import opened FlowVm

  /** `vars` assigns registers to values, `top` is the number of registers handed out. */
  datatype Tg = Tg(code: seq<Code<nat>>, defs: seq<Def<nat>>, vars: map<Value, nat>, top: nat)

  function Put(g: Tg, i: Code<nat>): Tg {
    g.(code := g.code + [i])
  }

  /** A fresh register for value v. */
  function Assign(g: Tg, v: Value): Tg {
    g.(vars := g.vars[v := g.top], top := g.top + 1)
  }

  /** What is left of a number in a 16-bit operand field. */
  function Imm(n: int): nat {
    n % 0x1_0000
  }

  /** Loads a constant: numbers of 16-bit signed width and booleans as immediates, all others
      from the constant pool. */
  function LoadConst(d: nat, c: Const): Code<nat> {
    match c
    case CInt(n) => if -0x8000 <= n <= 0x7FFF then Imov(d, Imm(n)) else Const(d, c)
    case CBool(b) => Imov(d, if b then 1 else 0)
    case _ => Const(d, c)
  }

  /** The register of an operand. Constants are loaded into a fresh register; a value that has
      none yet gets one. */
  function GetReg(g: Tg, v: Value): (Tg, nat) {
    if v in g.vars then (g, g.vars[v])
    else if v.K? then (Put(g, LoadConst(g.top, v.c)).(top := g.top + 1), g.top)
    else (Assign(g, v), g.top)
  }

  /** Copies call arguments behind the base register, `i` of them already done. */
  function PutArgs(g: Tg, base: nat, args: seq<Value>, i: nat): Tg
    requires i <= |args|
    decreases |args| - i
  {
    if i == |args| then g else
      var (g1, r) := GetReg(g, args[i]);
      PutArgs(Put(g1, Mov(base + 1 + i, r)), base, args, i + 1)
  }

  /** Base register for a call and its arguments. */
  function AssignBase(g: Tg, v: Value, argc: nat): Tg {
    g.(vars := g.vars[v := g.top], top := g.top + argc)
  }

  /** Operators with an immediate form, and those of them that take a constant left operand by
      exchanging the operands. */
  predicate HasImmediate(op: BinOp) { Numeric(op) }
  predicate Exchanges(op: BinOp) { Numeric(op) && op != Pow }

  function VisitBin(g: Tg, id: nat, op: BinOp, a: Value, b: Value): Tg {
    var g1 := Assign(g, Temp(id));
    if HasImmediate(op) && b.K? && b.c.CInt? then
      var (g2, r) := GetReg(g1, a);
      Put(g2, Rri(op, g.top, r, Imm(b.c.n)))
    else if Exchanges(op) && a.K? && a.c.CInt? then
      var (g2, r) := GetReg(g1, b);
      Put(g2, Rri(op, g.top, r, Imm(a.c.n)))
    else
      var (g2, r) := GetReg(g1, a);
      var (g3, q) := GetReg(g2, b);
      Put(g3, Rrr(if op == BOr then BAnd else op, g.top, r, q))
  }

  function VisitStore(g: Tg, x: nat, v: Value): Tg {
    var (g1, d) := GetReg(g, Cell(x));
    if v.K? then Put(g1, LoadConst(d, v.c))
    else if v in g1.vars then Put(g1, Mov(d, g1.vars[v]))
    else g1
  }

  /** A conditional branch from block b: one jump if either target comes next in the layout. */
  function VisitCondBr(g: Tg, n: nat, b: nat, v: Value, t: nat, e: nat): Tg {
    var (g1, r) := GetReg(g, v);
    if Next(n, b, t) then Put(g1, Jz(r, e))
    else if Next(n, b, e) then Put(g1, Jn(r, t))
    else Put(Put(g1, Jn(r, t)), Jmp(e))
  }

  /** Whether block t is laid out right behind block b, of n blocks. */
  predicate Next(n: nat, b: nat, t: nat) {
    t == b + 1 && t < n
  }

  /** Code for one instruction of block b, in a handler of n blocks. */
  function Visit(g: Tg, n: nat, b: nat, i: Instr): Tg {
    match i
    case Alloca(id) => Assign(g, Cell(id))
    case Store(x, v) => VisitStore(g, x, v)
    case Load(id, x) =>
      var (g1, r) := GetReg(g, Cell(x));
      g1.(vars := g1.vars[Loaded(id, x) := r])
    case Un(id, op, v) =>
      var (g1, r) := GetReg(Assign(g, Temp(id)), v);
      Put(g1, Rr(op, g.top, r))
    case Bin(id, op, a, c) => VisitBin(g, id, op, a, c)
    case CallFn(id, f, args) =>
      Put(PutArgs(AssignBase(g, Temp(id), |args| + 1), g.top, args, 0), CallN(f, |args| + 1, g.top))
    case CallHn(id, f, args) =>
      Put(PutArgs(AssignBase(g, Temp(id), |args| + 1), g.top, args, 0), HandlerN(f, |args| + 1, g.top))
    case Br(t) => if Next(n, b, t) then g else Put(g, Jmp(t))
    case CondBr(v, t, e) => VisitCondBr(g, n, b, v, t, e)
    case Match(mc, v, labels, targets, t) =>
      var (g1, r) := GetReg(g.(defs := g.defs + [Def(mc, labels, targets, t)]), v);
      Put(g1, SMatch(r, |g.defs|))
    case Ret(result) => Put(g, Exit(result))
  }

  /** The generator just before instruction i of block b, having started in g0. */
  function Before(g0: Tg, G: Cfg, b: nat, i: nat): Tg
    requires b <= |G| && (if b < |G| then i <= |G[b]| else i == 0)
    decreases b, i
  {
    if i > 0 then Visit(Before(g0, G, b, i - 1), |G|, b, G[b][i - 1])
    else if b > 0 then Before(g0, G, b - 1, |G[b - 1]|)
    else g0
  }

  function Final(g0: Tg, G: Cfg): Tg {
    Before(g0, G, |G|, 0)
  }

  /** Address of block b. */
  function Entry(g0: Tg, G: Cfg, b: nat): nat {
    if b < |G| then |Before(g0, G, b, 0).code| else 0
  }

  function EntryOf(g0: Tg, G: Cfg): nat -> nat {
    (b: nat) => Entry(g0, G, b)
  }

  // ---------------------------------------------------------------- finished programs

  function ResolveCode(entry: nat -> nat, c: Code<nat>): Code<nat> {
    match c
    case Jmp(t) => Jmp(entry(t))
    case Jn(r, t) => Jn(r, entry(t))
    case Jz(r, t) => Jz(r, entry(t))
    case _ => c
  }

  function ResolveDef(entry: nat -> nat, d: Def<nat>): Def<nat> {
    d.(targets := seq(|d.targets|, k requires 0 <= k < |d.targets| => entry(d.targets[k])), other := entry(d.other))
  }

  /** The program: every block named by a jump is replaced by its address. */
  function Resolve(g0: Tg, G: Cfg): Program {
    var g := Final(g0, G);
    var entry := EntryOf(g0, G);
    Program(seq(|g.code|, k requires 0 <= k < |g.code| => ResolveCode(entry, g.code[k])),
            seq(|g.defs|, k requires 0 <= k < |g.defs| => if k < |g0.defs| then g.defs[k]
                else ResolveDef(entry, g.defs[k])))
  }
}
