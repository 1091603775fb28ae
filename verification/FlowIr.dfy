/**
  The Flow intermediate representation: a handler is a list of basic blocks, laid out in list
  order and entered at block 0. Running it is defined for two readings of a load: copying the
  variable when the load runs, and aliasing it, so that each use of the load reads the variable.
 */
module FlowIr {
  import opened FlowCore

  /** An operand: a constant, the result of an instruction, a variable, or a load of a variable. */
  datatype Value = K(c: Const) | Temp(id: nat) | Cell(id: nat) | Loaded(id: nat, x: nat)

  datatype Instr =
    | Alloca(id: nat)
    | Store(x: nat, v: Value)
    | Load(id: nat, x: nat)
    | Un(id: nat, uop: UnOp, v: Value)
    | Bin(id: nat, op: BinOp, a: Value, b: Value)
    | CallFn(id: nat, f: string, args: seq<Value>)
    | CallHn(id: nat, f: string, args: seq<Value>)
    | Br(t: nat)
    | CondBr(v: Value, t: nat, e: nat)
    | Match(mc: MatchClass, v: Value, labels: seq<Label>, targets: seq<nat>, other: nat)
    | Ret(result: bool)

  type Block = seq<Instr>
  type Cfg = seq<Block>

  predicate IsTerminator(i: Instr) {
    i.Br? || i.CondBr? || i.Match? || i.Ret?
  }

  // ---------------------------------------------------------------- running

  datatype Mode = Copy | Alias

  type Cells = map<Value, Val>

  function Get(cells: Cells, v: Value): Val {
    if v in cells then cells[v] else Num(0)
  }

  function Den(mode: Mode, v: Value, cells: Cells): Val {
    match v
    case K(c) => ConstVal(c)
    case Loaded(_, x) => Get(cells, if mode == Alias then Cell(x) else v)
    case _ => Get(cells, v)
  }

  function DenAll(mode: Mode, vs: seq<Value>, cells: Cells): (r: seq<Val>)
    ensures |r| == |vs|
  {
    seq(|vs|, i requires 0 <= i < |vs| => Den(mode, vs[i], cells))
  }

  datatype State =
    | At(b: nat, i: nat, cells: Cells, tr: Trace)
    | Halted(result: bool, tr: Trace)

  /** One instruction. A state that has no instruction to run is left as it is. */
  function Step(m: Machine, mode: Mode, G: Cfg, s: State): State {
    if s.Halted? || s.b >= |G| || s.i >= |G[s.b]| then s else
      var cells := s.cells;
      var next := s.(i := s.i + 1);
      match G[s.b][s.i]
      case Alloca(_) => next
      case Store(x, v) => next.(cells := cells[Cell(x) := Den(mode, v, cells)])
      case Load(id, x) => if mode == Alias then next else next.(cells := cells[Loaded(id, x) := Get(cells, Cell(x))])
      case Un(id, op, v) => next.(cells := cells[Temp(id) := m.un(op, Den(mode, v, cells))])
      case Bin(id, op, a, b) =>
        next.(cells := cells[Temp(id) := m.bin(op, Den(mode, a, cells), Den(mode, b, cells))])
      case CallFn(id, f, args) =>
        var vs := DenAll(mode, args, cells);
        next.(cells := cells[Temp(id) := m.call(f, vs, s.tr)], tr := s.tr + [Event(f, vs)])
      case CallHn(id, f, args) =>
        var vs := DenAll(mode, args, cells);
        if m.handles(f, vs, s.tr) then Halted(true, s.tr + [Event(f, vs)])
        else next.(cells := cells[Temp(id) := Num(0)], tr := s.tr + [Event(f, vs)])
      case Br(t) => At(t, 0, cells, s.tr)
      case CondBr(v, t, e) => At(if Truthy(Den(mode, v, cells)) then t else e, 0, cells, s.tr)
      case Match(mc, v, labels, targets, other) =>
        var k := Select(m, mc, labels, Den(mode, v, cells));
        At(if k.Some? && k.value < |targets| then targets[k.value] else other, 0, cells, s.tr)
      case Ret(result) => Halted(result, s.tr)
  }

  function Run(m: Machine, mode: Mode, G: Cfg, s: State, n: nat): State
    decreases n
  {
    if n == 0 then s else Run(m, mode, G, Step(m, mode, G, s), n - 1)
  }

  ghost predicate Reaches(m: Machine, mode: Mode, G: Cfg, s: State, t: State) {
    exists n: nat :: Run(m, mode, G, s, n) == t
  }

  lemma {:induction false} RunAdd(m: Machine, mode: Mode, G: Cfg, s: State, n: nat, k: nat)
    ensures Run(m, mode, G, s, n + k) == Run(m, mode, G, Run(m, mode, G, s, n), k)
    decreases n
  {
    if n > 0 {
      RunAdd(m, mode, G, Step(m, mode, G, s), n - 1, k);
    }
  }

  lemma ReachesTrans(m: Machine, mode: Mode, G: Cfg, s: State, t: State, u: State)
    requires Reaches(m, mode, G, s, t) && Reaches(m, mode, G, t, u)
    ensures Reaches(m, mode, G, s, u)
  {
    var n: nat :| Run(m, mode, G, s, n) == t;
    var k: nat :| Run(m, mode, G, t, k) == u;
    RunAdd(m, mode, G, s, n, k);
  }

  lemma ReachesStep(m: Machine, mode: Mode, G: Cfg, s: State, t: State)
    requires Reaches(m, mode, G, s, t)
    ensures Reaches(m, mode, G, s, Step(m, mode, G, t))
  {
    assert Run(m, mode, G, t, 1) == Run(m, mode, G, Step(m, mode, G, t), 0);
    ReachesTrans(m, mode, G, s, t, Step(m, mode, G, t));
  }

  lemma ReachesRefl(m: Machine, mode: Mode, G: Cfg, s: State)
    ensures Reaches(m, mode, G, s, s)
  {
    assert Run(m, mode, G, s, 0) == s;
  }

  /** Runs of the same program from the same state that stop, stop in the same state. */
  lemma HaltedUnique(m: Machine, mode: Mode, G: Cfg, s: State, t: State, u: State)
    requires t.Halted? && u.Halted?
    requires Reaches(m, mode, G, s, t) && Reaches(m, mode, G, s, u)
    ensures t == u
  {
    var n: nat :| Run(m, mode, G, s, n) == t;
    var k: nat :| Run(m, mode, G, s, k) == u;
    if n <= k {
      RunAdd(m, mode, G, s, n, k - n);
      HaltedStays(m, mode, G, t, k - n);
    } else {
      RunAdd(m, mode, G, s, k, n - k);
      HaltedStays(m, mode, G, u, n - k);
    }
  }

  lemma {:induction false} HaltedStays(m: Machine, mode: Mode, G: Cfg, s: State, n: nat)
    requires s.Halted?
    ensures Run(m, mode, G, s, n) == s
  {
    if n > 0 {
      HaltedStays(m, mode, G, s, n - 1);
    }
  }
}
