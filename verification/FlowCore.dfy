/**
  Vocabulary shared by the Flow front end, the intermediate representation and the
  virtual machine: run-time values, constants, operators and the host environment.
 */
module FlowCore {
  import opened Wrappers

  /** What a 64-bit VM register holds: a number (booleans are 0 and 1), a string, or an
      address, network, pattern or array, which the VM only ever passes around. */
  datatype Val = Num(n: int) | Text(s: string) | Handle(h: nat)

  /** IR constants. The code generators distinguish integers from booleans. */
  datatype Const = CInt(n: int) | CBool(b: bool) | CText(s: string) | CHandle(h: nat)

  function ConstVal(c: Const): Val {
    match c
    case CInt(n) => Num(n)
    case CBool(b) => Num(if b then 1 else 0)
    case CText(s) => Text(s)
    case CHandle(h) => Handle(h)
  }

  /** The test made by the JN and JZ instructions. */
  predicate Truthy(v: Val) {
    v != Num(0)
  }

  datatype UnOp = Neg | Not | BNot | I2S | P2S | C2S | R2S | S2I

  datatype BinOp =
    | Add | Sub | Mul | Div | Rem | Shl | Shr | Pow | And | Or | Xor
    | NumEq | NumNe | NumLe | NumGe | NumLt | NumGt
    | BAnd | BOr | BXor
    | SAdd | StrEq | StrNe | StrLe | StrGe | StrLt | StrGt | StrBeg | StrEnd | StrIn
    | IpEq | IpNe | IpInCidr

  predicate Numeric(op: BinOp) {
    op in {Add, Sub, Mul, Div, Rem, Shl, Shr, Pow, And, Or, Xor, NumEq, NumNe, NumLe, NumGe, NumLt, NumGt}
  }

  predicate Commutative(op: BinOp) {
    op in {Add, Mul, And, Or, Xor, NumEq, NumNe, BAnd, BOr, BXor}
  }

  datatype MatchClass = Same | Head | Tail | RegEx

  /** A `match` label: a string literal or a regular expression. */
  datatype Label = Literal(s: string) | Pattern(id: nat)

  /** One call of a builtin, as the host sees it. */
  datatype Event = Event(callee: string, args: seq<Val>)
  type Trace = seq<Event>

  /** The host: what every operator computes, at run time and in the constant folder, and how
      builtins and regular expressions behave. Builtins may depend on all earlier calls. */
  datatype Machine = Machine(
    un: (UnOp, Val) -> Val,
    bin: (BinOp, Val, Val) -> Val,
    foldUn: (UnOp, Const) -> Const,
    foldBin: (BinOp, Const, Const) -> Const,
    call: (string, seq<Val>, Trace) -> Val,
    handles: (string, seq<Val>, Trace) -> bool,
    matches: (nat, string) -> bool)

  /** The folder agrees with the run-time operators, commutative operators commute, and the
      empty string is a left unit of concatenation. */
  ghost predicate Lawful(m: Machine) {
    && (forall op, c :: ConstVal(m.foldUn(op, c)) == m.un(op, ConstVal(c)))
    && (forall op, c, d :: ConstVal(m.foldBin(op, c, d)) == m.bin(op, ConstVal(c), ConstVal(d)))
    && (forall op, v, w :: Commutative(op) ==> m.bin(op, v, w) == m.bin(op, w, v))
    && (forall v :: m.bin(SAdd, Text(""), v) == v)
  }

  /** Whether label `l` accepts the string `s` in a match of class `op`. */
  predicate Fits(m: Machine, op: MatchClass, l: Label, s: string) {
    match (op, l)
    case (Same, Literal(t)) => t == s
    case (Head, Literal(t)) => t != "" && t <= s
    case (Tail, Literal(t)) => t != "" && |t| <= |s| && s[|s| - |t|..] == t
    case (RegEx, Pattern(p)) => m.matches(p, s)
    case _ => false
  }

  function LabelSize(l: Label): nat {
    if l.Literal? then |l.s| else 0
  }

  /** The label that decides a `match`: for patterns the first that matches; for literals the
      longest that fits, the last one written if it is written more than once. */
  function Pick(m: Machine, op: MatchClass, labels: seq<Label>, s: string): (r: Option<nat>)
    ensures r.Some? ==> r.value < |labels| && Fits(m, op, labels[r.value], s)
  {
    if labels == [] then None
    else
      var n := |labels| - 1;
      var r := Pick(m, op, labels[..n], s);
      if Fits(m, op, labels[n], s)
         && (r.None? || (op != RegEx && LabelSize(labels[r.value]) <= LabelSize(labels[n])))
      then Some(n) else r
  }

  /** The same for a run-time value; only strings are matched. */
  function Select(m: Machine, op: MatchClass, labels: seq<Label>, v: Val): (r: Option<nat>)
    ensures r.Some? ==> r.value < |labels|
  {
    if v.Text? then Pick(m, op, labels, v.s) else None
  }
}
