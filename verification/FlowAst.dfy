/**
  Flow programs and their meaning. A handler is a list of local variables with initializers
  and a body; statements may call other handlers of the unit, which are expanded in place.
 */
module FlowAst {
  import opened Wrappers
  import opened FlowCore

  /** A local variable, owned by the handler that declares it. */
  datatype Var = Var(owner: string, name: string)

  datatype Expr =
    | Lit(c: Const)
    | Use(x: Var)
    | Unary(uop: UnOp, e: Expr)
    | Binary(op: BinOp, l: Expr, r: Expr)      // op == BOr is the short-circuit `or`
    | Call(f: string, args: seq<Expr>)         // builtin function

  datatype Case = Case(labels: seq<Label>, body: Stmt)

  datatype Stmt =
    | Expression(e: Expr)
    | Assign(x: Var, e: Expr)
    | Compound(ss: seq<Stmt>)
    | Cond(c: Expr, thn: Stmt, els: Stmt)
    | Switch(mc: MatchClass, c: Expr, cases: seq<Case>, other: Option<Stmt>)
    | Invoke(f: string, args: seq<Expr>)       // builtin handler
    | Inline(h: string)                        // handler of this unit

  datatype Local = Local(x: Var, init: Expr)

  /** `body` is missing when the handler was only forward-declared. */
  datatype Handler = Handler(locals: seq<Local>, body: Option<Stmt>)

  type Unit = map<string, Handler>

  // ---------------------------------------------------------------- meaning

  type Store = map<Var, Val>

  function Read(store: Store, x: Var): Val {
    if x in store then store[x] else Num(0)
  }

  /** Value of an expression and the builtin calls made so far. The right side of `or` is
      evaluated only when the left side is false. */
  function Eval(m: Machine, e: Expr, store: Store, tr: Trace): (Val, Trace)
    decreases e, 1
  {
    match e
    case Lit(c) => (ConstVal(c), tr)
    case Use(x) => (Read(store, x), tr)
    case Unary(op, a) =>
      var (v, tr1) := Eval(m, a, store, tr);
      (m.un(op, v), tr1)
    case Binary(op, l, r) =>
      var (v, tr1) := Eval(m, l, store, tr);
      if op == BOr && Truthy(v) then (v, tr1) else
        var (w, tr2) := Eval(m, r, store, tr1);
        (if op == BOr then w else m.bin(op, v, w), tr2)
    case Call(f, args) =>
      var (vs, tr1) := EvalAll(m, args, store, tr);
      (m.call(f, vs, tr1), tr1 + [Event(f, vs)])
  }

  function EvalAll(m: Machine, es: seq<Expr>, store: Store, tr: Trace): (r: (seq<Val>, Trace))
    ensures |r.0| == |es|
    decreases es, 0
  {
    if es == [] then ([], tr) else
      var (v, tr1) := Eval(m, es[0], store, tr);
      var (vs, tr2) := EvalAll(m, es[1..], store, tr1);
      ([v] + vs, tr2)
  }

  /** `Exited`: a builtin handler took over the request and the program stops. `Stuck`: the
      program calls a handler recursively or one that has no body. */
  datatype Outcome = Done(store: Store, tr: Trace) | Exited(tr: Trace) | Stuck

  function Labels(cases: seq<Case>): seq<Label> {
    if cases == [] then [] else cases[0].labels + Labels(cases[1..])
  }

  /** The case that owns the k-th label. */
  function CaseOf(cases: seq<Case>, k: nat): (c: Case)
    requires k < |Labels(cases)|
    ensures c in cases
  {
    if k < |cases[0].labels| then cases[0] else CaseOf(cases[1..], k - |cases[0].labels|)
  }

  /** Runs a statement inside the handlers in `stack`. */
  function Exec(m: Machine, u: Unit, stack: seq<string>, s: Stmt, store: Store, tr: Trace): Outcome
    decreases u.Keys - Elems(stack), s, 1
  {
    match s
    case Expression(e) => Done(store, Eval(m, e, store, tr).1)
    case Assign(x, e) =>
      var (v, tr1) := Eval(m, e, store, tr);
      Done(store[x := v], tr1)
    case Compound(ss) => ExecAll(m, u, stack, ss, store, tr)
    case Cond(c, thn, els) =>
      var (v, tr1) := Eval(m, c, store, tr);
      if Truthy(v) then Exec(m, u, stack, thn, store, tr1) else Exec(m, u, stack, els, store, tr1)
    case Switch(mc, c, cases, other) =>
      var (v, tr1) := Eval(m, c, store, tr);
      (match Select(m, mc, Labels(cases), v)
       case Some(k) => var one := CaseOf(cases, k); Exec(m, u, stack, one.body, store, tr1)
       case None => if other.Some? then Exec(m, u, stack, other.value, store, tr1) else Done(store, tr1))
    case Invoke(f, args) =>
      var (vs, tr1) := EvalAll(m, args, store, tr);
      var tr2 := tr1 + [Event(f, vs)];
      if m.handles(f, vs, tr1) then Exited(tr2) else Done(store, tr2)
    case Inline(h) =>
      if h in stack || h !in u || u[h].body.None? then Stuck
      else ExecHandler(m, u, stack, h, store, tr)
  }

  function ExecAll(m: Machine, u: Unit, stack: seq<string>, ss: seq<Stmt>, store: Store, tr: Trace): Outcome
    decreases u.Keys - Elems(stack), ss, 0
  {
    if ss == [] then Done(store, tr) else
      var o := Exec(m, u, stack, ss[0], store, tr);
      if o.Done? then ExecAll(m, u, stack, ss[1..], o.store, o.tr) else o
  }

  /** Initializes the locals of `h` in order, then runs its body. */
  function ExecHandler(m: Machine, u: Unit, stack: seq<string>, h: string, store: Store, tr: Trace): Outcome
    requires h in u && h !in stack && u[h].body.Some?
    decreases u.Keys - Elems(stack), Inline(h), 0
  {
    var (store1, tr1) := InitLocals(m, u[h].locals, store, tr);
    ElemsPush(stack, h);
    Exec(m, u, stack + [h], u[h].body.value, store1, tr1)
  }

  function InitLocals(m: Machine, locals: seq<Local>, store: Store, tr: Trace): (Store, Trace) {
    if locals == [] then (store, tr) else
      var (v, tr1) := Eval(m, locals[0].init, store, tr);
      InitLocals(m, locals[1..], store[locals[0].x := v], tr1)
  }

  function Elems(stack: seq<string>): set<string> {
    set h | h in stack
  }

  lemma ElemsPush(stack: seq<string>, h: string)
    ensures Elems(stack + [h]) == Elems(stack) + {h}
  {
  }

  // ---------------------------------------------------------------- scoping

  predicate ExprOver(e: Expr, vars: set<Var>) {
    match e
    case Lit(_) => true
    case Use(x) => x in vars
    case Unary(_, a) => ExprOver(a, vars)
    case Binary(_, l, r) => ExprOver(l, vars) && ExprOver(r, vars)
    case Call(_, args) => forall a | a in args :: ExprOver(a, vars)
  }

  predicate StmtOver(s: Stmt, vars: set<Var>) {
    match s
    case Expression(e) => ExprOver(e, vars)
    case Assign(x, e) => x in vars && ExprOver(e, vars)
    case Compound(ss) => forall t | t in ss :: StmtOver(t, vars)
    case Cond(c, thn, els) => ExprOver(c, vars) && StmtOver(thn, vars) && StmtOver(els, vars)
    case Switch(_, c, cases, other) =>
      && ExprOver(c, vars)
      && (forall one | one in cases :: StmtOver(one.body, vars))
      && (other.Some? ==> StmtOver(other.value, vars))
    case Invoke(_, args) => forall a | a in args :: ExprOver(a, vars)
    case Inline(_) => true
  }

  function LocalVars(locals: seq<Local>): set<Var> {
    set l | l in locals :: l.x
  }

  predicate LocalsOver(h: string, locals: seq<Local>, vars: set<Var>) {
    locals != [] ==>
      && locals[0].x.owner == h
      && locals[0].x !in vars
      && ExprOver(locals[0].init, vars)
      && LocalsOver(h, locals[1..], vars + {locals[0].x})
  }

  /** What the parser guarantees: each handler declares its own variables, each once and before
      its first use, and its body uses no others. */
  predicate WellScoped(u: Unit) {
    forall h | h in u ::
      && LocalsOver(h, u[h].locals, {})
      && (u[h].body.Some? ==> StmtOver(u[h].body.value, LocalVars(u[h].locals)))
  }
}
