/**
  What Flow programs mean, in terms of their parts only: the order in which things happen, what
  counts as false, and what is not evaluated at all.
 */
module FlowMeaning {
  import opened FlowCore
  import opened FlowAst
  import opened FlowVm
  import I = FlowIr

  // ---------------------------------------------------------------- expressions

  /** A list of expressions is evaluated from left to right, each after the calls of those before it. */
  lemma {:induction false} EvalAllSplit(m: Machine, es: seq<Expr>, fs: seq<Expr>, store: Store, tr: Trace)
    ensures var (vs, tr1) := EvalAll(m, es, store, tr); var (ws, tr2) := EvalAll(m, fs, store, tr1);
            EvalAll(m, es + fs, store, tr) == (vs + ws, tr2)
  {
    hide Eval;
    var (vs, tr1) := EvalAll(m, es, store, tr);
    var (ws, tr2) := EvalAll(m, fs, store, tr1);
    if es == [] {
      assert es + fs == fs && vs + ws == ws;
    } else {
      var (v, tr0) := Eval(m, es[0], store, tr);
      EvalAllSplit(m, es[1..], fs, store, tr0);
      assert (es + fs)[1..] == es[1..] + fs;
      assert [v] + (vs[1..] + ws) == vs + ws;
    }
  }

  lemma EvalAllFirst(m: Machine, es: seq<Expr>, store: Store, tr: Trace)
    requires es != []
    ensures var (v, tr1) := Eval(m, es[0], store, tr); var (vs, tr2) := EvalAll(m, es[1..], store, tr1);
            EvalAll(m, es, store, tr) == ([v] + vs, tr2) && (|es| == 1 ==> tr2 == tr1)
  {
    hide Eval;
  }

  /** One more at the end. */
  lemma EvalAllLast(m: Machine, es: seq<Expr>, e: Expr, store: Store, tr: Trace)
    ensures var (vs, tr1) := EvalAll(m, es, store, tr); var (w, tr2) := Eval(m, e, store, tr1);
            EvalAll(m, es + [e], store, tr) == (vs + [w], tr2)
  {
    hide Eval;
    var tr1 := EvalAll(m, es, store, tr).1;
    EvalAllSplit(m, es, [e], store, tr);
    assert [e][1..] == [];
    var (w, tr2) := Eval(m, e, store, tr1);
    assert EvalAll(m, [], store, tr2) == ([], tr2);
    assert [w] + [] == [w];
  }

  /** The operands of an operator other than `or` are evaluated like a list of two. */
  lemma BinaryInOrder(m: Machine, op: BinOp, l: Expr, r: Expr, store: Store, tr: Trace)
    requires op != BOr
    ensures var (vs, tr1) := EvalAll(m, [l, r], store, tr);
            Eval(m, Binary(op, l, r), store, tr) == (m.bin(op, vs[0], vs[1]), tr1)
  {
    var (v, tr1) := Eval(m, l, store, tr);
    var (w, tr2) := Eval(m, r, store, tr1);
    assert [l, r] == [l] + [r];
    assert EvalAll(m, [], store, tr) == ([], tr);
    EvalAllLast(m, [], l, store, tr);
    assert [] + [l] == [l] && [] + [v] == [v];
    EvalAllLast(m, [l], r, store, tr);
  }

  /** `a or b or c`, as the parser groups it. */
  function OrOf(es: seq<Expr>): Expr
    requires es != []
  {
    var n := |es| - 1;
    if n == 0 then es[0] else Binary(BOr, OrOf(es[..n]), es[n])
  }

  /** The value of a chain of `or` is that of its first operand other than the number 0, or else of its
      last; the operands up to there are evaluated in order, and those behind it are not. */
  lemma {:induction false} OrChain(m: Machine, es: seq<Expr>, store: Store, tr: Trace) returns (k: nat)
    requires es != []
    ensures k < |es|
    ensures var (vs, tr1) := EvalAll(m, es[..k + 1], store, tr);
            && (forall j | 0 <= j < k :: vs[j] == Num(0)) && (k < |es| - 1 ==> vs[k] != Num(0))
            && Eval(m, OrOf(es), store, tr) == (vs[k], tr1)
    decreases |es|
  {
    hide EvalAll;
    var n := |es| - 1;
    if n == 0 {
      k := 0;
      EvalAllLast(m, [], es[0], store, tr);
      NothingEvaluated(m, store, tr);
      assert es[..1] == [] + [es[0]];
    } else {
      var ds := es[..n];
      k := OrChain(m, ds, store, tr);
      assert es[..k + 1] == ds[..k + 1];
      var (vs, tr1) := EvalAll(m, ds[..k + 1], store, tr);
      OrStep(m, OrOf(ds), es[n], store, tr);
      if vs[k] == Num(0) {
        assert ds[..k + 1] == ds && ds + [es[n]] == es;
        EvalAllLast(m, ds, es[n], store, tr);
        k := n;
        assert es[..n + 1] == es;
      }
    }
  }

  lemma NothingEvaluated(m: Machine, store: Store, tr: Trace)
    ensures EvalAll(m, [], store, tr) == ([], tr)
  {
  }

  lemma OrStep(m: Machine, l: Expr, r: Expr, store: Store, tr: Trace)
    ensures var (v, tr1) := Eval(m, l, store, tr);
            Eval(m, Binary(BOr, l, r), store, tr) == if v == Num(0) then Eval(m, r, store, tr1) else (v, tr1)
  {
  }

  /** Evaluation never takes a call back. */
  lemma {:induction false} EvalGrows(m: Machine, e: Expr, store: Store, tr: Trace)
    ensures tr <= Eval(m, e, store, tr).1
    decreases e, 1
  {
    match e
    case Lit(_) | Use(_) =>
    case Unary(_, a) => EvalGrows(m, a, store, tr);
    case Binary(_, l, r) =>
      EvalGrows(m, l, store, tr);
      EvalGrows(m, r, store, Eval(m, l, store, tr).1);
    case Call(_, args) => EvalAllGrows(m, args, store, tr);
  }

  lemma {:induction false} EvalAllGrows(m: Machine, es: seq<Expr>, store: Store, tr: Trace)
    ensures tr <= EvalAll(m, es, store, tr).1
    decreases es, 0
  {
    if es != [] {
      EvalGrows(m, es[0], store, tr);
      EvalAllGrows(m, es[1..], store, Eval(m, es[0], store, tr).1);
    }
  }

  // ---------------------------------------------------------------- statements

  /** Statements run one after the other, up to the first that does not come to its end. */
  lemma {:induction false} ExecAllSplit(m: Machine, u: Unit, stack: seq<string>, ss: seq<Stmt>, ts: seq<Stmt>,
        store: Store, tr: Trace)
    ensures var o := ExecAll(m, u, stack, ss, store, tr);
            ExecAll(m, u, stack, ss + ts, store, tr) == if o.Done? then ExecAll(m, u, stack, ts, o.store, o.tr) else o
    decreases |ss|
  {
    hide Exec;
    if ss == [] {
      assert ss + ts == ts;
    } else {
      assert (ss + ts)[1..] == ss[1..] + ts;
      var o := Exec(m, u, stack, ss[0], store, tr);
      if o.Done? { ExecAllSplit(m, u, stack, ss[1..], ts, o.store, o.tr); }
    }
  }

  lemma ExecAllOne(m: Machine, u: Unit, stack: seq<string>, s: Stmt, store: Store, tr: Trace)
    ensures ExecAll(m, u, stack, [s], store, tr) == Exec(m, u, stack, s, store, tr)
  {
    hide Exec;
    assert [s][1..] == [];
    var o := Exec(m, u, stack, s, store, tr);
    if o.Done? { assert ExecAll(m, u, stack, [], o.store, o.tr) == o; }
  }

  /** `if c0 s0 else if c1 s1 … else other`. */
  function Arms(cs: seq<Expr>, bodies: seq<Stmt>, other: Stmt): Stmt
    requires |cs| == |bodies|
  {
    if cs == [] then other else Cond(cs[0], bodies[0], Arms(cs[1..], bodies[1..], other))
  }

  lemma CondStep(m: Machine, u: Unit, stack: seq<string>, c: Expr, thn: Stmt, els: Stmt, store: Store, tr: Trace)
    ensures var (v, tr1) := Eval(m, c, store, tr);
            Exec(m, u, stack, Cond(c, thn, els), store, tr)
            == Exec(m, u, stack, if v == Num(0) then els else thn, store, tr1)
  {
  }

  /** A chain of conditions runs the first arm whose condition is not the number 0, and the last one if all
      are; the conditions up to there are evaluated in order, and those behind it are not. */
  lemma {:induction false} FirstTrueArm(m: Machine, u: Unit, stack: seq<string>, cs: seq<Expr>, bodies: seq<Stmt>,
        other: Stmt, store: Store, tr: Trace) returns (k: nat)
    requires |cs| == |bodies|
    ensures k <= |cs|
    ensures var (vs, tr1) := EvalAll(m, cs[..if k < |cs| then k + 1 else k], store, tr);
            && (forall j | 0 <= j < k :: vs[j] == Num(0)) && (k < |cs| ==> vs[k] != Num(0))
            && Exec(m, u, stack, Arms(cs, bodies, other), store, tr)
               == Exec(m, u, stack, if k < |cs| then bodies[k] else other, store, tr1)
    decreases |cs|
  {
    hide Exec, Eval, EvalAll;
    if cs == [] {
      k := 0;
      assert cs[..0] == [];
      NothingEvaluated(m, store, tr);
    } else {
      var (v, tr1) := Eval(m, cs[0], store, tr);
      CondStep(m, u, stack, cs[0], bodies[0], Arms(cs[1..], bodies[1..], other), store, tr);
      if v != Num(0) {
        k := 0;
        EvalAllFirst(m, cs[..1], store, tr);
      } else {
        k := FirstTrueArm(m, u, stack, cs[1..], bodies[1..], other, store, tr1);
        var n := if k < |cs| - 1 then k + 1 else k;
        EvalAllFirst(m, cs[..n + 1], store, tr);
        assert cs[..n + 1][1..] == cs[1..][..n];
        k := k + 1;
      }
    }
  }

  /** Of the constants only the number 0 and `false` are false. */
  lemma ConstantCondition(m: Machine, u: Unit, stack: seq<string>, c: Const, thn: Stmt, els: Stmt, store: Store,
        tr: Trace)
    ensures Exec(m, u, stack, Cond(Lit(c), thn, els), store, tr)
         == Exec(m, u, stack, if c == CInt(0) || c == CBool(false) then els else thn, store, tr)
  {
    CondStep(m, u, stack, Lit(c), thn, els, store, tr);
  }

  /** Declaring local variables, as assignments. */
  function Assignments(locals: seq<Local>): seq<Stmt> {
    if locals == [] then [] else [Stmt.Assign(locals[0].x, locals[0].init)] + Assignments(locals[1..])
  }

  lemma {:induction false} LocalsAssigned(m: Machine, u: Unit, stack: seq<string>, locals: seq<Local>, store: Store,
        tr: Trace)
    ensures var (store1, tr1) := InitLocals(m, locals, store, tr);
            ExecAll(m, u, stack, Assignments(locals), store, tr) == Done(store1, tr1)
    decreases |locals|
  {
    hide Eval;
    if locals != [] {
      var (v, tr1) := Eval(m, locals[0].init, store, tr);
      var ss := Assignments(locals);
      assert ss[1..] == Assignments(locals[1..]);
      LocalsAssigned(m, u, stack, locals[1..], store[locals[0].x := v], tr1);
    }
  }

  /** A handler called in place runs as the assignments of its local variables followed by its body. */
  lemma HandlerInPlace(m: Machine, u: Unit, stack: seq<string>, h: string, store: Store, tr: Trace)
    ensures Exec(m, u, stack, Inline(h), store, tr) ==
              if h in u && h !in stack && u[h].body.Some?
              then Exec(m, u, stack + [h], Compound(Assignments(u[h].locals) + [u[h].body.value]), store, tr)
              else Stuck
  {
    if h in u && h !in stack && u[h].body.Some? {
      var body := u[h].body.value;
      var (store1, tr1) := InitLocals(m, u[h].locals, store, tr);
      LocalsAssigned(m, u, stack + [h], u[h].locals, store, tr);
      ExecAllSplit(m, u, stack + [h], Assignments(u[h].locals), [body], store, tr);
      ExecAllOne(m, u, stack + [h], body, store1, tr1);
    }
  }

  /** Nor does running a statement, however it ends. */
  lemma {:induction false} ExecGrows(m: Machine, u: Unit, stack: seq<string>, s: Stmt, store: Store, tr: Trace)
    ensures var o := Exec(m, u, stack, s, store, tr); o.Stuck? || tr <= o.tr
    decreases u.Keys - Elems(stack), s, 1
  {
    hide Eval, EvalAll, Select, CaseOf;
    match s
    case Expression(e) => EvalGrows(m, e, store, tr);
    case Assign(_, e) => EvalGrows(m, e, store, tr);
    case Compound(ss) => ExecAllGrows(m, u, stack, ss, store, tr);
    case Cond(c, thn, els) =>
      EvalGrows(m, c, store, tr);
      var tr1 := Eval(m, c, store, tr).1;
      ExecGrows(m, u, stack, thn, store, tr1);
      ExecGrows(m, u, stack, els, store, tr1);
    case Switch(mc, c, cases, other) =>
      EvalGrows(m, c, store, tr);
      var (v, tr1) := Eval(m, c, store, tr);
      var r := Select(m, mc, Labels(cases), v);
      if r.Some? {
        ExecGrows(m, u, stack, CaseOf(cases, r.value).body, store, tr1);
      } else if other.Some? {
        ExecGrows(m, u, stack, other.value, store, tr1);
      }
    case Invoke(_, args) => EvalAllGrows(m, args, store, tr);
    case Inline(h) =>
      if h in u && h !in stack && u[h].body.Some? {
        var (store1, tr1) := InitLocals(m, u[h].locals, store, tr);
        LocalsGrow(m, u[h].locals, store, tr);
        ElemsPush(stack, h);
        ExecGrows(m, u, stack + [h], u[h].body.value, store1, tr1);
      }
  }

  lemma {:induction false} ExecAllGrows(m: Machine, u: Unit, stack: seq<string>, ss: seq<Stmt>, store: Store, tr: Trace)
    ensures var o := ExecAll(m, u, stack, ss, store, tr); o.Stuck? || tr <= o.tr
    decreases u.Keys - Elems(stack), ss, 0
  {
    hide Exec;
    if ss != [] {
      ExecGrows(m, u, stack, ss[0], store, tr);
      var o := Exec(m, u, stack, ss[0], store, tr);
      if o.Done? { ExecAllGrows(m, u, stack, ss[1..], o.store, o.tr); }
    }
  }

  lemma {:induction false} LocalsGrow(m: Machine, locals: seq<Local>, store: Store, tr: Trace)
    ensures tr <= InitLocals(m, locals, store, tr).1
  {
    hide Eval;
    if locals != [] {
      EvalGrows(m, locals[0].init, store, tr);
      var (v, tr1) := Eval(m, locals[0].init, store, tr);
      LocalsGrow(m, locals[1..], store[locals[0].x := v], tr1);
    }
  }

  // ---------------------------------------------------------------- jumps

  /** The branch of the blocks and the two jumps of the machine take the number 0, and nothing else, for
      false. */
  lemma JumpsExact(m: Machine, mode: I.Mode, G: I.Cfg, s: I.State, p: Program, t: VmState)
    ensures s.At? && s.b < |G| && s.i < |G[s.b]| && G[s.b][s.i].CondBr? ==>
              var i := G[s.b][s.i];
              I.Step(m, mode, G, s) == I.At(if I.Den(mode, i.v, s.cells) == Num(0) then i.e else i.t, 0, s.cells, s.tr)
    ensures t.Running? && t.pc < |p.code| && (p.code[t.pc].Jn? || p.code[t.pc].Jz?) ==>
              var i := p.code[t.pc];
              var zero := (if i.r in t.regs then t.regs[i.r] else Num(0)) == Num(0);
              VmStep(m, p, t) == t.(pc := if zero == i.Jz? then i.t else t.pc + 1)
  {
  }

  /** A call adds one event to the trace: its arguments are what the registers behind the base hold, in order.
      The base register gets the result; a handler that takes over stops the machine instead. */
  lemma CallsExact(m: Machine, p: Program, t: VmState)
    requires t.Running? && t.pc < |p.code| && (p.code[t.pc].CallN? || p.code[t.pc].HandlerN?)
    ensures var i := p.code[t.pc]; var s := VmStep(m, p, t);
            && |s.tr| == |t.tr| + 1 && s.tr[..|t.tr|] == t.tr && s.tr[|t.tr|].callee == i.f
            && var args := s.tr[|t.tr|].args;
            && |args| == (if i.argc == 0 then 0 else i.argc - 1)
            && (forall k | 0 <= k < |args| ::
                  args[k] == if i.base + 1 + k in t.regs then t.regs[i.base + 1 + k] else Num(0))
            && if i.HandlerN? && m.handles(i.f, args, t.tr) then s == Stopped(true, s.tr)
               else s == Running(t.pc + 1,
                                 t.regs[i.base := if i.CallN? then m.call(i.f, args, t.tr) else Num(0)], s.tr)
  {
    hide Evaluate;
  }
}
