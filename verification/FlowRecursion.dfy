/**
  Handlers are expanded in place, so a handler that calls itself, directly or not, cannot be
  generated. Generation always ends, and reports an error exactly when it has to.
 */
module FlowRecursion {
  import opened FlowCore
  import opened FlowAst
  import opened FlowIr
  import opened FlowLowering

  // ---------------------------------------------------------------- the errors of a unit

  /** Errors reported for a statement, whatever the generator's state. */
  function Problems(u: Unit, stack: seq<string>, s: Stmt): seq<Problem>
    decreases u.Keys - Elems(stack), s, 1
  {
    match s
    case Compound(ss) => ProblemsAll(u, stack, ss)
    case Cond(_, thn, els) => Problems(u, stack, thn) + Problems(u, stack, els)
    case Switch(_, _, cases, other) =>
      ProblemsCases(u, stack, cases) + (if other.Some? then Problems(u, stack, other.value) else [])
    case Inline(h) => HandlerProblems(u, stack, h)
    case _ => []
  }

  function ProblemsAll(u: Unit, stack: seq<string>, ss: seq<Stmt>): seq<Problem>
    decreases u.Keys - Elems(stack), ss, 0
  {
    if ss == [] then [] else Problems(u, stack, ss[0]) + ProblemsAll(u, stack, ss[1..])
  }

  function ProblemsCases(u: Unit, stack: seq<string>, cases: seq<Case>): seq<Problem>
    decreases u.Keys - Elems(stack), cases, 0
  {
    if cases == [] then [] else
      var one := cases[0];
      Problems(u, stack, one.body) + ProblemsCases(u, stack, cases[1..])
  }

  function HandlerProblems(u: Unit, stack: seq<string>, h: string): seq<Problem>
    decreases u.Keys - Elems(stack), Inline(h), 0
  {
    if h in stack then [Recursive(h)]
    else if h !in u || u[h].body.None? then [Missing(h)]
    else
      ElemsPush(stack, h);
      Problems(u, stack + [h], u[h].body.value)
  }

  // ---------------------------------------------------------------- the generator reports them

  lemma {:induction false} ExprErrors(m: Machine, e: Expr, g: Gen)
    ensures LowerExpr(m, e, g).0.errors == g.errors
    decreases e, 1
  {
    match e
    case Unary(_, a) => ExprErrors(m, a, g);
    case Binary(op, l, r) =>
      if op == BOr {
        ExprErrors(m, l, EmitNew(NewBlocks(g, 3), Alloca(g.next)));
        var (g1, a) := OrHead(m, l, g);
        ExprErrors(m, r, OrLeft(g1, a, g.next, |g.blocks|));
      } else {
        ExprErrors(m, l, g);
        ExprErrors(m, r, LowerExpr(m, l, g).0);
      }
    case Call(_, args) => ArgsErrors(m, args, g);
    case _ =>
  }

  lemma {:induction false} ArgsErrors(m: Machine, es: seq<Expr>, g: Gen)
    ensures LowerArgs(m, es, g).0.errors == g.errors
    decreases es, 0
  {
    if es != [] {
      ExprErrors(m, es[0], g);
      ArgsErrors(m, es[1..], LowerExpr(m, es[0], g).0);
    }
  }

  lemma {:induction false} LocalsErrors(m: Machine, locals: seq<Local>, g: Gen)
    ensures LowerLocals(m, locals, g).errors == g.errors
  {
    if locals != [] {
      ExprErrors(m, locals[0].init, g);
      var (g1, v) := LowerExpr(m, locals[0].init, g);
      var g2 := EmitNew(g1, Alloca(g1.next));
      LocalsErrors(m, locals[1..], Emit(g2.(scope := g2.scope[locals[0].x := g1.next]), Store(g1.next, v)));
    }
  }

  lemma {:induction false} LowerErrors(m: Machine, u: Unit, stack: seq<string>, s: Stmt, g: Gen)
    ensures Lower(m, u, stack, s, g).errors == g.errors + Problems(u, stack, s)
    decreases u.Keys - Elems(stack), s, 1
  {
    hide LowerExpr, LowerArgs;
    match s
    case Expression(e) => ExprErrors(m, e, g);
    case Assign(_, e) => ExprErrors(m, e, g);
    case Compound(ss) => AllErrors(m, u, stack, ss, g);
    case Cond(c, thn, els) =>
      ExprErrors(m, c, NewBlocks(g, 3));
      LowerErrors(m, u, stack, thn, CondHead(m, c, g));
      LowerErrors(m, u, stack, els, BranchTo(Lower(m, u, stack, thn, CondHead(m, c, g)), Br(|g.blocks| + 2),
          |g.blocks| + 1));
    case Switch(_, _, _, _) => SwitchErrors(m, u, stack, s, g);
    case Invoke(_, args) => ArgsErrors(m, args, g);
    case Inline(h) => HandlerErrors(m, u, stack, h, g);
  }

  lemma {:induction false} AllErrors(m: Machine, u: Unit, stack: seq<string>, ss: seq<Stmt>, g: Gen)
    ensures LowerAll(m, u, stack, ss, g).errors == g.errors + ProblemsAll(u, stack, ss)
    decreases u.Keys - Elems(stack), ss, 0
  {
    if ss != [] {
      LowerErrors(m, u, stack, ss[0], g);
      AllErrors(m, u, stack, ss[1..], Lower(m, u, stack, ss[0], g));
    }
  }

  lemma {:induction false} CasesErrors(m: Machine, u: Unit, stack: seq<string>, cases: seq<Case>, cont: nat, o: nat,
        k: nat, g: Gen)
    ensures LowerCases(m, u, stack, cases, cont, o, k, g).errors == g.errors + ProblemsCases(u, stack, cases)
    decreases u.Keys - Elems(stack), cases, 0
  {
    hide Lower;
    if cases != [] {
      var one, n := cases[0], |g.blocks|;
      var g1 := Lower(m, u, stack, one.body, MoveTo(NewBlocks(g, 1), n));
      LowerErrors(m, u, stack, one.body, MoveTo(NewBlocks(g, 1), n));
      CasesErrors(m, u, stack, cases[1..], cont, o, k, AddCases(Emit(g1, Br(cont)), o, k, one.labels, n));
    }
  }

  lemma {:induction false} SwitchErrors(m: Machine, u: Unit, stack: seq<string>, s: Stmt, g: Gen)
    requires s.Switch?
    ensures Lower(m, u, stack, s, g).errors == g.errors + Problems(u, stack, s)
    decreases u.Keys - Elems(stack), s, 0
  {
    hide LowerExpr, LowerCases, ProblemsCases;
    ExprErrors(m, s.c, g);
    var (g1, v) := LowerExpr(m, s.c, g);
    var cont, o := |g1.blocks|, g1.cur;
    var k := if o < |g1.blocks| then |g1.blocks[o]| else 0;
    var g2 := Emit(NewBlocks(g1, 1), Match(s.mc, v, [], [], cont));
    CasesErrors(m, u, stack, s.cases, cont, o, k, g2);
    var g3 := LowerCases(m, u, stack, s.cases, cont, o, k, g2);
    if s.other.Some? {
      LowerErrors(m, u, stack, s.other.value, MoveTo(NewBlocks(g3, 1), |g3.blocks|));
    }
  }

  lemma {:induction false} HandlerErrors(m: Machine, u: Unit, stack: seq<string>, h: string, g: Gen)
    ensures LowerHandler(m, u, stack, h, g).errors == g.errors + HandlerProblems(u, stack, h)
    decreases u.Keys - Elems(stack), Inline(h), 0
  {
    hide LowerLocals;
    if h !in stack && h in u {
      LocalsErrors(m, u[h].locals, g);
      if u[h].body.Some? {
        ElemsPush(stack, h);
        LowerErrors(m, u, stack + [h], u[h].body.value, LowerLocals(m, u[h].locals, g));
      }
    }
  }

  // ---------------------------------------------------------------- the call graph

  /** The handlers a statement calls. */
  function Callees(s: Stmt): set<string> {
    match s
    case Compound(ss) => set t, h | t in ss && h in Callees(t) :: h
    case Cond(_, thn, els) => Callees(thn) + Callees(els)
    case Switch(_, _, cases, other) =>
      (set one, h | one in cases && h in Callees(one.body) :: h) + (if other.Some? then Callees(other.value) else {})
    case Inline(h) => {h}
    case _ => {}
  }

  predicate Defined(u: Unit, h: string) {
    h in u && u[h].body.Some?
  }

  predicate Calls(u: Unit, h: string, k: string) {
    Defined(u, h) && k in Callees(u[h].body.value)
  }

  predicate IsPath(u: Unit, p: seq<string>) {
    p != [] && forall i | 0 <= i < |p| - 1 :: Calls(u, p[i], p[i + 1])
  }

  /** Some chain of calls from h comes back to a handler it has passed. */
  ghost predicate CycleReachable(u: Unit, h: string) {
    exists p :: IsPath(u, p) && p[0] == h && p[|p| - 1] in p[..|p| - 1]
  }

  /** Some chain of calls from h ends in a handler without a body. */
  ghost predicate MissingReachable(u: Unit, h: string) {
    exists p :: IsPath(u, p) && p[0] == h && !Defined(u, p[|p| - 1])
  }

  // ---------------------------------------------------------------- problems come from calls

  ghost predicate FromCallee(u: Unit, stack: seq<string>, s: Stmt, e: Problem) {
    exists k :: k in Callees(s) && e in HandlerProblems(u, stack, k)
  }

  /** The errors of a statement are the errors of its callees. */
  lemma {:induction false} ProblemsOfCallees(u: Unit, stack: seq<string>, s: Stmt, e: Problem)
    ensures e in Problems(u, stack, s) <==> FromCallee(u, stack, s, e)
    decreases s
  {
    match s
    case Compound(ss) =>
      forall t | t in ss ensures e in Problems(u, stack, t) <==> FromCallee(u, stack, t, e) {
        ProblemsOfCallees(u, stack, t, e);
      }
      ProblemsOfAll(u, stack, ss, e);
      CompoundCallees(u, stack, ss, e);
    case Cond(_, thn, els) =>
      ProblemsOfCallees(u, stack, thn, e);
      ProblemsOfCallees(u, stack, els, e);
      CondCallees(u, stack, s, e);
    case Switch(_, _, cases, other) =>
      forall one | one in cases ensures e in Problems(u, stack, one.body) <==> FromCallee(u, stack, one.body, e) {
        ProblemsOfCallees(u, stack, one.body, e);
      }
      if other.Some? { ProblemsOfCallees(u, stack, other.value, e); }
      ProblemsOfCases(u, stack, cases, e);
      SwitchCallees(u, stack, s, e);
    case _ =>
  }

  lemma CompoundCallees(u: Unit, stack: seq<string>, ss: seq<Stmt>, e: Problem)
    ensures FromCallee(u, stack, Compound(ss), e) <==> exists t :: t in ss && FromCallee(u, stack, t, e)
  {
    if FromCallee(u, stack, Compound(ss), e) {
      var k :| k in Callees(Compound(ss)) && e in HandlerProblems(u, stack, k);
      var t :| t in ss && k in Callees(t);
      assert FromCallee(u, stack, t, e);
    }
    forall t | t in ss && FromCallee(u, stack, t, e) ensures FromCallee(u, stack, Compound(ss), e) {
      var k :| k in Callees(t) && e in HandlerProblems(u, stack, k);
      assert k in Callees(Compound(ss));
    }
  }

  lemma CondCallees(u: Unit, stack: seq<string>, s: Stmt, e: Problem)
    requires s.Cond?
    ensures FromCallee(u, stack, s, e) <==> FromCallee(u, stack, s.thn, e) || FromCallee(u, stack, s.els, e)
  {
  }

  lemma SwitchCallees(u: Unit, stack: seq<string>, s: Stmt, e: Problem)
    requires s.Switch?
    ensures FromCallee(u, stack, s, e)
       <==> || (exists one :: one in s.cases && FromCallee(u, stack, one.body, e))
            || (s.other.Some? && FromCallee(u, stack, s.other.value, e))
  {
    if FromCallee(u, stack, s, e) {
      var k :| k in Callees(s) && e in HandlerProblems(u, stack, k);
      if !(s.other.Some? && k in Callees(s.other.value)) {
        var one :| one in s.cases && k in Callees(one.body);
        assert FromCallee(u, stack, one.body, e);
      }
    }
    forall one | one in s.cases && FromCallee(u, stack, one.body, e) ensures FromCallee(u, stack, s, e) {
      var k :| k in Callees(one.body) && e in HandlerProblems(u, stack, k);
      assert k in Callees(s);
    }
  }

  lemma {:induction false} ProblemsOfAll(u: Unit, stack: seq<string>, ss: seq<Stmt>, e: Problem)
    ensures e in ProblemsAll(u, stack, ss) <==> exists t :: t in ss && e in Problems(u, stack, t)
  {
    if ss != [] {
      ProblemsOfAll(u, stack, ss[1..], e);
      assert ss == [ss[0]] + ss[1..];
      if e in Problems(u, stack, ss[0]) {
        assert ss[0] in ss;
      }
    }
  }

  lemma {:induction false} ProblemsOfCases(u: Unit, stack: seq<string>, cases: seq<Case>, e: Problem)
    ensures e in ProblemsCases(u, stack, cases) <==> exists one :: one in cases && e in Problems(u, stack, one.body)
  {
    if cases != [] {
      ProblemsOfCases(u, stack, cases[1..], e);
      assert cases == [cases[0]] + cases[1..];
    }
  }

  // ---------------------------------------------------------------- errors exactly when necessary

  /** The last handler of p repeats one, or has no body. */
  ghost predicate Bad(u: Unit, p: seq<string>, e: Problem) {
    && IsPath(u, p)
    && match e
       case Recursive(h) => p[|p| - 1] == h && h in p[..|p| - 1]
       case Missing(h) => p[|p| - 1] == h && !Defined(u, h)
  }

  /** A reported error is justified by a chain of calls that extends the handler stack. */
  lemma {:induction false} ReportedIsBad(u: Unit, stack: seq<string>, h: string, e: Problem) returns (p: seq<string>)
    requires IsPath(u, stack + [h]) && e in HandlerProblems(u, stack, h)
    ensures Bad(u, p, e) && stack + [h] <= p
    decreases u.Keys - Elems(stack)
  {
    if h in stack || !Defined(u, h) {
      p := stack + [h];
    } else {
      ElemsPush(stack, h);
      var body := u[h].body.value;
      ProblemsOfCallees(u, stack + [h], body, e);
      var k :| k in Callees(body) && e in HandlerProblems(u, stack + [h], k);
      var q := stack + [h] + [k];
      forall i | 0 <= i < |q| - 1 ensures Calls(u, q[i], q[i + 1]) {
        if i < |stack| {
          assert (stack + [h])[i] == q[i] && (stack + [h])[i + 1] == q[i + 1];
        }
      }
      p := ReportedIsBad(u, stack + [h], k, e);
    }
  }

  ghost predicate Distinct(p: seq<string>) {
    forall i, j | 0 <= i < j < |p| :: p[i] != p[j]
  }

  /** Along a chain whose last handler is the first one in error, the error is reported. */
  lemma {:induction false} BadIsReported(u: Unit, p: seq<string>, i: nat, e: Problem)
    requires IsPath(u, p) && i < |p| && Distinct(p[..|p| - 1])
    requires e == if p[|p| - 1] in p[..|p| - 1] then Recursive(p[|p| - 1]) else Missing(p[|p| - 1])
    requires p[|p| - 1] !in p[..|p| - 1] ==> !Defined(u, p[|p| - 1])
    ensures e in HandlerProblems(u, p[..i], p[i])
    decreases |p| - i
  {
    if i < |p| - 1 {
      assert Calls(u, p[i], p[i + 1]);
      assert p[i] !in p[..i] by {
        forall j | 0 <= j < i ensures p[j] != p[i] {
          assert p[..|p| - 1][j] != p[..|p| - 1][i];
        }
      }
      BadIsReported(u, p, i + 1, e);
      assert p[..i + 1] == p[..i] + [p[i]];
      ProblemsOfCallees(u, p[..i + 1], u[p[i]].body.value, e);
    }
  }

  /** The first handler on a chain that repeats an earlier one. */
  lemma {:induction false} FirstRepeat(p: seq<string>) returns (n: nat)
    requires p != []
    ensures 1 <= n <= |p| && Distinct(p[..n - 1])
    ensures n < |p| ==> p[n - 1] in p[..n - 1]
    ensures n == |p| && p[n - 1] !in p[..n - 1] ==> Distinct(p)
  {
    if |p| == 1 {
      n := 1;
    } else {
      var q := p[..|p| - 1];
      n := FirstRepeat(q);
      assert q[..n - 1] == p[..n - 1];
      if n == |q| && q[n - 1] !in q[..n - 1] {
        n := |p|;
      }
    }
  }

  /** The recursion error is reported exactly if a chain of calls from the exported handler
      comes back to a handler it has passed. */
  lemma RecursionReported(u: Unit, h: string)
    ensures (exists r :: Recursive(r) in HandlerProblems(u, [], h)) <==> CycleReachable(u, h)
  {
    if exists r :: Recursive(r) in HandlerProblems(u, [], h) {
      var r :| Recursive(r) in HandlerProblems(u, [], h);
      assert [] + [h] == [h];
      var p := ReportedIsBad(u, [], h, Recursive(r));
      assert p[0] == h;
    }
    if CycleReachable(u, h) {
      var p :| IsPath(u, p) && p[0] == h && p[|p| - 1] in p[..|p| - 1];
      var n := FirstRepeat(p);
      var q := p[..n];
      assert q[..n - 1] == p[..n - 1] && q[n - 1] in q[..n - 1];
      assert IsPath(u, q) && q[0] == h;
      BadIsReported(u, q, 0, Recursive(q[n - 1]));
      assert q[..0] == [];
    }
  }

  /** Some chain of calls leads from h to k. */
  ghost predicate ChainTo(u: Unit, h: string, k: string) {
    exists p :: IsPath(u, p) && p[0] == h && p[|p| - 1] == k
  }

  /** Leaving out a loop. */
  lemma CutLoop(u: Unit, p: seq<string>, j: nat, n: nat)
    requires IsPath(u, p) && j < n < |p| && p[j] == p[n]
    ensures var q := p[..j] + p[n..]; IsPath(u, q) && q[0] == p[0] && q[|q| - 1] == p[|p| - 1]
  {
    var q := p[..j] + p[n..];
    forall i | 0 <= i < |q| - 1 ensures Calls(u, q[i], q[i + 1]) {
      if i + 1 == j {
        assert Calls(u, p[i], p[j]);
      } else if i < j {
        assert Calls(u, p[i], p[i + 1]);
      } else {
        assert Calls(u, p[i - j + n], p[i - j + n + 1]);
      }
    }
  }

  /** A chain of calls can be had without repetitions. */
  lemma {:induction false} SimpleChain(u: Unit, p: seq<string>) returns (q: seq<string>)
    requires IsPath(u, p)
    ensures IsPath(u, q) && q[0] == p[0] && q[|q| - 1] == p[|p| - 1] && Distinct(q)
    decreases |p|
  {
    var n := FirstRepeat(p);
    if p[n - 1] in p[..n - 1] {
      var j: nat :| j < n - 1 && p[j] == p[n - 1];
      CutLoop(u, p, j, n - 1);
      q := SimpleChain(u, p[..j] + p[n - 1..]);
    } else {
      q := p;
    }
  }

  /** A handler is reported to have no body exactly if it has none and a chain of calls from the
      exported handler leads to it, whatever cycles there are beside. */
  lemma MissingReported(u: Unit, h: string, k: string)
    ensures Missing(k) in HandlerProblems(u, [], h) <==> !Defined(u, k) && ChainTo(u, h, k)
  {
    if Missing(k) in HandlerProblems(u, [], h) {
      assert [] + [h] == [h];
      var p := ReportedIsBad(u, [], h, Missing(k));
      assert p[0] == h;
    }
    if !Defined(u, k) && ChainTo(u, h, k) {
      var p :| IsPath(u, p) && p[0] == h && p[|p| - 1] == k;
      var q := SimpleChain(u, p);
      var n := |q| - 1;
      forall i | 0 <= i < n ensures q[i] != q[n] { }
      assert q[n] !in q[..n] && Distinct(q[..n]);
      BadIsReported(u, q, 0, Missing(k));
      assert q[..0] == [];
    }
  }

  /** An exported handler is generated without errors exactly if no chain of calls from it comes
      back to a handler it has passed or reaches one without a body. */
  lemma ErrorFree(m: Machine, u: Unit, h: string, g: Gen)
    ensures LowerExported(m, u, h, g).errors == g.errors <==> !CycleReachable(u, h) && !MissingReachable(u, h)
  {
    hide LowerHandler, HandlerProblems;
    HandlerErrors(m, u, [], h, g.(blocks := [[]], cur := 0));
    var es := HandlerProblems(u, [], h);
    assert LowerExported(m, u, h, g).errors == g.errors + es;
    if es != [] {
      assert es[0] in es;
      assert [] + [h] == [h];
      var p := ReportedIsBad(u, [], h, es[0]);
      assert p[0] == h;
    }
    if CycleReachable(u, h) {
      RecursionReported(u, h);
    } else if MissingReachable(u, h) {
      var p :| IsPath(u, p) && p[0] == h && !Defined(u, p[|p| - 1]);
      assert ChainTo(u, h, p[|p| - 1]);
      MissingReported(u, h, p[|p| - 1]);
    }
  }
}
