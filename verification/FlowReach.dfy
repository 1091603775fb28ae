/**
  Only handlers that a chain of calls leads to matter: lowering a handler and its meaning are the
  same in the part of the unit that can be reached from it.
 */
module FlowReach {
  import opened FlowCore
  import opened FlowAst
  import opened FlowIr
  import opened FlowLowering
  import opened FlowRecursion
  import opened FlowCorrectness

  /** The handlers of u that can be reached from h. */
  ghost function Part(u: Unit, h: string): Unit {
    map k | k in u && ChainTo(u, h, k) :: u[k]
  }

  /** u and w have the same handlers under the names in `names`, which call no others. */
  ghost predicate Agreeing(u: Unit, w: Unit, names: iset<string>) {
    forall k | k in names ::
      && (k in u <==> k in w) && (k in u ==> u[k] == w[k])
      && (Defined(u, k) ==> forall l | l in Callees(u[k].body.value) :: l in names)
  }

  lemma ChainMore(u: Unit, h: string, k: string, l: string)
    requires ChainTo(u, h, k) && Calls(u, k, l)
    ensures ChainTo(u, h, l)
  {
    var p :| IsPath(u, p) && p[0] == h && p[|p| - 1] == k;
    var q := p + [l];
    forall i | 0 <= i < |q| - 1 ensures Calls(u, q[i], q[i + 1]) {
      if i < |p| - 1 { assert Calls(u, p[i], p[i + 1]); }
    }
    assert IsPath(u, q) && q[0] == h && q[|q| - 1] == l;
  }

  lemma PartAgrees(u: Unit, h: string)
    ensures var names := iset k | ChainTo(u, h, k); Agreeing(u, Part(u, h), names) && h in names
  {
    hide ChainTo;
    forall k, l | ChainTo(u, h, k) && Defined(u, k) && l in Callees(u[k].body.value) ensures ChainTo(u, h, l) {
      ChainMore(u, h, k, l);
    }
    assert ChainTo(u, h, h) by { ChainSelf(u, h); }
  }

  lemma ChainSelf(u: Unit, h: string)
    ensures ChainTo(u, h, h)
  {
    assert IsPath(u, [h]);
  }

  // ---------------------------------------------------------------- lowering

  lemma {:induction false} LowerSame(m: Machine, u: Unit, w: Unit, names: iset<string>, stack: seq<string>, s: Stmt,
        g: Gen)
    requires Agreeing(u, w, names) && forall k | k in Callees(s) :: k in names
    ensures Lower(m, u, stack, s, g) == Lower(m, w, stack, s, g)
    decreases u.Keys - Elems(stack), s, 1
  {
    hide Agreeing, LowerExpr, Emit, AddCases, SetElse, NewBlocks, CondHead, LowerCases;
    match s
    case Compound(ss) => LowerAllSame(m, u, w, names, stack, ss, g);
    case Cond(c, thn, els) =>
      var n := |g.blocks|;
      var h := CondHead(m, c, g);
      LowerSame(m, u, w, names, stack, thn, h);
      LowerSame(m, u, w, names, stack, els, BranchTo(Lower(m, u, stack, thn, h), Br(n + 2), n + 1));
    case Switch(mc, c, cases, other) =>
      var (g1, v) := LowerExpr(m, c, g);
      var cont, o := |g1.blocks|, g1.cur;
      var k := if o < |g1.blocks| then |g1.blocks[o]| else 0;
      var g2 := Emit(NewBlocks(g1, 1), Match(mc, v, [], [], cont));
      LowerCasesSame(m, u, w, names, stack, cases, cont, o, k, g2);
      if other.Some? {
        var g3 := LowerCases(m, u, stack, cases, cont, o, k, g2);
        LowerSame(m, u, w, names, stack, other.value, MoveTo(NewBlocks(g3, 1), |g3.blocks|));
      }
    case Inline(h) => LowerHandlerSame(m, u, w, names, stack, h, g);
    case _ =>
  }

  lemma {:induction false} LowerAllSame(m: Machine, u: Unit, w: Unit, names: iset<string>, stack: seq<string>,
        ss: seq<Stmt>, g: Gen)
    requires Agreeing(u, w, names) && forall t, k | t in ss && k in Callees(t) :: k in names
    ensures LowerAll(m, u, stack, ss, g) == LowerAll(m, w, stack, ss, g)
    decreases u.Keys - Elems(stack), ss, 0
  {
    hide Agreeing, Lower;
    if ss != [] {
      LowerSame(m, u, w, names, stack, ss[0], g);
      LowerAllSame(m, u, w, names, stack, ss[1..], Lower(m, u, stack, ss[0], g));
    }
  }

  lemma {:induction false} LowerCasesSame(m: Machine, u: Unit, w: Unit, names: iset<string>, stack: seq<string>,
        cases: seq<Case>, cont: nat, o: nat, k: nat, g: Gen)
    requires Agreeing(u, w, names) && forall one, l | one in cases && l in Callees(one.body) :: l in names
    ensures LowerCases(m, u, stack, cases, cont, o, k, g) == LowerCases(m, w, stack, cases, cont, o, k, g)
    decreases u.Keys - Elems(stack), cases, 0
  {
    hide Agreeing, Lower, AddCases;
    if cases != [] {
      var one, n := cases[0], |g.blocks|;
      var h := MoveTo(NewBlocks(g, 1), n);
      LowerSame(m, u, w, names, stack, one.body, h);
      var g1 := AddCases(Emit(Lower(m, u, stack, one.body, h), Br(cont)), o, k, one.labels, n);
      LowerCasesSame(m, u, w, names, stack, cases[1..], cont, o, k, g1);
    }
  }

  lemma {:induction false} LowerHandlerSame(m: Machine, u: Unit, w: Unit, names: iset<string>, stack: seq<string>,
        h: string, g: Gen)
    requires Agreeing(u, w, names) && h in names
    ensures LowerHandler(m, u, stack, h, g) == LowerHandler(m, w, stack, h, g)
    decreases u.Keys - Elems(stack), Inline(h), 0
  {
    hide Lower, LowerLocals;
    if h !in stack && h in u && u[h].body.Some? {
      ElemsPush(stack, h);
      LowerSame(m, u, w, names, stack + [h], u[h].body.value, LowerLocals(m, u[h].locals, g));
    }
  }

  // ---------------------------------------------------------------- meaning

  lemma {:induction false} ExecSame(m: Machine, u: Unit, w: Unit, names: iset<string>, stack: seq<string>, s: Stmt,
        store: Store, tr: Trace)
    requires Agreeing(u, w, names) && forall k | k in Callees(s) :: k in names
    ensures Exec(m, u, stack, s, store, tr) == Exec(m, w, stack, s, store, tr)
    decreases u.Keys - Elems(stack), s, 1
  {
    hide Agreeing, Eval, Select;
    match s
    case Compound(ss) => ExecAllSame(m, u, w, names, stack, ss, store, tr);
    case Cond(c, thn, els) =>
      var tr1 := Eval(m, c, store, tr).1;
      ExecSame(m, u, w, names, stack, thn, store, tr1);
      ExecSame(m, u, w, names, stack, els, store, tr1);
    case Switch(mc, c, cases, other) =>
      var (v, tr1) := Eval(m, c, store, tr);
      var j := Select(m, mc, Labels(cases), v);
      if j.Some? {
        var one := CaseOf(cases, j.value);
        ExecSame(m, u, w, names, stack, one.body, store, tr1);
      } else if other.Some? {
        ExecSame(m, u, w, names, stack, other.value, store, tr1);
      }
    case Inline(h) => InlineSame(m, u, w, names, stack, h, store, tr);
    case _ =>
  }

  lemma {:induction false} ExecAllSame(m: Machine, u: Unit, w: Unit, names: iset<string>, stack: seq<string>,
        ss: seq<Stmt>, store: Store, tr: Trace)
    requires Agreeing(u, w, names) && forall t, k | t in ss && k in Callees(t) :: k in names
    ensures ExecAll(m, u, stack, ss, store, tr) == ExecAll(m, w, stack, ss, store, tr)
    decreases u.Keys - Elems(stack), ss, 0
  {
    hide Agreeing, Exec;
    if ss != [] {
      ExecSame(m, u, w, names, stack, ss[0], store, tr);
      var o := Exec(m, u, stack, ss[0], store, tr);
      if o.Done? { ExecAllSame(m, u, w, names, stack, ss[1..], o.store, o.tr); }
    }
  }

  lemma {:induction false} InlineSame(m: Machine, u: Unit, w: Unit, names: iset<string>, stack: seq<string>, h: string,
        store: Store, tr: Trace)
    requires Agreeing(u, w, names) && h in names
    ensures Exec(m, u, stack, Inline(h), store, tr) == Exec(m, w, stack, Inline(h), store, tr)
    ensures Defined(u, h) && h !in stack ==>
              ExecHandler(m, u, stack, h, store, tr) == ExecHandler(m, w, stack, h, store, tr)
    decreases u.Keys - Elems(stack), Inline(h), 0
  {
    hide InitLocals;
    if h !in stack && Defined(u, h) {
      ElemsPush(stack, h);
      var (store1, tr1) := InitLocals(m, u[h].locals, store, tr);
      ExecSame(m, u, w, names, stack + [h], u[h].body.value, store1, tr1);
    }
  }

  /** An exported handler is lowered to the same blocks, and means the same, in the part of the
      unit it can reach. */
  lemma PartSuffices(m: Machine, u: Unit, h: string, g: Gen, tr: Trace)
    ensures LowerExported(m, u, h, g) == LowerExported(m, Part(u, h), h, g)
    ensures Meaning(m, u, h, tr) == Meaning(m, Part(u, h), h, tr)
  {
    hide LowerHandler, ExecHandler, Part, ChainTo;
    var w, names := Part(u, h), iset k | ChainTo(u, h, k);
    PartAgrees(u, h);
    LowerHandlerSame(m, u, w, names, [], h, g.(blocks := [[]], cur := 0));
    InlineSame(m, u, w, names, [], h, map[], tr);
  }
}
