/**
  Lowering statements and handlers keeps the builder tidy, whatever the unit is like and whether
  or not it was lowered without errors.
 */
module FlowTidyStmt {
  import opened FlowCore
  import opened FlowAst
  import opened FlowIr
  import opened FlowLowering
  import opened FlowShape
  import opened FlowLayout
  import opened FlowTidy
  import opened FlowTidyExpr
  import S = FlowStmtProof

  /** Between statements: the builder is tidy, and nothing is taken back that was said of older blocks. */
  ghost predicate Tidied(entry: seq<set<Value>>, r: Gen, entry': seq<set<Value>>) {
    Tidy(r, entry') && entry <= entry'
  }

  lemma {:induction false} StmtTidy(m: Machine, u: Unit, stack: seq<string>, s: Stmt, g: Gen, entry: seq<set<Value>>)
      returns (entry': seq<set<Value>>)
    requires Tidy(g, entry)
    ensures Tidied(entry, Lower(m, u, stack, s, g), entry')
    decreases u.Keys - Elems(stack), s, 2
  {
    hide Tidy, LowerExpr;
    match s
    case Expression(e) =>
      entry' := ExprTidy(m, e, g, entry);
      KeepsTidy(g, entry, LowerExpr(m, e, g).0, entry');
    case Assign(x, e) => entry' := AssignTidy(m, x, e, g, entry);
    case Compound(ss) => entry' := AllTidy(m, u, stack, ss, g, entry);
    case Cond(_, _, _) => entry' := CondTidy(m, u, stack, s, g, entry);
    case Switch(_, _, _, _) => entry' := SwitchTidy(m, u, stack, s, g, entry);
    case Invoke(f, args) =>
      var vs: seq<Value>;
      entry', vs := ArgsTidy(m, args, g, entry);
      var g1 := LowerArgs(m, args, g).0;
      ThenDefine(g, entry, g1, entry', CallHn(g1.next, f, vs), Temp(g1.next));
      KeepsTidy(g, entry, EmitNew(g1, CallHn(g1.next, f, vs)), entry');
    case Inline(h) => entry' := InlineTidy(m, u, stack, h, g, entry);
  }

  /** A store of a usable value. */
  lemma StoreTidy(g: Gen, entry: seq<set<Value>>, cell: nat, v: Value)
    requires Tidy(g, entry) && Usable(g, entry, v) && NotLate(g.blocks, Cell(cell)) && IdBelow(Cell(cell), g.next)
    ensures Tidy(Emit(g, Store(cell, v)), entry)
  {
    hide Neat, Tracking, Appendable, InstrTracked, Usable;
    StoreAppendable(g, entry, cell, v);
    EmitTidy(g, entry, Store(cell, v), g.next);
  }

  lemma AssignTidy(m: Machine, x: Var, e: Expr, g: Gen, entry: seq<set<Value>>) returns (entry': seq<set<Value>>)
    requires Tidy(g, entry)
    ensures var (g1, v) := LowerExpr(m, e, g); Tidied(entry, Emit(g1, Store(Lookup(g, x), v)), entry')
  {
    hide Neat, Tracking, LowerExpr, Usable, NotLate;
    entry' := ExprTidy(m, e, g, entry);
    LowerExprGrows(m, e, g);
    var (g1, v) := LowerExpr(m, e, g);
    VarNotLate(g1, x);
    StoreTidy(g1, entry', Lookup(g, x), v);
  }

  lemma {:induction false} AllTidy(m: Machine, u: Unit, stack: seq<string>, ss: seq<Stmt>, g: Gen,
        entry: seq<set<Value>>) returns (entry': seq<set<Value>>)
    requires Tidy(g, entry)
    ensures Tidied(entry, LowerAll(m, u, stack, ss, g), entry')
    decreases u.Keys - Elems(stack), ss, 0
  {
    hide Tidy, Lower;
    entry' := entry;
    if ss != [] {
      entry' := StmtTidy(m, u, stack, ss[0], g, entry);
      entry' := AllTidy(m, u, stack, ss[1..], Lower(m, u, stack, ss[0], g), entry');
    }
  }

  // ---------------------------------------------------------------- handlers

  lemma ScopeTidy(g: Gen, entry: seq<set<Value>>, x: Var, cell: nat)
    requires Tidy(g, entry) && cell < g.next && NotLate(g.blocks, Cell(cell))
    ensures Tidy(g.(scope := g.scope[x := cell]), entry)
  {
    hide Tracked;
    var r := g.(scope := g.scope[x := cell]);
    forall b: nat, i: nat | Late(r.blocks, b, i) ensures Quiet(r, r.blocks[b][i].v, b, i) {
      assert Quiet(g, g.blocks[b][i].v, b, i);
      assert forall y :: Lookup(r, y) == Lookup(g, y) || Lookup(r, y) == cell;
    }
  }

  lemma LocalTidy(m: Machine, l: Local, g: Gen, entry: seq<set<Value>>) returns (entry': seq<set<Value>>)
    requires Tidy(g, entry)
    ensures Tidied(entry, S.LowerLocal(m, l, g), entry')
  {
    hide Tidy, LowerExpr, Usable, NotLate, Grows;
    entry' := ExprTidy(m, l.init, g, entry);
    var (g1, v) := LowerExpr(m, l.init, g);
    var x := Alloca(g1.next);
    AllocaTidy(g1, entry');
    var g2 := EmitNew(g1, x);
    UsableKept(g1, entry', g2, entry', v);
    KeepsTidy(g1, entry', g2, entry');
    UsableLoad(g2, entry', Cell(g1.next));
    ScopeTidy(g2, entry', l.x, g1.next);
    var g3 := g2.(scope := g2.scope[l.x := g1.next]);
    UsableScope(g2, g3, entry', v);
    StoreTidy(g3, entry', g1.next, v);
  }

  lemma AllocaTidy(g: Gen, entry: seq<set<Value>>)
    requires Tidy(g, entry)
    ensures ExprTidied(g, entry, (EmitNew(g, Alloca(g.next)), Cell(g.next)), entry)
  {
    hide Neat, Tracking, Current;
    TidySize(g, entry);
    NoOperands(entry, Now(g, entry), Alloca(g.next));
    DefineTidy(g, entry, Alloca(g.next), Cell(g.next));
  }

  lemma UsableScope(g: Gen, r: Gen, entry: seq<set<Value>>, v: Value)
    requires g.Valid() && r.Valid() && |g.blocks| == |entry| && r.blocks == g.blocks && r.cur == g.cur
             && r.next == g.next
    requires Usable(g, entry, v)
    ensures Usable(r, entry, v)
  {
  }

  lemma {:induction false} LocalsTidy(m: Machine, locals: seq<Local>, g: Gen, entry: seq<set<Value>>)
      returns (entry': seq<set<Value>>)
    requires Tidy(g, entry)
    ensures Tidied(entry, LowerLocals(m, locals, g), entry')
  {
    hide Tidy, LowerExpr;
    entry' := entry;
    if locals != [] {
      entry' := LocalTidy(m, locals[0], g, entry);
      var g1 := S.LowerLocal(m, locals[0], g);
      entry' := LocalsTidy(m, locals[1..], g1, entry');
      assert LowerLocals(m, locals, g) == LowerLocals(m, locals[1..], g1);
    }
  }

  lemma FailTidy(g: Gen, entry: seq<set<Value>>, p: Problem)
    requires Tidy(g, entry)
    ensures Tidy(Fail(g, p), entry)
  {
    hide Neat, Tracked;
    SaidSelf(g.blocks);
    SaidNeat(g, Fail(g, p));
  }

  lemma {:induction false} InlineTidy(m: Machine, u: Unit, stack: seq<string>, h: string, g: Gen,
        entry: seq<set<Value>>) returns (entry': seq<set<Value>>)
    requires Tidy(g, entry)
    ensures Tidied(entry, LowerHandler(m, u, stack, h, g), entry')
    decreases u.Keys - Elems(stack), Inline(h), 0
  {
    hide Tidy, Lower, LowerLocals;
    entry' := entry;
    if h in stack {
      FailTidy(g, entry, Recursive(h));
    } else if h !in u {
      FailTidy(g, entry, Missing(h));
    } else {
      entry' := LocalsTidy(m, u[h].locals, g, entry);
      var g1 := LowerLocals(m, u[h].locals, g);
      if u[h].body.None? {
        FailTidy(g1, entry', Missing(h));
      } else {
        ElemsPush(stack, h);
        entry' := StmtTidy(m, u, stack + [h], u[h].body.value, g1, entry');
      }
    }
  }

  // ---------------------------------------------------------------- conditionals

  /** New blocks that count on no load at all. */
  lemma FreshTidy(g: Gen, entry: seq<set<Value>>, n: nat) returns (entry': seq<set<Value>>)
    requires Tidy(g, entry)
    ensures Tidied(entry, NewBlocks(g, n), entry') && |entry'| == |g.blocks| + n == |entry| + n
    ensures forall b | |g.blocks| <= b < |entry'| :: entry'[b] == {}
  {
    hide Neat, Tracking;
    var sets: seq<set<Value>> := seq(n, _ => {});
    TidySize(g, entry);
    NewTidy(g, entry, sets);
    entry' := entry + sets;
  }

  /** A branch on value v, or a match that knows no cases yet. */
  lemma SplitTidy(g: Gen, entry: seq<set<Value>>, x: Instr, v: Value)
    requires Tidy(g, entry) && Usable(g, entry, v) && (x.CondBr? || x.Match?) && x.v == v
    requires forall t | t in Targets(x) :: t < |entry| && entry[t] == {}
    ensures Tidy(Emit(g, x), entry)
  {
    hide Neat, Tracking, Usable;
    UsableOperands(g, entry, x, g.next);
    EmitTidy(g, entry, x, g.next);
  }

  /** A statement in a block of its own that goes on to block t. */
  lemma {:induction false} ArmTidy(m: Machine, u: Unit, stack: seq<string>, s: Stmt, t: nat, g: Gen,
        entry: seq<set<Value>>) returns (entry': seq<set<Value>>)
    requires Tidy(g, entry) && t < |entry| && entry[t] == {}
    ensures Tidied(entry, Emit(Lower(m, u, stack, s, g), Br(t)), entry')
    decreases u.Keys - Elems(stack), s, 3
  {
    hide Tidy, Lower, Now;
    entry' := StmtTidy(m, u, stack, s, g, entry);
    var r := Lower(m, u, stack, s, g);
    TidySize(r, entry');
    BrTidy(r, entry', t);
  }

  lemma CondHeadTidy(m: Machine, c: Expr, g: Gen, entry: seq<set<Value>>) returns (entry': seq<set<Value>>)
    requires Tidy(g, entry)
    ensures Tidied(entry, CondHead(m, c, g), entry') && |entry| == |g.blocks| && |g.blocks| + 3 <= |entry'|
    ensures entry'[|g.blocks| + 1] == entry'[|g.blocks| + 2] == {}
  {
    hide Tidy, LowerExpr, Usable;
    var n, g0 := |g.blocks|, NewBlocks(g, 3);
    var e0 := FreshTidy(g, entry, 3);
    entry' := ExprTidy(m, c, g0, e0);
    var (g1, v) := LowerExpr(m, c, g0);
    KeepsTidy(g0, e0, g1, entry');
    assert forall b | n <= b < n + 3 :: entry'[b] == e0[b];
    var x := CondBr(v, n, n + 1);
    SplitTidy(g1, entry', x, v);
    TidySize(g1, entry');
    MoveTidy(Emit(g1, x), entry', n);
  }

  lemma {:induction false} CondTidy(m: Machine, u: Unit, stack: seq<string>, s: Stmt, g: Gen, entry: seq<set<Value>>)
      returns (entry': seq<set<Value>>)
    requires Tidy(g, entry) && s.Cond?
    ensures Tidied(entry, Lower(m, u, stack, s, g), entry')
    decreases u.Keys - Elems(stack), s, 1
  {
    hide Tidy, CondHead;
    var n := |g.blocks|;
    var e1 := CondHeadTidy(m, s.c, g, entry);
    var h1 := CondHead(m, s.c, g);
    var e2 := ArmTidy(m, u, stack, s.thn, n + 2, h1, e1);
    var r1 := Emit(Lower(m, u, stack, s.thn, h1), Br(n + 2));
    TidySize(r1, e2);
    MoveTidy(r1, e2, n + 1);
    var h2 := MoveTo(r1, n + 1);
    entry' := ArmTidy(m, u, stack, s.els, n + 2, h2, e2);
    var r2 := Emit(Lower(m, u, stack, s.els, h2), Br(n + 2));
    TidySize(r2, entry');
    MoveTidy(r2, entry', n + 2);
  }

  // ---------------------------------------------------------------- match

  lemma AddCasesTidy(g: Gen, entry: seq<set<Value>>, o: nat, k: nat, labels: seq<Label>, b: nat)
    requires Tidy(g, entry) && b < |entry| && entry[b] == {}
    ensures Tidy(AddCases(g, o, k, labels, b), entry)
  {
    hide Tidy;
    var i := MatchAt(g, o, k);
    if i.Match? {
      PatchTidy(g, entry, o, k, i.(labels := i.labels + labels, targets := i.targets + seq(|labels|, _ => b)));
    }
  }

  lemma SetElseTidy(g: Gen, entry: seq<set<Value>>, o: nat, k: nat, b: nat)
    requires Tidy(g, entry) && b < |entry| && entry[b] == {}
    ensures Tidy(SetElse(g, o, k, b), entry)
  {
    hide Tidy;
    var i := MatchAt(g, o, k);
    if i.Match? {
      PatchTidy(g, entry, o, k, i.(other := b));
    }
  }

  /** The block of one case, or of the `else` part. */
  lemma {:induction false} CaseTidy(m: Machine, u: Unit, stack: seq<string>, s: Stmt, cont: nat, g: Gen,
        entry: seq<set<Value>>) returns (entry': seq<set<Value>>)
    requires Tidy(g, entry) && cont < |entry| && entry[cont] == {}
    ensures Tidied(entry, Emit(Lower(m, u, stack, s, S.CaseStart(g)), Br(cont)), entry')
    ensures |g.blocks| < |entry'| && entry'[|g.blocks|] == {}
    decreases u.Keys - Elems(stack), s, 4
  {
    hide Tidy, Lower;
    var n := |g.blocks|;
    var e1 := FreshTidy(g, entry, 1);
    MoveTidy(NewBlocks(g, 1), e1, n);
    entry' := ArmTidy(m, u, stack, s, cont, S.CaseStart(g), e1);
    assert entry'[n] == e1[n];
  }

  lemma {:induction false} CasesTidy(m: Machine, u: Unit, stack: seq<string>, cases: seq<Case>, cont: nat, o: nat,
        k: nat, g: Gen, entry: seq<set<Value>>) returns (entry': seq<set<Value>>)
    requires Tidy(g, entry) && cont < |entry| && entry[cont] == {}
    ensures Tidied(entry, LowerCases(m, u, stack, cases, cont, o, k, g), entry')
    decreases u.Keys - Elems(stack), cases, 0
  {
    hide Tidy, Lower, AddCases;
    entry' := entry;
    if cases != [] {
      var one := cases[0];
      entry' := CaseTidy(m, u, stack, one.body, cont, g, entry);
      var h := Emit(Lower(m, u, stack, one.body, S.CaseStart(g)), Br(cont));
      AddCasesTidy(h, entry', o, k, one.labels, |g.blocks|);
      entry' := CasesTidy(m, u, stack, cases[1..], cont, o, k, AddCases(h, o, k, one.labels, |g.blocks|), entry');
    }
  }

  lemma SwitchHeadTidy(m: Machine, s: Stmt, g: Gen, entry: seq<set<Value>>) returns (entry': seq<set<Value>>)
    requires Tidy(g, entry) && s.Switch?
    ensures var cont := |LowerExpr(m, s.c, g).0.blocks|;
            Tidied(entry, S.SwitchHead(m, s, g), entry') && cont < |entry'| && entry'[cont] == {}
  {
    hide Tidy, LowerExpr;
    var e1 := ExprTidy(m, s.c, g, entry);
    var (g1, v) := LowerExpr(m, s.c, g);
    KeepsTidy(g, entry, g1, e1);
    entry' := FreshTidy(g1, e1, 1);
    var g2 := NewBlocks(g1, 1);
    GrowsNew(g1, g1, 1);
    NewUsable(g1, e1, g2, entry', v);
    SplitTidy(g2, entry', Match(s.mc, v, [], [], |g1.blocks|), v);
  }

  lemma NewUsable(g: Gen, e: seq<set<Value>>, r: Gen, e': seq<set<Value>>, v: Value)
    requires Tidy(g, e) && Tidy(r, e') && r == NewBlocks(g, 1) && e <= e' && Usable(g, e, v) && Grows(g, r)
    ensures Usable(r, e', v)
  {
    hide Neat, Tracking, Grows;
    TidySize(g, e);
    if !v.K? {
      AvailKept(g, r, v);
      assert NotLate(r.blocks, v) by { NewSaid(g, 1); assert Neat(g); SaidNeat(g, r); }
    }
  }

  lemma {:induction false} LastTidy(m: Machine, u: Unit, stack: seq<string>, s: Stmt, cont: nat, o: nat, k: nat, g: Gen,
        entry: seq<set<Value>>) returns (entry': seq<set<Value>>)
    requires Tidy(g, entry) && s.Switch? && cont < |entry| && entry[cont] == {}
    ensures Tidied(entry, S.SwitchLast(m, u, stack, s.other, cont, o, k, g), entry')
    decreases u.Keys - Elems(stack), s, 0
  {
    hide Tidy, Lower, SetElse;
    match s.other
    case Some(t) =>
      entry' := CaseTidy(m, u, stack, t, cont, g, entry);
      var h := Emit(Lower(m, u, stack, t, S.CaseStart(g)), Br(cont));
      SetElseTidy(h, entry', o, k, |g.blocks|);
      TidySize(SetElse(h, o, k, |g.blocks|), entry');
      MoveTidy(SetElse(h, o, k, |g.blocks|), entry', cont);
    case None =>
      entry' := entry;
      SetElseTidy(g, entry, o, k, cont);
      TidySize(SetElse(g, o, k, cont), entry);
      MoveTidy(SetElse(g, o, k, cont), entry, cont);
  }

  lemma {:induction false} SwitchTidy(m: Machine, u: Unit, stack: seq<string>, s: Stmt, g: Gen, entry: seq<set<Value>>)
      returns (entry': seq<set<Value>>)
    requires Tidy(g, entry) && s.Switch?
    ensures Tidied(entry, Lower(m, u, stack, s, g), entry')
    decreases u.Keys - Elems(stack), s, 1
  {
    hide Tidy, LowerExpr, LowerCases, Lower, S.SwitchHead, S.SwitchLast;
    TidySize(g, entry);
    S.SwitchParts(m, u, stack, s, g);
    var g1 := LowerExpr(m, s.c, g).0;
    var o, cont := g1.cur, |g1.blocks|;
    var k := |g1.blocks[o]|;
    var e1 := SwitchHeadTidy(m, s, g, entry);
    var g2 := S.SwitchHead(m, s, g);
    var e2 := CasesTidy(m, u, stack, s.cases, cont, o, k, g2, e1);
    assert e2[cont] == e1[cont];
    var g3 := LowerCases(m, u, stack, s.cases, cont, o, k, g2);
    entry' := LastTidy(m, u, stack, s, cont, o, k, g3, e2);
  }

  // ---------------------------------------------------------------- whole handlers

  lemma EntryTidy(g: Gen)
    requires g.Valid() && g.blocks == [[]]
    ensures Tidy(g, [{}])
  {
  }

  /** The blocks of every exported handler are tidy. */
  lemma ExportedTidy(m: Machine, u: Unit, h: string, g: Gen) returns (entry: seq<set<Value>>)
    requires forall x | x in g.scope :: g.scope[x] < g.next
    ensures Tidied([{}], LowerExported(m, u, h, g), entry)
  {
    hide Tidy, LowerHandler;
    var e := g.(blocks := [[]], cur := 0);
    EntryTidy(e);
    entry := InlineTidy(m, u, [], h, e, [{}]);
    var r := LowerHandler(m, u, [], h, e);
    RetTidy(r, entry);
  }

  lemma RetTidy(g: Gen, entry: seq<set<Value>>)
    requires Tidy(g, entry)
    ensures Tidy(Emit(g, Ret(false)), entry)
  {
    hide Neat, Tracking;
    EmitTidy(g, entry, Ret(false), g.next);
  }
}
