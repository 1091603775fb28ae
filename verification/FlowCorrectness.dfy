/**
  The front half of the compiler is correct: an exported handler of a unit that was lowered
  without errors behaves like its source, whichever way loads are read.
 */
module FlowCorrectness {
  import opened Wrappers
  import opened FlowCore
  import opened FlowAst
  import opened FlowIr
  import opened FlowLowering
  import opened FlowShape
  import opened FlowExprProof
  import opened FlowStmtProof

  /** The program the source denotes: it stops with true exactly if a builtin handler took over. */
  function Meaning(m: Machine, u: Unit, h: string, tr: Trace): Option<State> {
    if h !in u || u[h].body.None? then None else
      match ExecHandler(m, u, [], h, map[], tr)
      case Done(_, tr') => Some(Halted(false, tr'))
      case Exited(tr') => Some(Halted(true, tr'))
      case Stuck => None
  }

  /** A generator state from which an exported handler may be lowered. */
  predicate Fresh(g: Gen) {
    g.errors == [] && forall x | x in g.scope :: g.scope[x] < g.next
  }

  lemma ExportedRuns(m: Machine, mode: Mode, u: Unit, h: string, g: Gen, cells: Cells, tr: Trace)
      returns (before: State)
    requires Lawful(m) && WellScoped(u) && FaithfulUnit(m, u) && Fresh(g)
    requires LowerExported(m, u, h, g).errors == []
    ensures Meaning(m, u, h, tr).Some?
    ensures var G := LowerExported(m, u, h, g).blocks;
            Reaches(m, mode, G, At(0, 0, cells, tr), Meaning(m, u, h, tr).value)
    ensures var o := ExecHandler(m, u, [], h, map[], tr); var r := LowerExported(m, u, h, g);
            o.Done? ==> && before.At? && Reaches(m, mode, r.blocks, At(0, 0, cells, tr), before)
                        && Step(m, mode, r.blocks, before) == Halted(false, o.tr) && before.tr == o.tr
                        && Agree(LocalVars(u[h].locals), r.scope, before.cells, o.store)
  {
    hide Lower, LowerLocals, LowerExpr, Lawful, WellScoped, FaithfulUnit, Run, Reaches;
    var g0 := g.(blocks := [[]], cur := 0);
    assert WellScoped(u);
    WellScopedOwns(u);
    LowerHandlerGrows(m, u, [], h, g0);
    var g1 := LowerHandler(m, u, [], h, g0);
    var r := Emit(g1, Ret(false));
    var G := r.blocks;
    GrowsEmit(g1, g1, Ret(false));
    GrowsPrefixes(g1, r);
    assert Covers(g0, g1, G);
    var start := At(0, 0, cells, tr);
    var c1 := InlineRuns(m, mode, G, u, [], h, {}, g0, cells, map[], tr);
    var o := ExecHandler(m, u, [], h, map[], tr);
    before := start;
    if o.Done? {
      before := Here(g1, c1, o.tr);
      assert {} + LocalVars(u[h].locals) == LocalVars(u[h].locals);
      StepHere(m, mode, G, g1, Ret(false), c1, o.tr, start);
    }
  }

  /** Lowering preserves meaning: started in any state, the generated program stops with the
      result and the builtin calls of the source, and in the state before it stops of its own
      accord the handler's variables are in their cells as the source leaves them. */
  lemma LoweringPreservesMeaning(m: Machine, mode: Mode, u: Unit, h: string, g: Gen, cells: Cells, tr: Trace)
    requires Lawful(m) && WellScoped(u) && FaithfulUnit(m, u) && Fresh(g)
    requires LowerExported(m, u, h, g).errors == []
    ensures Meaning(m, u, h, tr).Some?
    ensures Reaches(m, mode, LowerExported(m, u, h, g).blocks, At(0, 0, cells, tr), Meaning(m, u, h, tr).value)
    ensures var o := ExecHandler(m, u, [], h, map[], tr); var r := LowerExported(m, u, h, g);
            o.Done? ==> exists b, i, c :: && Reaches(m, mode, r.blocks, At(0, 0, cells, tr), At(b, i, c, o.tr))
                                          && Step(m, mode, r.blocks, At(b, i, c, o.tr)) == Halted(false, o.tr)
                                          && Agree(LocalVars(u[h].locals), r.scope, c, o.store)
  {
    hide Step, LowerExported, Agree;
    var before := ExportedRuns(m, mode, u, h, g, cells, tr);
    if before.At? {
      assert before == At(before.b, before.i, before.cells, before.tr);
    }
  }

  lemma MeaningHalts(m: Machine, u: Unit, h: string, tr: Trace)
    requires Meaning(m, u, h, tr).Some?
    ensures Meaning(m, u, h, tr).value.Halted?
  {
  }
}
