/**
  The compiler as a whole: source handler, blocks, machine code.
 */
module FlowPipeline {
  import opened Wrappers
  import opened FlowCore
  import opened FlowAst
  import opened FlowIr
  import opened FlowLowering
  import opened FlowShape
  import opened FlowVm
  import opened FlowTarget
  import opened FlowRegisters
  import opened FlowTargetProof
  import opened FlowTargetSim
  import opened FlowLayout
  import opened FlowLayoutExpr
  import opened FlowLayoutStmt
  import opened FlowStmtProof
  import opened FlowCorrectness
  import opened FlowReach

  lemma SoundBlocks(g: Gen)
    requires Sound(g, {}) && |g.blocks| > 0
    ensures WellFormed(g.blocks) && Ordered(g.blocks)
    ensures forall b, i | 0 <= b < |g.blocks| && 0 <= i < |g.blocks[b]| ::
              SafeInstr(g.blocks[b][i]) && TargetsOk(|g.blocks|, b, g.blocks[b][i])
  {
    hide SafeInstr;
    var G := g.blocks;
    forall b | 0 <= b < |G| ensures WellFormedBlock(|G|, G[b]) {
      assert BlockOk(G, {}, b);
      assert InstrOk(G, b, |G[b]| - 1);
    }
    forall b, i | 0 <= b < |G| && 0 <= i < |G[b]|
      ensures OrderedAt(G, b, i) && SafeInstr(G[b][i]) && TargetsOk(|G|, b, G[b][i]) {
      assert BlockOk(G, {}, b) && InstrOk(G, b, i);
      if DefOf(G[b][i]).Some? {
        DefinedOnce(G, DefOf(G[b][i]).value, b, i);
      }
    }
  }

  lemma DefinedOnce(G: Cfg, v: Value, b: nat, i: nat)
    requires Unique(G) && DefinedAt(G, v, b, i)
    ensures !DefinedBefore(G, v, b, i)
  {
  }

  /** A block laid out behind a match instruction does not start at address 0. */
  lemma BehindMatch(g0: Tg, G: Cfg, b: nat, i: nat, t: nat)
    requires Start(g0) && Ordered(G) && b < |G| && i < |G[b]| && G[b][i].Match? && b < t < |G|
    ensures Entry(g0, G, t) != 0
  {
    hide Good, Ordered, GetReg;
    BeforeExtends(g0, G, b, i + 1, t, 0);
    var g := Before(g0, G, b, i);
    assert Before(g0, G, b, i + 1) == Visit(g, |G|, b, G[b][i]);
  }

  /** The invariant of the builder is what the code generator needs. */
  lemma SoundTranslatable(g0: Tg, g: Gen)
    requires Sound(g, {}) && |g.blocks| > 0 && Start(g0)
    ensures Translatable(g0, g.blocks)
  {
    hide SafeInstr, Ordered, WellFormed, Sound, Entry;
    SoundBlocks(g);
    var G := g.blocks;
    forall b, i | 0 <= b < |G| && 0 <= i < |G[b]| ensures SafeInstr(G[b][i]) && SafeMatch(g0, G, G[b][i]) {
      if G[b][i].Match? {
        forall k | 0 <= k < |G[b][i].targets| ensures Entry(g0, G, G[b][i].targets[k]) != 0 {
          BehindMatch(g0, G, b, i, G[b][i].targets[k]);
        }
      }
    }
  }

  /** Exported handlers of a compilable unit become blocks the code generator translates. */
  lemma ExportedTranslatable(m: Machine, u: Unit, h: string, g: Gen, g0: Tg)
    requires WellScoped(u) && CompilableUnit(m, u) && Fresh(g) && Start(g0)
    ensures Translatable(g0, LowerExported(m, u, h, g).blocks)
  {
    hide SafeInstr, WellScoped, CompilableUnit, LowerHandler, Translatable;
    var e := g.(blocks := [[]], cur := 0);
    assert Sound(e, {0});
    InlineSound(m, u, [], h, e, {0}, {});
    WellScopedOwns(u);
    LowerHandlerGrows(m, u, [], h, e);
    var r := LowerHandler(m, u, [], h, e);
    assert Reopen({0}, e, r) == {r.cur};
    SafeSimple(Ret(false));
    CloseSound(r, {r.cur}, Ret(false));
    assert {r.cur} - {r.cur} == {};
    SoundTranslatable(g0, Emit(r, Ret(false)));
  }

  lemma UnitPreservesMeaning(m: Machine, u: Unit, h: string, g: Gen, g0: Tg, tr: Trace, result: bool, tr': Trace)
    requires Lawful(m) && WellScoped(u) && FaithfulUnit(m, u) && CompilableUnit(m, u) && Fresh(g) && Start(g0)
    requires LowerExported(m, u, h, g).errors == []
    ensures VmReaches(m, Resolve(g0, LowerExported(m, u, h, g).blocks), Running(0, map[], tr), Stopped(result, tr'))
       <==> Meaning(m, u, h, tr) == Some(Halted(result, tr'))
  {
    hide Lawful, WellScoped, FaithfulUnit, CompilableUnit, LowerExported, Meaning, Reaches, VmReaches, Resolve,
        Translatable;
    var G := LowerExported(m, u, h, g).blocks;
    ExportedTranslatable(m, u, h, g, g0);
    LoweringPreservesMeaning(m, Alias, u, h, g, map[], tr);
    MeaningHalts(m, u, h, tr);
    CodeSimulatesBlocks(m, g0, G, tr, result, tr');
    var s := Meaning(m, u, h, tr).value;
    if Reaches(m, Alias, G, At(0, 0, map[], tr), Halted(result, tr')) {
      HaltedUnique(m, Alias, G, At(0, 0, map[], tr), s, Halted(result, tr'));
    }
  }

  /** What the compiler needs of a host and of the handlers that can be reached from h. */
  ghost predicate Compilable(m: Machine, u: Unit, h: string) {
    var w := Part(u, h);
    Lawful(m) && WellScoped(w) && FaithfulUnit(m, w) && CompilableUnit(m, w)
  }

  /** The compiler is correct: a handler that was lowered without errors, run by the machine from
      address 0, stops with a result and a sequence of builtin calls exactly if its source has
      that result and makes those calls. */
  lemma CompilerPreservesMeaning(m: Machine, u: Unit, h: string, g: Gen, g0: Tg, tr: Trace, result: bool, tr': Trace)
    requires Compilable(m, u, h) && Fresh(g) && Start(g0)
    requires LowerExported(m, u, h, g).errors == []
    ensures VmReaches(m, Resolve(g0, LowerExported(m, u, h, g).blocks), Running(0, map[], tr), Stopped(result, tr'))
       <==> Meaning(m, u, h, tr) == Some(Halted(result, tr'))
  {
    hide Lawful, WellScoped, FaithfulUnit, CompilableUnit, LowerExported, Meaning, VmReaches, Resolve, Part;
    PartSuffices(m, u, h, g, tr);
    UnitPreservesMeaning(m, Part(u, h), h, g, g0, tr, result, tr');
  }
}
