/**
  Loads in generated code. Whichever way control takes, the variable of a load is not stored to
  between the load and a use of it. That is why the code generator may let a load stand for its
  variable, in every handler of every unit and on every host.
 */
module FlowLoads {
  import opened FlowCore
  import opened FlowAst
  import opened FlowIr
  import opened FlowLowering
  import opened FlowRegisters
  import opened FlowTidy
  import opened FlowTidyStmt

  // ---------------------------------------------------------------- ways through the blocks

  /** Control may go from position p to position q. */
  ghost predicate Follows(G: Cfg, p: (nat, nat), q: (nat, nat)) {
    && p.0 < |G| && p.1 < |G[p.0]|
    && (if IsTerminator(G[p.0][p.1]) then q.1 == 0 && q.0 in Targets(G[p.0][p.1]) else q == (p.0, p.1 + 1))
  }

  /** A way from the entry of the handler. */
  ghost predicate Way(G: Cfg, p: seq<(nat, nat)>) {
    |p| > 0 && p[0] == (0, 0) && forall k | 0 <= k < |p| - 1 :: Follows(G, p[k], p[k + 1])
  }

  /** Runs take such ways. */
  lemma StepFollows(m: Machine, mode: Mode, G: Cfg, s: State)
    requires s.At? && s.b < |G| && s.i < |G[s.b]| && Step(m, mode, G, s).At?
    ensures var t := Step(m, mode, G, s); Follows(G, (s.b, s.i), (t.b, t.i))
  {
    var i := G[s.b][s.i];
    if i.Match? {
      var k := Select(m, i.mc, i.labels, Den(mode, i.v, s.cells));
      assert i.other in Targets(i);
      if k.Some? && k.value < |i.targets| { assert i.targets[k.value] in Targets(i); }
    }
  }

  ghost predicate LoadsAt(G: Cfg, p: (nat, nat), v: Value)
    requires v.Loaded?
  {
    p.0 < |G| && p.1 < |G[p.0]| && G[p.0][p.1] == Load(v.id, v.x)
  }

  ghost predicate StoresAt(G: Cfg, p: (nat, nat), x: nat) {
    p.0 < |G| && p.1 < |G[p.0]| && G[p.0][p.1].Store? && G[p.0][p.1].x == x
  }

  /** On the way p, v was loaded and its variable not stored to since. */
  ghost predicate LoadedOn(G: Cfg, p: seq<(nat, nat)>, v: Value)
    requires v.Loaded?
  {
    exists k | 0 <= k < |p| - 1 :: LoadsAt(G, p[k], v) && forall j | k < j < |p| - 1 :: !StoresAt(G, p[j], v.x)
  }

  lemma CurrentNext(now: set<Value>, block: Block, i: nat)
    requires i < |block|
    ensures Current(now, block[..i + 1]) == After(Current(now, block[..i]), block[i])
  {
    assert block[..i + 1] == block[..i] + [block[i]];
    CurrentAppend(now, block[..i], block[i]);
  }

  lemma LoadedOnMore(G: Cfg, p: seq<(nat, nat)>, v: Value)
    requires v.Loaded? && |p| > 1 && LoadedOn(G, p[..|p| - 1], v) && !StoresAt(G, p[|p| - 2], v.x)
    ensures LoadedOn(G, p, v)
  {
    var q := p[..|p| - 1];
    var k :| 0 <= k < |q| - 1 && LoadsAt(G, q[k], v) && forall j | k < j < |q| - 1 :: !StoresAt(G, q[j], v.x);
    assert LoadsAt(G, p[k], v);
    forall j | k < j < |p| - 1 ensures !StoresAt(G, p[j], v.x) {
      if j < |q| - 1 { assert !StoresAt(G, q[j], v.x); }
    }
  }

  /** What is tracked as up to date has been loaded on every way, and not been stored to since. */
  lemma {:induction false} TrackedLoaded(G: Cfg, entry: seq<set<Value>>, p: seq<(nat, nat)>, v: Value)
    requires Tracked(G, entry) && |entry| > 0 && entry[0] == {} && Way(G, p) && v.Loaded?
    requires var (b, i) := p[|p| - 1]; b < |G| && i <= |G[b]| && v in Current(entry[b], G[b][..i])
    ensures LoadedOn(G, p, v)
    decreases |p|
  {
    hide Current, LoadedOn, InstrTracked;
    if |p| == 1 {
      assert G[0][..0] == [];
      EmptyTracked(entry, {});
      assert false;
    } else {
      var q := p[..|p| - 1];
      var (b, i) := q[|q| - 1];
      assert Follows(G, p[|p| - 2], p[|p| - 1]);
      assert Way(G, q) by { forall k | 0 <= k < |q| - 1
        ensures Follows(G, q[k], q[k + 1]) { assert Follows(G, p[k], p[k + 1]); } }
      assert InstrTracked(entry, Current(entry[b], G[b][..i]), G[b][i]) by { assert BlockTracked(entry, entry[b], G[b]);
             }
      LoadedBack(G, entry, b, i, p[|p| - 1], v);
      if G[b][i] == Load(v.id, v.x) {
        assert LoadsAt(G, p[|p| - 2], v);
        LoadedLast(G, p, v);
      } else {
        TrackedLoaded(G, entry, q, v);
        LoadedOnMore(G, p, v);
      }
    }
  }

  lemma LoadedLast(G: Cfg, p: seq<(nat, nat)>, v: Value)
    requires v.Loaded? && |p| > 1 && LoadsAt(G, p[|p| - 2], v)
    ensures LoadedOn(G, p, v)
  {
  }

  /** One step back: v was loaded just now, or was up to date before. */
  lemma LoadedBack(G: Cfg, entry: seq<set<Value>>, b: nat, i: nat, q: (nat, nat), v: Value)
    requires |entry| == |G| && v.Loaded? && Follows(G, (b, i), q)
    requires InstrTracked(entry, Current(entry[b], G[b][..i]), G[b][i])
    requires q.0 < |G| && q.1 <= |G[q.0]| && v in Current(entry[q.0], G[q.0][..q.1])
    ensures G[b][i] == Load(v.id, v.x) || (v in Current(entry[b], G[b][..i]) && !StoresAt(G, (b, i), v.x))
  {
    hide Current;
    if IsTerminator(G[b][i]) {
      assert G[q.0][..0] == [];
      EmptyTracked(entry, entry[q.0]);
    } else {
      CurrentNext(entry[b], G[b], i);
    }
  }

  /** In generated code every use of a load is reached only through that load, and on no way is
      its variable stored to in between. */
  lemma NoStoreBetween(m: Machine, u: Unit, h: string, g: Gen, p: seq<(nat, nat)>, v: Value)
    requires forall x | x in g.scope :: g.scope[x] < g.next
    requires var G := LowerExported(m, u, h, g).blocks;
             Way(G, p) && v.Loaded? && var (b, i) := p[|p| - 1]; b < |G| && i < |G[b]| && v in Operands(G[b][i])
    ensures LoadedOn(LowerExported(m, u, h, g).blocks, p, v)
  {
    hide LowerExported, Current, Neat, LoadedOn;
    var entry := ExportedTidy(m, u, h, g);
    var G := LowerExported(m, u, h, g).blocks;
    var (b, i) := p[|p| - 1];
    assert BlockTracked(entry, entry[b], G[b]);
    assert InstrTracked(entry, Current(entry[b], G[b][..i]), G[b][i]);
    TrackedLoaded(G, entry, p, v);
  }

  // ---------------------------------------------------------------- the two readings

  /** All but the copies made by loads. */
  ghost predicate SameVars(c: Cells, a: Cells) {
    forall v: Value | !v.K? && !v.Loaded? :: Get(c, v) == Get(a, v)
  }

  /** Two runs are at the same place, have made the same calls and agree on all but the copies. */
  ghost predicate Alike(s: State, t: State) {
    match s
    case Halted(_, _) => t == s
    case At(b, i, cells, tr) => t.At? && t.b == b && t.i == i && t.tr == tr && SameVars(cells, t.cells)
  }

  ghost predicate UpToDate(G: Cfg, entry: seq<set<Value>>, s: State)
    requires |entry| == |G|
  {
    s.At? && s.b < |G| && s.i <= |G[s.b]| ==>
      forall v | v in Current(entry[s.b], G[s.b][..s.i]) && v.Loaded? :: Get(s.cells, v) == Get(s.cells, Cell(v.x))
  }

  lemma DenAlike(c: Cells, a: Cells, v: Value)
    requires SameVars(c, a) && (v.Loaded? ==> Get(c, v) == Get(c, Cell(v.x)))
    ensures Den(Copy, v, c) == Den(Alias, v, a)
  {
  }

  lemma DenAllAlike(c: Cells, a: Cells, vs: seq<Value>)
    requires SameVars(c, a) && forall v | v in vs && v.Loaded? :: Get(c, v) == Get(c, Cell(v.x))
    ensures DenAll(Copy, vs, c) == DenAll(Alias, vs, a)
  {
    hide Den;
    forall i | 0 <= i < |vs| ensures Den(Copy, vs[i], c) == Den(Alias, vs[i], a) { DenAlike(c, a, vs[i]); }
  }

  /** Under both readings the operands of the next instruction have the same values. */
  lemma OperandsAlike(G: Cfg, entry: seq<set<Value>>, s: State, t: State)
    requires Tracked(G, entry) && s.At? && Alike(s, t) && UpToDate(G, entry, s) && s.b < |G| && s.i < |G[s.b]|
    ensures forall v | v in Operands(G[s.b][s.i]) :: Den(Copy, v, s.cells) == Den(Alias, v, t.cells)
    ensures var i := G[s.b][s.i];
            i.CallFn? || i.CallHn? ==> DenAll(Copy, i.args, s.cells) == DenAll(Alias, i.args, t.cells)
  {
    hide Current, Den;
    var i := G[s.b][s.i];
    assert BlockTracked(entry, entry[s.b], G[s.b]);
    assert InstrTracked(entry, Current(entry[s.b], G[s.b][..s.i]), i);
    forall v | v in Operands(i) ensures Den(Copy, v, s.cells) == Den(Alias, v, t.cells) { DenAlike(s.cells, t.cells, v);
        }
    if i.CallFn? || i.CallHn? { DenAllAlike(s.cells, t.cells, i.args); }
  }

  lemma StepAlike(m: Machine, G: Cfg, entry: seq<set<Value>>, s: State, t: State)
    requires Tracked(G, entry) && Alike(s, t) && UpToDate(G, entry, s)
    ensures Alike(Step(m, Copy, G, s), Step(m, Alias, G, t))
  {
    hide Current, Den, DenAll, Select;
    if s.At? && s.b < |G| && s.i < |G[s.b]| {
      OperandsAlike(G, entry, s, t);
      var i := G[s.b][s.i];
      if i.Store? { assert i.v in Operands(i); }
      if i.Un? || i.CondBr? || i.Match? { assert i.v in Operands(i); }
      if i.Bin? { assert i.a in Operands(i) && i.b in Operands(i); }
    }
  }

  lemma StepUpToDate(m: Machine, G: Cfg, entry: seq<set<Value>>, s: State)
    requires Tracked(G, entry) && UpToDate(G, entry, s)
    ensures UpToDate(G, entry, Step(m, Copy, G, s))
  {
    hide Current, Den, DenAll, InstrTracked;
    var t := Step(m, Copy, G, s);
    if s.At? && s.b < |G| && s.i < |G[s.b]| && t.At? {
      var i := G[s.b][s.i];
      assert BlockTracked(entry, entry[s.b], G[s.b]);
      assert InstrTracked(entry, Current(entry[s.b], G[s.b][..s.i]), i);
      StepFollows(m, Copy, G, s);
      if t.b < |G| && t.i <= |G[t.b]| {
        forall v | v in Current(entry[t.b], G[t.b][..t.i]) && v.Loaded?
          ensures Get(t.cells, v) == Get(t.cells, Cell(v.x)) {
          LoadedBack(G, entry, s.b, s.i, (t.b, t.i), v);
        }
      }
    }
  }

  lemma {:induction false} RunAlike(m: Machine, G: Cfg, entry: seq<set<Value>>, s: State, t: State, n: nat)
    requires Tracked(G, entry) && Alike(s, t) && UpToDate(G, entry, s)
    ensures Alike(Run(m, Copy, G, s, n), Run(m, Alias, G, t, n))
    decreases n
  {
    hide Step, Tracked, Alike, UpToDate;
    if n > 0 {
      TrackedSize(G, entry);
      StepAlike(m, G, entry, s, t);
      StepUpToDate(m, G, entry, s);
      RunAlike(m, G, entry, Step(m, Copy, G, s), Step(m, Alias, G, t), n - 1);
    }
  }

  /** For generated code it makes no difference whether a load copies its variable or merely
      stands for it: step by step both readings are at the same place, make the same calls and
      agree on all variables and results, and they stop the same way. */
  lemma LoadsMayAlias(m: Machine, u: Unit, h: string, g: Gen, cells: Cells, tr: Trace, n: nat, t: State)
    requires (forall x | x in g.scope :: g.scope[x] < g.next) && t.Halted?
    ensures var G, s := LowerExported(m, u, h, g).blocks, At(0, 0, cells, tr);
            && Alike(Run(m, Copy, G, s, n), Run(m, Alias, G, s, n))
            && (Reaches(m, Copy, G, s, t) <==> Reaches(m, Alias, G, s, t))
  {
    hide LowerExported, Run, Neat;
    var entry := ExportedTidy(m, u, h, g);
    var G, s := LowerExported(m, u, h, g).blocks, At(0, 0, cells, tr);
    assert UpToDate(G, entry, s) by { assert G[0][..0] == []; EmptyTracked(entry, {}); }
    RunAlike(m, G, entry, s, s, n);
    if Reaches(m, Copy, G, s, t) {
      var k: nat :| Run(m, Copy, G, s, k) == t;
      RunAlike(m, G, entry, s, s, k);
    }
    if Reaches(m, Alias, G, s, t) {
      var k: nat :| Run(m, Alias, G, s, k) == t;
      RunAlike(m, G, entry, s, s, k);
    }
  }
}
