/** Where the capacity bound and the reservation stop: calls on a new shaper that go past them. */
module ShaperLimits {
  import opened ShaperTree
  import opened ShaperTokens
  import opened ShaperRates
  import opened ShaperReserve
  import opened ShaperRuns
  import opened ShaperOverflow

  function Named(name: string, rate: nat, p: real, parent: nat, children: seq<nat>, load: nat): Bucket {
    Bucket(name, rate, 10, p, 1.0, parent, children, load, [], 0, 0, QUEUE_TIMEOUT, 0)
  }

  lemma SumTwo(a: nat, b: nat)
    ensures Sum([a]) == a && Sum([a, b]) == a + b && Sum([]) == 0
  {
    assert [a, b][1..] == [b] && [b][1..] == [] && [a][1..] == [];
    assert Sum([b]) == b + Sum([]);
  }

  // ---------------------------------------------------------------- single calls

  lemma Added(s: State, i: nat, name: string, p: real, q: real, t: Tree) returns (s': State)
    requires Consistent(s) && i < |s.tree| && Create(s.tree, i, name, p, q) == (t, Success)
    ensures Consistent(s') && s'.tree == t && Runs(s, [Add(i, name, p, q)], s')
  {
    hide Consistent, Create;
    RunsOne(s, Add(i, name, p, q));
    s' := Step(s, Add(i, name, p, q)).value;
  }

  lemma Taken(s: State, i: nat, n: nat, t: Tree) returns (s': State)
    requires Consistent(s) && i < |s.tree| && Get(s.tree, i, n) == (t, n)
    ensures Consistent(s') && s'.tree == t && Runs(s, [Take(i, n)], s')
  {
    hide Consistent, Get;
    RunsOne(s, Take(i, n));
    s' := Step(s, Take(i, n)).value;
  }

  /** A new child of bucket i, under a name that is not taken. */
  lemma Creates(t: Tree, i: nat, name: string, p: real, rate: nat, kids: seq<nat>)
    requires Shaped(t) && i < |t| && 0.0 <= p <= 1.0 && ChildRateP(t, i) + p <= 1.0
    requires forall j | 0 < j < |t| :: t[j].name != name
    requires kids == t[i].children + [|t|] && t[i].ceil == 10 && rate == Portion(t[i].rate, p)
    ensures Create(t, i, name, p, 1.0) == (t[i := t[i].(children := kids)] + [Named(name, rate, p, i, [], 0)], Success)
  {
    hide Shaped, FindChild;
    NameTaken(t, name);
    Shares();
  }

  lemma ShapedNow(s: State)
    requires Consistent(s)
    ensures Shaped(s.tree)
  {
  }

  function Root(children: seq<nat>, load: nat): Bucket {
    Named("root", 10, 1.0, 0, children, load)
  }

  lemma Shares()
    ensures Portion(10, 0.4) == 4 && Portion(10, 0.5) == 5 && Portion(4, 0.5) == 2 && Portion(10, 1.0) == 10
  {
  }

  // ---------------------------------------------------------------- three levels

  /** Capacity 10; one child is assured 4 and may use 10, and so may its two leaves, assured 2 each. */
  function Deep(a: nat, b: nat, c: nat, d: nat): Tree {
    [Root([1], a), Named("a", 4, 0.4, 0, [2, 3], b), Named("b", 2, 0.5, 1, [], c), Named("c", 2, 0.5, 1, [], d)]
  }

  /** The calls that build it. */
  lemma DeepBuilt(now: int) returns (s: State)
    ensures Consistent(s) && s.tree == Deep(0, 0, 0, 0)
    ensures Runs(New(10, now), [Add(0, "a", 0.4, 1.0), Add(1, "b", 0.5, 1.0), Add(1, "c", 0.5, 1.0)], s)
  {
    hide Consistent, Shaped, Create, Runs, Portion;
    var s0 := New(10, now);
    ShapedNow(s0);
    Shares();
    var t0: Tree, t1: Tree := [Root([], 0)], [Root([1], 0), Named("a", 4, 0.4, 0, [], 0)];
    assert s0.tree == t0;
    Creates(t0, 0, "a", 0.4, 4, [1]);
    assert t0[0 := t0[0].(children := [1])] + [Named("a", 4, 0.4, 0, [], 0)] == t1;
    var s1 := Added(s0, 0, "a", 0.4, 1.0, t1);
    ShapedNow(s1);
    var t2: Tree := [Root([1], 0), Named("a", 4, 0.4, 0, [2], 0), Named("b", 2, 0.5, 1, [], 0)];
    Creates(t1, 1, "b", 0.5, 2, [2]);
    assert t1[1 := t1[1].(children := [2])] + [Named("b", 2, 0.5, 1, [], 0)] == t2;
    var s2 := Added(s1, 1, "b", 0.5, 1.0, t2);
    ShapedNow(s2);
    HalfTaken(t2, 1, 2);
    Creates(t2, 1, "c", 0.5, 2, [2, 3]);
    assert t2[1 := t2[1].(children := [2, 3])] + [Named("c", 2, 0.5, 1, [], 0)] == Deep(0, 0, 0, 0);
    s := Added(s2, 1, "c", 0.5, 1.0, Deep(0, 0, 0, 0));
    RunsAppend(s0, [Add(0, "a", 0.4, 1.0)], s1, [Add(1, "b", 0.5, 1.0)], s2);
    RunsAppend(s0, [Add(0, "a", 0.4, 1.0)] + [Add(1, "b", 0.5, 1.0)], s2, [Add(1, "c", 0.5, 1.0)], s);
    assert [Add(0, "a", 0.4, 1.0)] + [Add(1, "b", 0.5, 1.0)] + [Add(1, "c", 0.5, 1.0)]
        == [Add(0, "a", 0.4, 1.0), Add(1, "b", 0.5, 1.0), Add(1, "c", 0.5, 1.0)];
  }

  lemma HalfTaken(t: Tree, i: nat, c: nat)
    requires Shaped(t) && i < |t| && t[i].children == [c] && c < |t| && t[c].rateP == 0.5
    ensures ChildRateP(t, i) == 0.5
  {
    assert Percentages(t, [c]) == [0.5] && [0.5][1..] == [];
    assert SumP([0.5]) == 0.5 + SumP([]);
  }

  lemma DeepShaped(a: nat, b: nat, c: nat, d: nat)
    ensures Shaped(Deep(a, b, c, d))
  {
    var t := Deep(a, b, c, d);
    assert ParentOk(t, 0) && ParentOk(t, 1) && ParentOk(t, 2) && ParentOk(t, 3);
    assert ChildrenOk(t, 0) && ChildrenOk(t, 1) && ChildrenOk(t, 2) && ChildrenOk(t, 3);
  }

  lemma DeepSums(a: nat, b: nat, c: nat, d: nat)
    ensures Shaped(Deep(a, b, c, d))
    ensures var t := Deep(a, b, c, d);
            && ChildRate(t, 0) == 4 && ChildOver(t, 0) == Over(t[1])
            && ChildRate(t, 1) == 4 && ChildOver(t, 1) == Over(t[2]) + Over(t[3])
            && ChildRate(t, 2) == ChildOver(t, 2) == ChildRate(t, 3) == ChildOver(t, 3) == 0
  {
    hide Shaped;
    DeepShaped(a, b, c, d);
    var t := Deep(a, b, c, d);
    assert Rates(t, [1]) == [4] && Overs(t, [1]) == [Over(t[1])];
    assert Rates(t, [2, 3]) == [2, 2] && Overs(t, [2, 3]) == [Over(t[2]), Over(t[3])];
    SumTwo(4, 0);
    SumTwo(Over(t[1]), 0);
    SumTwo(2, 2);
    SumTwo(Over(t[2]), Over(t[3]));
  }

  lemma DeepReserved(a: nat, b: nat, c: nat, d: nat)
    ensures Shaped(Deep(a, b, c, d)) && Reserved(Deep(a, b, c, d))
  {
    hide Shaped;
    DeepShaped(a, b, c, d);
    var t := Deep(a, b, c, d);
    assert Percentages(t, [1]) == [0.4] && Percentages(t, [2, 3]) == [0.5, 0.5];
    assert [0.4][1..] == [] && SumP([0.4]) == 0.4 + SumP([]);
    assert [0.5, 0.5][1..] == [0.5] && [0.5][1..] == [] && SumP([0.5]) == 0.5 + SumP([]);
  }

  /** A leaf two levels down can borrow what its parent has reserved for another leaf. The other
      leaf still gets its assured tokens: on a new shaper of capacity 10 whose percentages never
      add up to more than one, and with tokens taken at leaves only, 12 are handed out. */
  lemma DeepOverflow(now: int) returns (s: State)
    ensures Runs(New(10, now), [Add(0, "a", 0.4, 1.0), Add(1, "b", 0.5, 1.0), Add(1, "c", 0.5, 1.0),
                                Take(2, 6), Take(2, 4), Take(3, 2)], s)
    ensures Shaped(s.tree) && Reserved(s.tree) && s.tree[0].rate == 10 && s.tree[0].load == 12
    ensures s.tree[2].children == [] == s.tree[3].children
  {
    hide Consistent, Shaped, Get, Runs;
    var s0 := DeepBuilt(now);
    DeepBorrow(0, 6);
    DeepBorrow(6, 4);
    DeepAssured(10);
    var s1 := Taken(s0, 2, 6, Deep(6, 6, 6, 0));
    var s2 := Taken(s1, 2, 4, Deep(10, 10, 10, 0));
    s := Taken(s2, 3, 2, Deep(12, 12, 10, 2));
    DeepReserved(12, 12, 10, 2);
    var built := [Add(0, "a", 0.4, 1.0), Add(1, "b", 0.5, 1.0), Add(1, "c", 0.5, 1.0)];
    RunsAppend(New(10, now), built, s0, [Take(2, 6)], s1);
    RunsAppend(New(10, now), built + [Take(2, 6)], s1, [Take(2, 4)], s2);
    RunsAppend(New(10, now), built + [Take(2, 6)] + [Take(2, 4)], s2, [Take(3, 2)], s);
    assert built + [Take(2, 6)] + [Take(2, 4)] + [Take(3, 2)]
        == [Add(0, "a", 0.4, 1.0), Add(1, "b", 0.5, 1.0), Add(1, "c", 0.5, 1.0), Take(2, 6), Take(2, 4), Take(3, 2)];
  }

  lemma DeepAssured(a: nat)
    ensures Shaped(Deep(a, a, a, 0)) && Get(Deep(a, a, a, 0), 3, 2) == (Deep(a + 2, a + 2, a, 2), 2)
  {
    hide Shaped;
    var t := Deep(a, a, a, 0);
    DeepSums(a, a, a, 0);
    assert Assured(t, 3, 2);
    ChargeUp(t, 3, 2);
    ChargeUp(AddLoad(t, 3, 2), 1, 2);
    ChargeUp(AddLoad(AddLoad(t, 3, 2), 1, 2), 0, 2);
    assert AddLoad(AddLoad(AddLoad(t, 3, 2), 1, 2), 0, 2) == Deep(a + 2, a + 2, a, 2);
  }

  lemma ChargeUp(t: Tree, i: nat, n: nat)
    requires Shaped(t) && i < |t|
    ensures Shaped(AddLoad(t, i, n))
    ensures i == 0 ==> Charge(t, i, n) == AddLoad(t, i, n)
    ensures i > 0 ==> t[i].parent < i && Charge(t, i, n) == Charge(AddLoad(t, i, n), t[i].parent, n)
  {
    LoadsOnly(t, AddLoad(t, i, n));
    ChargeStep(t, i, n);
  }

  /** Leaf 2, which alone has taken tokens, borrows n more from the root. */
  lemma DeepBorrow(a: nat, n: nat)
    requires 0 < n && 4 < a + n <= 10 && 2 < Max(a, 4) - 4 + n && Max(a, 4) + n <= 10
    ensures Shaped(Deep(a, a, a, 0)) && Get(Deep(a, a, a, 0), 2, n) == (Deep(a + n, a + n, a + n, 0), n)
  {
    var t := Deep(a, a, a, 0);
    DeepSums(a, a, a, 0);
    assert !Assured(t, 2, n) && !Assured(t, 1, n) && Assured(t, 0, n);
    ChargeUp(t, 0, n);
    assert Get(t, 0, n) == (AddLoad(t, 0, n), n);
    assert Get(t, 1, n) == (AddLoad(AddLoad(t, 0, n), 1, n), n);
    assert Get(t, 2, n) == (AddLoad(AddLoad(AddLoad(t, 0, n), 1, n), 2, n), n);
    assert AddLoad(AddLoad(AddLoad(t, 0, n), 1, n), 2, n) == Deep(a + n, a + n, a + n, 0);
  }

  // ---------------------------------------------------------------- two levels

  /** Capacity 10 and two leaves with the given rates. */
  function Flat(x: nat, p: real, y: nat, q: real, a: nat, b: nat): Tree {
    [Root([1, 2], a), Named("a", x, p, 0, [], b), Named("b", y, q, 0, [], 0)]
  }

  lemma FlatSums(x: nat, p: real, y: nat, q: real, a: nat, b: nat)
    ensures Shaped(Flat(x, p, y, q, a, b))
    ensures var t := Flat(x, p, y, q, a, b);
            ChildRate(t, 0) == x + y && ChildOver(t, 0) == Over(t[1]) + Over(t[2])
                && ChildRate(t, 1) == ChildOver(t, 1) == 0
  {
    var t := Flat(x, p, y, q, a, b);
    assert ParentOk(t, 0) && ParentOk(t, 1) && ParentOk(t, 2);
    assert ChildrenOk(t, 0) && ChildrenOk(t, 1) && ChildrenOk(t, 2);
    assert Rates(t, [1, 2]) == [x, y] && Overs(t, [1, 2]) == [Over(t[1]), Over(t[2])];
    SumTwo(x, y);
    SumTwo(Over(t[1]), Over(t[2]));
  }

  /** The calls that build it. */
  lemma FlatBuilt(now: int, p: real, x: nat) returns (s: State)
    requires 0.0 <= p <= 0.5 && x == Portion(10, p)
    ensures Consistent(s) && s.tree == Flat(5, 0.5, x, p, 0, 0)
    ensures Runs(New(10, now), [Add(0, "a", 0.5, 1.0), Add(0, "b", p, 1.0)], s)
  {
    hide Consistent, Shaped, Create, Runs, Portion;
    var s0 := New(10, now);
    ShapedNow(s0);
    Shares();
    var t0: Tree, t1: Tree := [Root([], 0)], [Root([1], 0), Named("a", 5, 0.5, 0, [], 0)];
    assert s0.tree == t0;
    Creates(t0, 0, "a", 0.5, 5, [1]);
    assert t0[0 := t0[0].(children := [1])] + [Named("a", 5, 0.5, 0, [], 0)] == t1;
    var s1 := Added(s0, 0, "a", 0.5, 1.0, t1);
    ShapedNow(s1);
    HalfTaken(t1, 0, 1);
    Creates(t1, 0, "b", p, x, [1, 2]);
    assert t1[0 := t1[0].(children := [1, 2])] + [Named("b", x, p, 0, [], 0)] == Flat(5, 0.5, x, p, 0, 0);
    s := Added(s1, 0, "b", p, 1.0, Flat(5, 0.5, x, p, 0, 0));
    RunsAppend(s0, [Add(0, "a", 0.5, 1.0)], s1, [Add(0, "b", p, 1.0)], s);
    assert [Add(0, "a", 0.5, 1.0)] + [Add(0, "b", p, 1.0)] == [Add(0, "a", 0.5, 1.0), Add(0, "b", p, 1.0)];
  }

  /** Tokens taken at the root itself are not seen by the leaves: on a new shaper of capacity 10,
      15 are handed out. */
  lemma RootOverflow(now: int) returns (s: State)
    ensures Runs(New(10, now), [Add(0, "a", 0.5, 1.0), Add(0, "b", 0.0, 1.0), Take(0, 5), Take(0, 5), Take(1, 5)], s)
    ensures |s.tree| == 3 && s.tree[0].rate == 10 && s.tree[0].load == 15
  {
    hide Consistent, Shaped, Get, Runs;
    var s0 := FlatBuilt(now, 0.0, 0);
    RootTakes(0);
    RootTakes(5);
    LeafTakes();
    var s1 := Taken(s0, 0, 5, Flat(5, 0.5, 0, 0.0, 5, 0));
    var s2 := Taken(s1, 0, 5, Flat(5, 0.5, 0, 0.0, 10, 0));
    s := Taken(s2, 1, 5, Flat(5, 0.5, 0, 0.0, 15, 5));
    var built := [Add(0, "a", 0.5, 1.0), Add(0, "b", 0.0, 1.0)];
    RunsAppend(New(10, now), built, s0, [Take(0, 5)], s1);
    RunsAppend(New(10, now), built + [Take(0, 5)], s1, [Take(0, 5)], s2);
    RunsAppend(New(10, now), built + [Take(0, 5)] + [Take(0, 5)], s2, [Take(1, 5)], s);
    assert built + [Take(0, 5)] + [Take(0, 5)] + [Take(1, 5)]
        == [Add(0, "a", 0.5, 1.0), Add(0, "b", 0.0, 1.0), Take(0, 5), Take(0, 5), Take(1, 5)];
  }

  lemma RootTakes(a: nat)
    requires a <= 5
    ensures Shaped(Flat(5, 0.5, 0, 0.0, a, 0))
            && Get(Flat(5, 0.5, 0, 0.0, a, 0), 0, 5) == (Flat(5, 0.5, 0, 0.0, a + 5, 0), 5)
  {
    hide Shaped;
    var t := Flat(5, 0.5, 0, 0.0, a, 0);
    FlatSums(5, 0.5, 0, 0.0, a, 0);
    assert Assured(t, 0, 5);
    ChargeUp(t, 0, 5);
    assert AddLoad(t, 0, 5) == Flat(5, 0.5, 0, 0.0, a + 5, 0);
  }

  lemma LeafTakes()
    ensures Shaped(Flat(5, 0.5, 0, 0.0, 10, 0))
            && Get(Flat(5, 0.5, 0, 0.0, 10, 0), 1, 5) == (Flat(5, 0.5, 0, 0.0, 15, 5), 5)
  {
    hide Shaped;
    var t := Flat(5, 0.5, 0, 0.0, 10, 0);
    FlatSums(5, 0.5, 0, 0.0, 10, 0);
    assert Assured(t, 1, 5);
    ChargeUp(t, 1, 5);
    ChargeUp(AddLoad(t, 1, 5), 0, 5);
    assert AddLoad(AddLoad(t, 1, 5), 0, 5) == Flat(5, 0.5, 0, 0.0, 15, 5);
  }

  /** Two leaves assured one half each; raising one to all of it makes a new shaper of capacity 10
      reserve 15. */
  lemma SetRateOversubscribes(now: int) returns (s: State)
    ensures Runs(New(10, now), [Add(0, "a", 0.5, 1.0), Add(0, "b", 0.5, 1.0), Rerate(1, 1.0)], s)
    ensures Shaped(s.tree) && s.tree[0].rate == 10 && ChildRate(s.tree, 0) == 15
  {
    hide Consistent, Shaped, Runs, SetRate;
    Shares();
    var s0 := FlatBuilt(now, 0.5, 5);
    ConfiguredNow(s0);
    RateSet();
    RunsOne(s0, Rerate(1, 1.0));
    s := Step(s0, Rerate(1, 1.0)).value;
    FlatSums(10, 1.0, 5, 0.5, 0, 0);
    var built := [Add(0, "a", 0.5, 1.0), Add(0, "b", 0.5, 1.0)];
    RunsAppend(New(10, now), built, s0, [Rerate(1, 1.0)], s);
    assert built + [Rerate(1, 1.0)] == [Add(0, "a", 0.5, 1.0), Add(0, "b", 0.5, 1.0), Rerate(1, 1.0)];
  }

  lemma RateSet()
    ensures var t := Flat(5, 0.5, 5, 0.5, 0, 0);
            Shaped(t) && AllPercents(t) && SetRate(t, 1, 1.0).0 == Flat(10, 1.0, 5, 0.5, 0, 0)
  {
    var t := Flat(5, 0.5, 5, 0.5, 0, 0);
    FlatSums(5, 0.5, 5, 0.5, 0, 0);
    assert t[1 := t[1].(rateP := 1.0, rate := Portion(10, 1.0))] == Flat(10, 1.0, 5, 0.5, 0, 0);
  }
}
