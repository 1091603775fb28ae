/** Creating, naming and resizing buckets: how token rates and ceilings follow the percentages. */
module ShaperRates {
  import opened Wrappers
  import opened ShaperTree

  /** Queue timeout of a new bucket, in microseconds. */
  const QUEUE_TIMEOUT := 50_000_000

  function Portion(x: nat, p: real): nat
    requires p >= 0.0
  {
    (x as real * p).Floor
  }

  lemma PortionMono(x: nat, y: nat, p: real, q: real)
    requires 0.0 <= p <= q && x <= y
    ensures Portion(x, p) <= Portion(y, q)
  {
    var a, b, c := x as real * p, y as real * p, y as real * q;
    assert a <= b && b <= c;
    assert a.Floor as real <= c;
  }

  lemma PortionAtMost(x: nat, p: real)
    requires 0.0 <= p <= 1.0
    ensures Portion(x, p) <= x
  {
    PortionMono(x, x, p, 1.0);
  }

  /** The share rounded down: the whole tokens in it. */
  lemma PortionFloor(x: nat, p: real, n: nat)
    requires p >= 0.0
    ensures Portion(x, p) == n <==> n as real <= x as real * p < n as real + 1.0
  {
    var y := x as real * p;
    assert y.Floor as real <= y < y.Floor as real + 1.0;
  }

  predicate Percents(b: Bucket) {
    0.0 <= b.rateP <= b.ceilP <= 1.0
  }

  predicate AllPercents(t: Tree) {
    forall i | 0 <= i < |t| :: Percents(t[i])
  }

  /** The stored rate and ceiling are the percentages of the parent's, rounded down. */
  predicate Derived(t: Tree, i: nat)
    requires 0 < i < |t| && t[i].parent < i && Percents(t[i])
  {
    && t[i].rate == Portion(t[t[i].parent].rate, t[i].rateP)
    && t[i].ceil == Portion(t[t[i].parent].ceil, t[i].ceilP)
  }

  ghost predicate Configured(t: Tree) {
    && Shaped(t) && AllPercents(t)
    && t[0].rateP == t[0].ceilP == 1.0 && t[0].rate == t[0].ceil
    && forall i | 0 < i < |t| :: t[i].parent < i && Derived(t, i)
  }

  /** No bucket is assured more than its own ceiling, nor more than its parent is assured. */
  lemma {:induction false} RateWithinCeil(t: Tree, i: nat)
    requires Configured(t) && i < |t|
    ensures t[i].parent <= i
    ensures t[i].rate <= t[i].ceil && t[i].rate <= t[t[i].parent].rate && t[i].ceil <= t[t[i].parent].ceil
    decreases i
  {
    assert ParentOk(t, i) && Percents(t[i]);
    if i > 0 {
      var p := t[i].parent;
      assert Derived(t, i);
      RateWithinCeil(t, p);
      PortionMono(t[p].rate, t[p].ceil, t[i].rateP, t[i].ceilP);
      PortionAtMost(t[p].rate, t[i].rateP);
      PortionAtMost(t[p].ceil, t[i].ceilP);
    }
  }

  // ---------------------------------------------------------------- recomputing a subtree

  ghost predicate SameButRates(t: Tree, t': Tree) {
    |t| == |t'| && forall i | 0 <= i < |t| :: t'[i] == t[i].(rate := t'[i].rate, ceil := t'[i].ceil)
  }

  lemma RatesOnly(t: Tree, t': Tree)
    requires Shaped(t) && SameButRates(t, t')
    ensures Shaped(t') && (AllPercents(t) ==> AllPercents(t'))
  {
    forall i | 0 <= i < |t| ensures t[i].offset == 0 || t[i].offset < |t[i].children| { assert ChildrenOk(t, i); }
    SameShaped(t, t');
    if AllPercents(t) {
      forall i | 0 <= i < |t'| ensures Percents(t'[i]) { assert Percents(t[i]); }
    }
  }

  function Refresh(t: Tree, i: nat): (r: Tree)
    requires Shaped(t) && AllPercents(t) && 0 < i < |t|
    ensures SameButRates(t, r)
  {
    assert Percents(t[i]);
    ParentOf(t, i);
    t[i := t[i].(rate := Portion(t[t[i].parent].rate, t[i].rateP), ceil := Portion(t[t[i].parent].ceil, t[i].ceilP))]
  }

  function Update(t: Tree, i: nat): (r: Tree)
    requires Shaped(t) && AllPercents(t) && i < |t|
    ensures SameButRates(t, r)
    decreases |t| - i, |t[i].children| + 1
  {
    if i > 0 then
      var t1 := Refresh(t, i);
      RatesOnly(t, t1);
      UpdateChildren(t1, i, 0)
    else UpdateChildren(t, i, 0)
  }

  function UpdateChildren(t: Tree, i: nat, k: nat): (r: Tree)
    requires Shaped(t) && AllPercents(t) && i < |t| && k <= |t[i].children|
    ensures SameButRates(t, r)
    decreases |t| - i, |t[i].children| - k
  {
    if k == |t[i].children| then t else
    ChildOf(t, i, k);
    var t1 := Update(t, t[i].children[k]);
    RatesOnly(t, t1);
    UpdateChildren(t1, i, k + 1)
  }

  /** Only the subtree changes, and all of it now follows its parents. */
  ghost predicate Recomputed(t: Tree, r: Tree, i: nat)
    requires Shaped(r) && AllPercents(r) && |t| == |r|
  {
    forall j | 0 <= j < |t| ::
      if Above(t, i, j) then j > 0 ==> ParentOk(r, j) && Percents(r[j]) && Derived(r, j) else r[j] == t[j]
  }

  ghost predicate InLater(t: Tree, i: nat, k: nat, j: nat)
    requires i < |t| && j < |t|
  {
    exists l :: k <= l < |t[i].children| && Above(t, t[i].children[l], j)
  }

  ghost predicate RecomputedFrom(t: Tree, r: Tree, i: nat, k: nat)
    requires Shaped(r) && AllPercents(r) && |t| == |r| && i < |t|
  {
    forall j | 0 <= j < |t| ::
      if InLater(t, i, k, j) then j > 0 ==> ParentOk(r, j) && Percents(r[j]) && Derived(r, j) else r[j] == t[j]
  }

  lemma {:induction false} UpdateRecomputes(t: Tree, i: nat)
    requires Shaped(t) && AllPercents(t) && 0 < i < |t|
    ensures Shaped(Update(t, i)) && AllPercents(Update(t, i)) && Recomputed(t, Update(t, i), i)
    decreases |t| - i, |t[i].children| + 1
  {
    var t1, r := Refresh(t, i), Update(t, i);
    RatesOnly(t, t1);
    RatesOnly(t, r);
    UpdateChildrenRecomputes(t1, i, 0);
    ParentOf(t, i);
    forall j | 0 <= j < |t|
      ensures if Above(t, i, j) then j > 0 ==> ParentOk(r, j) && Percents(r[j]) && Derived(r, j) else r[j] == t[j]
    {
      BelowOrSelf(t1, i, j);
      AboveSame(t, t1, i, j);
      if j == i {
        NotLater(t1, i, 0, i);
        NotLater(t1, i, 0, t[i].parent);
        assert ParentOk(r, i) && Percents(t[i]);
      }
    }
  }

  /** Strictly below i means below one of its children. */
  lemma BelowOrSelf(t: Tree, i: nat, j: nat)
    requires Shaped(t) && i < |t| && j < |t|
    ensures Above(t, i, j) <==> i == j || InLater(t, i, 0, j)
  {
    if Above(t, i, j) && i != j {
      AboveBounds(t, i, j);
      var k := BelowChild(t, i, j);
    }
    forall l | 0 <= l < |t[i].children| && Above(t, t[i].children[l], j)
      ensures Above(t, i, j) { ChildBelow(t, i, l, j); }
  }

  lemma NotLater(t: Tree, i: nat, k: nat, j: nat)
    requires Shaped(t) && j <= i < |t|
    ensures !InLater(t, i, k, j)
  {
    forall l | k <= l < |t[i].children| ensures !Above(t, t[i].children[l], j) {
      if Above(t, t[i].children[l], j) { ChildBelow(t, i, l, j); }
    }
  }

  lemma {:induction false} UpdateChildrenRecomputes(t: Tree, i: nat, k: nat)
    requires Shaped(t) && AllPercents(t) && i < |t| && k <= |t[i].children|
    ensures Shaped(UpdateChildren(t, i, k)) && AllPercents(UpdateChildren(t, i, k))
    ensures RecomputedFrom(t, UpdateChildren(t, i, k), i, k)
    decreases |t| - i, |t[i].children| - k
  {
    var r := UpdateChildren(t, i, k);
    RatesOnly(t, r);
    if k < |t[i].children| {
      var c := t[i].children[k];
      ChildOf(t, i, k);
      var t1 := Update(t, c);
      RatesOnly(t, t1);
      UpdateRecomputes(t, c);
      UpdateChildrenRecomputes(t1, i, k + 1);
      forall j | 0 <= j < |t|
        ensures if InLater(t, i, k, j) then j > 0 ==> ParentOk(r, j) && Percents(r[j]) && Derived(r, j)
                else r[j] == t[j]
      {
        OneChildDone(t, t1, r, i, k, j);
      }
    }
  }

  lemma LaterSame(t: Tree, t': Tree, i: nat, k: nat, j: nat)
    requires SameShape(t, t') && i < |t| && j < |t|
    ensures InLater(t, i, k, j) <==> InLater(t', i, k, j)
  {
    forall l | k <= l < |t[i].children| ensures Above(t, t[i].children[l], j) <==> Above(t', t[i].children[l], j) {
      AboveSame(t, t', t[i].children[l], j);
    }
  }

  lemma OneChildDone(t: Tree, t1: Tree, r: Tree, i: nat, k: nat, j: nat)
    requires Shaped(t) && i < |t| && k < |t[i].children| && j < |t|
    requires Shaped(t1) && Shaped(r) && AllPercents(t1) && AllPercents(r) && SameButRates(t, t1) && SameButRates(t1, r)
    requires Recomputed(t, t1, t[i].children[k]) && RecomputedFrom(t1, r, i, k + 1)
    ensures if InLater(t, i, k, j) then j > 0 ==> ParentOk(r, j) && Percents(r[j]) && Derived(r, j) else r[j] == t[j]
  {
    hide Recomputed, RecomputedFrom, Derived, Percents, ParentOk, Shaped;
    var c := t[i].children[k];
    LaterSame(t, t1, i, k + 1, j);
    assert InLater(t, i, k, j) <==> Above(t, c, j) || InLater(t, i, k + 1, j);
    if InLater(t, i, k + 1, j) {
      FromLater(t1, r, i, k + 1, j);
    } else {
      FromLater(t1, r, i, k + 1, j);
      FromFirst(t, t1, c, j);
      if Above(t, c, j) && j > 0 { FirstStays(t, t1, r, i, k, j); }
    }
  }

  lemma FromLater(t: Tree, r: Tree, i: nat, k: nat, j: nat)
    requires Shaped(r) && AllPercents(r) && |t| == |r| && i < |t| && RecomputedFrom(t, r, i, k) && j < |t|
    ensures if InLater(t, i, k, j) then j > 0 ==> ParentOk(r, j) && Percents(r[j]) && Derived(r, j) else r[j] == t[j]
  {
  }

  lemma FromFirst(t: Tree, r: Tree, i: nat, j: nat)
    requires Shaped(r) && AllPercents(r) && |t| == |r| && Recomputed(t, r, i) && j < |t|
    ensures if Above(t, i, j) then j > 0 ==> ParentOk(r, j) && Percents(r[j]) && Derived(r, j) else r[j] == t[j]
  {
  }

  /** What lies below the first child and its parent are not touched by the later ones. */
  lemma FirstStays(t: Tree, t1: Tree, r: Tree, i: nat, k: nat, j: nat)
    requires Shaped(t) && i < |t| && k < |t[i].children| && 0 < j < |t|
    requires Shaped(t1) && Shaped(r) && AllPercents(t1) && AllPercents(r) && SameButRates(t, t1) && SameButRates(t1, r)
    requires Above(t, t[i].children[k], j) && RecomputedFrom(t1, r, i, k + 1)
    requires ParentOk(t1, j) && Percents(t1[j]) && Derived(t1, j)
    ensures ParentOk(r, j) && Percents(r[j]) && Derived(r, j)
  {
    hide Recomputed, RecomputedFrom, Portion;
    var c, p := t[i].children[k], t[j].parent;
    ParentOf(t, j);
    ChildOf(t, i, k);
    assert ParentOk(r, j) && Percents(r[j]);
    NotBothLater(t, t1, i, k, j);
    FromLater(t1, r, i, k + 1, j);
    if p == i {
      NotLater(t1, i, k + 1, i);
    } else {
      assert Above(t, c, p);
      NotBothLater(t, t1, i, k, p);
    }
    FromLater(t1, r, i, k + 1, p);
  }

  lemma NotBothLater(t: Tree, t1: Tree, i: nat, k: nat, j: nat)
    requires Shaped(t) && i < |t| && k < |t[i].children| && j < |t| && SameShape(t, t1)
    requires Above(t, t[i].children[k], j)
    ensures !InLater(t1, i, k + 1, j)
  {
    forall l | k + 1 <= l < |t[i].children| ensures !Above(t1, t[i].children[l], j) {
      ChildrenApart(t, i, k, l, j);
      AboveSame(t, t1, t[i].children[l], j);
    }
  }

  // ---------------------------------------------------------------- the configuration calls

  function SetRate(t: Tree, i: nat, p: real): (r: (Tree, Error))
    requires Shaped(t) && AllPercents(t) && i < |t|
  {
    if i == 0 then (t, InvalidChildNode)
    else if p < 0.0 || p > t[i].ceilP then (t, RateLimitOverflow)
    else
      ParentOf(t, i);
      var t1 := t[i := t[i].(rateP := p, rate := Portion(t[t[i].parent].rate, p))];
      PercentsOnly(t, t1);
      (UpdateChildren(t1, i, 0), Success)
  }

  function SetCeil(t: Tree, i: nat, p: real): (r: (Tree, Error))
    requires Shaped(t) && AllPercents(t) && i < |t|
  {
    if i == 0 then (t, InvalidChildNode)
    else if p < t[i].rateP || p > 1.0 then (t, CeilLimitOverflow)
    else
      assert Percents(t[i]);
      ParentOf(t, i);
      var t1 := t[i := t[i].(ceilP := p, ceil := Portion(t[t[i].parent].ceil, p))];
      PercentsOnly(t, t1);
      (UpdateChildren(t1, i, 0), Success)
  }

  function SetBoth(t: Tree, i: nat, p: real, q: real): (r: (Tree, Error))
    requires Shaped(t) && AllPercents(t) && i < |t|
  {
    if i == 0 then (t, InvalidChildNode)
    else if p < 0.0 || p > q then (t, RateLimitOverflow)
    else if q > 1.0 then (t, CeilLimitOverflow)
    else
      var t1 := t[i := t[i].(rateP := p, ceilP := q)];
      PercentsOnly(t, t1);
      (Update(t1, i), Success)
  }

  function Resize(t: Tree, capacity: nat): (r: Tree)
    requires Shaped(t) && AllPercents(t)
  {
    if t[0].rate == capacity then t else
    assert Percents(t[0]);
    var t1 := t[0 := t[0].(rate := Portion(capacity, t[0].rateP), ceil := Portion(capacity, t[0].ceilP))];
    PercentsOnly(t, t1);
    UpdateChildren(t1, 0, 0)
  }

  ghost predicate SameButConfig(t: Tree, t': Tree) {
    |t| == |t'| && forall i | 0 <= i < |t| ::
      t'[i] == t[i].(rate := t'[i].rate, ceil := t'[i].ceil, rateP := t'[i].rateP, ceilP := t'[i].ceilP)
  }

  lemma PercentsOnly(t: Tree, t': Tree)
    requires Shaped(t) && SameButConfig(t, t') && AllPercents(t')
    ensures Shaped(t')
  {
    forall i | 0 <= i < |t| ensures t[i].offset == 0 || t[i].offset < |t[i].children| { assert ChildrenOk(t, i); }
    SameShaped(t, t');
  }

  /** Recomputing below a bucket that itself follows its parent restores the whole configuration. */
  lemma BelowConfigured(t: Tree, t1: Tree, i: nat)
    requires Configured(t) && Shaped(t1) && AllPercents(t1) && i < |t| && SameButConfig(t, t1)
    requires forall j | 0 <= j < |t| && j != i :: t1[j] == t[j]
    requires if i == 0 then t1[0].rateP == t1[0].ceilP == 1.0 && t1[0].rate == t1[0].ceil
             else t1[i].parent < i && Derived(t1, i)
    ensures Configured(UpdateChildren(t1, i, 0))
  {
    var r := UpdateChildren(t1, i, 0);
    UpdateChildrenRecomputes(t1, i, 0);
    NotLater(t1, i, 0, i);
    NotLater(t1, i, 0, 0);
    FromLater(t1, r, i, 0, i);
    FromLater(t1, r, i, 0, 0);
    forall j | 0 < j < |r| ensures r[j].parent < j && Derived(r, j) { StillDerived(t, t1, r, i, j); }
  }

  lemma StillDerived(t: Tree, t1: Tree, r: Tree, i: nat, j: nat)
    requires Configured(t) && Shaped(t1) && AllPercents(t1) && i < |t| && SameButConfig(t, t1) && 0 < j < |t|
    requires forall l | 0 <= l < |t| && l != i :: t1[l] == t[l]
    requires i > 0 ==> t1[i].parent < i && Derived(t1, i)
    requires Shaped(r) && AllPercents(r) && SameButRates(t1, r) && RecomputedFrom(t1, r, i, 0)
    ensures r[j].parent < j && Derived(r, j)
  {
    hide RecomputedFrom, Portion;
    assert Percents(r[j]) && Percents(t1[j]);
    ParentOf(r, j);
    ParentOf(t1, j);
    var p := t1[j].parent;
    FromLater(t1, r, i, 0, j);
    FromLater(t1, r, i, 0, p);
    BelowOrSelf(t1, i, j);
    BelowOrSelf(t1, i, p);
    if !InLater(t1, i, 0, j) {
      if j == i {
        NotLater(t1, i, 0, p);
      } else {
        assert !InLater(t1, i, 0, p);
        assert Derived(t, j);
      }
    }
  }

  /** From t to r only bucket i got new percentages, p and q, and only it and what is below it new tokens. */
  ghost predicate Reconfigured(t: Tree, r: Tree, i: nat, p: real, q: real) {
    && i < |t| && SameButConfig(t, r) && r[i].rateP == p && r[i].ceilP == q
    && (forall j | 0 <= j < |t| && j != i :: r[j].rateP == t[j].rateP && r[j].ceilP == t[j].ceilP)
    && (forall j | 0 <= j < |t| && !Above(t, i, j) :: r[j] == t[j])
  }

  lemma OnlyBelow(t: Tree, t1: Tree, i: nat)
    requires Shaped(t) && Shaped(t1) && AllPercents(t1) && i < |t| && SameButConfig(t, t1)
    requires forall j | 0 <= j < |t| && j != i :: t1[j] == t[j]
    ensures Reconfigured(t, UpdateChildren(t1, i, 0), i, t1[i].rateP, t1[i].ceilP)
    ensures UpdateChildren(t1, i, 0)[i] == t1[i]
  {
    hide RecomputedFrom, UpdateChildren, Shaped, Portion, Derived, InLater, AllPercents;
    var r := UpdateChildren(t1, i, 0);
    UpdateChildrenRecomputes(t1, i, 0);
    NotLater(t1, i, 0, i);
    FromLater(t1, r, i, 0, i);
    forall j | 0 <= j < |t| && !Above(t, i, j) ensures r[j] == t[j] {
      AboveSame(t, t1, i, j);
      BelowOrSelf(t1, i, j);
      FromLater(t1, r, i, 0, j);
    }
  }

  /** Ceilings depend on the ceiling percentages alone, and rates on the others. */
  lemma {:induction false} TokensFollow(t: Tree, r: Tree, j: nat)
    requires Configured(t) && Configured(r) && SameShape(t, r) && j < |t|
    ensures t[0].ceil == r[0].ceil && (forall k | 0 <= k < |t| :: r[k].ceilP == t[k].ceilP) ==> r[j].ceil == t[j].ceil
    ensures t[0].rate == r[0].rate && (forall k | 0 <= k < |t| :: r[k].rateP == t[k].rateP) ==> r[j].rate == t[j].rate
    decreases j
  {
    if j > 0 {
      assert Derived(t, j) && Derived(r, j);
      TokensFollow(t, r, t[j].parent);
    }
  }

  /** setRate gives bucket i the new percentage and recomputes rates at and below it. It touches no
      other bucket, no other percentage and no ceiling. */
  lemma SetRateConfigured(t: Tree, i: nat, p: real)
    requires Configured(t) && i < |t|
    ensures var (r, e) := SetRate(t, i, p);
            && Configured(r)
            && (e == Success <==> i > 0 && 0.0 <= p <= t[i].ceilP)
            && (e == Success ==>
                  Reconfigured(t, r, i, p, t[i].ceilP) && forall j | 0 <= j < |t| :: r[j].ceil == t[j].ceil)
            && (e != Success ==> r == t && e == if i == 0 then InvalidChildNode else RateLimitOverflow)
  {
    if i > 0 && 0.0 <= p <= t[i].ceilP {
      ParentOf(t, i);
      assert Derived(t, i) && Percents(t[i]);
      var t1 := t[i := t[i].(rateP := p, rate := Portion(t[t[i].parent].rate, p))];
      PercentsOnly(t, t1);
      BelowConfigured(t, t1, i);
      OnlyBelow(t, t1, i);
      AllFollow(t, SetRate(t, i, p).0, i, p, t[i].ceilP);
    }
  }

  lemma AllFollow(t: Tree, r: Tree, i: nat, p: real, q: real)
    requires Configured(t) && Configured(r) && 0 < i < |t| && Reconfigured(t, r, i, p, q)
    ensures q == t[i].ceilP ==> forall j | 0 <= j < |t| :: r[j].ceil == t[j].ceil
    ensures p == t[i].rateP ==> forall j | 0 <= j < |t| :: r[j].rate == t[j].rate
  {
    hide Configured;
    assert !Above(t, i, 0);
    forall j | 0 <= j < |t|
      ensures q == t[i].ceilP ==> r[j].ceil == t[j].ceil
      ensures p == t[i].rateP ==> r[j].rate == t[j].rate { TokensFollow(t, r, j); }
  }

  /** The same for setCeil, which touches no rate. */
  lemma SetCeilConfigured(t: Tree, i: nat, p: real)
    requires Configured(t) && i < |t|
    ensures var (r, e) := SetCeil(t, i, p);
            && Configured(r)
            && (e == Success <==> i > 0 && t[i].rateP <= p <= 1.0)
            && (e == Success ==>
                  Reconfigured(t, r, i, t[i].rateP, p) && forall j | 0 <= j < |t| :: r[j].rate == t[j].rate)
            && (e != Success ==> r == t && e == if i == 0 then InvalidChildNode else CeilLimitOverflow)
  {
    if i > 0 && t[i].rateP <= p <= 1.0 {
      ParentOf(t, i);
      assert Derived(t, i) && Percents(t[i]);
      var t1 := t[i := t[i].(ceilP := p, ceil := Portion(t[t[i].parent].ceil, p))];
      PercentsOnly(t, t1);
      BelowConfigured(t, t1, i);
      OnlyBelow(t, t1, i);
      AllFollow(t, SetCeil(t, i, p).0, i, t[i].rateP, p);
    }
  }

  lemma SetBothConfigured(t: Tree, i: nat, p: real, q: real)
    requires Configured(t) && i < |t|
    ensures var (r, e) := SetBoth(t, i, p, q);
            && Configured(r)
            && (e == Success <==> i > 0 && 0.0 <= p <= q <= 1.0)
            && (e == Success ==> Reconfigured(t, r, i, p, q))
            && (e != Success ==>
                  r == t && e == if i == 0 then InvalidChildNode
                                 else if 0.0 <= p <= q then CeilLimitOverflow else RateLimitOverflow)
  {
    if i > 0 && 0.0 <= p <= q <= 1.0 {
      ParentOf(t, i);
      var t1 := t[i := t[i].(rateP := p, ceilP := q)];
      PercentsOnly(t, t1);
      var t2 := Refresh(t1, i);
      RatesOnly(t1, t2);
      BelowConfigured(t, t2, i);
      OnlyBelow(t, t2, i);
    }
  }

  lemma ResizeConfigured(t: Tree, capacity: nat)
    requires Configured(t)
    ensures Configured(Resize(t, capacity)) && SameButRates(t, Resize(t, capacity))
    ensures Resize(t, capacity)[0].rate == capacity
  {
    if t[0].rate != capacity {
      var t1 := t[0 := t[0].(rate := Portion(capacity, t[0].rateP), ceil := Portion(capacity, t[0].ceilP))];
      PercentsOnly(t, t1);
      BelowConfigured(t, t1, 0);
      UpdateChildrenRecomputes(t1, 0, 0);
      NotLater(t1, 0, 0, 0);
    }
  }

  // ---------------------------------------------------------------- names and creation

  function FindDirect(t: Tree, ids: seq<nat>, name: string): (r: Option<nat>)
    requires Within(t, ids)
    ensures r.Some? ==> r.value in ids && r.value < |t| && t[r.value].name == name
    ensures r.None? ==> forall k | 0 <= k < |ids| :: t[ids[k]].name != name
  {
    if ids == [] then None
    else if t[ids[0]].name == name then Some(ids[0])
    else
      assert forall k | 0 <= k < |ids[1..]| :: ids[1..][k] == ids[k + 1];
      FindDirect(t, ids[1..], name)
  }

  /** Looks at the children first, then below each of them in turn. */
  function FindChild(t: Tree, i: nat, name: string): (r: Option<nat>)
    requires Shaped(t) && i < |t|
    decreases |t| - i, |t[i].children| + 1
  {
    ChildrenWithin(t, i);
    var d := FindDirect(t, t[i].children, name);
    if d.Some? then d else FindBelow(t, i, 0, name)
  }

  function FindBelow(t: Tree, i: nat, k: nat, name: string): (r: Option<nat>)
    requires Shaped(t) && i < |t| && k <= |t[i].children|
    decreases |t| - i, |t[i].children| - k
  {
    if k == |t[i].children| then None else
    ChildOf(t, i, k);
    var d := FindChild(t, t[i].children[k], name);
    if d.Some? then d else FindBelow(t, i, k + 1, name)
  }

  /** A name is found exactly when some bucket strictly below i bears it. */
  lemma {:induction false} FindChildFinds(t: Tree, i: nat, name: string)
    requires Shaped(t) && i < |t|
    ensures var r := FindChild(t, i, name);
            if r.Some? then i < r.value < |t| && Above(t, i, r.value) && t[r.value].name == name
            else forall j | i < j < |t| && Above(t, i, j) :: t[j].name != name
    decreases |t| - i, |t[i].children| + 1
  {
    ChildrenWithin(t, i);
    var r := FindDirect(t, t[i].children, name);
    if r.Some? {
      var k :| 0 <= k < |t[i].children| && t[i].children[k] == r.value;
      ChildOf(t, i, k);
    } else {
      FindBelowFinds(t, i, 0, name);
      if FindBelow(t, i, 0, name).None? {
        forall j | i < j < |t| && Above(t, i, j) ensures t[j].name != name {
          var k := BelowChild(t, i, j);
          if t[i].children[k] != j { AboveBounds(t, t[i].children[k], j); }
        }
      }
    }
  }

  lemma {:induction false} FindBelowFinds(t: Tree, i: nat, k: nat, name: string)
    requires Shaped(t) && i < |t| && k <= |t[i].children|
    ensures var r := FindBelow(t, i, k, name);
            if r.Some? then i < r.value < |t| && Above(t, i, r.value) && t[r.value].name == name
            else forall l, j | k <= l < |t[i].children| && t[i].children[l] < j < |t|
                && Above(t, t[i].children[l], j) :: t[j].name != name
    decreases |t| - i, |t[i].children| - k
  {
    if k < |t[i].children| {
      ChildOf(t, i, k);
      FindChildFinds(t, t[i].children[k], name);
      var r := FindChild(t, t[i].children[k], name);
      if r.Some? {
        ChildBelow(t, i, k, r.value);
      } else {
        FindBelowFinds(t, i, k + 1, name);
      }
    }
  }

  /** No two buckets other than the root share a name. */
  ghost predicate UniqueNames(t: Tree) {
    forall i, j | 0 < i < j < |t| :: t[i].name != t[j].name
  }

  function SetName(t: Tree, i: nat, name: string): (r: (Tree, Error))
    requires Shaped(t) && i < |t|
  {
    if FindChild(t, 0, name).Some? then (t, NameConflict) else (t[i := t[i].(name := name)], Success)
  }

  lemma NameTaken(t: Tree, name: string)
    requires Shaped(t)
    ensures FindChild(t, 0, name).Some? <==> exists j :: 0 < j < |t| && t[j].name == name
  {
    FindChildFinds(t, 0, name);
    forall j | 0 < j < |t| ensures Above(t, 0, j) { RootAbove(t, j); }
  }

  /** A new name is given exactly if no bucket but the root has it, and nothing else changes. */
  lemma SetNameOutcome(t: Tree, i: nat, name: string)
    requires Shaped(t) && i < |t|
    ensures var (r, e) := SetName(t, i, name);
            && (e == Success <==> forall j | 0 < j < |t| :: t[j].name != name)
            && (e == Success ==>
                  && |r| == |t| && r[i] == t[i].(name := name)
                  && forall j | 0 <= j < |t| && j != i :: r[j] == t[j])
            && (e != Success ==> r == t && e == NameConflict)
  {
    NameTaken(t, name);
  }

  lemma SetNameUnique(t: Tree, i: nat, name: string)
    requires Shaped(t) && i < |t| && UniqueNames(t)
    ensures UniqueNames(SetName(t, i, name).0)
  {
    NameTaken(t, name);
  }

  function SumP(ps: seq<real>): real {
    if ps == [] then 0.0 else ps[0] + SumP(ps[1..])
  }

  function Percentages(t: Tree, ids: seq<nat>): seq<real>
    requires Within(t, ids)
  {
    seq(|ids|, k requires 0 <= k < |ids| => t[ids[k]].rateP)
  }

  function ChildRateP(t: Tree, i: nat): real
    requires Shaped(t) && i < |t|
  {
    ChildrenWithin(t, i);
    SumP(Percentages(t, t[i].children))
  }

  function NewBucket(t: Tree, i: nat, name: string, rate: real, ceil: real): Bucket
    requires i < |t| && 0.0 <= rate <= ceil
  {
    Bucket(name, Portion(t[i].rate, rate), Portion(t[i].ceil, ceil), rate, ceil, i, [], 0, [], 0, 0, QUEUE_TIMEOUT, 0)
  }

  function Grown(t: Tree, i: nat, b: Bucket): Tree
    requires i < |t|
  {
    t[i := t[i].(children := t[i].children + [|t|])] + [b]
  }

  function Create(t: Tree, i: nat, name: string, rate: real, ceil: real): (r: (Tree, Error))
    requires Shaped(t) && i < |t|
  {
    if rate < 0.0 || rate + ChildRateP(t, i) > 1.0 then (t, RateLimitOverflow)
    else if ceil < rate || ceil > 1.0 then (t, CeilLimitOverflow)
    else if FindChild(t, 0, name).Some? then (t, NameConflict)
    else (Grown(t, i, NewBucket(t, i, name, rate, ceil)), Success)
  }

  lemma GrownShaped(t: Tree, i: nat, b: Bucket)
    requires Shaped(t) && i < |t| && b.parent == i && b.children == [] && b.offset == 0
    ensures Shaped(Grown(t, i, b))
  {
    var r := Grown(t, i, b);
    forall j | 0 <= j < |r| ensures ParentOk(r, j) && ChildrenOk(r, j) {
      if j < |t| {
        assert ParentOk(t, j) && ChildrenOk(t, j);
      } else {
        assert r[i].children[|t[i].children|] == j;
      }
    }
  }

  /** createChild makes three checks, in this order. A new child comes last, idle, with the
      percentages asked for and an empty queue; its parent learns of it and nothing else changes. */
  lemma CreateOutcome(t: Tree, i: nat, name: string, rate: real, ceil: real)
    requires Shaped(t) && i < |t|
    ensures var (r, e) := Create(t, i, name, rate, ceil);
            && (e == RateLimitOverflow <==> rate < 0.0 || rate + ChildRateP(t, i) > 1.0)
            && (e == CeilLimitOverflow <==> 0.0 <= rate <= 1.0 - ChildRateP(t, i) && !(rate <= ceil <= 1.0))
            && (e == NameConflict <==>
                  && 0.0 <= rate <= 1.0 - ChildRateP(t, i) && rate <= ceil <= 1.0
                  && exists j :: 0 < j < |t| && t[j].name == name)
            && e in {Success, RateLimitOverflow, CeilLimitOverflow, NameConflict}
            && if e == Success then CreatedLast(t, r, i, name, rate, ceil) else r == t
  {
    hide FindChild;
    NameTaken(t, name);
  }

  ghost predicate CreatedLast(t: Tree, r: Tree, i: nat, name: string, rate: real, ceil: real) {
    && i < |t| && |r| == |t| + 1 && r[i] == t[i].(children := t[i].children + [|t|])
    && (forall j | 0 <= j < |t| && j != i :: r[j] == t[j])
    && r[|t|].name == name && r[|t|].parent == i && r[|t|].children == [] && r[|t|].offset == 0
    && r[|t|].rateP == rate && r[|t|].ceilP == ceil && r[|t|].load == 0
    && r[|t|].queue == [] && r[|t|].queued == 0 && r[|t|].dropped == 0 && r[|t|].timeout == 50_000_000
  }

  lemma CreateConfigured(t: Tree, i: nat, name: string, rate: real, ceil: real)
    requires Configured(t) && i < |t|
    ensures var (r, e) := Create(t, i, name, rate, ceil);
            Configured(r) && (e == Success ==> |r| == |t| + 1 && r[|t|].name == name && r[|t|].parent == i)
                && (e != Success ==> r == t)
  {
    var (r, e) := Create(t, i, name, rate, ceil);
    if e == Success {
      var b := NewBucket(t, i, name, rate, ceil);
      GrownShaped(t, i, b);
      forall j | 0 < j < |r| ensures r[j].parent < j && Percents(r[j]) && Derived(r, j) {
        if j < |t| { assert Derived(t, j) && Percents(t[j]); }
      }
    }
  }

  lemma CreateUnique(t: Tree, i: nat, name: string, rate: real, ceil: real)
    requires Shaped(t) && i < |t| && UniqueNames(t)
    ensures UniqueNames(Create(t, i, name, rate, ceil).0)
  {
    NameTaken(t, name);
  }
}
