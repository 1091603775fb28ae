/** When the rates assured to the children fit into the rate of their parent. */
module ShaperReserve {
  import opened ShaperTree
  import opened ShaperRates

  ghost predicate NonNegative(ps: seq<real>) {
    forall k | 0 <= k < |ps| :: 0.0 <= ps[k]
  }

  function Portions(x: nat, ps: seq<real>): seq<nat>
    requires NonNegative(ps)
  {
    seq(|ps|, k requires 0 <= k < |ps| => Portion(x, ps[k]))
  }

  /** Rounding down loses less than one token per child. */
  lemma {:induction false} PortionsBounds(x: nat, ps: seq<real>)
    requires NonNegative(ps)
    ensures x as real * SumP(ps) - |ps| as real <= Sum(Portions(x, ps)) as real <= x as real * SumP(ps)
  {
    if ps != [] {
      var a, b := ps[0], SumP(ps[1..]);
      PortionsBounds(x, ps[1..]);
      assert Portions(x, ps)[1..] == Portions(x, ps[1..]);
      var y := x as real * a;
      assert y - 1.0 <= y.Floor as real <= y;
      Distribute(x as real, a, b);
    }
  }

  lemma Distribute(x: real, a: real, b: real)
    ensures x * (a + b) == x * a + x * b
  {
  }

  lemma FitsAt(x: nat, ps: seq<real>)
    requires NonNegative(ps) && SumP(ps) <= 1.0
    ensures Sum(Portions(x, ps)) <= x
  {
    hide Sum, SumP, Portions, NonNegative;
    PortionsBounds(x, ps);
    ScaleDown(x as real, SumP(ps));
  }

  lemma ScaleDown(x: real, s: real)
    requires x >= 0.0 && s <= 1.0
    ensures x * s <= x
  {
  }

  lemma ScaledPast(d: real, n: real) returns (x: nat)
    requires d > 0.0 && n >= 0.0
    ensures x as real * d > n
  {
    var q := n / d;
    assert q * d == n;
    assert q >= 0.0;
    x := q.Floor + 1;
    ScaleUp(x as real, q, d);
  }

  lemma ScaleUp(x: real, y: real, d: real)
    requires x > y && d > 0.0
    ensures x * d > y * d
  {
  }

  lemma Overflowing(ps: seq<real>) returns (x: nat)
    requires NonNegative(ps) && SumP(ps) > 1.0
    ensures Sum(Portions(x, ps)) > x
  {
    hide Sum, SumP, Portions, NonNegative;
    var d := SumP(ps) - 1.0;
    x := ScaledPast(d, |ps| as real);
    PortionsBounds(x, ps);
    var s := SumP(ps);
    Distribute(x as real, 1.0, d);
    assert s == 1.0 + d;
    assert x as real * s == x as real + x as real * d;
  }

  /** The children of a bucket fit at every capacity exactly when their percentages do. */
  lemma PortionsFit(ps: seq<real>)
    requires NonNegative(ps)
    ensures (forall x: nat :: Sum(Portions(x, ps)) <= x) <==> SumP(ps) <= 1.0
  {
    if SumP(ps) <= 1.0 {
      forall x: nat ensures Sum(Portions(x, ps)) <= x { FitsAt(x, ps); }
    } else {
      var x := Overflowing(ps);
    }
  }

  lemma ChildPercents(t: Tree, i: nat)
    requires Configured(t) && i < |t|
    ensures Within(t, t[i].children) && NonNegative(Percentages(t, t[i].children))
    ensures Rates(t, t[i].children) == Portions(t[i].rate, Percentages(t, t[i].children))
  {
    ChildrenWithin(t, i);
    forall k | 0 <= k < |t[i].children|
      ensures 0.0 <= t[t[i].children[k]].rateP
              && t[t[i].children[k]].rate == Portion(t[i].rate, t[t[i].children[k]].rateP)
    {
      ChildOf(t, i, k);
      assert Percents(t[t[i].children[k]]) && Derived(t, t[i].children[k]);
    }
  }

  /** Children whose percentages add up to at most one reserve no more than their parent has. */
  lemma ChildRateFits(t: Tree, i: nat)
    requires Configured(t) && i < |t| && ChildRateP(t, i) <= 1.0
    ensures ChildRate(t, i) <= t[i].rate
  {
    ChildPercents(t, i);
    PortionsFit(Percentages(t, t[i].children));
  }

  /** The root's children fit at every capacity exactly when their percentages add up to at most one. */
  lemma RootChildrenFit(t: Tree)
    requires Configured(t)
    ensures (forall c: nat :: Configured(Resize(t, c)) && ChildRate(Resize(t, c), 0) <= c) <==> ChildRateP(t, 0) <= 1.0
  {
    forall c: nat ensures Configured(Resize(t, c)) && ChildRate(Resize(t, c), 0) == Sum(RootPortions(t, c)) {
      ResizeConfigured(t, c);
      ChildPercents(t, 0);
      ChildPercents(Resize(t, c), 0);
      assert Percentages(Resize(t, c), t[0].children) == Percentages(t, t[0].children);
    }
    ChildPercents(t, 0);
    PortionsFit(Percentages(t, t[0].children));
    if ChildRateP(t, 0) > 1.0 {
      var x: nat :| Sum(Portions(x, Percentages(t, t[0].children))) > x;
      assert ChildRate(Resize(t, x), 0) == Sum(RootPortions(t, x)) > x;
    } else {
      forall c: nat ensures ChildRate(Resize(t, c), 0) <= c {
        assert ChildRate(Resize(t, c), 0) == Sum(RootPortions(t, c));
      }
    }
  }

  ghost function RootPortions(t: Tree, c: nat): seq<nat>
    requires Configured(t)
  {
    ChildPercents(t, 0);
    Portions(c, Percentages(t, t[0].children))
  }

  /** The percentages of every bucket's children add up to at most one. */
  ghost predicate Reserved(t: Tree)
    requires Shaped(t)
  {
    forall i | 0 <= i < |t| :: ChildRateP(t, i) <= 1.0
  }

  lemma {:induction false} SumPConcat(a: seq<real>, b: seq<real>)
    ensures SumP(a + b) == SumP(a) + SumP(b)
  {
    if a == [] {
      assert a + b == b;
    } else {
      SumPConcat(a[1..], b);
      assert (a + b)[1..] == a[1..] + b;
    }
  }

  lemma {:induction false} SumPUpdate(s: seq<real>, k: nat, x: real)
    requires k < |s|
    ensures SumP(s[k := x]) == SumP(s) - s[k] + x
  {
    if k > 0 {
      SumPUpdate(s[1..], k - 1, x);
      assert s[k := x][1..] == s[1..][k - 1 := x];
    } else {
      assert s[k := x][1..] == s[1..];
    }
  }

  lemma GrownReserved(t: Tree, r: Tree, i: nat, b: Bucket, j: nat)
    requires Shaped(t) && i < |t| && r == Grown(t, i, b) && Shaped(r) && b.children == [] && j < |r|
    ensures ChildRateP(r, j) == if j == |t| then 0.0 else ChildRateP(t, j) + (if j == i then b.rateP else 0.0)
  {
    ChildrenWithin(r, j);
    if j < |t| {
      ChildrenWithin(t, j);
      var ps, qs := Percentages(t, t[j].children), Percentages(r, r[j].children);
      if j == i {
        assert qs == ps + [b.rateP];
        SumPConcat(ps, [b.rateP]);
      } else {
        assert qs == ps;
      }
    } else {
      assert Percentages(r, r[j].children) == [];
    }
  }

  lemma CreateReserved(t: Tree, i: nat, name: string, rate: real, ceil: real)
    requires Configured(t) && i < |t| && Reserved(t)
    ensures var r := Create(t, i, name, rate, ceil).0; Configured(r) && Reserved(r)
  {
    hide Shaped, ChildRateP, Grown;
    var (r, e) := Create(t, i, name, rate, ceil);
    CreateConfigured(t, i, name, rate, ceil);
    if e == Success {
      forall j | 0 <= j < |r| ensures ChildRateP(r, j) <= 1.0 {
        GrownReserved(t, r, i, NewBucket(t, i, name, rate, ceil), j);
        if j < |t| { assert ChildRateP(t, j) <= 1.0; }
      }
    }
  }

  lemma SameReserved(t: Tree, r: Tree)
    requires Shaped(t) && Reserved(t) && Shaped(r) && SameButConfig(t, r) && forall j | 0 <= j < |t| ::
               r[j].rateP == t[j].rateP
    ensures Reserved(r)
  {
    forall j | 0 <= j < |r| ensures ChildRateP(r, j) <= 1.0 {
      ChildrenWithin(r, j);
      ChildrenWithin(t, j);
      assert ChildRateP(t, j) <= 1.0;
      assert Percentages(r, r[j].children) == Percentages(t, t[j].children);
    }
  }

  /** Neither a new ceiling nor a new capacity touches the reservation. */
  lemma CeilAndSizeReserved(t: Tree, i: nat, q: real, c: nat)
    requires Configured(t) && i < |t| && Reserved(t)
    ensures Configured(SetCeil(t, i, q).0) && Reserved(SetCeil(t, i, q).0)
    ensures Configured(Resize(t, c)) && Reserved(Resize(t, c))
  {
    SetCeilConfigured(t, i, q);
    var r := SetCeil(t, i, q).0;
    if SetCeil(t, i, q).1 == Success {
      CeilOnly(t, i, q);
      SameReserved(t, r);
    }
    ResizeConfigured(t, c);
    SameReserved(t, Resize(t, c));
  }

  lemma CeilOnly(t: Tree, i: nat, q: real)
    requires Configured(t) && 0 < i < |t| && t[i].rateP <= q <= 1.0
    ensures var r := SetCeil(t, i, q).0; |r| == |t| && forall j | 0 <= j < |t| :: r[j].rateP == t[j].rateP
  {
    ParentOf(t, i);
    assert Percents(t[i]);
    var t1 := t[i := t[i].(ceilP := q, ceil := Portion(t[t[i].parent].ceil, q))];
    PercentsOnly(t, t1);
    assert SameButRates(t1, UpdateChildren(t1, i, 0));
  }

  /** setRate does not look at the siblings: it keeps the reservation exactly when the new
      percentage and the siblings' together stay within one. */
  lemma SetRateReserved(t: Tree, i: nat, p: real)
    requires Configured(t) && 0 < i < |t| && Reserved(t) && 0.0 <= p <= t[i].ceilP
    ensures t[i].parent < |t| && Configured(SetRate(t, i, p).0)
    ensures Reserved(SetRate(t, i, p).0) <==> ChildRateP(t, t[i].parent) - t[i].rateP + p <= 1.0
  {
    var r, q := SetRate(t, i, p).0, t[i].parent;
    SetRateConfigured(t, i, p);
    ParentOf(t, i);
    OthersKept(t, i, p);
    forall j | 0 <= j < |t| ensures ChildRateP(r, j) == if j == q then ChildRateP(t, q) - t[i].rateP + p
        else ChildRateP(t, j) {
      ChildrenWithin(r, j);
      ChildrenWithin(t, j);
      var a, b := Percentages(t, t[j].children), Percentages(r, t[j].children);
      if j == q {
        assert ChildrenOk(t, q);
        var k :| 0 <= k < |t[q].children| && t[q].children[k] == i;
        assert b == a[k := p];
        SumPUpdate(a, k, p);
      } else {
        forall k | 0 <= k < |a| ensures a[k] == b[k] { ChildOf(t, j, k); }
        assert a == b;
      }
    }
  }

  lemma OthersKept(t: Tree, i: nat, p: real)
    requires Configured(t) && 0 < i < |t| && 0.0 <= p <= t[i].ceilP
    ensures var r := SetRate(t, i, p).0; |r| == |t| && forall j | 0 <= j < |t| && j != i :: r[j].rateP == t[j].rateP
  {
    ParentOf(t, i);
    assert Percents(t[i]);
    var t1 := t[i := t[i].(rateP := p, rate := Portion(t[t[i].parent].rate, p))];
    PercentsOnly(t, t1);
    assert SameButRates(t1, UpdateChildren(t1, i, 0));
  }
}
