/** Taking tokens from a bucket, borrowing through its ancestors, and putting them back. */
module ShaperTokens {
  import opened ShaperTree

  function Max(a: nat, b: nat): nat { if a >= b then a else b }

  /** The bucket can serve n tokens out of what its own rate leaves unreserved. */
  predicate Assured(t: Tree, i: nat, n: nat)
    requires Shaped(t) && i < |t|
  {
    Max(t[i].load, ChildRate(t, i) + ChildOver(t, i)) + n <= t[i].rate
  }

  function AddLoad(t: Tree, i: nat, n: nat): (r: Tree)
    requires i < |t|
  {
    t[i := t[i].(load := t[i].load + n)]
  }

  lemma LoadsOnly(t: Tree, t': Tree)
    requires Shaped(t) && SameButLoads(t, t')
    ensures Shaped(t')
  {
    SameShaped(t, t') by { forall i | 0 <= i < |t|
      ensures t[i].offset == 0 || t[i].offset < |t[i].children| { assert ChildrenOk(t, i); } }
  }

  ghost predicate SameButLoads(t: Tree, t': Tree) {
    |t| == |t'| && forall i | 0 <= i < |t| :: t'[i] == t[i].(load := t'[i].load)
  }

  /** Adds n to bucket i and to every ancestor, one after the other. */
  function Charge(t: Tree, i: nat, n: nat): (r: Tree)
    requires Shaped(t) && i < |t|
    ensures SameButLoads(t, r)
    decreases i
  {
    var t1 := AddLoad(t, i, n);
    LoadsOnly(t, t1);
    if i == 0 then t1 else
    ParentOf(t, i);
    Charge(t1, t[i].parent, n)
  }

  function Get(t: Tree, i: nat, n: nat): (r: (Tree, nat))
    requires Shaped(t) && i < |t|
    ensures SameButLoads(t, r.0)
    decreases i
  {
    if Assured(t, i, n) then (Charge(t, i, n), n)
    else if t[i].load + n <= t[i].ceil && i > 0 then
      ParentOf(t, i);
      var (t1, k) := Get(t, t[i].parent, n);
      if k != 0 then (AddLoad(t1, i, n), n) else (t1, 0)
    else (t, 0)
  }

  // ---------------------------------------------------------------- what get does

  /** Bucket i and its ancestors, in the order get asks them. */
  function Path(t: Tree, i: nat): (p: seq<nat>)
    requires Shaped(t) && i < |t|
    ensures |p| > 0 && forall k | 0 <= k < |p| :: p[k] < |t|
    decreases i
  {
    if i == 0 then [0] else
    ParentOf(t, i);
    [i] + Path(t, t[i].parent)
  }

  /** Everyone get asks lies above the bucket. */
  lemma {:induction false} PathAbove(t: Tree, i: nat, k: nat)
    requires Shaped(t) && i < |t| && k < |Path(t, i)|
    ensures Above(t, Path(t, i)[k], i)
    decreases i
  {
    if k > 0 {
      ParentOf(t, i);
      PathAbove(t, t[i].parent, k - 1);
    }
  }

  ghost predicate LendsAt(t: Tree, p: seq<nat>, n: nat, k: nat)
    requires Shaped(t) && forall j | 0 <= j < |p| :: p[j] < |t|
  {
    && k < |p|
    && Assured(t, p[k], n)
    && (forall j | 0 <= j < k :: t[p[j]].load + n <= t[p[j]].ceil)
  }

  /** Some bucket on the path can serve n tokens and everyone below it stays under its ceiling. */
  ghost predicate Granted(t: Tree, i: nat, n: nat)
    requires Shaped(t) && i < |t|
  {
    exists k: nat :: LendsAt(t, Path(t, i), n, k)
  }

  ghost function Raised(t: Tree, i: nat, n: nat): (r: Tree)
    requires Shaped(t) && i < |t|
    ensures SameButLoads(t, r)
  {
    seq(|t|, j requires 0 <= j < |t| => if Above(t, j, i) then t[j].(load := t[j].load + n) else t[j])
  }

  lemma {:induction false} ChargeRaises(t: Tree, i: nat, n: nat)
    requires Shaped(t) && i < |t|
    ensures Charge(t, i, n) == Raised(t, i, n)
    decreases i
  {
    var t1 := AddLoad(t, i, n);
    LoadsOnly(t, t1);
    if i > 0 {
      ParentOf(t, i);
      ChargeRaises(t1, t[i].parent, n);
    }
    forall j | 0 <= j < |t| ensures Charge(t, i, n)[j] == Raised(t, i, n)[j] {
      if i > 0 {
        AboveSame(t, t1, j, t[i].parent);
        if j == i && Above(t, i, t[i].parent) { AboveBounds(t, i, t[i].parent); }
      }
    }
  }

  lemma GrantedUp(t: Tree, i: nat, n: nat)
    requires Shaped(t) && 0 < i < |t| && !Assured(t, i, n)
    requires t[i].parent < i
    ensures Granted(t, i, n) <==> t[i].load + n <= t[i].ceil && Granted(t, t[i].parent, n)
  {
    var p, q := Path(t, i), Path(t, t[i].parent);
    assert p == [i] + q;
    if Granted(t, i, n) {
      var k: nat :| LendsAt(t, p, n, k);
      assert k > 0 && p[0] == i;
      assert p[k] == q[k - 1];
      forall j | 0 <= j < k - 1 ensures t[q[j]].load + n <= t[q[j]].ceil { assert q[j] == p[j + 1]; }
      assert LendsAt(t, q, n, k - 1);
    }
    if t[i].load + n <= t[i].ceil && Granted(t, t[i].parent, n) {
      var k: nat :| LendsAt(t, q, n, k);
      assert p[k + 1] == q[k];
      forall j | 0 <= j < k + 1 ensures t[p[j]].load + n <= t[p[j]].ceil {
        if j > 0 { assert p[j] == q[j - 1]; }
      }
      assert LendsAt(t, p, n, k + 1);
    }
  }

  /** get gives all n tokens or none. It gives them exactly when someone on the path can lend
      them, and then the bucket and every ancestor, and nothing else, go up by n. */
  lemma {:induction false} GetOutcome(t: Tree, i: nat, n: nat)
    requires Shaped(t) && i < |t|
    ensures Get(t, i, n) == if Granted(t, i, n) then (Raised(t, i, n), n) else (t, 0)
    decreases i
  {
    if Assured(t, i, n) {
      assert LendsAt(t, Path(t, i), n, 0);
      ChargeRaises(t, i, n);
    } else if i == 0 {
      assert !Granted(t, i, n);
    } else {
      ParentOf(t, i);
      GrantedUp(t, i, n);
      if t[i].load + n <= t[i].ceil {
        GetOutcome(t, t[i].parent, n);
        RaisedUp(t, i, n);
        if n == 0 { RaisedZero(t, i); RaisedZero(t, t[i].parent); }
      }
    }
  }

  lemma RaisedUp(t: Tree, i: nat, n: nat)
    requires Shaped(t) && 0 < i < |t| && t[i].parent < i
    ensures Raised(t, i, n) == AddLoad(Raised(t, t[i].parent, n), i, n)
  {
    if Above(t, i, t[i].parent) { AboveBounds(t, i, t[i].parent); }
  }

  lemma RaisedZero(t: Tree, i: nat)
    requires Shaped(t) && i < |t|
    ensures Raised(t, i, 0) == t
  {
  }

  // ---------------------------------------------------------------- put

  datatype Put = Aborted | Done(tree: Tree)

  /** The two assertions put makes at a bucket before lowering it. */
  predicate MayLower(t: Tree, i: nat, n: nat)
    requires Shaped(t) && i < |t|
  {
    n <= t[i].load && ChildLoad(t, i) <= t[i].load - n
  }

  /** Lowers bucket i and then every ancestor by n, checking the assertions at each of them. */
  function PutBack(t: Tree, i: nat, n: nat): (r: Put)
    requires Shaped(t) && i < |t|
    decreases i
  {
    if !MayLower(t, i, n) then Aborted else
    var t1 := t[i := t[i].(load := t[i].load - n)];
    if i == 0 then Done(t1) else
    ParentOf(t, i);
    LoadsOnly(t, t1);
    PutBack(t1, t[i].parent, n)
  }

  /** No bucket's children use more than the bucket itself. */
  ghost predicate Covered(t: Tree)
    requires Shaped(t)
  {
    forall i | 0 <= i < |t| :: ChildLoad(t, i) <= t[i].load
  }

  ghost function Lowered(t: Tree, i: nat, n: nat): (r: Tree)
    requires Shaped(t) && i < |t|
    requires forall j | 0 <= j < |t| && Above(t, j, i) :: n <= t[j].load
    ensures SameButLoads(t, r)
  {
    seq(|t|, j requires 0 <= j < |t| => if Above(t, j, i) then t[j].(load := t[j].load - n) else t[j])
  }

  lemma ChildLoadAt(t: Tree, i: nat, k: nat)
    requires Shaped(t) && i < |t| && k < |t[i].children|
    ensures t[i].children[k] < |t| && t[t[i].children[k]].load <= ChildLoad(t, i)
  {
    ChildrenWithin(t, i);
    SumElem(Loads(t, t[i].children), k);
  }

  /** Under Covered, loads only grow towards the root. */
  lemma {:induction false} LoadGrowsUp(t: Tree, a: nat, i: nat)
    requires Shaped(t) && Covered(t) && i < |t| && Above(t, a, i)
    ensures a < |t| && t[i].load <= t[a].load
    decreases i
  {
    if a != i {
      var p := t[i].parent;
      ParentOf(t, i);
      var k :| 0 <= k < |t[p].children| && t[p].children[k] == i;
      ChildLoadAt(t, p, k);
      LoadGrowsUp(t, a, p);
    }
  }

  /** What ChildLoad sees when one child has been lowered. */
  lemma ChildLoadLowered(t: Tree, t1: Tree, p: nat, i: nat, n: nat)
    requires Shaped(t) && Shaped(t1) && SameShape(t, t1) && p < i < |t| && t[i].parent == p
    requires n <= t[i].load && t1[i].load == t[i].load - n
    requires forall j | 0 <= j < |t| && j != i && t[j].parent == p :: t1[j].load == t[j].load
    ensures ChildLoad(t1, p) == ChildLoad(t, p) - n
  {
    ParentOf(t, i);
    ChildrenWithin(t, p);
    ChildrenWithin(t1, p);
    assert ChildrenOk(t, p);
    var k :| 0 <= k < |t[p].children| && t[p].children[k] == i;
    var a, b := Loads(t, t[p].children), Loads(t1, t[p].children);
    assert b == a[k := a[k] - n];
    SumUpdate(a, k, a[k] - n);
  }

  /** The tree while put walks up: everything strictly below bucket i on the way is lowered. */
  lemma {:induction false} PutWalk(t: Tree, t1: Tree, i: nat, n: nat)
    requires Shaped(t) && Shaped(t1) && Covered(t) && i < |t| && SameButLoads(t, t1)
    requires forall j | 0 <= j <= i :: t1[j] == t[j]
    requires MayLower(t1, i, n)
    requires forall j | 0 < j < |t| && t[j].parent < i && j != i :: t1[j] == t[j]
    ensures forall j | 0 <= j < |t| && Above(t, j, i) :: n <= t[j].load
    ensures PutBack(t1, i, n) == Done(seq(|t|, j requires 0 <= j < |t| =>
              if Above(t, j, i) then t1[j].(load := t[j].load - n) else t1[j]))
    decreases i
  {
    forall j | 0 <= j < |t| && Above(t, j, i) ensures n <= t[j].load { LoadGrowsUp(t, j, i); }
    var t2 := t1[i := t1[i].(load := t1[i].load - n)];
    LoadsOnly(t1, t2);
    if i > 0 {
      var p := t[i].parent;
      ParentOf(t, i);
      ChildLoadLowered(t, t2, p, i, n);
      LoadGrowsUp(t, p, i);
      PutWalk(t, t2, p, n);
      if Above(t, i, p) { AboveBounds(t, i, p); }
    }
  }

  /** When the assertions hold at the bucket itself they hold on the whole way up. */
  lemma PutOutcome(t: Tree, i: nat, n: nat)
    requires Shaped(t) && Covered(t) && i < |t|
    ensures MayLower(t, i, n) ==>
              && (forall j | 0 <= j < |t| && Above(t, j, i) :: n <= t[j].load)
              && PutBack(t, i, n) == Done(Lowered(t, i, n))
    ensures !MayLower(t, i, n) ==> PutBack(t, i, n) == Aborted
  {
    if MayLower(t, i, n) { PutWalk(t, t, i, n); }
  }

  // ---------------------------------------------------------------- one step of each walk

  lemma ChargeStep(t: Tree, i: nat, n: nat)
    requires Shaped(t) && i < |t|
    ensures var t1 := AddLoad(t, i, n);
            if i == 0 then Charge(t, i, n) == t1
            else t[i].parent < i && Shaped(t1) && Charge(t, i, n) == Charge(t1, t[i].parent, n)
  {
    LoadsOnly(t, AddLoad(t, i, n));
    if i > 0 { ParentOf(t, i); }
  }

  lemma PutStep(t: Tree, i: nat, n: nat)
    requires Shaped(t) && i < |t|
    ensures !MayLower(t, i, n) ==> PutBack(t, i, n) == Aborted
    ensures MayLower(t, i, n) ==>
              var t1 := t[i := t[i].(load := t[i].load - n)];
              if i == 0 then PutBack(t, i, n) == Done(t1)
              else t[i].parent < i && Shaped(t1) && PutBack(t, i, n) == PutBack(t1, t[i].parent, n)
  {
    if MayLower(t, i, n) { LoadsOnly(t, t[i := t[i].(load := t[i].load - n)]); }
    if i > 0 { ParentOf(t, i); }
  }
}
