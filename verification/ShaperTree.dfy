/**
 * The value of a token shaper: its buckets in creation order.
 *
 * Bucket 0 is the root. Every other bucket names an older one as its parent, so walking to
 * the parent goes down in the sequence and walking to a child goes up.
 */
module ShaperTree {
  type Packet = nat

  datatype Item = Item(token: Packet, ctime: int)

  datatype Error = Success | RateLimitOverflow | CeilLimitOverflow | NameConflict | InvalidChildNode

  /** The fields of one node. The root's `parent` has no meaning and is 0. */
  datatype Bucket = Bucket(name: string, rate: nat, ceil: nat, rateP: real, ceilP: real,
                           parent: nat, children: seq<nat>, load: nat,
                           queue: seq<Item>, queued: nat, dropped: nat, timeout: int, offset: nat)

  type Tree = seq<Bucket>

  // ---------------------------------------------------------------- shape

  ghost predicate ChildrenOk(t: Tree, i: nat)
    requires i < |t|
  {
    && (forall k | 0 <= k < |t[i].children| :: i < t[i].children[k] < |t| && t[t[i].children[k]].parent == i)
    && (forall k, l | 0 <= k < l < |t[i].children| :: t[i].children[k] != t[i].children[l])
    && (t[i].offset == 0 || t[i].offset < |t[i].children|)
  }

  ghost predicate ParentOk(t: Tree, i: nat)
    requires i < |t|
  {
    if i == 0 then t[i].parent == 0 else t[i].parent < i && i in t[t[i].parent].children
  }

  ghost predicate Shaped(t: Tree) {
    && |t| > 0
    && (forall i | 0 <= i < |t| :: ParentOk(t, i))
    && (forall i | 0 <= i < |t| :: ChildrenOk(t, i))
  }

  /** The two trees have the same buckets in the same places. */
  ghost predicate SameShape(t: Tree, t': Tree) {
    |t| == |t'| && forall i | 0 <= i < |t| ::
      t'[i].parent == t[i].parent && t'[i].children == t[i].children
  }

  ghost predicate OffsetsOk(t: Tree) {
    forall i | 0 <= i < |t| :: t[i].offset == 0 || t[i].offset < |t[i].children|
  }

  lemma SameShaped(t: Tree, t': Tree)
    requires Shaped(t) && SameShape(t, t') && OffsetsOk(t')
    ensures Shaped(t')
  {
    forall i | 0 <= i < |t'| ensures ParentOk(t', i) && ChildrenOk(t', i) {
      assert ParentOk(t, i) && ChildrenOk(t, i);
      if i > 0 { assert t'[t'[i].parent].children == t[t[i].parent].children; }
    }
  }

  lemma ChildOf(t: Tree, i: nat, k: nat)
    requires Shaped(t) && i < |t| && k < |t[i].children|
    ensures i < t[i].children[k] < |t| && t[t[i].children[k]].parent == i
  {
    assert ChildrenOk(t, i);
  }

  lemma ParentOf(t: Tree, i: nat)
    requires Shaped(t) && 0 < i < |t|
    ensures t[i].parent < i && i in t[t[i].parent].children
  {
    assert ParentOk(t, i);
  }

  /** Bucket a is i itself or one of its ancestors. */
  ghost predicate Above(t: Tree, a: nat, i: nat)
    requires i < |t|
    decreases i
  {
    a == i || (i > 0 && t[i].parent < i && Above(t, a, t[i].parent))
  }

  lemma {:induction false} AboveBounds(t: Tree, a: nat, i: nat)
    requires i < |t| && Above(t, a, i)
    ensures a <= i
    decreases i
  {
    if a != i { AboveBounds(t, a, t[i].parent); }
  }

  lemma {:induction false} AboveSame(t: Tree, t': Tree, a: nat, i: nat)
    requires SameShape(t, t') && i < |t|
    ensures Above(t, a, i) <==> Above(t', a, i)
    decreases i
  {
    if a != i && i > 0 && t[i].parent < i { AboveSame(t, t', a, t[i].parent); }
  }

  lemma {:induction false} AboveTrans(t: Tree, a: nat, b: nat, i: nat)
    requires b <= i < |t| && Above(t, a, b) && Above(t, b, i)
    ensures Above(t, a, i)
    decreases i
  {
    if b != i {
      AboveBounds(t, b, t[i].parent);
      AboveTrans(t, a, b, t[i].parent);
    }
  }

  /** Two ancestors of one bucket lie on one line. */
  lemma {:induction false} AboveLinear(t: Tree, a: nat, b: nat, i: nat)
    requires i < |t| && Above(t, a, i) && Above(t, b, i) && a <= b
    ensures b < |t| && Above(t, a, b)
    decreases i
  {
    AboveBounds(t, b, i);
    if b != i && a != i {
      AboveLinear(t, a, b, t[i].parent);
    } else {
      AboveBounds(t, a, i);
    }
  }

  lemma {:induction false} RootAbove(t: Tree, i: nat)
    requires Shaped(t) && i < |t|
    ensures Above(t, 0, i)
    decreases i
  {
    if i > 0 {
      ParentOf(t, i);
      RootAbove(t, t[i].parent);
    }
  }

  /** What lies strictly below a bucket lies below one of its children. */
  lemma {:induction false} BelowChild(t: Tree, i: nat, j: nat) returns (k: nat)
    requires Shaped(t) && i < j < |t| && Above(t, i, j)
    ensures k < |t[i].children| && Above(t, t[i].children[k], j)
    decreases j
  {
    ParentOf(t, j);
    if t[j].parent == i {
      k :| 0 <= k < |t[i].children| && t[i].children[k] == j;
    } else {
      AboveBounds(t, i, t[j].parent);
      k := BelowChild(t, i, t[j].parent);
    }
  }

  lemma ChildBelow(t: Tree, i: nat, k: nat, j: nat)
    requires Shaped(t) && i < |t| && k < |t[i].children| && j < |t| && Above(t, t[i].children[k], j)
    ensures i < j && Above(t, i, j)
  {
    ChildOf(t, i, k);
    AboveBounds(t, t[i].children[k], j);
    assert Above(t, i, t[i].children[k]);
    AboveTrans(t, i, t[i].children[k], j);
  }

  /** No bucket lies below two children of one parent. */
  lemma ChildrenApart(t: Tree, i: nat, k: nat, l: nat, j: nat)
    requires Shaped(t) && i < |t| && k < |t[i].children| && l < |t[i].children| && k != l && j < |t|
    requires Above(t, t[i].children[k], j)
    ensures !Above(t, t[i].children[l], j)
  {
    var a, b := t[i].children[k], t[i].children[l];
    ChildOf(t, i, k);
    ChildOf(t, i, l);
    assert ChildrenOk(t, i);
    assert a != b;
    if Above(t, b, j) {
      if a <= b {
        AboveLinear(t, a, b, j);
        AboveBounds(t, a, i);
      } else {
        AboveLinear(t, b, a, j);
        AboveBounds(t, b, i);
      }
      assert false;
    }
  }

  // ---------------------------------------------------------------- sums

  function Sum(s: seq<nat>): nat {
    if s == [] then 0 else s[0] + Sum(s[1..])
  }

  lemma {:induction false} SumUpdate(s: seq<nat>, k: nat, x: nat)
    requires k < |s|
    ensures Sum(s[k := x]) + s[k] == Sum(s) + x
  {
    if k > 0 {
      SumUpdate(s[1..], k - 1, x);
      assert s[k := x][1..] == s[1..][k - 1 := x];
    } else {
      assert s[k := x][1..] == s[1..];
    }
  }

  lemma {:induction false} SumAdd(a: seq<nat>, b: seq<nat>, c: seq<nat>)
    requires |a| == |b| == |c| && forall k | 0 <= k < |a| :: c[k] == a[k] + b[k]
    ensures Sum(c) == Sum(a) + Sum(b)
  {
    if a != [] { SumAdd(a[1..], b[1..], c[1..]); }
  }

  lemma {:induction false} SumZero(a: seq<nat>)
    requires forall k | 0 <= k < |a| :: a[k] == 0
    ensures Sum(a) == 0
  {
    if a != [] { SumZero(a[1..]); }
  }

  lemma {:induction false} SumMono(a: seq<nat>, b: seq<nat>)
    requires |a| == |b| && forall k | 0 <= k < |a| :: a[k] <= b[k]
    ensures Sum(a) <= Sum(b)
  {
    if a != [] { SumMono(a[1..], b[1..]); }
  }

  lemma {:induction false} SumConcat(a: seq<nat>, b: seq<nat>)
    ensures Sum(a + b) == Sum(a) + Sum(b)
  {
    if a == [] {
      assert a + b == b;
    } else {
      SumConcat(a[1..], b);
      assert (a + b)[1..] == a[1..] + b;
    }
  }

  lemma {:induction false} SumElem(s: seq<nat>, k: nat)
    requires k < |s|
    ensures s[k] <= Sum(s)
  {
    if k > 0 { SumElem(s[1..], k - 1); }
  }

  ghost predicate Within(t: Tree, ids: seq<nat>) {
    forall k | 0 <= k < |ids| :: ids[k] < |t|
  }

  lemma ChildrenWithin(t: Tree, i: nat)
    requires Shaped(t) && i < |t|
    ensures Within(t, t[i].children)
  {
    assert ChildrenOk(t, i);
  }

  function Over(b: Bucket): nat {
    if b.load > b.rate then b.load - b.rate else 0
  }

  function Loads(t: Tree, ids: seq<nat>): seq<nat>
    requires Within(t, ids)
  {
    seq(|ids|, k requires 0 <= k < |ids| => t[ids[k]].load)
  }

  function Rates(t: Tree, ids: seq<nat>): seq<nat>
    requires Within(t, ids)
  {
    seq(|ids|, k requires 0 <= k < |ids| => t[ids[k]].rate)
  }

  function Overs(t: Tree, ids: seq<nat>): seq<nat>
    requires Within(t, ids)
  {
    seq(|ids|, k requires 0 <= k < |ids| => Over(t[ids[k]]))
  }

  /** Tokens in use by, tokens reserved for, and tokens borrowed by the children of bucket i. */
  function ChildLoad(t: Tree, i: nat): nat
    requires Shaped(t) && i < |t|
  {
    ChildrenWithin(t, i);
    Sum(Loads(t, t[i].children))
  }

  function ChildRate(t: Tree, i: nat): nat
    requires Shaped(t) && i < |t|
  {
    ChildrenWithin(t, i);
    Sum(Rates(t, t[i].children))
  }

  function ChildOver(t: Tree, i: nat): nat
    requires Shaped(t) && i < |t|
  {
    ChildrenWithin(t, i);
    Sum(Overs(t, t[i].children))
  }
}
