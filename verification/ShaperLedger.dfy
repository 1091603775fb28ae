/**
 * Who holds the tokens: `held[i]` is what was taken at bucket i and not put back there.
 * A bucket's load is what its whole subtree holds.
 */
module ShaperLedger {
  import opened ShaperTree
  import opened ShaperTokens

  type Ledger = seq<nat>

  /** Tokens held at each bucket below i, zero elsewhere. */
  ghost function Share(t: Tree, held: Ledger, i: nat): (s: seq<nat>)
    requires |held| == |t|
  {
    seq(|t|, j requires 0 <= j < |t| => if Above(t, i, j) then held[j] else 0)
  }

  ghost predicate Accounts(t: Tree, held: Ledger) {
    && |held| == |t|
    && forall i | 0 <= i < |t| :: t[i].load == Sum(Share(t, held, i))
  }

  lemma RaisedAccounts(t: Tree, held: Ledger, i: nat, n: nat)
    requires Shaped(t) && i < |t| && Accounts(t, held)
    ensures Accounts(Raised(t, i, n), held[i := held[i] + n])
  {
    var t', held' := Raised(t, i, n), held[i := held[i] + n];
    forall a | 0 <= a < |t| ensures t'[a].load == Sum(Share(t', held', a)) {
      forall j | 0 <= j < |t| ensures Above(t, a, j) <==> Above(t', a, j) { AboveSame(t, t', a, j); }
      var s, s' := Share(t, held, a), Share(t', held', a);
      SumUpdate(s, i, s'[i]);
      assert s' == s[i := s'[i]];
    }
  }

  lemma LoweredAccounts(t: Tree, held: Ledger, i: nat, n: nat)
    requires Shaped(t) && i < |t| && Accounts(t, held) && n <= held[i]
    requires forall j | 0 <= j < |t| && Above(t, j, i) :: n <= t[j].load
    ensures Accounts(Lowered(t, i, n), held[i := held[i] - n])
  {
    var t', held' := Lowered(t, i, n), held[i := held[i] - n];
    forall a | 0 <= a < |t| ensures t'[a].load == Sum(Share(t', held', a)) {
      forall j | 0 <= j < |t| ensures Above(t, a, j) <==> Above(t', a, j) { AboveSame(t, t', a, j); }
      var s, s' := Share(t, held, a), Share(t', held', a);
      SumUpdate(s, i, s'[i]);
      assert s' == s[i := s'[i]];
    }
  }

  /** What the first m children of i hold together, bucket by bucket. */
  ghost function ChildShare(t: Tree, held: Ledger, i: nat, m: nat): (s: seq<nat>)
    requires |held| == |t| && i < |t| && m <= |t[i].children|
  {
    seq(|t|, j requires 0 <= j < |t| =>
      if exists k | 0 <= k < m :: Above(t, t[i].children[k], j) then held[j] else 0)
  }

  lemma {:induction false} ChildLoadShare(t: Tree, held: Ledger, i: nat, m: nat)
    requires Shaped(t) && Accounts(t, held) && i < |t| && m <= |t[i].children|
    ensures Within(t, t[i].children) && Sum(Loads(t, t[i].children)[..m]) == Sum(ChildShare(t, held, i, m))
  {
    ChildrenWithin(t, i);
    var loads := Loads(t, t[i].children);
    if m == 0 {
      SumZero(ChildShare(t, held, i, 0));
    } else {
      ChildLoadShare(t, held, i, m - 1);
      var c := t[i].children[m - 1];
      assert loads[..m] == loads[..m - 1] + [loads[m - 1]];
      SumConcat(loads[..m - 1], [loads[m - 1]]);
      var a, b, s := ChildShare(t, held, i, m - 1), Share(t, held, c), ChildShare(t, held, i, m);
      forall j | 0 <= j < |t| ensures s[j] == a[j] + b[j] { OneMoreChild(t, held, i, m, j); }
      SumAdd(a, b, s);
    }
  }

  lemma OneMoreChild(t: Tree, held: Ledger, i: nat, m: nat, j: nat)
    requires Shaped(t) && |held| == |t| && i < |t| && 0 < m <= |t[i].children| && j < |t|
    ensures ChildShare(t, held, i, m)[j] == ChildShare(t, held, i, m - 1)[j] + Share(t, held, t[i].children[m - 1])[j]
  {
    if Above(t, t[i].children[m - 1], j) {
      forall k | 0 <= k < m - 1 ensures !Above(t, t[i].children[k], j) { ChildrenApart(t, i, m - 1, k, j); }
    }
  }

  /** A bucket's load is what it holds itself plus the loads of its children. */
  lemma OwnTokens(t: Tree, held: Ledger, i: nat)
    requires Shaped(t) && Accounts(t, held) && i < |t|
    ensures t[i].load == held[i] + ChildLoad(t, i)
  {
    var m := |t[i].children|;
    ChildLoadShare(t, held, i, m);
    var loads := Loads(t, t[i].children);
    assert loads[..m] == loads;
    var a, s := ChildShare(t, held, i, m), Share(t, held, i);
    forall j | 0 <= j < |t| ensures s[i := 0][j] == a[j] {
      if j == i {
        forall k | 0 <= k < m ensures !Above(t, t[i].children[k], i) {
          if Above(t, t[i].children[k], i) { ChildBelow(t, i, k, i); }
        }
      } else if Above(t, i, j) {
        AboveBounds(t, i, j);
        var k := BelowChild(t, i, j);
      } else {
        forall k | 0 <= k < m ensures !Above(t, t[i].children[k], j) {
          if Above(t, t[i].children[k], j) { ChildBelow(t, i, k, j); }
        }
      }
    }
    assert s[i := 0] == a;
    SumUpdate(s, i, 0);
  }

  lemma AccountsCovered(t: Tree, held: Ledger)
    requires Shaped(t) && Accounts(t, held)
    ensures Covered(t)
  {
    forall i | 0 <= i < |t| ensures ChildLoad(t, i) <= t[i].load { OwnTokens(t, held, i); }
  }

  /** get books what it gives. */
  lemma GetBooks(t: Tree, held: Ledger, i: nat, n: nat)
    requires Shaped(t) && i < |t| && Accounts(t, held)
    ensures var (t', k) := Get(t, i, n); Accounts(t', held[i := held[i] + k])
  {
    GetOutcome(t, i, n);
    if Granted(t, i, n) {
      RaisedAccounts(t, held, i, n);
    } else {
      assert held[i := held[i] + 0] == held;
    }
  }

  /** put goes through exactly when the bucket itself holds n tokens, and books their return. */
  lemma PutBooks(t: Tree, held: Ledger, i: nat, n: nat)
    requires Shaped(t) && i < |t| && Accounts(t, held)
    ensures PutBack(t, i, n).Done? <==> n <= held[i]
    ensures n <= held[i] ==> SameButLoads(t, PutBack(t, i, n).tree) && Accounts(PutBack(t, i, n).tree,
            held[i := held[i] - n])
  {
    AccountsCovered(t, held);
    OwnTokens(t, held, i);
    PutOutcome(t, i, n);
    if n <= held[i] { LoweredAccounts(t, held, i, n); }
  }

  /** put takes back what get gave: the tree is the one before. */
  lemma PutUndoesGet(t: Tree, i: nat, n: nat)
    requires Shaped(t) && Covered(t) && i < |t| && Get(t, i, n).1 == n
    ensures Shaped(Get(t, i, n).0) && PutBack(Get(t, i, n).0, i, n) == Done(t)
  {
    hide Shaped, Get, PutBack, Granted, ChildLoad;
    GetOutcome(t, i, n);
    RaisedZero(t, i);
    var t' := Raised(t, i, n);
    LoadsOnly(t, t');
    RaisedCovered(t, i, n);
    PutOutcome(t', i, n);
    forall j | 0 <= j < |t| ensures Above(t, j, i) <==> Above(t', j, i) { AboveSame(t, t', j, i); }
    assert MayLower(t', i, n) by { RaisedChildren(t, i, n, i); }
    assert Lowered(t', i, n) == t;
  }

  /** Raising the path to i raises a bucket's children by n if one of them is on it. */
  lemma RaisedChildren(t: Tree, i: nat, n: nat, a: nat)
    requires Shaped(t) && i < |t| && a < |t|
    ensures Shaped(Raised(t, i, n))
    ensures ChildLoad(Raised(t, i, n), a) == ChildLoad(t, a) + (if a != i && Above(t, a, i) then n else 0)
  {
    LoadsOnly(t, Raised(t, i, n));
    if a != i && Above(t, a, i) {
      AboveBounds(t, a, i);
      var k := BelowChild(t, a, i);
      RaisedChild(t, i, n, a, k);
    } else {
      RaisedNone(t, i, n, a);
    }
  }

  lemma RaisedChild(t: Tree, i: nat, n: nat, a: nat, k: nat)
    requires Shaped(t) && i < |t| && a < |t| && k < |t[a].children| && Above(t, t[a].children[k], i)
    requires Shaped(Raised(t, i, n))
    ensures ChildLoad(Raised(t, i, n), a) == ChildLoad(t, a) + n
  {
    hide Shaped, Above;
    var t' := Raised(t, i, n);
    ChildrenWithin(t, a);
    ChildrenWithin(t', a);
    var s, s' := Loads(t, t[a].children), Loads(t', t[a].children);
    forall l | 0 <= l < |s| && l != k ensures s'[l] == s[l] { ChildrenApart(t, a, k, l, i); }
    assert s' == s[k := s[k] + n];
    SumUpdate(s, k, s[k] + n);
  }

  lemma RaisedNone(t: Tree, i: nat, n: nat, a: nat)
    requires Shaped(t) && i < |t| && a < |t| && (a == i || !Above(t, a, i))
    requires Shaped(Raised(t, i, n))
    ensures ChildLoad(Raised(t, i, n), a) == ChildLoad(t, a)
  {
    hide Shaped, Above;
    var t' := Raised(t, i, n);
    ChildrenWithin(t, a);
    ChildrenWithin(t', a);
    var s, s' := Loads(t, t[a].children), Loads(t', t[a].children);
    forall k | 0 <= k < |s| ensures s'[k] == s[k] {
      if Above(t, t[a].children[k], i) { ChildBelow(t, a, k, i); }
    }
    assert s' == s;
  }

  lemma RaisedCovered(t: Tree, i: nat, n: nat)
    requires Shaped(t) && Covered(t) && i < |t|
    ensures Shaped(Raised(t, i, n)) && Covered(Raised(t, i, n))
  {
    LoadsOnly(t, Raised(t, i, n));
    forall a | 0 <= a < |t| ensures ChildLoad(Raised(t, i, n), a) <= Raised(t, i, n)[a].load {
      RaisedChildren(t, i, n, a);
    }
  }
}
