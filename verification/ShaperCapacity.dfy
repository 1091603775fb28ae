/** How far loads can rise: ceilings at the leaves, and the capacity of a root from which tokens are only borrowed. */
module ShaperCapacity {
  import opened ShaperTree
  import opened ShaperTokens
  import opened ShaperLedger
  import opened ShaperRates
  import opened ShaperReserve
  import opened ShaperQueues
  import opened ShaperRuns

  // ---------------------------------------------------------------- ceilings

  ghost predicate LeavesWithin(t: Tree) {
    forall i | 0 <= i < |t| && t[i].children == [] :: t[i].load <= t[i].ceil
  }

  lemma LeafGranted(t: Tree, i: nat, n: nat)
    requires Configured(t) && i < |t| && Granted(t, i, n)
    ensures t[i].load + n <= t[i].ceil || t[i].children != []
  {
    var p := Path(t, i);
    assert p[0] == i;
    var k: nat :| LendsAt(t, p, n, k);
    RateWithinCeil(t, i);
  }

  lemma LeafAbove(t: Tree, a: nat, i: nat)
    requires Shaped(t) && a < |t| && t[a].children == [] && i < |t| && Above(t, a, i)
    ensures a == i
  {
    if a != i {
      AboveBounds(t, a, i);
      var k := BelowChild(t, a, i);
    }
  }

  lemma RaisedLeaves(t: Tree, i: nat, n: nat)
    requires Configured(t) && LeavesWithin(t) && i < |t| && Granted(t, i, n)
    ensures LeavesWithin(Raised(t, i, n))
  {
    forall a | 0 <= a < |t| && t[a].children == [] ensures Raised(t, i, n)[a].load <= t[a].ceil {
      if Above(t, a, i) {
        LeafAbove(t, a, i);
        LeafGranted(t, i, n);
      }
    }
  }

  /** Setting rates, ceilings or the capacity is the only way to push a leaf past its ceiling. */
  predicate KeepsRates(op: Op) {
    !op.Rerate? && !op.Receil? && !op.Rerange? && !op.Recapacity?
  }

  lemma TakeLeaves(t: Tree, i: nat, n: nat)
    requires Configured(t) && LeavesWithin(t) && i < |t|
    ensures LeavesWithin(Get(t, i, n).0)
  {
    GetOutcome(t, i, n);
    if Granted(t, i, n) { RaisedLeaves(t, i, n); }
  }

  lemma PutLeaves(t: Tree, held: Ledger, i: nat, n: nat)
    requires Shaped(t) && Accounts(t, held) && LeavesWithin(t) && i < |t| && PutBack(t, i, n).Done?
    ensures LeavesWithin(PutBack(t, i, n).tree)
  {
    AccountsCovered(t, held);
    PutOutcome(t, i, n);
  }

  lemma ServeLeaves(t: Tree, i: nat)
    requires Configured(t) && Counted(t) && LeavesWithin(t) && i < |t|
    ensures LeavesWithin(Dequeue(t, i).0)
  {
    hide Configured, Dequeue, Ready, Granted, Deliverable, Counted, Toward;
    var q, j := DequeueOutcome(t, i) by { ConfiguredShaped(t); }
    ConfiguredShaped(t);
    if Deliverable(t, i) {
      RaisedLeaves(t, j, 1);
      forall a | 0 <= a < |t| ensures Served(t, i, j)[a].load == Raised(t, j, 1)[a].load
                              && Served(t, i, j)[a].ceil == t[a].ceil
                              && Served(t, i, j)[a].children == t[a].children { }
    }
  }

  lemma ConfiguredShaped(t: Tree)
    requires Configured(t)
    ensures Shaped(t)
  {
  }

  lemma StepLeaves(s: State, op: Op)
    requires Consistent(s) && Callable(s, op) && LeavesWithin(s.tree) && KeepsRates(op) && Step(s, op).Some?
    ensures LeavesWithin(Step(s, op).value.tree)
  {
    hide Configured, Accounts, Conserved, Get, PutBack, Dequeue, UniqueNames, Shaped, FindChild;
    ConsistentParts(s);
    match op
    case Add(i, name, p, q) =>
    case Rename(i, name) =>
    case Take(i, n) => TakeLeaves(s.tree, i, n);
    case GiveBack(i, n) => PutLeaves(s.tree, s.held, i, n);
    case Send(i, x, n, now, later) =>
      TakeLeaves(s.tree, i, n);
      WaitLeaves(s.tree, i, Append(s.tree[i], Item(x, now)), later);
    case Enqueue(i, x, now, later) => WaitLeaves(s.tree, i, Append(s.tree[i], Item(x, now)), later);
    case Serve(i) => ServeLeaves(s.tree, i);
    case Tick(i, now) => WaitLeaves(s.tree, i, s.tree[i], now);
  }

  lemma WaitLeaves(t: Tree, i: nat, b: Bucket, later: int)
    requires LeavesWithin(t) && i < |t| && b == t[i].(queue := b.queue, queued := b.queued) && b.queued == |b.queue|
    ensures LeavesWithin(t[i := Expire(b, later)])
  {
    ExpireDrops(b, later);
  }

  /** For as long as rates and ceilings are left alone, no leaf's load ever exceeds its ceiling. */
  lemma {:induction false} RunLeaves(s: State, ops: seq<Op>, s': State)
    requires Consistent(s) && LeavesWithin(s.tree) && Runs(s, ops, s') && forall op | op in ops :: KeepsRates(op)
    ensures LeavesWithin(s'.tree)
    decreases |ops|
  {
    if ops != [] {
      StepLeaves(s, ops[0]);
      StepConsistent(s, ops[0]);
      RunLeaves(Step(s, ops[0]).value, ops[1..], s');
    }
  }

  // ---------------------------------------------------------------- tokens taken below the root

  /** Only buckets directly below the root are assured anything. A root with leaves is of this kind. */
  ghost predicate FlatRates(t: Tree) {
    Shaped(t) && forall i | 0 < i < |t| && t[i].parent != 0 :: t[i].rate == 0
  }

  /** The larger of load and rate, child by child. */
  ghost function Peaks(t: Tree): seq<nat>
    requires Shaped(t)
  {
    ChildrenWithin(t, 0);
    seq(|t[0].children|, k requires 0 <= k < |t[0].children| => Max(t[t[0].children[k]].load, t[t[0].children[k]].rate))
  }

  ghost predicate Fits(t: Tree)
    requires Shaped(t)
  {
    Sum(Peaks(t)) <= t[0].rate
  }

  /** What get compares with at the root is the sum of the peaks. */
  lemma PeaksSum(t: Tree)
    requires Shaped(t)
    ensures ChildRate(t, 0) + ChildOver(t, 0) == Sum(Peaks(t))
    ensures ChildLoad(t, 0) <= Sum(Peaks(t))
  {
    ChildrenWithin(t, 0);
    SumAdd(Rates(t, t[0].children), Overs(t, t[0].children), Peaks(t));
    SumMono(Loads(t, t[0].children), Peaks(t));
  }

  /** Who lends to a bucket below the k-th child of the root: nobody (no tokens were asked for),
      that child within its rate, or the root. */
  lemma Lender(t: Tree, i: nat, n: nat, k: nat)
    requires FlatRates(t) && 0 < i < |t| && Granted(t, i, n) && k < |t[0].children| && Above(t, t[0].children[k], i)
    ensures var c := t[0].children[k]; c < |t| && (n == 0 || t[c].load + n <= t[c].rate || Assured(t, 0, n))
  {
    var c := t[0].children[k];
    ChildOf(t, 0, k);
    var m: nat :| LendsAt(t, Path(t, i), n, m);
    var a := Path(t, i)[m];
    PathAbove(t, i, m);
    if a != 0 && n > 0 {
      ParentOf(t, a);
      if t[a].parent == 0 {
        var l :| 0 <= l < |t[0].children| && t[0].children[l] == a;
        if l != k { ChildrenApart(t, 0, l, k, i); }
      }
    }
  }

  /** A get that is granted below the root leaves room for every child's rate. */
  lemma RaisedFits(t: Tree, i: nat, n: nat)
    requires FlatRates(t) && Fits(t) && 0 < i < |t| && Granted(t, i, n)
    ensures Shaped(Raised(t, i, n)) && Fits(Raised(t, i, n))
  {
    hide Granted;
    var t' := Raised(t, i, n);
    LoadsOnly(t, t');
    RootAbove(t, i);
    var k := BelowChild(t, 0, i);
    Lender(t, i, n, k);
    var a, b := Peaks(t), Peaks(t');
    forall l | 0 <= l < |a| && l != k ensures b[l] == a[l] {
      ChildOf(t, 0, l);
      if Above(t, t[0].children[l], i) { ChildrenApart(t, 0, l, k, i); }
    }
    assert b == a[k := b[k]];
    SumUpdate(a, k, b[k]);
    PeaksSum(t);
  }

  lemma LowerFits(t: Tree, t': Tree)
    requires Shaped(t) && Fits(t) && Shaped(t') && SameShape(t, t')
    requires forall i | 0 <= i < |t| :: t'[i].load <= t[i].load && t'[i].rate == t[i].rate
    ensures Fits(t')
  {
    ChildrenWithin(t, 0);
    SumMono(Peaks(t'), Peaks(t));
  }

  /** Nobody takes tokens or queues items at the root itself, and the configuration is left alone. */
  predicate BelowRoot(op: Op) {
    match op
    case Take(i, _) => i > 0
    case GiveBack(i, _) => i > 0
    case Send(i, _, _, _, _) => i > 0
    case Enqueue(i, _, _, _) => i > 0
    case Serve(_) => true
    case Tick(_, _) => true
    case _ => false
  }

  ghost predicate Bounded(s: State) {
    && Consistent(s) && FlatRates(s.tree) && Fits(s.tree)
    && s.held[0] == 0 && s.tree[0].queue == []
  }

  /** The root never hands out more than its capacity. */
  lemma BoundedLoad(s: State)
    requires Bounded(s)
    ensures s.tree[0].load <= s.tree[0].rate
  {
    OwnTokens(s.tree, s.held, 0);
    PeaksSum(s.tree);
  }

  lemma TakeBounded(t: Tree, i: nat, n: nat)
    requires FlatRates(t) && Fits(t) && 0 < i < |t|
    ensures var t' := Get(t, i, n).0; FlatRates(t') && Fits(t') && t'[0].queue == t[0].queue
  {
    GetOutcome(t, i, n);
    LoadsOnly(t, Get(t, i, n).0);
    if Granted(t, i, n) { RaisedFits(t, i, n); }
  }

  lemma PutBounded(t: Tree, held: Ledger, i: nat, n: nat)
    requires FlatRates(t) && Fits(t) && i < |t| && Accounts(t, held) && PutBack(t, i, n).Done?
    ensures var t' := PutBack(t, i, n).tree; FlatRates(t') && Fits(t') && t'[0].queue == t[0].queue
  {
    AccountsCovered(t, held);
    PutOutcome(t, i, n);
    var t' := PutBack(t, i, n).tree;
    LoadsOnly(t, t');
    LowerFits(t, t');
  }

  lemma ServeBounded(t: Tree, i: nat)
    requires FlatRates(t) && Fits(t) && Counted(t) && i < |t| && t[0].queue == []
    ensures var t' := Dequeue(t, i).0; FlatRates(t') && Fits(t') && t'[0].queue == [] && |t'| == |t|
  {
    hide Dequeue;
    var q, j := DequeueOutcome(t, i);
    if Deliverable(t, i) {
      assert j > 0;
      FlowsShaped(t, Dequeue(t, i).0);
      ServedBounded(t, i, j);
    }
  }

  lemma ServedBounded(t: Tree, i: nat, j: nat)
    requires FlatRates(t) && Fits(t) && Counted(t) && 0 < j < |t| && Ready(t, j) && Shaped(Served(t, i, j))
    ensures var t' := Served(t, i, j); FlatRates(t') && Fits(t') && t'[0].queue == t[0].queue
  {
    hide Shaped, Ready, Granted;
    ReadyParts(t, j);
    var t', u := Served(t, i, j), Raised(t, j, 1);
    RaisedFits(t, j, 1);
    forall a | 0 <= a < |t| ensures t'[a].load == u[a].load && t'[a].rate == u[a].rate
        && t'[a].children == u[a].children
                            && t'[a].parent == u[a].parent && (a != j ==> t'[a].queue == t[a].queue) {
      assert t'[a] == ServedAt(t, i, j, a);
    }
    LowerFits(u, t');
  }

  lemma ReadyParts(t: Tree, j: nat)
    requires Shaped(t) && j < |t| && Ready(t, j)
    ensures t[j].queue != [] && Granted(t, j, 1)
  {
  }

  lemma WaitBounded(t: Tree, i: nat, b: Bucket, later: int)
    requires FlatRates(t) && Fits(t) && i < |t| && b == t[i].(queue := b.queue, queued := b.queued)
             && b.queued == |b.queue|
    requires t[0].queue == [] && (i == 0 ==> b.queue == [])
    ensures var t' := t[i := Expire(b, later)]; FlatRates(t') && Fits(t') && t'[0].queue == []
  {
    ExpireDrops(b, later);
    var t' := t[i := Expire(b, later)];
    ShapedOffsets(t);
    SameShaped(t, t');
    LowerFits(t, t');
  }

  lemma StepBounded(s: State, op: Op)
    requires Bounded(s) && Callable(s, op) && BelowRoot(op) && Step(s, op).Some?
    ensures Bounded(Step(s, op).value)
  {
    hide Configured, Accounts, Conserved, Get, PutBack, Dequeue, UniqueNames, Shaped, FlatRates, Fits, Consistent;
    StepConsistent(s, op);
    ConsistentParts(s);
    match op
    case Take(i, n) => TakeBounded(s.tree, i, n);
    case GiveBack(i, n) => PutBounded(s.tree, s.held, i, n);
    case Send(i, x, n, now, later) =>
      TakeBounded(s.tree, i, n);
      WaitBounded(s.tree, i, Append(s.tree[i], Item(x, now)), later);
    case Enqueue(i, x, now, later) => WaitBounded(s.tree, i, Append(s.tree[i], Item(x, now)), later);
    case Serve(i) => ServeBounded(s.tree, i);
    case Tick(i, now) => WaitBounded(s.tree, i, s.tree[i], now);
  }

  /**
   * When only buckets directly below the root are assured anything and tokens are taken below the
   * root, every run keeps the sum of the root's children's max(load, rate) within the root's rate,
   * and so the root's load too.
   */
  lemma {:induction false} RunBounded(s: State, ops: seq<Op>, s': State)
    requires Bounded(s) && Runs(s, ops, s') && forall op | op in ops :: BelowRoot(op)
    ensures Bounded(s') && s'.tree[0].load <= s'.tree[0].rate
    decreases |ops|
  {
    if ops == [] {
      BoundedLoad(s);
    } else {
      StepBounded(s, ops[0]);
      RunBounded(Step(s, ops[0]).value, ops[1..], s');
    }
  }

  /** An idle shaper that reserves no more than it has is a place to start from; percentages that
      add up to at most one see to that. */
  lemma IdleBounded(s: State)
    requires Consistent(s) && FlatRates(s.tree) && s.tree[0].queue == []
    requires forall i | 0 <= i < |s.tree| :: s.tree[i].load == 0
    ensures ChildRateP(s.tree, 0) <= 1.0 ==> ChildRate(s.tree, 0) <= s.tree[0].rate
    ensures ChildRate(s.tree, 0) <= s.tree[0].rate ==> Bounded(s)
  {
    var t := s.tree;
    if ChildRateP(t, 0) <= 1.0 { ChildRateFits(t, 0); }
    ChildrenWithin(t, 0);
    assert Peaks(t) == Rates(t, t[0].children);
    OwnTokens(t, s.held, 0);
  }
}
