/**
 * When a shaper keeps to its capacity, exactly: whatever the tree, and wherever tokens are taken.
 * Calls that leave the configuration alone can push the root past its rate unless, going down
 * from the root, every bucket has reserved either all of its rate for its children or nothing.
 */
module ShaperExact {
  import opened ShaperTree
  import opened ShaperTokens
  import opened ShaperLedger
  import opened ShaperRates
  import opened ShaperQueues
  import opened ShaperRuns

  // ---------------------------------------------------------------- what a call does to the loads

  /** Taking, returning, queueing and serving; not creating, renaming or resizing. */
  predicate KeepsConfig(op: Op) {
    op.Take? || op.GiveBack? || op.Send? || op.Enqueue? || op.Serve? || op.Tick?
  }

  ghost predicate SameRates(t: Tree, t': Tree) {
    SameShape(t, t') && forall k | 0 <= k < |t| :: t'[k].rate == t[k].rate
  }

  lemma SameChildRate(t: Tree, t': Tree, i: nat)
    requires Shaped(t) && Shaped(t') && SameRates(t, t') && i < |t|
    ensures ChildRate(t', i) == ChildRate(t, i)
  {
    ChildrenWithin(t, i);
    assert Rates(t', t[i].children) == Rates(t, t[i].children);
  }

  /** Bucket i was granted n tokens. */
  ghost predicate Rises(s: State, s': State, i: nat, n: nat)
    requires Shaped(s.tree) && Sized(s)
  {
    && i < |s.tree| && Granted(s.tree, i, n) && |s'.tree| == |s.tree|
    && (forall k | 0 <= k < |s.tree| :: s'.tree[k].load == Raised(s.tree, i, n)[k].load)
    && s'.held == s.held[i := s.held[i] + n]
  }

  ghost predicate Sinks(s: State, s': State) {
    && |s'.tree| == |s.tree| == |s.held| == |s'.held|
    && forall k | 0 <= k < |s.tree| :: s'.tree[k].load <= s.tree[k].load && s'.held[k] <= s.held[k]
  }

  /** A call that keeps the configuration grants tokens to one bucket, or no load or holding grows. */
  lemma StepMoves(s: State, op: Op) returns (i: nat, n: nat)
    requires Consistent(s) && Callable(s, op) && KeepsConfig(op) && Step(s, op).Some?
    ensures SameRates(s.tree, Step(s, op).value.tree)
    ensures Shaped(s.tree) && Sized(s) && (Rises(s, Step(s, op).value, i, n) || Sinks(s, Step(s, op).value))
  {
    hide Configured, Accounts, Conserved, Get, PutBack, Dequeue, UniqueNames, Shaped, Rises, Sinks, SameRates, Enqueued,
        Waited,
      Delivered;
    ConsistentParts(s);
    i, n := 0, 0;
    match op
    case Take(j, k) =>
      i, n := j, k;
      GetMoves(s, j, k, s.clock);
      var (t, l) := Get(s.tree, j, k);
      var held := s.held[j := s.held[j] + l];
      assert s.(tree := t, held := held, clock := s.clock) == s.(tree := t, held := held);
    case GiveBack(j, k) => PutMoves(s, j, k);
    case Send(j, x, k, now, later) =>
      i, n := j, k;
      GetMoves(s, j, k, now);
      EnqueueMoves(s, j, x, now, later);
    case Enqueue(j, x, now, later) => EnqueueMoves(s, j, x, now, later);
    case Serve(j) =>
      var q, l := DequeueOutcome(s.tree, j);
      i, n := l, 1;
      if Deliverable(s.tree, j) { ServeMoves(s, j, l); } else { NothingMoves(s); }
    case Tick(j, now) => TickMoves(s, j, now);
  }

  lemma GetMoves(s: State, i: nat, n: nat, clock: int)
    requires Shaped(s.tree) && Sized(s) && i < |s.tree|
    ensures var (t, k) := Get(s.tree, i, n);
            var s' := s.(tree := t, held := s.held[i := s.held[i] + k], clock := clock);
            SameRates(s.tree, t) && (Rises(s, s', i, n) || Sinks(s, s'))
  {
    hide Shaped, Granted, Get;
    GetOutcome(s.tree, i, n);
  }

  lemma PutMoves(s: State, i: nat, n: nat)
    requires Shaped(s.tree) && Sized(s) && Accounts(s.tree, s.held) && i < |s.tree| && PutBack(s.tree, i, n).Done?
    ensures var t := PutBack(s.tree, i, n).tree;
            SameRates(s.tree, t)
            && Sinks(s, s.(tree := t, held := s.held[i := if n <= s.held[i] then s.held[i] - n else 0]))
  {
    hide Shaped, PutBack;
    AccountsCovered(s.tree, s.held);
    PutOutcome(s.tree, i, n);
  }

  lemma NothingMoves(s: State)
    requires Sized(s)
    ensures SameRates(s.tree, Delivered(s, s.tree).tree) && Sinks(s, Delivered(s, s.tree))
  {
  }

  lemma EnqueueMoves(s: State, i: nat, x: Packet, now: int, later: int)
    requires Sized(s) && Counted(s.tree) && i < |s.tree|
    ensures SameRates(s.tree, Enqueued(s, i, x, now, later).tree) && Sinks(s, Enqueued(s, i, x, now, later))
  {
    QueueMoves(s, Enqueued(s, i, x, now, later), i, Append(s.tree[i], Item(x, now)), later);
  }

  lemma TickMoves(s: State, i: nat, now: int)
    requires Sized(s) && Counted(s.tree) && i < |s.tree|
    ensures SameRates(s.tree, Waited(s, i, s.tree[i], now).tree) && Sinks(s, Waited(s, i, s.tree[i], now))
  {
    QueueMoves(s, Waited(s, i, s.tree[i], now), i, s.tree[i], now);
  }

  lemma QueueMoves(s: State, s': State, i: nat, b: Bucket, later: int)
    requires Sized(s) && i < |s.tree| && b == s.tree[i].(queue := b.queue, queued := b.queued) && b.queued == |b.queue|
    requires s'.tree == s.tree[i := Expire(b, later)] && s'.held == s.held
    ensures SameRates(s.tree, s'.tree) && Sinks(s, s')
  {
    ExpireDrops(b, later);
  }

  lemma ServeMoves(s: State, i: nat, j: nat)
    requires Shaped(s.tree) && Counted(s.tree) && Sized(s) && j < |s.tree| && Ready(s.tree, j)
    ensures Counted(s.tree) && s.tree[j].queued > 0
    ensures var s' := Delivered(s, Served(s.tree, i, j)); SameRates(s.tree, s'.tree) && Rises(s, s', j, 1)
  {
    hide Shaped, Granted;
    assert Granted(s.tree, j, 1) && s.tree[j].queue != [] by { ReadyIs(s.tree, j); }
    var t' := Served(s.tree, i, j);
    forall a | 0 <= a < |t'|
      ensures t'[a].load == Raised(s.tree, j, 1)[a].load && t'[a].rate == s.tree[a].rate
              && t'[a].parent == s.tree[a].parent
      ensures t'[a].children == s.tree[a].children && Gone(s.tree[a], t'[a]) == if a == j then 1 else 0 {
      assert t'[a] == ServedAt(s.tree, i, j, a);
    }
    assert Delivered(s, t').held == s.held[j := s.held[j] + 1];
  }

  lemma ReadyIs(t: Tree, j: nat)
    requires Shaped(t) && j < |t| && Ready(t, j)
    ensures t[j].queue != [] && Granted(t, j, 1)
  {
  }

  // ---------------------------------------------------------------- reserving all or nothing

  /** Bucket i has reserved all of its rate for its children, and so has every bucket above it. */
  ghost predicate Full(t: Tree, i: nat)
    requires Shaped(t) && i < |t|
    decreases i
  {
    ChildRate(t, i) != 0 && ChildRate(t, i) == t[i].rate && (i > 0 ==> t[i].parent < i && Full(t, t[i].parent))
  }

  /** Bucket i is the first on its way from the root to reserve nothing. */
  ghost predicate Bare(t: Tree, i: nat)
    requires Shaped(t) && i < |t|
  {
    ChildRate(t, i) == 0 && (i > 0 ==> t[i].parent < i && Full(t, t[i].parent))
  }

  /** Going down from i, every bucket has reserved all of its rate for its children, until some
      have reserved nothing. */
  ghost predicate Tight(t: Tree, i: nat)
    requires Shaped(t) && i < |t|
    decreases |t| - i
  {
    || ChildRate(t, i) == 0
    || (ChildRate(t, i) == t[i].rate
        && forall k | 0 <= k < |t[i].children| :: i < t[i].children[k] < |t| && Tight(t, t[i].children[k]))
  }

  lemma ChildAssured(t: Tree, i: nat, k: nat)
    requires Shaped(t) && i < |t| && k < |t[i].children|
    ensures t[i].children[k] < |t| && t[t[i].children[k]].rate <= ChildRate(t, i)
  {
    ChildrenWithin(t, i);
    SumElem(Rates(t, t[i].children), k);
  }

  /** In a tight tree every bucket is full, or bare, or has no rate at all. */
  lemma {:induction false} Kinds(t: Tree, i: nat)
    requires Configured(t) && Tight(t, 0) && i < |t|
    ensures ((Full(t, i) || Bare(t, i)) && Tight(t, i)) || t[i].rate == 0
    decreases i
  {
    hide Configured;
    assert Shaped(t) by { assert Configured(t); ConfiguredIs(t); }
    if i > 0 {
      var p := t[i].parent;
      ParentOf(t, i);
      Kinds(t, p);
      var k :| 0 <= k < |t[p].children| && t[p].children[k] == i;
      ChildAssured(t, p, k);
      if Full(t, p) && Tight(t, p) {
        assert Tight(t, t[p].children[k]);
      } else if t[p].rate == 0 {
        RateBelow(t, i);
      }
    }
  }

  lemma ConfiguredIs(t: Tree)
    requires Configured(t)
    ensures Shaped(t)
  {
  }

  lemma RateBelow(t: Tree, i: nat)
    requires Configured(t) && i < |t|
    ensures t[i].parent < |t| && t[i].rate <= t[t[i].parent].rate
  {
    RateWithinCeil(t, i);
  }

  // ---------------------------------------------------------------- tight trees keep to their capacity

  /** Full buckets hold nothing themselves, bare ones keep to their rate. */
  ghost predicate Calm(s: State)
    requires Shaped(s.tree) && Sized(s)
  {
    forall i | 0 <= i < |s.tree| ::
      (Full(s.tree, i) ==> s.held[i] == 0) && (Bare(s.tree, i) ==> s.tree[i].load <= s.tree[i].rate)
  }

  lemma {:induction false} FullAbove(t: Tree, a: nat, i: nat)
    requires Shaped(t) && i < |t| && Above(t, a, i) && Full(t, i)
    ensures a < |t| && Full(t, a)
    decreases i
  {
    if a != i { FullAbove(t, a, t[i].parent); }
  }

  /** No bare bucket lies below another, and none lies above a full one. */
  lemma BareApart(t: Tree, a: nat, b: nat, i: nat)
    requires Shaped(t) && i < |t| && Above(t, a, i) && Above(t, b, i) && a < |t| && Bare(t, a)
    ensures b < |t| && (Bare(t, b) ==> a == b) && !Full(t, i)
  {
    AboveBounds(t, b, i);
    AboveBounds(t, a, i);
    if Full(t, i) { FullAbove(t, a, i); }
    if Bare(t, b) && a < b {
      AboveLinear(t, a, b, i);
      FullOver(t, a, b);
    } else if Bare(t, b) && b < a {
      AboveLinear(t, b, a, i);
      FullOver(t, b, a);
    }
  }

  lemma FullOver(t: Tree, a: nat, b: nat)
    requires Shaped(t) && b < |t| && Above(t, a, b) && a != b && Bare(t, b)
    ensures a < |t| && Full(t, a)
  {
    FullAbove(t, a, t[b].parent);
  }

  /** In a tight tree only a bare bucket can lend. */
  lemma LenderBare(t: Tree, a: nat, n: nat)
    requires Configured(t) && Tight(t, 0) && a < |t| && n > 0 && Assured(t, a, n)
    ensures Bare(t, a) && t[a].load + n <= t[a].rate
  {
    hide Configured, Tight;
    ConfiguredIs(t);
    Kinds(t, a);
  }

  lemma GrantedBare(t: Tree, i: nat, n: nat) returns (a: nat)
    requires Configured(t) && Tight(t, 0) && i < |t| && n > 0 && Granted(t, i, n)
    ensures a < |t| && Above(t, a, i) && Bare(t, a) && t[a].load + n <= t[a].rate
  {
    hide Configured, Tight, Bare;
    ConfiguredIs(t);
    var k: nat :| LendsAt(t, Path(t, i), n, k);
    a := Path(t, i)[k];
    PathAbove(t, i, k);
    LenderBare(t, a, n);
  }

  lemma {:induction false} FullSame(t: Tree, t': Tree, i: nat)
    requires Shaped(t) && Shaped(t') && SameRates(t, t') && i < |t|
    ensures (Full(t', i) <==> Full(t, i)) && (Bare(t', i) <==> Bare(t, i))
    decreases i
  {
    SameChildRate(t, t', i);
    if i > 0 {
      ParentOf(t, i);
      FullSame(t, t', t[i].parent);
    }
  }

  lemma RiseCalm(s: State, s': State, i: nat, n: nat)
    requires Consistent(s) && Consistent(s') && Tight(s.tree, 0) && Calm(s) && SameRates(s.tree, s'.tree)
             && Rises(s, s', i, n)
    ensures Calm(s')
  {
    hide Configured, Accounts, Conserved, Tight, Granted, Full, Bare, UniqueNames;
    var t, t' := s.tree, s'.tree;
    ConsistentParts(s);
    ConsistentParts(s');
    if n == 0 {
      RaisedZero(t, i);
      forall b | 0 <= b < |t'| ensures (Full(t', b) ==> s'.held[b] == 0) && (Bare(t', b) ==> t'[b].load <= t'[b].rate) {
        FullSame(t, t', b);
      }
    } else {
      var a := GrantedBare(t, i, n);
      forall b | 0 <= b < |t'| ensures (Full(t', b) ==> s'.held[b] == 0) && (Bare(t', b) ==> t'[b].load <= t'[b].rate) {
        FullSame(t, t', b);
        BareApart(t, a, a, i);
        if Above(t, b, i) { BareApart(t, a, b, i); }
      }
    }
  }

  lemma SinkCalm(s: State, s': State)
    requires Consistent(s) && Consistent(s') && Calm(s) && SameRates(s.tree, s'.tree) && Sinks(s, s')
    ensures Calm(s')
  {
    hide Configured, Accounts, Conserved, Full, Bare, UniqueNames;
    ConsistentParts(s);
    ConsistentParts(s');
    forall b | 0 <= b < |s'.tree|
      ensures (Full(s'.tree, b) ==> s'.held[b] == 0) && (Bare(s'.tree, b) ==> s'.tree[b].load <= s'.tree[b].rate) {
      FullSame(s.tree, s'.tree, b);
    }
  }

  lemma {:induction false} TightSame(t: Tree, t': Tree, i: nat)
    requires Shaped(t) && Shaped(t') && SameRates(t, t') && i < |t|
    ensures Tight(t', i) <==> Tight(t, i)
    decreases |t| - i
  {
    SameChildRate(t, t', i);
    assert ChildrenOk(t, i);
    forall k | 0 <= k < |t[i].children|
      ensures i < t[i].children[k] < |t| && (Tight(t', t[i].children[k]) <==> Tight(t, t[i].children[k])) {
      TightSame(t, t', t[i].children[k]);
    }
  }

  /** In a calm state full and bare buckets keep to their rates. */
  lemma {:induction false} CalmWithin(s: State, i: nat)
    requires Consistent(s) && i < |s.tree| && Tight(s.tree, i) && Calm(s) && (Full(s.tree, i) || Bare(s.tree, i))
    ensures s.tree[i].load <= s.tree[i].rate
    decreases |s.tree| - i
  {
    hide Configured, Conserved, UniqueNames;
    ConsistentParts(s);
    var t := s.tree;
    if !Bare(t, i) {
      ChildrenWithin(t, i);
      assert ChildrenOk(t, i);
      forall k | 0 <= k < |t[i].children| ensures Loads(t, t[i].children)[k] <= Rates(t, t[i].children)[k] {
        var c := t[i].children[k];
        ChildOf(t, i, k);
        ChildKind(t, i, k);
        CalmWithin(s, c);
      }
      SumMono(Loads(t, t[i].children), Rates(t, t[i].children));
      OwnTokens(t, s.held, i);
    }
  }

  lemma ChildKind(t: Tree, i: nat, k: nat)
    requires Shaped(t) && i < |t| && k < |t[i].children| && Full(t, i) && Tight(t, i)
    ensures var c := t[i].children[k]; c < |t| && Tight(t, c) && (Full(t, c) || Bare(t, c))
  {
    ChildOf(t, i, k);
  }

  ghost predicate KeepConfig(ops: seq<Op>) {
    forall op | op in ops :: KeepsConfig(op)
  }

  lemma {:induction false} RunCalm(s: State, ops: seq<Op>, s': State)
    requires Consistent(s) && Tight(s.tree, 0) && Calm(s) && Runs(s, ops, s') && KeepConfig(ops)
    ensures Consistent(s') && Tight(s'.tree, 0) && Calm(s')
    decreases |ops|
  {
    hide Consistent, Tight, Calm, Step, SameRates, Rises, Sinks;
    if ops != [] {
      StepConsistent(s, ops[0]);
      var s1 := Step(s, ops[0]).value;
      var i, n := StepMoves(s, ops[0]);
      ConsistentParts(s);
      ConsistentParts(s1);
      if Rises(s, s1, i, n) { RiseCalm(s, s1, i, n); } else { SinkCalm(s, s1); }
      TightSame(s.tree, s1.tree, 0) by { SameSize(s.tree, s1.tree); }
      RunCalm(s1, ops[1..], s');
    }
  }

  lemma SameSize(t: Tree, t': Tree)
    requires SameRates(t, t') && Shaped(t)
    ensures |t| == |t'| > 0
  {
  }

  ghost predicate Idle(s: State) {
    forall i | 0 <= i < |s.tree| :: s.tree[i].load == 0
  }

  lemma IdleCalm(s: State)
    requires Consistent(s) && Idle(s)
    ensures Calm(s)
  {
    ConsistentParts(s);
    forall i | 0 <= i < |s.tree| ensures s.held[i] == 0 { OwnTokens(s.tree, s.held, i); }
  }

  /** The root has handed out no more than its rate. */
  ghost predicate WithinCapacity(s: State) {
    |s.tree| > 0 && s.tree[0].load <= s.tree[0].rate
  }

  /** One direction: a tight shaper never hands out more than its capacity. */
  lemma TightKeeps(s: State, ops: seq<Op>, s': State)
    requires Consistent(s) && Idle(s) && Tight(s.tree, 0) && Runs(s, ops, s') && KeepConfig(ops)
    ensures WithinCapacity(s')
  {
    hide Consistent, Calm, Runs;
    IdleCalm(s);
    RunCalm(s, ops, s');
    ConsistentParts(s');
    assert Full(s'.tree, 0) || Bare(s'.tree, 0);
    CalmWithin(s', 0);
  }
}
