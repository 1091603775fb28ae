/** Whole runs of a shaper: any calls, in any order, on any bucket, from a fresh root on. */
module ShaperRuns {
  import opened Wrappers
  import opened ShaperTree
  import opened ShaperTokens
  import opened ShaperLedger
  import opened ShaperRates
  import opened ShaperQueues

  /** One call, with the clock readings it makes. */
  datatype Op =
    | Add(i: nat, name: string, p: real, q: real)
    | Rename(i: nat, name: string)
    | Rerate(i: nat, p: real)
    | Receil(i: nat, q: real)
    | Rerange(i: nat, p: real, q: real)
    | Recapacity(c: nat)
    | Take(i: nat, n: nat)
    | GiveBack(i: nat, n: nat)
    | Send(i: nat, x: Packet, n: nat, now: int, later: int)
    | Enqueue(i: nat, x: Packet, now: int, later: int)
    | Serve(i: nat)
    | Tick(i: nat, now: int)

  /**
   * The buckets, and what the calls so far amount to: the tokens each bucket's users hold, the
   * items that arrived at and left each queue in order, and how many of them were delivered.
   */
  datatype State = State(tree: Tree, held: Ledger, arrived: seq<seq<Item>>, departed: seq<seq<Item>>,
                         delivered: seq<nat>, clock: int)

  function Fresh(capacity: nat, now: int): State {
    State([Bucket("root", capacity, capacity, 1.0, 1.0, 0, [], 0, [], 0, 0, QUEUE_TIMEOUT, 0)], [0], [[]], [[]], [0],
        now)
  }

  ghost predicate Sized(s: State) {
    |s.held| == |s.arrived| == |s.departed| == |s.delivered| == |s.tree|
  }

  function Waited(s: State, i: nat, b: Bucket, later: int): State
    requires i < |s.tree| == |s.departed| && b.queued == |b.queue|
  {
    State(s.tree[i := Expire(b, later)], s.held, s.arrived,
          s.departed[i := s.departed[i] + b.queue[..Stale(b, later)]], s.delivered, later)
  }

  function Enqueued(s: State, i: nat, x: Packet, now: int, later: int): State
    requires i < |s.tree| == |s.departed| == |s.arrived| && s.tree[i].queued == |s.tree[i].queue|
  {
    var item := Item(x, now);
    Waited(s.(arrived := s.arrived[i := s.arrived[i] + [item]]), i, Append(s.tree[i], item), later)
  }

  /** How many items left a queue that nothing was added to. */
  function Gone(b: Bucket, b': Bucket): (k: nat)
    ensures k <= |b.queue|
  {
    if |b'.queue| <= |b.queue| then |b.queue| - |b'.queue| else 0
  }

  function Delivered(s: State, t: Tree): State
    requires |s.tree| == |t| == |s.held| == |s.departed| == |s.delivered|
  {
    State(t, seq(|t|, k requires 0 <= k < |t| => s.held[k] + Gone(s.tree[k], t[k])), s.arrived,
          seq(|t|, k requires 0 <= k < |t| => s.departed[k] + s.tree[k].queue[..Gone(s.tree[k], t[k])]),
          seq(|t|, k requires 0 <= k < |t| => s.delivered[k] + Gone(s.tree[k], t[k])), s.clock)
  }

  ghost predicate Consistent(s: State) {
    && Configured(s.tree) && UniqueNames(s.tree)
    && Sized(s) && Accounts(s.tree, s.held) && Conserved(s)
  }

  /** Every item that arrived has left or waits, in order, and those that left were delivered or dropped. */
  ghost predicate ConservedAt(s: State, k: nat)
    requires Sized(s) && k < |s.tree|
  {
    && s.arrived[k] == s.departed[k] + s.tree[k].queue
    && |s.departed[k]| == s.delivered[k] + s.tree[k].dropped
    && s.tree[k].queued == |s.tree[k].queue|
    && Arrived(s.tree[k].queue, s.clock)
  }

  ghost predicate Conserved(s: State)
    requires Sized(s)
  {
    forall k | 0 <= k < |s.tree| :: ConservedAt(s, k)
  }

  lemma ConservedCounted(s: State)
    requires Sized(s) && Conserved(s)
    ensures Counted(s.tree)
  {
    forall k | 0 <= k < |s.tree| ensures s.tree[k].queued == |s.tree[k].queue| { assert ConservedAt(s, k); }
  }

  ghost predicate Callable(s: State, op: Op) {
    match op
    case Recapacity(_) => true
    case Send(i, _, _, now, later) => i < |s.tree| && s.clock <= now <= later
    case Enqueue(i, _, now, later) => i < |s.tree| && s.clock <= now <= later
    case Tick(i, now) => i < |s.tree| && s.clock <= now
    case _ => op.i < |s.tree|
  }

  /** None where put aborts the process. */
  ghost function Step(s: State, op: Op): (r: Option<State>)
    requires Consistent(s) && Callable(s, op)
  {
    ConservedCounted(s);
    match op
    case Add(i, name, p, q) =>
      var (t, e) := Create(s.tree, i, name, p, q);
      Some(if e == Success then State(t, s.held + [0], s.arrived + [[]], s.departed + [[]], s.delivered + [0], s.clock)
          else s)
    case Rename(i, name) => Some(s.(tree := SetName(s.tree, i, name).0))
    case Rerate(i, p) => Some(s.(tree := SetRate(s.tree, i, p).0))
    case Receil(i, q) => Some(s.(tree := SetCeil(s.tree, i, q).0))
    case Rerange(i, p, q) => Some(s.(tree := SetBoth(s.tree, i, p, q).0))
    case Recapacity(c) => Some(s.(tree := Resize(s.tree, c)))
    case Take(i, n) =>
      var (t, k) := Get(s.tree, i, n);
      Some(s.(tree := t, held := s.held[i := s.held[i] + k]))
    case GiveBack(i, n) =>
      var r := PutBack(s.tree, i, n);
      if r.Aborted? then None
      else Some(s.(tree := r.tree, held := s.held[i := if n <= s.held[i] then s.held[i] - n else 0]))
    case Send(i, x, n, now, later) =>
      var (t, k) := Get(s.tree, i, n);
      Some(if k != 0 then s.(tree := t, held := s.held[i := s.held[i] + k], clock := now)
           else Enqueued(s, i, x, now, later))
    case Enqueue(i, x, now, later) => Some(Enqueued(s, i, x, now, later))
    case Serve(i) => Some(Delivered(s, Dequeue(s.tree, i).0))
    case Tick(i, now) => Some(Waited(s, i, s.tree[i], now))
  }

  // ---------------------------------------------------------------- each step keeps the invariant

  lemma FreshConsistent(capacity: nat, now: int)
    ensures Consistent(Fresh(capacity, now))
  {
    var s := Fresh(capacity, now);
    assert ParentOk(s.tree, 0) && ChildrenOk(s.tree, 0);
    assert Share(s.tree, s.held, 0) == [0];
    assert ConservedAt(s, 0);
  }

  /** The ledger only looks at loads and at the shape. */
  lemma SameAccounts(t: Tree, t': Tree, held: Ledger)
    requires SameShape(t, t') && Accounts(t, held) && forall k | 0 <= k < |t| :: t'[k].load == t[k].load
    ensures Accounts(t', held)
  {
    forall a | 0 <= a < |t| ensures t'[a].load == Sum(Share(t', held, a)) {
      forall j | 0 <= j < |t| ensures Above(t, a, j) <==> Above(t', a, j) { AboveSame(t, t', a, j); }
      assert Share(t', held, a) == Share(t, held, a);
    }
  }

  ghost predicate SameQueues(t: Tree, t': Tree) {
    |t| == |t'| && forall k | 0 <= k < |t| ::
      t'[k].queue == t[k].queue && t'[k].queued == t[k].queued && t'[k].dropped == t[k].dropped
  }

  lemma SameConserved(s: State, s': State)
    requires Sized(s) && Sized(s') && Conserved(s) && SameQueues(s.tree, s'.tree) && s.clock <= s'.clock
    requires s'.arrived == s.arrived && s'.departed == s.departed && s'.delivered == s.delivered
    ensures Conserved(s')
  {
    forall k | 0 <= k < |s'.tree| ensures ConservedAt(s', k) { assert ConservedAt(s, k); }
  }

  /** Loads, queues and offsets take no part in the configuration. */
  ghost predicate SameConfig(t: Tree, t': Tree) {
    |t| == |t'| && OffsetsOk(t') && forall k | 0 <= k < |t| ::
      t'[k] == t[k].(load := t'[k].load, queue := t'[k].queue, queued := t'[k].queued,
                     dropped := t'[k].dropped, offset := t'[k].offset)
  }

  lemma SameConfigured(t: Tree, t': Tree)
    requires Configured(t) && SameConfig(t, t')
    ensures Configured(t') && (UniqueNames(t) ==> UniqueNames(t'))
  {
    SameShaped(t, t');
    forall i | 0 <= i < |t'| ensures Percents(t'[i]) { assert Percents(t[i]); }
    forall i | 0 < i < |t'| ensures t'[i].parent < i && Derived(t', i) { assert Derived(t, i); }
  }

  /** A configuration call changes neither loads nor queues. */
  lemma ReconfiguredConsistent(s: State, t: Tree)
    requires Consistent(s) && Configured(t) && SameButConfig(s.tree, t)
    ensures Consistent(s.(tree := t))
  {
    SameAccounts(s.tree, t, s.held);
    SameConserved(s, s.(tree := t));
  }

  lemma RenamedConsistent(s: State, i: nat, name: string)
    requires Consistent(s) && i < |s.tree|
    ensures Consistent(s.(tree := SetName(s.tree, i, name).0))
  {
    var t := SetName(s.tree, i, name).0;
    SetNameUnique(s.tree, i, name);
    ShapedOffsets(s.tree);
    SameShaped(s.tree, t);
    forall j | 0 <= j < |t| ensures Percents(t[j]) { assert Percents(s.tree[j]); }
    forall j | 0 < j < |t| ensures t[j].parent < j && Derived(t, j) { assert Derived(s.tree, j); }
    SameAccounts(s.tree, t, s.held);
    SameConserved(s, s.(tree := t));
  }

  lemma TakenConsistent(s: State, i: nat, n: nat, clock: int)
    requires Consistent(s) && i < |s.tree| && s.clock <= clock
    ensures var (t, k) := Get(s.tree, i, n);
            Consistent(s.(tree := t, held := s.held[i := s.held[i] + k], clock := clock))
  {
    hide Configured, UniqueNames, Accounts, Shaped, Conserved;
    assert Shaped(s.tree) && Accounts(s.tree, s.held) by { ConsistentParts(s); }
    GetBooks(s.tree, s.held, i, n);
    var (t, k) := Get(s.tree, i, n);
    ShapedOffsets(s.tree);
    SameConfigured(s.tree, t);
    SameConserved(s, s.(tree := t, held := s.held[i := s.held[i] + k], clock := clock));
  }

  lemma ConsistentParts(s: State)
    requires Consistent(s)
    ensures Shaped(s.tree) && Accounts(s.tree, s.held) && Counted(s.tree) && OffsetsOk(s.tree)
  {
    ConservedCounted(s);
    ShapedOffsets(s.tree);
  }

  lemma ReturnedConsistent(s: State, i: nat, n: nat)
    requires Consistent(s) && i < |s.tree|
    ensures PutBack(s.tree, i, n).Done? <==> n <= s.held[i]
    ensures n <= s.held[i] ==> Consistent(s.(tree := PutBack(s.tree, i, n).tree, held := s.held[i := s.held[i] - n]))
  {
    hide Configured, UniqueNames, Accounts, Shaped, Conserved;
    assert Shaped(s.tree) && Accounts(s.tree, s.held) by { ConsistentParts(s); }
    PutBooks(s.tree, s.held, i, n);
    if n <= s.held[i] {
      var t := PutBack(s.tree, i, n).tree;
      ShapedOffsets(s.tree);
      SameConfigured(s.tree, t);
      SameConserved(s, s.(tree := t, held := s.held[i := s.held[i] - n]));
    }
  }

  /** What expiring the front leaves of the bucket waited for. */
  lemma WaitedConserved(s: State, departed: seq<Item>, b: Bucket, later: int, arrived: seq<Item>, delivered: nat)
    requires b.queued == |b.queue| && arrived == departed + b.queue && Arrived(b.queue, later)
    requires |departed| == delivered + b.dropped
    ensures var r := Expire(b, later); var gone := departed + b.queue[..Stale(b, later)];
            && arrived == gone + r.queue && |gone| == delivered + r.dropped && r.queued == |r.queue|
            && Arrived(r.queue, later)
            && r == b.(queue := r.queue, queued := r.queued, dropped := r.dropped)
  {
    hide Stale, Expire, Arrived, Expired;
    assert Arrived(Expire(b, later).queue, later) by { ExpireExact(b, later); }
    ExpireDrops(b, later);
    var m := Stale(b, later);
    assert b.queue == b.queue[..m] + b.queue[m..];
    assert departed + (b.queue[..m] + b.queue[m..]) == departed + b.queue[..m] + b.queue[m..];
  }

  /** Expiring the front of a bucket whose queue may just have got one more item. */
  lemma WaitedConsistent(s: State, s0: State, i: nat, b: Bucket, later: int)
    requires Consistent(s0) && i < |s0.tree| && Sized(s) && s0.clock <= later
    requires s == s0.(arrived := s.arrived) && (forall k | 0 <= k < |s.tree| && k != i :: s.arrived[k] == s0.arrived[k])
    requires b == s0.tree[i].(queue := b.queue, queued := b.queued) && b.queued == |b.queue|
    requires s.arrived[i] == s0.departed[i] + b.queue && Arrived(b.queue, later)
    ensures Consistent(Waited(s, i, b, later))
  {
    hide Configured, UniqueNames, Accounts, Shaped, Stale, Expire;
    var s' := Waited(s, i, b, later);
    assert ConservedAt(s0, i);
    WaitedConserved(s, s0.departed[i], b, later, s.arrived[i], s0.delivered[i]);
    ConsistentParts(s0);
    SameConfigured(s0.tree, s'.tree);
    SameAccounts(s0.tree, s'.tree, s0.held);
    forall k | 0 <= k < |s'.tree| ensures ConservedAt(s', k) { WaitedOthers(s, s0, s', i, k); }
  }

  lemma WaitedOthers(s: State, s0: State, s': State, i: nat, k: nat)
    requires Sized(s0) && Sized(s') && |s'.tree| == |s0.tree| && Conserved(s0) && k < |s0.tree| && s0.clock <= s'.clock
    requires k == i ==> ConservedAt(s', i)
    requires k != i ==> s'.tree[k] == s0.tree[k] && s'.arrived[k] == s0.arrived[k] && s'.departed[k] == s0.departed[k]
    requires s'.delivered == s0.delivered
    ensures ConservedAt(s', k)
  {
    assert ConservedAt(s0, k);
  }

  lemma EnqueuedConsistent(s: State, i: nat, x: Packet, now: int, later: int)
    requires Consistent(s) && i < |s.tree| && s.clock <= now <= later
    ensures s.tree[i].queued == |s.tree[i].queue| && Consistent(Enqueued(s, i, x, now, later))
  {
    assert ConservedAt(s, i);
    var item := Item(x, now);
    var b := Append(s.tree[i], item);
    var s1 := s.(arrived := s.arrived[i := s.arrived[i] + [item]]);
    assert s1.arrived[i] == s.departed[i] + b.queue;
    WaitedConsistent(s1, s, i, b, later);
  }

  lemma TickedConsistent(s: State, i: nat, now: int)
    requires Consistent(s) && i < |s.tree| && s.clock <= now
    ensures s.tree[i].queued == |s.tree[i].queue| && Consistent(Waited(s, i, s.tree[i], now))
  {
    assert ConservedAt(s, i);
    WaitedConsistent(s, s, i, s.tree[i], now);
  }

  lemma DeliveredConsistent(s: State, i: nat)
    requires Consistent(s) && i < |s.tree|
    ensures Shaped(s.tree) && Counted(s.tree) && Consistent(Delivered(s, Dequeue(s.tree, i).0))
  {
    hide Configured, UniqueNames, Accounts, Shaped, Dequeue;
    ConsistentParts(s);
    var t := s.tree;
    var q, j := DequeueOutcome(t, i);
    if Deliverable(t, i) {
      ServedConsistent(s, i, j);
    } else {
      var s' := Delivered(s, t);
      forall k | 0 <= k < |t| ensures s'.departed[k] == s.departed[k] { assert s.departed[k] + [] == s.departed[k]; }
      assert s'.held == s.held && s'.departed == s.departed && s'.delivered == s.delivered;
    }
  }

  lemma ServedConsistent(s: State, i: nat, j: nat)
    requires Consistent(s) && Shaped(s.tree) && Counted(s.tree) && i < |s.tree| && j < |s.tree| && s.tree[j].queue != []
    requires Dequeue(s.tree, i).0 == Served(s.tree, i, j)
    ensures Consistent(Delivered(s, Served(s.tree, i, j)))
  {
    hide Configured, UniqueNames, Accounts, Shaped, Dequeue;
    var t, t' := s.tree, Served(s.tree, i, j);
    var s' := Delivered(s, t');
    ConsistentParts(s);
    SameConfigured(t, t');
    RaisedAccounts(t, s.held, j, 1);
    assert s'.held == s.held[j := s.held[j] + 1];
    SameAccounts(Raised(t, j, 1), t', s'.held);
    forall k | 0 <= k < |t| ensures ConservedAt(s', k) { ServedConserved(s, s', i, j, k); }
  }

  lemma ServedConserved(s: State, s': State, i: nat, j: nat, k: nat)
    requires Sized(s) && Conserved(s) && Shaped(s.tree) && j < |s.tree| && s.tree[j].queue != [] && s.tree[j].queued > 0
             && k < |s.tree|
    requires s' == Delivered(s, Served(s.tree, i, j))
    ensures ConservedAt(s', k)
  {
    hide Shaped;
    assert ConservedAt(s, k);
    var q := s.tree[k].queue;
    assert s'.tree[k] == ServedAt(s.tree, i, j, k);
    if k == j {
      assert q == q[..1] + q[1..];
    } else {
      assert s'.departed[k] == s.departed[k] + q[..0];
    }
  }

  lemma AddedConsistent(s: State, i: nat, name: string, p: real, q: real)
    requires Consistent(s) && i < |s.tree| && Create(s.tree, i, name, p, q).1 == Success
    ensures Consistent(State(Create(s.tree, i, name, p, q).0, s.held + [0], s.arrived + [[]], s.departed + [[]],
            s.delivered + [0], s.clock))
  {
    var t, t' := s.tree, Create(s.tree, i, name, p, q).0;
    var s' := State(t', s.held + [0], s.arrived + [[]], s.departed + [[]], s.delivered + [0], s.clock);
    CreateConfigured(t, i, name, p, q);
    CreateUnique(t, i, name, p, q);
    GrownAccounts(t, s.held, i, NewBucket(t, i, name, p, q));
    forall k | 0 <= k < |t'| ensures ConservedAt(s', k) {
      if k < |t| { assert ConservedAt(s, k); }
    }
  }

  lemma {:induction false} GrownAbove(t: Tree, i: nat, b: Bucket, a: nat, j: nat)
    requires i < |t| && j < |t|
    ensures Above(Grown(t, i, b), a, j) <==> Above(t, a, j)
    decreases j
  {
    if a != j && j > 0 && t[j].parent < j { GrownAbove(t, i, b, a, t[j].parent); }
  }

  lemma GrownAccounts(t: Tree, held: Ledger, i: nat, b: Bucket)
    requires Shaped(t) && Accounts(t, held) && i < |t| && b.load == 0
    ensures Accounts(Grown(t, i, b), held + [0])
  {
    var t', held' := Grown(t, i, b), held + [0];
    forall a | 0 <= a < |t'| ensures t'[a].load == Sum(Share(t', held', a)) {
      forall j | 0 <= j < |t| ensures Above(t', a, j) <==> Above(t, a, j) { GrownAbove(t, i, b, a, j); }
      var s' := Share(t', held', a);
      if a < |t| {
        var s := Share(t, held, a);
        assert s' == s + [0];
        SumConcat(s, [0]);
      } else {
        forall j | 0 <= j < |t| ensures s'[j] == 0 { if Above(t, a, j) { AboveBounds(t, a, j); } }
        SumZero(s');
      }
    }
  }

  /** Every call keeps the invariant, and only a put of more than the bucket holds aborts. */
  lemma StepConsistent(s: State, op: Op)
    requires Consistent(s) && Callable(s, op)
    ensures Step(s, op).None? <==> op.GiveBack? && op.n > s.held[op.i]
    ensures Step(s, op).Some? ==> Consistent(Step(s, op).value)
  {
    hide Consistent, Configured, Create, SetName, SetRate, SetCeil, SetBoth, Resize, Get, PutBack, Dequeue, Enqueued,
      Waited, Delivered, Shaped, Counted;
    ConfiguredNow(s);
    match op
    case Add(i, name, p, q) =>
      if Create(s.tree, i, name, p, q).1 == Success { AddedConsistent(s, i, name, p, q); }
    case Rename(i, name) => RenamedConsistent(s, i, name);
    case Rerate(i, p) =>
      SetRateConfigured(s.tree, i, p);
      Reconfigure(s, SetRate(s.tree, i, p).0);
    case Receil(i, q) =>
      SetCeilConfigured(s.tree, i, q);
      Reconfigure(s, SetCeil(s.tree, i, q).0);
    case Rerange(i, p, q) =>
      SetBothConfigured(s.tree, i, p, q);
      Reconfigure(s, SetBoth(s.tree, i, p, q).0);
    case Recapacity(c) =>
      ResizeConfigured(s.tree, c);
      Reconfigure(s, Resize(s.tree, c));
    case Take(i, n) => TakenConsistent(s, i, n, s.clock);
    case GiveBack(i, n) => ReturnedConsistent(s, i, n);
    case Send(i, x, n, now, later) =>
      TakenConsistent(s, i, n, now);
      EnqueuedConsistent(s, i, x, now, later);
    case Enqueue(i, x, now, later) => EnqueuedConsistent(s, i, x, now, later);
    case Serve(i) => DeliveredConsistent(s, i);
    case Tick(i, now) => TickedConsistent(s, i, now);
  }

  lemma ConfiguredNow(s: State)
    requires Consistent(s)
    ensures Configured(s.tree) && Shaped(s.tree) && AllPercents(s.tree) && Counted(s.tree)
  {
    ConservedCounted(s);
  }

  lemma Reconfigure(s: State, t: Tree)
    requires Consistent(s) && Configured(t) && (t == s.tree || SameButConfig(s.tree, t))
    ensures Consistent(s.(tree := t))
  {
    ReconfiguredConsistent(s, t);
  }

  // ---------------------------------------------------------------- runs

  /** Every call was possible and none aborted. */
  ghost predicate Runs(s: State, ops: seq<Op>, s': State)
    requires Consistent(s)
    decreases |ops|
  {
    if ops == [] then s' == s else
      && Callable(s, ops[0]) && Step(s, ops[0]).Some?
      && (StepConsistent(s, ops[0]); Runs(Step(s, ops[0]).value, ops[1..], s'))
  }

  /**
   * In every state any run of a new shaper can reach: rates and ceilings are the rounded-down
   * percentages of the parent's, rates stay within ceilings, names are unique, every load is
   * what the subtree holds, and every queue accounts for every item in order.
   */
  lemma {:induction false} RunConsistent(s: State, ops: seq<Op>, s': State)
    requires Consistent(s) && Runs(s, ops, s')
    ensures Consistent(s')
    decreases |ops|
  {
    if ops != [] {
      StepConsistent(s, ops[0]);
      RunConsistent(Step(s, ops[0]).value, ops[1..], s');
    }
  }

  ghost function New(capacity: nat, now: int): (s: State)
    ensures Consistent(s)
  {
    FreshConsistent(capacity, now);
    Fresh(capacity, now)
  }

  /** The same, said of each bucket of a shaper that started empty. */
  lemma Reachable(capacity: nat, now: int, ops: seq<Op>, s: State, i: nat)
    requires Runs(New(capacity, now), ops, s) && i < |s.tree|
    ensures Sized(s) && Shaped(s.tree)
    ensures s.tree[i].rate <= s.tree[i].ceil
    ensures i > 0 ==> s.tree[i].parent < i && Percents(s.tree[i]) && Derived(s.tree, i)
    ensures s.tree[i].load == Sum(Share(s.tree, s.held, i)) == s.held[i] + ChildLoad(s.tree, i)
    ensures |s.arrived[i]| == s.delivered[i] + s.tree[i].dropped + |s.tree[i].queue|
    ensures s.arrived[i] == s.departed[i] + s.tree[i].queue
  {
    RunConsistent(New(capacity, now), ops, s);
    RateWithinCeil(s.tree, i);
    OwnTokens(s.tree, s.held, i);
    assert ConservedAt(s, i);
    assert i > 0 ==> Derived(s.tree, i) && Percents(s.tree[i]);
  }
}
