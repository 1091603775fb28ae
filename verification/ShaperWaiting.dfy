/** What a run does to tokens and items, call by call, and how long dropped items have waited. */
module ShaperWaiting {
  import opened ShaperTree
  import opened ShaperTokens
  import opened ShaperLedger
  import opened ShaperRates
  import opened ShaperQueues
  import opened ShaperRuns

  // ---------------------------------------------------------------- arrivals and holdings

  /** A packet sent to bucket j is queued: no tokens are asked for, or it is not granted them. */
  ghost predicate Queues(s: State, op: Op, j: nat)
    requires Shaped(s.tree) && j < |s.tree|
  {
    (op.Enqueue? && op.i == j) || (op.Send? && op.i == j && (op.n == 0 || !Granted(s.tree, j, op.n)))
  }

  /** What arrives at a queue: the packet of a call that queues it, with the time the call read. */
  lemma ArrivalsExact(s: State, op: Op, j: nat)
    requires Consistent(s) && Callable(s, op) && Step(s, op).Some? && j < |s.tree|
    ensures Shaped(s.tree) && Sized(s) && Sized(Step(s, op).value) && |Step(s, op).value.tree| >= |s.tree|
    ensures Step(s, op).value.arrived[j] == s.arrived[j] + if Queues(s, op, j) then [Item(op.x, op.now)] else []
  {
    hide Configured, Accounts, Conserved, Create, SetName, SetRate, SetCeil, SetBoth, Resize, Get, PutBack, Dequeue,
      UniqueNames, Shaped, Granted, Expire;
    ConsistentParts(s);
    StepConsistent(s, op);
    if op.Send? { GetOutcome(s.tree, op.i, op.n); }
    if op.Serve? { var q, l := DequeueOutcome(s.tree, op.i); }
  }

  /** Tokens granted to bucket j by a call. */
  ghost function Gained(s: State, op: Op, j: nat): nat
    requires Shaped(s.tree) && j < |s.tree|
  {
    if (op.Take? || op.Send?) && op.i == j && Granted(s.tree, j, op.n) then op.n else 0
  }

  lemma ServeHolds(s: State, i: nat, j: nat)
    requires Shaped(s.tree) && Counted(s.tree) && Sized(s) && i < |s.tree| && j < |s.tree|
    ensures var t' := Dequeue(s.tree, i).0;
            |t'| == |s.tree| && |t'[j].queue| <= |s.tree[j].queue|
            && Delivered(s, t').held[j] + |t'[j].queue| == s.held[j] + |s.tree[j].queue|
  {
    hide Shaped, Dequeue;
    var q, l := DequeueOutcome(s.tree, i);
    if Deliverable(s.tree, i) { assert Served(s.tree, i, l)[j] == ServedAt(s.tree, i, l, j); }
  }

  /** What the users of a bucket hold: more by what it was granted, less by what was put back, and
      one more for an item served from its queue. */
  lemma HoldingsExact(s: State, op: Op, j: nat)
    requires Consistent(s) && Callable(s, op) && Step(s, op).Some? && j < |s.tree|
    ensures Shaped(s.tree) && Sized(s) && Sized(Step(s, op).value) && |Step(s, op).value.tree| >= |s.tree|
    ensures var s' := Step(s, op).value;
            if op.Serve? then s'.held[j] + |s'.tree[j].queue| == s.held[j] + |s.tree[j].queue|
            else s'.held[j] + (if op.GiveBack? && op.i == j then op.n else 0) == s.held[j] + Gained(s, op, j)
  {
    hide Configured, Accounts, Conserved, Create, SetName, SetRate, SetCeil, SetBoth, Resize, Get, PutBack, Dequeue,
      UniqueNames, Shaped, Granted, Expire;
    ConsistentParts(s);
    StepConsistent(s, op);
    if op.Take? || op.Send? { GetOutcome(s.tree, op.i, op.n); }
    if op.Serve? { ServeHolds(s, op.i, j); }
  }

  // ---------------------------------------------------------------- who is dropped

  /** Items that left bucket j in a call that counted items there as dropped. */
  ghost function DroppedBy(s: State, s': State, j: nat): seq<Item>
    requires Sized(s) && Sized(s') && j < |s.tree| <= |s'.tree|
  {
    if s'.tree[j].dropped > s.tree[j].dropped && |s.departed[j]| <= |s'.departed[j]|
    then s'.departed[j][|s.departed[j]|..] else []
  }

  /** A queue whose front is taken away for its age. */
  lemma WaitDrops(s: State, s': State, i: nat, b: Bucket, later: int, j: nat)
    requires Sized(s) && i < |s.tree| && j < |s.tree| && b == s.tree[i].(queue := b.queue, queued := b.queued)
    requires b.queued == |b.queue| && Arrived(b.queue, later) && s'.tree == s.tree[i := Expire(b, later)]
    requires s'.departed == s.departed[i := s.departed[i] + b.queue[..Stale(b, later)]] && Sized(s')
    ensures var d := DroppedBy(s, s', j);
            && s'.tree[j].dropped == s.tree[j].dropped + |d| && s'.tree[j].timeout == s.tree[j].timeout
            && forall x | x in d :: x.ctime + s.tree[j].timeout <= later
    ensures forall x | x in s'.tree[i].queue :: later < x.ctime + s.tree[i].timeout
  {
    hide Expire, Stale, Arrived;
    ExpireExact(b, later);
    ExpireDrops(b, later);
    var k := Stale(b, later);
    if j == i && k > 0 {
      assert DroppedBy(s, s', j) == b.queue[..k];
      forall x | x in b.queue[..k] ensures x.ctime + b.timeout <= later {
        var l :| 0 <= l < k && b.queue[l] == x;
      }
    }
  }

  lemma LaterArrived(q: seq<Item>, now: int, later: int)
    requires Arrived(q, now) && now <= later
    ensures Arrived(q, later)
  {
  }

  lemma OneMoreArrived(q: seq<Item>, clock: int, x: Packet, now: int, later: int)
    requires Arrived(q, clock) && clock <= now <= later
    ensures Arrived(q + [Item(x, now)], later)
  {
  }

  /** What one call may do to the dropped items of bucket j. */
  ghost predicate DropsLate(s: State, s': State, j: nat) {
    && Sized(s) && Sized(s') && j < |s.tree| <= |s'.tree| && s'.tree[j].timeout == s.tree[j].timeout
    && s'.tree[j].dropped == s.tree[j].dropped + |DroppedBy(s, s', j)|
    && forall x | x in DroppedBy(s, s', j) :: x.ctime + s.tree[j].timeout <= s'.clock
  }

  lemma EnqueueDrops(s: State, i: nat, x: Packet, now: int, later: int, j: nat)
    requires Consistent(s) && i < |s.tree| && j < |s.tree| && s.clock <= now <= later
    ensures s.tree[i].queued == |s.tree[i].queue| && DropsLate(s, Enqueued(s, i, x, now, later), j)
    ensures DroppedBy(s, Enqueued(s, i, x, now, later), j) != [] ==> i == j
  {
    hide Configured, Accounts, UniqueNames, Expire, Stale, Arrived;
    assert ConservedAt(s, i);
    OneMoreArrived(s.tree[i].queue, s.clock, x, now, later);
    WaitDrops(s, Enqueued(s, i, x, now, later), i, Append(s.tree[i], Item(x, now)), later, j);
  }

  lemma TickDrops(s: State, i: nat, now: int, j: nat)
    requires Consistent(s) && i < |s.tree| && j < |s.tree| && s.clock <= now
    ensures s.tree[i].queued == |s.tree[i].queue| && DropsLate(s, Waited(s, i, s.tree[i], now), j)
    ensures DroppedBy(s, Waited(s, i, s.tree[i], now), j) != [] ==> i == j
  {
    hide Configured, Accounts, UniqueNames, Expire, Stale, Arrived;
    assert ConservedAt(s, i);
    LaterArrived(s.tree[i].queue, s.clock, now);
    WaitDrops(s, Waited(s, i, s.tree[i], now), i, s.tree[i], now, j);
  }

  /** Calls that do not look at a timer leave the count of dropped items alone. */
  lemma KeepsDropped(s: State, op: Op, j: nat)
    requires Consistent(s) && Callable(s, op) && Step(s, op).Some? && j < |s.tree|
    requires !op.Enqueue? && !op.Tick? && (op.Send? ==> Shaped(s.tree) && Get(s.tree, op.i, op.n).1 != 0)
    ensures var t' := Step(s, op).value.tree;
            |s.tree| <= |t'| && t'[j].dropped == s.tree[j].dropped && t'[j].timeout == s.tree[j].timeout
  {
    hide Configured, Conserved, Create, SetName, SetRate, SetCeil, SetBoth, Resize, Get, PutBack, Dequeue,
      UniqueNames, Shaped;
    ConsistentParts(s);
    ConfiguredNow(s);
    match op
    case Rename(i, name) => SetNameOutcome(s.tree, i, name);
    case Rerate(i, p) => SetRateConfigured(s.tree, i, p);
    case Receil(i, q) => SetCeilConfigured(s.tree, i, q);
    case Rerange(i, p, q) => SetBothConfigured(s.tree, i, p, q);
    case Recapacity(c) => ResizeConfigured(s.tree, c);
    case Add(i, name, p, q) => CreateOutcome(s.tree, i, name, p, q);
    case GiveBack(i, n) =>
      AccountsCovered(s.tree, s.held);
      PutOutcome(s.tree, i, n);
    case _ =>
  }

  /** No call drops an item that has not waited for its bucket's timeout, or one that it does not
      count, and only a call that looks at the bucket's timer drops any. */
  lemma StepDrops(s: State, op: Op, j: nat)
    requires Consistent(s) && Callable(s, op) && Step(s, op).Some? && j < |s.tree|
    ensures DropsLate(s, Step(s, op).value, j)
    ensures DroppedBy(s, Step(s, op).value, j) != [] ==> (op.Enqueue? || op.Send? || op.Tick?) && op.i == j
  {
    hide Configured, Accounts, Create, SetName, SetRate, SetCeil, SetBoth, Resize, Get, PutBack, Dequeue, UniqueNames,
      Shaped, Enqueued, Waited;
    ConsistentParts(s);
    StepConsistent(s, op);
    match op
    case Enqueue(i, x, now, later) => EnqueueDrops(s, i, x, now, later, j);
    case Tick(i, now) => TickDrops(s, i, now, j);
    case Send(i, x, n, now, later) =>
      if Get(s.tree, i, n).1 != 0 { KeepsDropped(s, op, j); } else { EnqueueDrops(s, i, x, now, later, j); }
    case _ => KeepsDropped(s, op, j);
  }

  /** The items dropped from bucket j over a run, each with the time of the call that dropped it. */
  ghost function Drops(s: State, ops: seq<Op>, j: nat): seq<(Item, int)>
    requires Consistent(s)
    decreases |ops|
  {
    if ops == [] || !Callable(s, ops[0]) || Step(s, ops[0]).None? then [] else
      StepConsistent(s, ops[0]);
      var s' := Step(s, ops[0]).value;
      Stamped(s, s', j) + Drops(s', ops[1..], j)
  }

  ghost function Stamped(s: State, s': State, j: nat): seq<(Item, int)> {
    if Sized(s) && Sized(s') && j < |s.tree| <= |s'.tree|
    then var d := DroppedBy(s, s', j); seq(|d|, k requires 0 <= k < |d| => (d[k], s'.clock)) else []
  }

  ghost predicate Patient(t: Tree) {
    forall k | 0 <= k < |t| :: t[k].timeout == 50_000_000
  }

  lemma StepPatient(s: State, op: Op)
    requires Consistent(s) && Callable(s, op) && Step(s, op).Some? && Patient(s.tree)
    ensures var t' := Step(s, op).value.tree;
            Patient(t') && |s.tree| <= |t'| && forall k | |s.tree| <= k < |t'| :: t'[k].dropped == 0
  {
    hide Consistent, Create, SetName, SetRate, SetCeil, SetBoth, Resize, Get, PutBack, Dequeue, Shaped, Enqueued,
      Waited, DropsLate, DroppedBy, ConservedAt;
    ConfiguredNow(s);
    if op.Add? { CreateOutcome(s.tree, op.i, op.name, op.p, op.q); }
    assert |s.tree| > 0 by { NotNone(s.tree); }
    forall k | 0 <= k < |s.tree|
      ensures |s.tree| <= |Step(s, op).value.tree| && Step(s, op).value.tree[k].timeout == 50_000_000 {
      StepDrops(s, op, k);
      LateKeeps(s, Step(s, op).value, k);
    }
    if !op.Add? { SameCount(s, op); }
  }

  lemma NotNone(t: Tree)
    requires Shaped(t)
    ensures |t| > 0
  {
  }

  lemma LateKeeps(s: State, s': State, j: nat)
    requires DropsLate(s, s', j)
    ensures j < |s.tree| <= |s'.tree| && s'.tree[j].timeout == s.tree[j].timeout
  {
  }

  /** Only creating a child makes the tree larger. */
  lemma SameCount(s: State, op: Op)
    requires Consistent(s) && Callable(s, op) && Step(s, op).Some? && !op.Add?
    ensures |Step(s, op).value.tree| == |s.tree|
  {
    hide Configured, Conserved, SetName, SetRate, SetCeil, SetBoth, Resize, Get, PutBack, Dequeue, UniqueNames, Shaped;
    ConsistentParts(s);
    ConfiguredNow(s);
    match op
    case Rename(i, name) => SetNameOutcome(s.tree, i, name);
    case Rerate(i, p) => SetRateConfigured(s.tree, i, p);
    case Receil(i, q) => SetCeilConfigured(s.tree, i, q);
    case Rerange(i, p, q) => SetBothConfigured(s.tree, i, p, q);
    case Recapacity(c) => ResizeConfigured(s.tree, c);
    case GiveBack(i, n) =>
      AccountsCovered(s.tree, s.held);
      PutOutcome(s.tree, i, n);
    case _ =>
  }

  lemma {:induction false} RunDrops(s: State, ops: seq<Op>, s': State, j: nat)
    requires Consistent(s) && Runs(s, ops, s') && Patient(s.tree) && j < |s'.tree|
    ensures s'.tree[j].dropped == (if j < |s.tree| then s.tree[j].dropped else 0) + |Drops(s, ops, j)|
    ensures forall d | d in Drops(s, ops, j) :: d.0.ctime + 50_000_000 <= d.1
    decreases |ops|
  {
    hide Consistent, Step, Callable, DroppedBy, Sized;
    if ops != [] {
      StepConsistent(s, ops[0]);
      var s1 := Step(s, ops[0]).value;
      StepPatient(s, ops[0]);
      RunDrops(s1, ops[1..], s', j);
      if j < |s.tree| { StepStamped(s, ops[0], j); }
    }
  }

  lemma StepStamped(s: State, op: Op, j: nat)
    requires Consistent(s) && Callable(s, op) && Step(s, op).Some? && Patient(s.tree) && j < |s.tree|
    ensures var s' := Step(s, op).value;
            && |s.tree| <= |s'.tree| && s'.tree[j].dropped == s.tree[j].dropped + |Stamped(s, s', j)|
            && forall d | d in Stamped(s, s', j) :: d.0.ctime + 50_000_000 <= d.1
  {
    hide Consistent, Step, Callable, DroppedBy;
    StepDrops(s, op, j);
  }

  /** On a new shaper, whatever is called in whatever order: every item counted as dropped had
      waited for fifty seconds or more when the call that dropped it looked at the clock. */
  lemma NoneDroppedEarly(capacity: nat, now: int, ops: seq<Op>, s: State, j: nat)
    requires Runs(New(capacity, now), ops, s) && j < |s.tree|
    ensures s.tree[j].dropped == |Drops(New(capacity, now), ops, j)|
    ensures forall d | d in Drops(New(capacity, now), ops, j) :: d.0.ctime + 50_000_000 <= d.1
  {
    hide Runs, Drops;
    RunDrops(New(capacity, now), ops, s, j);
  }
}
