/** The queue of each bucket: enqueueing, timing out, and serving the subtree round-robin. */
module ShaperQueues {
  import opened Wrappers
  import opened ShaperTree
  import opened ShaperTokens

  // ---------------------------------------------------------------- timeouts

  predicate Expired(b: Bucket, now: int, x: Item) {
    now - x.ctime >= b.timeout
  }

  function PopFront(b: Bucket): Bucket
    requires b.queue != [] && b.queued > 0
  {
    b.(queue := b.queue[1..], queued := b.queued - 1)
  }

  /** Drops items from the front for as long as they have reached the timeout. */
  function Expire(b: Bucket, now: int): (r: Bucket)
    requires b.queued == |b.queue|
    ensures r.queued == |r.queue|
    decreases |b.queue|
  {
    if b.queue == [] || !Expired(b, now, b.queue[0]) then b
    else Expire(PopFront(b).(dropped := b.dropped + 1), now)
  }

  function Append(b: Bucket, x: Item): Bucket {
    b.(queue := b.queue + [x], queued := b.queued + 1)
  }

  /** Items in order of arrival, none from the future. */
  ghost predicate Arrived(q: seq<Item>, now: int) {
    && (forall k, l | 0 <= k < l < |q| :: q[k].ctime <= q[l].ctime)
    && (forall k | 0 <= k < |q| :: q[k].ctime <= now)
  }

  /** How many items at the front have reached the timeout. */
  function Stale(b: Bucket, now: int): (k: nat)
    ensures k <= |b.queue|
    ensures forall j | 0 <= j < k :: Expired(b, now, b.queue[j])
    ensures k < |b.queue| ==> !Expired(b, now, b.queue[k])
    decreases |b.queue|
  {
    if b.queue == [] || !Expired(b, now, b.queue[0]) then 0
    else
      var c := b.(queue := b.queue[1..]);
      1 + Stale(c, now)
  }

  /** What is dropped is the front of the queue. */
  lemma {:induction false} ExpireDrops(b: Bucket, now: int)
    requires b.queued == |b.queue|
    ensures var k := Stale(b, now);
            Expire(b, now) == b.(queue := b.queue[k..], queued := b.queued - k, dropped := b.dropped + k)
    decreases |b.queue|
  {
    if b.queue != [] && Expired(b, now, b.queue[0]) {
      var c := PopFront(b).(dropped := b.dropped + 1);
      ExpireDrops(c, now);
      StaleQueue(c, b.(queue := b.queue[1..]), now);
    }
  }

  lemma {:induction false} StaleQueue(b: Bucket, c: Bucket, now: int)
    requires b.queue == c.queue && b.timeout == c.timeout
    ensures Stale(b, now) == Stale(c, now)
    decreases |b.queue|
  {
    if b.queue != [] && Expired(b, now, b.queue[0]) {
      StaleQueue(b.(queue := b.queue[1..]), c.(queue := c.queue[1..]), now);
    }
  }

  lemma ExpireStep(b: Bucket, now: int)
    requires b.queued == |b.queue| && b.queue != [] && Expired(b, now, b.queue[0])
    ensures var c := PopFront(b).(dropped := b.dropped + 1);
            Expire(b, now) == Expire(c, now) && Stale(b, now) == 1 + Stale(c, now)
  {
    StaleQueue(b.(queue := b.queue[1..]), PopFront(b).(dropped := b.dropped + 1), now);
  }

  lemma ExpireEnd(b: Bucket, now: int)
    requires b.queued == |b.queue| && (b.queue == [] || !Expired(b, now, b.queue[0]))
    ensures Expire(b, now) == b && Stale(b, now) == 0
  {
  }

  /** A timer run takes items from the front for as long as their time of arrival plus the timeout
      is past, counts them as dropped and changes nothing else. */
  lemma ExpireFront(b: Bucket, now: int)
    requires b.queued == |b.queue|
    ensures var r := Expire(b, now); var k := |b.queue| - |r.queue|;
            && 0 <= k && r == b.(queue := b.queue[k..], queued := |b.queue| - k, dropped := b.dropped + k)
            && (forall j | 0 <= j < k :: b.queue[j].ctime + b.timeout <= now)
            && (r.queue != [] ==> now < r.queue[0].ctime + b.timeout)
  {
    ExpireDrops(b, now);
  }

  /** On a queue in arrival order these are exactly the items that have waited for the timeout, and
      what remains is still some positive time away from it. */
  lemma ExpireExact(b: Bucket, now: int)
    requires b.queued == |b.queue| && Arrived(b.queue, now)
    ensures var r := Expire(b, now); var k := |b.queue| - |r.queue|;
            && 0 <= k && r == b.(queue := b.queue[k..], queued := |b.queue| - k, dropped := b.dropped + k)
            && (forall j | 0 <= j < |b.queue| :: j < k <==> b.queue[j].ctime + b.timeout <= now)
            && Arrived(r.queue, now) && (forall x | x in r.queue :: 0 < r.timeout - (now - x.ctime))
  {
    ExpireFront(b, now);
    var r := Expire(b, now);
    var k := |b.queue| - |r.queue|;
    forall j | 0 <= j < |b.queue| ensures j < k <==> b.queue[j].ctime + b.timeout <= now {
      if k <= j { assert r.queue[0] == b.queue[k] && b.queue[k].ctime <= b.queue[j].ctime; }
    }
    forall x | x in b.queue[k..] ensures 0 < b.timeout - (now - x.ctime) {
      var j :| k <= j < |b.queue| && b.queue[j] == x;
    }
  }

  /** Of queue q only `rest` is left: the items before it have waited for the timeout and are
      reported in order, and the first of the rest has not. */
  ghost predicate TimedOut(q: seq<Item>, timeout: int, now: int, rest: seq<Item>, reported: seq<Packet>) {
    && |q| == |reported| + |rest| && rest == q[|reported|..]
    && (forall k | 0 <= k < |reported| :: reported[k] == q[k].token && q[k].ctime + timeout <= now)
    && (rest != [] ==> now < rest[0].ctime + timeout)
  }

  // ---------------------------------------------------------------- serving

  ghost predicate Counted(t: Tree) {
    forall i | 0 <= i < |t| :: t[i].queued == |t[i].queue|
  }

  /** Only loads, queues and round-robin offsets differ. */
  ghost predicate Flows(t: Tree, t': Tree) {
    && |t| == |t'| && OffsetsOk(t') && Counted(t')
    && forall i | 0 <= i < |t| ::
         t'[i] == t[i].(load := t'[i].load, queue := t'[i].queue, queued := t'[i].queued, offset := t'[i].offset)
  }

  lemma ShapedOffsets(t: Tree)
    requires Shaped(t)
    ensures OffsetsOk(t)
  {
    forall i | 0 <= i < |t| ensures t[i].offset == 0 || t[i].offset < |t[i].children| { assert ChildrenOk(t, i); }
  }

  lemma FlowsShaped(t: Tree, t': Tree)
    requires Shaped(t) && Flows(t, t')
    ensures Shaped(t')
  {
    SameShaped(t, t');
  }

  function SetOffset(t: Tree, i: nat, o: nat): Tree
    requires i < |t|
  {
    t[i := t[i].(offset := o)]
  }

  function Pop(t: Tree, i: nat): Tree
    requires i < |t| && t[i].queue != [] && t[i].queued > 0
  {
    t[i := PopFront(t[i])]
  }

  /** The bucket's own queue, once no child has anything to give. */
  function ServeOwn(t: Tree, i: nat): (r: (Tree, Option<Packet>))
    requires Shaped(t) && Counted(t) && i < |t|
    ensures Flows(t, r.0)
  {
    ShapedOffsets(t);
    if t[i].queue == [] then (t, None) else
    var (t1, k) := Get(t, i, 1);
    if k != 0 then (Pop(t1, i), Some(t[i].queue[0].token)) else (t1, None)
  }

  function Previous(o: nat, m: nat): nat
    requires m > 0
  {
    if o == 0 then m - 1 else o - 1
  }

  function Dequeue(t: Tree, i: nat): (r: (Tree, Option<Packet>))
    requires Shaped(t) && Counted(t) && i < |t|
    ensures Flows(t, r.0)
    decreases |t| - i, |t[i].children| + 1
  {
    DequeueRound(t, i, |t[i].children|)
  }

  /** Tries `left` more children, each time one place further round, then the own queue. */
  function DequeueRound(t: Tree, i: nat, left: nat): (r: (Tree, Option<Packet>))
    requires Shaped(t) && Counted(t) && i < |t| && left <= |t[i].children|
    ensures Flows(t, r.0)
    decreases |t| - i, left
  {
    ShapedOffsets(t);
    if left == 0 then ServeOwn(t, i) else
    var o := Previous(t[i].offset, |t[i].children|);
    var t1 := SetOffset(t, i, o);
    FlowsShaped(t, t1);
    ChildOf(t, i, o);
    var (t2, x) := Dequeue(t1, t[i].children[o]);
    FlowsShaped(t, t2);
    if x.Some? then (t2, x) else DequeueRound(t2, i, left - 1)
  }

  // ---------------------------------------------------------------- what dequeue does

  ghost predicate Ready(t: Tree, j: nat)
    requires Shaped(t) && j < |t|
  {
    t[j].queue != [] && Granted(t, j, 1)
  }

  /** Some bucket of the subtree has an item and would get a token for it. */
  ghost predicate Deliverable(t: Tree, i: nat)
    requires Shaped(t)
  {
    exists j :: 0 <= j < |t| && Above(t, i, j) && Ready(t, j)
  }

  /** The child of a through which j is reached. */
  ghost function Toward(t: Tree, a: nat, j: nat): (k: nat)
    requires Shaped(t) && a < j < |t| && Above(t, a, j)
    ensures k < |t[a].children| && Above(t, t[a].children[k], j)
  {
    assert exists k: nat :: k < |t[a].children| && Above(t, t[a].children[k], j) by { var k := BelowChild(t, a, j); }
    var k: nat :| k < |t[a].children| && Above(t, t[a].children[k], j);
    k
  }

  /** One bucket after the front item of j was served to a caller at i. */
  ghost function ServedAt(t: Tree, i: nat, j: nat, a: nat): Bucket
    requires Shaped(t) && j < |t| && t[j].queue != [] && t[j].queued > 0 && a < |t|
  {
    var b := if Above(t, a, j) then t[a].(load := t[a].load + 1) else t[a];
    if a == j then PopFront(b)
    else if Above(t, i, a) && Above(t, a, j) then
      AboveBounds(t, a, j);
      b.(offset := Toward(t, a, j))
    else b
  }

  /** The tree after the front item of j was served: one token along its ancestors, the item
      gone from its queue, and the offsets between i and j pointing at the child that served. */
  ghost function Served(t: Tree, i: nat, j: nat): (r: Tree)
    requires Shaped(t) && j < |t| && t[j].queue != [] && t[j].queued > 0
  {
    seq(|t|, a requires 0 <= a < |t| => ServedAt(t, i, j, a))
  }

  /** The q-th child index tried, counting from 0. */
  function Turn(o: nat, m: nat, q: nat): (k: nat)
    requires q < m && (o == 0 || o < m)
    ensures k < m
  {
    if o >= q + 1 then o - 1 - q else o + m - 1 - q
  }

  ghost predicate SameButOffsets(t: Tree, t': Tree) {
    |t| == |t'| && forall i | 0 <= i < |t| :: t'[i] == t[i].(offset := t'[i].offset)
  }

  lemma {:induction false} PathSame(t: Tree, t': Tree, i: nat)
    requires Shaped(t) && Shaped(t') && SameShape(t, t') && i < |t|
    ensures Path(t, i) == Path(t', i)
    decreases i
  {
    if i > 0 {
      ParentOf(t, i);
      PathSame(t, t', t[i].parent);
    }
  }

  lemma AssuredSame(t: Tree, t': Tree, i: nat, n: nat)
    requires Shaped(t) && Shaped(t') && SameButOffsets(t, t') && i < |t|
    ensures Assured(t, i, n) <==> Assured(t', i, n)
  {
    ChildrenWithin(t, i);
    ChildrenWithin(t', i);
    assert Rates(t, t[i].children) == Rates(t', t'[i].children);
    assert Overs(t, t[i].children) == Overs(t', t'[i].children);
  }

  lemma ReadySame(t: Tree, t': Tree, j: nat)
    requires Shaped(t) && Shaped(t') && SameButOffsets(t, t') && j < |t|
    ensures Ready(t, j) <==> Ready(t', j)
  {
    PathSame(t, t', j);
    var p := Path(t, j);
    forall k: nat | k < |p| ensures Assured(t, p[k], 1) <==> Assured(t', p[k], 1) { AssuredSame(t, t', p[k], 1); }
    forall k: nat ensures LendsAt(t, p, 1, k) <==> LendsAt(t', p, 1, k) { }
    if Granted(t, j, 1) {
      var k: nat :| LendsAt(t, p, 1, k);
      assert LendsAt(t', p, 1, k);
    }
    if Granted(t', j, 1) {
      var k: nat :| LendsAt(t', p, 1, k);
      assert LendsAt(t, p, 1, k);
    }
  }

  lemma DeliverableSame(t: Tree, t': Tree, i: nat)
    requires Shaped(t) && Shaped(t') && SameButOffsets(t, t')
    ensures Deliverable(t, i) <==> Deliverable(t', i)
  {
    forall j | 0 <= j < |t| ensures (Above(t, i, j) && Ready(t, j)) <==> (Above(t', i, j) && Ready(t', j)) {
      AboveSame(t, t', i, j);
      ReadySame(t, t', j);
    }
  }

  lemma DeliverableSplit(t: Tree, i: nat)
    requires Shaped(t) && i < |t|
    ensures Deliverable(t, i) <==> Ready(t, i) || exists k ::
              0 <= k < |t[i].children| && Deliverable(t, t[i].children[k])
  {
    if Deliverable(t, i) {
      var j :| 0 <= j < |t| && Above(t, i, j) && Ready(t, j);
      if j != i {
        AboveBounds(t, i, j);
        var k := BelowChild(t, i, j);
        assert Deliverable(t, t[i].children[k]);
      }
    }
    if Ready(t, i) { assert Above(t, i, i); }
    forall k | 0 <= k < |t[i].children| && Deliverable(t, t[i].children[k]) ensures Deliverable(t, i) {
      var j :| 0 <= j < |t| && Above(t, t[i].children[k], j) && Ready(t, j);
      ChildBelow(t, i, k, j);
    }
  }

  lemma OwnOutcome(t: Tree, i: nat)
    requires Shaped(t) && Counted(t) && i < |t|
    ensures Ready(t, i) ==> ServeOwn(t, i) == (Served(t, i, i), Some(t[i].queue[0].token))
    ensures !Ready(t, i) ==> ServeOwn(t, i) == (t, None)
  {
    GetOutcome(t, i, 1);
    if Ready(t, i) {
      var r := Pop(Raised(t, i, 1), i);
      forall a | 0 <= a < |t| ensures r[a] == ServedAt(t, i, i, a) {
        if Above(t, i, a) && Above(t, a, i) { AboveBounds(t, i, a); AboveBounds(t, a, i); }
      }
      assert r == Served(t, i, i);
    }
  }

  lemma TowardUnique(t: Tree, a: nat, j: nat, k: nat)
    requires Shaped(t) && a < j < |t| && Above(t, a, j) && k < |t[a].children| && Above(t, t[a].children[k], j)
    ensures Toward(t, a, j) == k
  {
    if Toward(t, a, j) != k { ChildrenApart(t, a, k, Toward(t, a, j), j); }
  }

  /** Serving through child o, with the offset already set, is serving from i. */
  lemma ServedThrough(t: Tree, i: nat, o: nat, j: nat)
    requires Shaped(t) && Counted(t) && i < |t| && o < |t[i].children| && j < |t| && t[j].queue != []
    requires Above(t, t[i].children[o], j)
    ensures Shaped(SetOffset(t, i, o))
    ensures Served(SetOffset(t, i, o), t[i].children[o], j) == Served(t, i, j)
  {
    var t1, c := SetOffset(t, i, o), t[i].children[o];
    ShapedOffsets(t);
    FlowsShaped(t, t1);
    forall a | 0 <= a < |t| ensures ServedAt(t1, c, j, a) == ServedAt(t, i, j, a) {
      ServedThroughAt(t, t1, i, o, j, a);
    }
  }

  lemma ServedThroughAt(t: Tree, t1: Tree, i: nat, o: nat, j: nat, a: nat)
    requires Shaped(t) && Counted(t) && i < |t| && o < |t[i].children| && j < |t| && t[j].queue != [] && a < |t|
    requires t1 == SetOffset(t, i, o) && Shaped(t1) && Above(t, t[i].children[o], j)
    ensures ServedAt(t1, t[i].children[o], j, a) == ServedAt(t, i, j, a)
  {
    var c := t[i].children[o];
    ChildOf(t, i, o);
    ChildBelow(t, i, o, j);
    AboveSame(t, t1, a, j);
    AboveSame(t, t1, c, a);
    if a == j {
    } else if Above(t, a, j) {
      AboveBounds(t, a, j);
      if a == i {
        TowardUnique(t, i, j, o);
        if Above(t, c, i) { AboveBounds(t, c, i); }
      } else {
        OnThePath(t, i, o, j, a);
        AboveSame(t, t1, t[a].children[Toward(t, a, j)], j);
        TowardUnique(t1, a, j, Toward(t, a, j));
      }
    }
  }

  /** Between i and j, everything but i lies below the child through which j is reached. */
  lemma OnThePath(t: Tree, i: nat, o: nat, j: nat, a: nat)
    requires Shaped(t) && i < |t| && o < |t[i].children| && j < |t| && a < |t| && a != i
    requires Above(t, t[i].children[o], j) && Above(t, a, j)
    ensures Above(t, i, a) <==> Above(t, t[i].children[o], a)
  {
    var c := t[i].children[o];
    if Above(t, i, a) {
      AboveBounds(t, i, a);
      var k := BelowChild(t, i, a);
      AboveBounds(t, a, j);
      AboveTrans(t, t[i].children[k], a, j) by { AboveBounds(t, t[i].children[k], a); }
      if k != o { ChildrenApart(t, i, o, k, j); }
    }
    if Above(t, c, a) { ChildBelow(t, i, o, a); }
  }

  /** Serving from i does not depend on where i's offset was, as long as a child serves. */
  lemma ServedAnyOffset(t: Tree, i: nat, o: nat, j: nat)
    requires Shaped(t) && Counted(t) && i < j < |t| && Above(t, i, j) && t[j].queue != []
    requires Shaped(SetOffset(t, i, o))
    ensures Served(SetOffset(t, i, o), i, j) == Served(t, i, j)
  {
    var t1 := SetOffset(t, i, o);
    forall a | 0 <= a < |t| ensures ServedAt(t1, i, j, a) == ServedAt(t, i, j, a) {
      AboveSame(t, t1, a, j);
      AboveSame(t, t1, i, a);
      if a != j && Above(t, a, j) {
        AboveBounds(t, a, j);
        AboveSame(t, t1, t[a].children[Toward(t, a, j)], j);
        TowardUnique(t1, a, j, Toward(t, a, j));
      }
    }
  }

  /** The q-th child tried serves, through bucket j, and no child tried before it could. */
  ghost predicate ServesAt(t: Tree, i: nat, q: nat, j: nat)
    requires Shaped(t) && i < |t| && (t[i].offset == 0 || t[i].offset < |t[i].children|)
  {
    var m := |t[i].children|;
    && q < m && j < |t|
    && Above(t, t[i].children[Turn(t[i].offset, m, q)], j) && Ready(t, j)
    && (forall p: nat | p < q :: !Deliverable(t, t[i].children[Turn(t[i].offset, m, p)]))
  }

  ghost predicate NoneOf(t: Tree, i: nat, left: nat)
    requires Shaped(t) && i < |t| && left <= |t[i].children| && (t[i].offset == 0 || t[i].offset < |t[i].children|)
  {
    forall p: nat | p < left :: !Deliverable(t, t[i].children[Turn(t[i].offset, |t[i].children|, p)])
  }

  ghost function After(o: nat, m: nat, left: nat): nat
    requires left <= m && (o == 0 || o < m)
  {
    if left == 0 then o else Turn(o, m, left - 1)
  }

  /** One turn of the round: what the child leaves is where the next turn starts. */
  lemma RoundTurn(t: Tree, i: nat, left: nat, o: nat, t1: Tree)
    requires Shaped(t) && Counted(t) && OffsetsOk(t) && i < |t| && 0 < left <= |t[i].children|
    requires o == Previous(t[i].offset, |t[i].children|) && t1 == SetOffset(t, i, o)
    ensures Shaped(t1) && Counted(t1) && OffsetsOk(t1) && i < t[i].children[o] < |t|
    ensures var d := Dequeue(t1, t[i].children[o]);
            && Shaped(d.0) && Counted(d.0) && |d.0| == |t| && d.0[i].children == t[i].children
            && DequeueRound(t, i, left) == if d.1.Some? then d else DequeueRound(d.0, i, left - 1)
  {
    FlowsShaped(t, t1);
    ChildOf(t, i, o);
    FlowsShaped(t1, Dequeue(t1, t[i].children[o]).0);
  }

  lemma NoRound(t: Tree, i: nat)
    requires Shaped(t) && Counted(t) && i < |t|
    ensures DequeueRound(t, i, 0) == ServeOwn(t, i)
  {
  }

  lemma {:induction false} RoundOutcome(t: Tree, i: nat, left: nat) returns (q: nat, j: nat)
    requires Shaped(t) && Counted(t) && OffsetsOk(t) && i < |t| && left <= |t[i].children|
    ensures NoneOf(t, i, left) ==>
              var t1 := SetOffset(t, i, After(t[i].offset, |t[i].children|, left));
              Shaped(t1) && Counted(t1) && DequeueRound(t, i, left) == ServeOwn(t1, i)
    ensures !NoneOf(t, i, left) ==>
              && q < left && ServesAt(t, i, q, j)
              && DequeueRound(t, i, left) == (Served(t, i, j), Some(t[j].queue[0].token))
    decreases |t| - i, left
  {
    hide Served, Ready, Deliverable, Above, ServeOwn, ServesAt, Dequeue, DequeueRound;
    q, j := 0, 0;
    if left == 0 {
      assert SetOffset(t, i, t[i].offset) == t;
      NoRound(t, i);
    } else {
      var m, o := |t[i].children|, Previous(t[i].offset, |t[i].children|);
      var t1, c := SetOffset(t, i, o), t[i].children[o];
      RoundTurn(t, i, left, o, t1);
      assert Turn(t[i].offset, m, 0) == o;
      DeliverableSame(t, t1, c);
      var q1, j1 := DequeueOutcome(t1, c);
      if Deliverable(t, c) {
        j := j1;
        FirstServes(t, t1, i, j);
        assert t1[j].queue == t[j].queue;
        assert DequeueRound(t, i, left) == (Served(t, i, j), Some(t[j].queue[0].token));
      } else {
        var q2, j2 := RoundOutcome(t1, i, left - 1);
        NextTurns(t, t1, i, left);
        if NoneOf(t, i, left) {
          var s := After(t[i].offset, m, left);
          assert s == After(o, m, left - 1);
          assert SetOffset(t1, i, s) == SetOffset(t, i, s);
        } else {
          q, j := q2 + 1, j2;
          LaterServes(t, t1, i, q2, j);
          assert t1[j].queue == t[j].queue;
          assert DequeueRound(t1, i, left - 1) == (Served(t, i, j), Some(t[j].queue[0].token));
          assert DequeueRound(t, i, left) == (Served(t, i, j), Some(t[j].queue[0].token));
        }
      }
    }
  }

  lemma NextTurns(t: Tree, t1: Tree, i: nat, left: nat)
    requires Shaped(t) && i < |t| && 0 < left <= |t[i].children| && OffsetsOk(t)
    requires t1 == SetOffset(t, i, Previous(t[i].offset, |t[i].children|)) && Shaped(t1)
    requires !Deliverable(t, t[i].children[Previous(t[i].offset, |t[i].children|)])
    ensures NoneOf(t, i, left) <==> NoneOf(t1, i, left - 1)
  {
    var m, o := |t[i].children|, Previous(t[i].offset, |t[i].children|);
    forall p: nat | p < left - 1
      ensures Turn(t[i].offset, m, p + 1) == Turn(o, m, p)
      ensures Deliverable(t, t[i].children[Turn(o, m, p)]) <==> Deliverable(t1, t[i].children[Turn(o, m, p)])
    {
      DeliverableSame(t, t1, t[i].children[Turn(o, m, p)]);
    }
    if NoneOf(t1, i, left - 1) {
      forall p: nat | p < left ensures !Deliverable(t, t[i].children[Turn(t[i].offset, m, p)]) {
        if p > 0 { assert Turn(t[i].offset, m, (p - 1) + 1) == Turn(o, m, p - 1); }
      }
    }
    if NoneOf(t, i, left) {
      forall p: nat | p < left - 1 ensures !Deliverable(t1, t[i].children[Turn(o, m, p)]) {
        assert !Deliverable(t, t[i].children[Turn(t[i].offset, m, p + 1)]);
      }
    }
  }

  lemma LaterServes(t: Tree, t1: Tree, i: nat, q: nat, j: nat)
    requires Shaped(t) && i < |t| && 0 < |t[i].children| && OffsetsOk(t) && q + 1 < |t[i].children|
    requires t1 == SetOffset(t, i, Previous(t[i].offset, |t[i].children|)) && Shaped(t1)
    requires !Deliverable(t, t[i].children[Previous(t[i].offset, |t[i].children|)])
    requires Counted(t) && ServesAt(t1, i, q, j)
    ensures ServesAt(t, i, q + 1, j) && j < |t| && t[j].queue != [] && Served(t1, i, j) == Served(t, i, j)
  {
    hide Deliverable, Served, Granted;
    var m, o := |t[i].children|, Previous(t[i].offset, |t[i].children|);
    assert Turn(t[i].offset, m, q + 1) == Turn(o, m, q);
    AboveSame(t, t1, t[i].children[Turn(o, m, q)], j);
    ReadySame(t, t1, j);
    forall p: nat | p < q + 1 ensures !Deliverable(t, t[i].children[Turn(t[i].offset, m, p)]) {
      if p > 0 {
        assert Turn(t[i].offset, m, p) == Turn(o, m, p - 1);
        DeliverableSame(t, t1, t[i].children[Turn(o, m, p - 1)]);
      }
    }
    ChildBelow(t, i, Turn(o, m, q), j);
    ServedAnyOffset(t, i, o, j);
  }

  lemma FirstServes(t: Tree, t1: Tree, i: nat, j: nat)
    requires Shaped(t) && Counted(t) && i < |t| && 0 < |t[i].children| && OffsetsOk(t)
    requires t1 == SetOffset(t, i, Previous(t[i].offset, |t[i].children|)) && Shaped(t1)
    requires j < |t| && Above(t1, t[i].children[Previous(t[i].offset, |t[i].children|)], j) && Ready(t1, j)
    ensures ServesAt(t, i, 0, j) && t[j].queue != []
    ensures Served(t1, t[i].children[Previous(t[i].offset, |t[i].children|)], j) == Served(t, i, j)
  {
    var o := Previous(t[i].offset, |t[i].children|);
    AboveSame(t, t1, t[i].children[o], j);
    ReadySame(t, t1, j);
    ServedThrough(t, i, o, j);
  }

  /**
   * dequeue is complete and charges once. If any bucket of the subtree has an item and would
   * get a token, one of them is served: a child when any child can serve, the first one that
   * can in round-robin order, and otherwise the bucket itself. If none can, nothing changes.
   */
  lemma {:induction false} DequeueOutcome(t: Tree, i: nat) returns (q: nat, j: nat)
    requires Shaped(t) && Counted(t) && i < |t|
    ensures !Deliverable(t, i) ==> Dequeue(t, i) == (t, None)
    ensures Deliverable(t, i) ==>
              && j < |t| && Above(t, i, j) && Ready(t, j)
              && Dequeue(t, i) == (Served(t, i, j), Some(t[j].queue[0].token))
    ensures OffsetsOk(t)
    ensures Deliverable(t, i) ==>
              if exists k :: 0 <= k < |t[i].children| && Deliverable(t, t[i].children[k]) then ServesAt(t, i, q, j)
                  else j == i
    decreases |t| - i, |t[i].children| + 1
  {
    ShapedOffsets(t);
    var m := |t[i].children|;
    q, j := RoundOutcome(t, i, m);
    DeliverableSplit(t, i);
    AllTurns(t, i);
    if NoneOf(t, i, m) {
      assert SetOffset(t, i, t[i].offset) == t;
      OwnOutcome(t, i);
      j := i;
    } else {
      ChildBelow(t, i, Turn(t[i].offset, m, q), j);
      assert Deliverable(t, t[i].children[Turn(t[i].offset, m, q)]);
    }
  }

  /** A full round tries every child and leaves the offset where it was. */
  lemma AllTurns(t: Tree, i: nat)
    requires Shaped(t) && i < |t| && OffsetsOk(t)
    ensures NoneOf(t, i, |t[i].children|) <==> forall k | 0 <= k < |t[i].children| :: !Deliverable(t, t[i].children[k])
    ensures After(t[i].offset, |t[i].children|, |t[i].children|) == t[i].offset
  {
    var m, o := |t[i].children|, t[i].offset;
    if NoneOf(t, i, m) {
      forall k | 0 <= k < m ensures !Deliverable(t, t[i].children[k]) {
        var p: nat := if k < o then o - 1 - k else o + m - 1 - k;
        assert Turn(o, m, p) == k;
      }
    }
  }
}
