/** Round-robin between the children of one bucket over any run of dequeue calls. */
module ShaperFairness {
  import opened Wrappers
  import opened ShaperTree
  import opened ShaperTokens
  import opened ShaperQueues

  /**
   * The trees before each dequeue at bucket i. Between two of them anything may happen (tokens
   * taken and put back, items enqueued and timed out, rates changed, other buckets served) that
   * leaves i's children and its offset alone.
   */
  ghost predicate History(ts: seq<Tree>, i: nat) {
    && (forall n | 0 <= n < |ts| :: Shaped(ts[n]) && Counted(ts[n]) && i < |ts[n]|)
    && forall n | 0 <= n < |ts| - 1 ::
         ts[n + 1][i].children == ts[n][i].children && ts[n + 1][i].offset == Dequeue(ts[n], i).0[i].offset
  }

  ghost predicate CanServe(t: Tree, i: nat, c: nat)
    requires Shaped(t) && i < |t|
  {
    c < |t[i].children| && Deliverable(t, t[i].children[c])
  }

  /** The item dequeue takes comes from below child c. */
  ghost predicate Serves(t: Tree, i: nat, c: nat)
    requires Shaped(t) && Counted(t) && i < |t|
  {
    && c < |t[i].children|
    && exists j :: 0 <= j < |t| && Above(t, t[i].children[c], j) && Ready(t, j)
                   && Dequeue(t, i) == (Served(t, i, j), Some(t[j].queue[0].token))
  }

  /** How many children are tried before c. */
  function Wait(o: nat, m: nat, c: nat): (w: nat)
    requires c < m && (o == 0 || o < m)
    ensures w < m && Turn(o, m, w) == c
  {
    if c < o then o - 1 - c else o + m - 1 - c
  }

  /** While a child can serve, some child serves, one whose turn is not later, and the offset moves to it. */
  lemma StepServes(t: Tree, i: nat, c: nat) returns (x: nat)
    requires Shaped(t) && Counted(t) && i < |t| && CanServe(t, i, c)
    ensures x < |t[i].children| && (t[i].offset == 0 || t[i].offset < |t[i].children|)
    ensures Serves(t, i, x) && CanServe(t, i, x) && Dequeue(t, i).0[i].offset == x
    ensures Wait(t[i].offset, |t[i].children|, x) <= Wait(t[i].offset, |t[i].children|, c)
    ensures forall y | 0 <= y < |t[i].children|
            && Wait(t[i].offset, |t[i].children|, y) < Wait(t[i].offset, |t[i].children|, x) ::
              !CanServe(t, i, y)
  {
    hide Served, Granted, Above, Dequeue, Ready, Shaped, Counted;
    ShapedOffsets(t);
    DeliverableSplit(t, i);
    var q, j := DequeueOutcome(t, i);
    var m, o := |t[i].children|, t[i].offset;
    x := Turn(o, m, q);
    assert Wait(o, m, x) == q;
    assert Serves(t, i, x);
    OffsetServed(t, i, x);
    assert CanServe(t, i, x);
    forall y | 0 <= y < m && Wait(o, m, y) < q ensures !CanServe(t, i, y) { assert Turn(o, m, Wait(o, m, y)) == y; }
  }

  lemma OnlyOneServes(t: Tree, i: nat, x: nat, y: nat)
    requires Shaped(t) && Counted(t) && i < |t| && Serves(t, i, x) && Serves(t, i, y)
    ensures x == y
  {
    OffsetServed(t, i, x);
    OffsetServed(t, i, y);
  }

  lemma OffsetServed(t: Tree, i: nat, x: nat)
    requires Shaped(t) && Counted(t) && i < |t| && Serves(t, i, x)
    ensures Dequeue(t, i).0[i].offset == x
  {
    var j :| 0 <= j < |t| && Above(t, t[i].children[x], j) && Ready(t, j)
             && Dequeue(t, i) == (Served(t, i, j), Some(t[j].queue[0].token));
    ChildBelow(t, i, x, j);
    TowardUnique(t, i, j, x);
    assert Served(t, i, j)[i] == ServedAt(t, i, j, i);
  }

  lemma ServesBound(t: Tree, i: nat, x: nat)
    requires Shaped(t) && Counted(t) && i < |t| && Serves(t, i, x)
    ensures x < |t[i].children|
  {
  }

  lemma {:induction false} RoundRobin(ts: seq<Tree>, i: nat, n: nat)
    requires History(ts, i) && n < |ts| && n < |ts[0][i].children|
    requires forall l, c | 0 <= l < |ts| && 0 <= c < |ts[0][i].children| :: CanServe(ts[l], i, c)
    ensures ts[0][i].offset == 0 || ts[0][i].offset < |ts[0][i].children|
    ensures ts[n][i].children == ts[0][i].children
    ensures Serves(ts[n], i, Turn(ts[0][i].offset, |ts[0][i].children|, n))
    ensures Dequeue(ts[n], i).0[i].offset == Turn(ts[0][i].offset, |ts[0][i].children|, n)
  {
    hide Dequeue, Serves, CanServe, Shaped, Counted;
    ShapedOffsets(ts[0]);
    var m, o := |ts[0][i].children|, ts[0][i].offset;
    if n > 0 { RoundRobin(ts, i, n - 1); }
    var t := ts[n];
    ShapedOffsets(t);
    assert CanServe(t, i, 0);
    var c := Turn(t[i].offset, |t[i].children|, 0);
    assert |t[i].children| == m by { if n > 0 { assert ts[n - 1 + 1][i].children == ts[n - 1][i].children; } }
    assert CanServe(t, i, c);
    var x := StepServes(t, i, c);
    assert Wait(t[i].offset, m, c) == 0;
    assert x == c by { assert Turn(t[i].offset, m, Wait(t[i].offset, m, x)) == x; }
    if n > 0 { assert t[i].offset == Turn(o, m, n - 1); }
  }

  /** While all k children can serve, k dequeues in a row serve each child exactly once. */
  lemma EachServedOnce(ts: seq<Tree>, i: nat, c: nat) returns (n: nat)
    requires History(ts, i) && |ts| > 0 && |ts| == |ts[0][i].children| && c < |ts|
    requires forall l, d | 0 <= l < |ts| && 0 <= d < |ts[0][i].children| :: CanServe(ts[l], i, d)
    ensures n < |ts| && Serves(ts[n], i, c)
    ensures forall l | 0 <= l < |ts| && Serves(ts[l], i, c) :: l == n
  {
    ShapedOffsets(ts[0]);
    var m, o := |ts|, ts[0][i].offset;
    n := Wait(o, m, c);
    RoundRobin(ts, i, n);
    forall l | 0 <= l < |ts| && Serves(ts[l], i, c) ensures l == n {
      RoundRobin(ts, i, l);
      OnlyOneServes(ts[l], i, c, Turn(o, m, l));
    }
  }

  /** What is left of a wait once x has been served. */
  lemma WaitAfter(o: nat, m: nat, x: nat, c: nat)
    requires x < m && c < m && (o == 0 || o < m) && Wait(o, m, x) < Wait(o, m, c)
    ensures Wait(x, m, c) == Wait(o, m, c) - Wait(o, m, x) - 1
  {
  }

  /** After s was served and until c is, c's turn comes before the next turn of s. */
  lemma {:induction false} ComesFirst(ts: seq<Tree>, i: nat, s: nat, c: nat, from: nat, n: nat)
    requires History(ts, i) && from < n < |ts| && c != s && Serves(ts[from], i, s)
    requires forall l | from < l <= n :: CanServe(ts[l], i, c)
    requires forall l | from < l < n :: !Serves(ts[l], i, c)
    ensures ts[n][i].children == ts[from][i].children && s < |ts[n][i].children| && c < |ts[n][i].children|
    ensures ts[n][i].offset == 0 || ts[n][i].offset < |ts[n][i].children|
    ensures Wait(ts[n][i].offset, |ts[n][i].children|, c) < Wait(ts[n][i].offset, |ts[n][i].children|, s)
    decreases n
  {
    hide Dequeue, Serves, Deliverable, Shaped, Counted;
    ShapedOffsets(ts[n]);
    var t := ts[n - 1];
    assert ts[n - 1 + 1][i].children == t[i].children && ts[n - 1 + 1][i].offset == Dequeue(t, i).0[i].offset;
    assert CanServe(ts[n], i, c);
    if n - 1 == from {
      OffsetServed(t, i, s);
      ServesBound(t, i, s);
    } else {
      ComesFirst(ts, i, s, c, from, n - 1);
      var m, o := |t[i].children|, t[i].offset;
      var x := StepServes(t, i, c);
      assert Turn(o, m, Wait(o, m, x)) == x && Turn(o, m, Wait(o, m, c)) == c;
      WaitAfter(o, m, x, c);
      WaitAfter(o, m, x, s);
    }
  }

  /** A child that can serve all along is never passed over twice by the same sibling. */
  lemma {:induction false} NeverPassedTwice(ts: seq<Tree>, i: nat, s: nat, c: nat, from: nat, to: nat)
    requires History(ts, i) && from < to < |ts| && c != s
    requires Serves(ts[from], i, s) && Serves(ts[to], i, s)
    requires forall l | from < l <= to :: CanServe(ts[l], i, c)
    ensures exists l :: from < l < to && Serves(ts[l], i, c)
  {
    if forall l | from < l < to :: !Serves(ts[l], i, c) {
      ComesFirst(ts, i, s, c, from, to);
      var x := StepServes(ts[to], i, c);
      OnlyOneServes(ts[to], i, x, s);
      assert false;
    }
  }
}
