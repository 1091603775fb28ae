/** Runs that fill up buckets, and push a shaper that is not tight past its capacity. */
module ShaperOverflow {
  import opened ShaperTree
  import opened ShaperTokens
  import opened ShaperLedger
  import opened ShaperRates
  import opened ShaperRuns
  import opened ShaperCapacity
  import opened ShaperExact

  // ---------------------------------------------------------------- putting runs together

  lemma {:induction false} RunsAppend(s: State, ops: seq<Op>, s1: State, more: seq<Op>, s2: State)
    requires Consistent(s) && Runs(s, ops, s1) && Consistent(s1) && Runs(s1, more, s2)
    ensures Runs(s, ops + more, s2)
    decreases |ops|
  {
    hide Consistent, Step, Callable;
    if ops == [] {
      assert ops + more == more;
    } else {
      StepConsistent(s, ops[0]);
      RunsAppend(Step(s, ops[0]).value, ops[1..], s1, more, s2);
      assert (ops + more)[0] == ops[0] && (ops + more)[1..] == ops[1..] + more;
    }
  }

  lemma RunsOne(s: State, op: Op)
    requires Consistent(s) && Callable(s, op) && Step(s, op).Some?
    ensures Consistent(Step(s, op).value) && Runs(s, [op], Step(s, op).value)
  {
    hide Consistent, Step, Callable;
    StepConsistent(s, op);
    assert [op][1..] == [];
    assert Runs(Step(s, op).value, [], Step(s, op).value);
  }

  /** A run that only takes tokens at bucket i and below it. */
  ghost predicate TakesBelow(s: State, ops: seq<Op>, s': State, i: nat) {
    && Consistent(s) && Consistent(s') && i < |s.tree| && Runs(s, ops, s') && SameRates(s.tree, s'.tree) && Sized(s)
    && Sized(s')
    && (forall op | op in ops :: op.Take? && op.i < |s.tree| && Above(s.tree, i, op.i))
  }

  /** Holdings elsewhere, and loads of buckets neither above nor below i, are as before. */
  ghost predicate OthersKept(s: State, s': State, i: nat) {
    && Sized(s) && Sized(s') && SameShape(s.tree, s'.tree) && i < |s.tree|
    && (forall j | 0 <= j < |s.tree| && !Above(s.tree, i, j) :: s'.held[j] == s.held[j])
    && (forall j | 0 <= j < |s.tree| && !Above(s.tree, i, j) && !Above(s.tree, j, i) ::
          s'.tree[j].load == s.tree[j].load)
  }

  ghost predicate Grew(s: State, ops: seq<Op>, s': State, i: nat) {
    TakesBelow(s, ops, s', i) && OthersKept(s, s', i)
  }

  /** First below i, then below c, which itself lies below i. */
  lemma GrewTrans(s: State, ops: seq<Op>, s1: State, more: seq<Op>, s2: State, i: nat, c: nat)
    requires Grew(s, ops, s1, i) && Grew(s1, more, s2, c) && c < |s.tree| && Above(s.tree, i, c)
    ensures Grew(s, ops + more, s2, i)
  {
    hide Consistent, Runs;
    RunsAppend(s, ops, s1, more, s2);
    AboveBounds(s.tree, i, c);
    forall op | op in ops + more ensures op.Take? && op.i < |s.tree| && Above(s.tree, i, op.i) {
      if op in more {
        AboveSame(s.tree, s1.tree, c, op.i);
        AboveBounds(s.tree, c, op.i);
        AboveTrans(s.tree, i, c, op.i);
      }
    }
    OthersTrans(s, s1, s2, i, c);
  }

  lemma OthersTrans(s: State, s1: State, s2: State, i: nat, c: nat)
    requires OthersKept(s, s1, i) && OthersKept(s1, s2, c) && c < |s.tree| && i <= c && Above(s.tree, i, c)
    ensures OthersKept(s, s2, i)
  {
    var t := s.tree;
    forall j | 0 <= j < |t| && !Above(t, i, j)
      ensures s2.held[j] == s.held[j] && (!Above(t, j, i) ==> s2.tree[j].load == s.tree[j].load) {
      AboveSame(t, s1.tree, c, j);
      AboveSame(t, s1.tree, j, c);
      if Above(t, c, j) {
        AboveBounds(t, c, j);
        AboveTrans(t, i, c, j);
      }
      if Above(t, j, c) && !Above(t, j, i) {
        AboveBounds(t, j, c);
        if j <= i { AboveLinear(t, j, i, c); } else { AboveLinear(t, i, j, c); }
      }
    }
  }

  lemma GrewNothing(s: State, i: nat)
    requires Consistent(s) && i < |s.tree|
    ensures Grew(s, [], s, i)
  {
    hide Configured, Accounts, Conserved, UniqueNames;
  }

  // ---------------------------------------------------------------- taking at one bucket

  /** No tokens are in use at i or below it. */
  ghost predicate IdleBelow(t: Tree, i: nat) {
    i < |t| && forall j | 0 <= j < |t| && Above(t, i, j) :: t[j].load == 0
  }

  /** The children of i use no tokens. */
  ghost predicate ChildrenIdle(t: Tree, i: nat) {
    i < |t| && forall j | i < j < |t| && Above(t, i, j) :: t[j].load == 0
  }

  lemma NothingOver(t: Tree, i: nat)
    requires Shaped(t) && ChildrenIdle(t, i)
    ensures ChildOver(t, i) == 0
  {
    ChildrenWithin(t, i);
    forall k | 0 <= k < |t[i].children| ensures Overs(t, t[i].children)[k] == 0 {
      ChildOf(t, i, k);
      assert Above(t, i, t[i].children[k]);
    }
    SumZero(Overs(t, t[i].children));
  }

  lemma TakeGrows(s: State, i: nat, n: nat) returns (s': State)
    requires Consistent(s) && i < |s.tree| && Assured(s.tree, i, n)
    ensures Grew(s, [Take(i, n)], s', i)
    ensures s'.held == s.held[i := s.held[i] + n] && s'.tree[i].load == s.tree[i].load + n
            && s'.tree[i].rate == s.tree[i].rate
    ensures ChildrenIdle(s.tree, i) ==> ChildrenIdle(s'.tree, i)
  {
    hide Configured, Accounts, Conserved, UniqueNames, Shaped, Get, Granted;
    ConsistentParts(s);
    var t := s.tree;
    assert Granted(t, i, n) by { AssuredGranted(t, i, n); }
    GetOutcome(t, i, n);
    RunsOne(s, Take(i, n));
    s' := Step(s, Take(i, n)).value;
    assert s'.tree == Raised(t, i, n);
    assert [Take(i, n)][0] == Take(i, n);
    forall j | i < j < |t| && Above(s'.tree, i, j) && ChildrenIdle(t, i) ensures s'.tree[j].load == 0 {
      AboveSame(t, s'.tree, i, j);
      if Above(t, j, i) { AboveBounds(t, j, i); }
    }
  }

  lemma AssuredGranted(t: Tree, i: nat, n: nat)
    requires Shaped(t) && i < |t| && Assured(t, i, n)
    ensures Granted(t, i, n)
  {
    assert LendsAt(t, Path(t, i), n, 0);
  }

  /** One token at a time, a bucket with something unreserved can use all of its rate. */
  lemma {:induction false} TakeOnes(s: State, i: nat, m: nat) returns (ops: seq<Op>, s': State)
    requires Consistent(s) && ChildrenIdle(s.tree, i) && ChildRate(s.tree, i) < s.tree[i].rate
    requires s.tree[i].load + m <= s.tree[i].rate
    ensures Grew(s, ops, s', i) && ChildrenIdle(s'.tree, i)
    ensures s'.held == s.held[i := s.held[i] + m] && s'.tree[i].load == s.tree[i].load + m
            && s'.tree[i].rate == s.tree[i].rate
    decreases m
  {
    hide Configured, Accounts, Conserved, UniqueNames, Shaped, Runs, Consistent, ChildrenIdle;
    assert i < |s.tree| by { IdleIs(s.tree, i); }
    SizedNow(s);
    if m == 0 {
      ops, s' := [], s;
      GrewNothing(s, i);
    } else {
      ConsistentParts(s);
      NothingOver(s.tree, i);
      var s1 := TakeGrows(s, i, 1);
      ConsistentParts(s1);
      SameChildRate(s.tree, s1.tree, i);
      var more: seq<Op>;
      more, s' := TakeOnes(s1, i, m - 1);
      ops := [Take(i, 1)] + more;
      GrewTrans(s, [Take(i, 1)], s1, more, s', i, i);
      assert s1.held[i := s1.held[i] + (m - 1)] == s.held[i := s.held[i] + m];
    }
  }

  lemma IdleIs(t: Tree, i: nat)
    requires ChildrenIdle(t, i)
    ensures i < |t|
  {
  }

  lemma SizedNow(s: State)
    requires Consistent(s)
    ensures Sized(s)
  {
  }

  // ---------------------------------------------------------------- filling up

  lemma IdleParts(t: Tree, i: nat)
    requires Shaped(t) && IdleBelow(t, i)
    ensures t[i].load == 0 && ChildrenIdle(t, i)
    ensures forall k | 0 <= k < |t[i].children| :: t[i].children[k] < |t| && IdleBelow(t, t[i].children[k])
  {
    assert Above(t, i, i);
    forall k | 0 <= k < |t[i].children| ensures t[i].children[k] < |t| && IdleBelow(t, t[i].children[k]) {
      ChildOf(t, i, k);
      forall j | 0 <= j < |t| && Above(t, t[i].children[k], j) ensures t[j].load == 0 { ChildBelow(t, i, k, j); }
    }
  }

  /** Tokens taken below one child leave the siblings and what is below them alone. */
  lemma SiblingsKept(s: State, s': State, i: nat, k: nat, l: nat)
    requires Shaped(s.tree) && i < |s.tree| && k < |s.tree[i].children| && l < |s.tree[i].children| && k != l
    requires OthersKept(s, s', s.tree[i].children[k])
    ensures var c := s.tree[i].children[l];
            c < |s.tree| && s'.tree[c].load == s.tree[c].load && (IdleBelow(s.tree, c) ==> IdleBelow(s'.tree, c))
  {
    var t, c, d := s.tree, s.tree[i].children[l], s.tree[i].children[k];
    ChildOf(t, i, l);
    ChildOf(t, i, k);
    ChildrenApart(t, i, k, l, d);
    forall j | 0 <= j < |t| && Above(t, c, j) ensures s'.tree[j].load == t[j].load {
      ChildrenApart(t, i, l, k, j);
      if Above(t, j, d) {
        AboveBounds(t, c, j);
        AboveBounds(t, j, d);
        AboveTrans(t, c, j, d);
      }
    }
    assert Above(t, c, c);
    forall j | 0 <= j < |t| && Above(s'.tree, c, j) && IdleBelow(t, c)
      ensures s'.tree[j].load == 0 { AboveSame(t, s'.tree, c, j); }
  }

  lemma GrewKept(s: State, ops: seq<Op>, s': State, i: nat)
    requires Grew(s, ops, s', i)
    ensures Consistent(s') && OthersKept(s, s', i) && SameRates(s.tree, s'.tree) && |s'.tree| == |s.tree|
  {
  }

  /** What is left of a bucket's own holdings when tokens are taken below one of its children. */
  lemma OwnKept(s: State, s': State, i: nat, k: nat)
    requires Shaped(s.tree) && i < |s.tree| && k < |s.tree[i].children| && OthersKept(s, s', s.tree[i].children[k])
    ensures s'.held[i] == s.held[i]
  {
    ChildOf(s.tree, i, k);
    if Above(s.tree, s.tree[i].children[k], i) { AboveBounds(s.tree, s.tree[i].children[k], i); }
  }

  /** From idle, some run uses up the whole rate of a bucket, at the bucket or below it. */
  lemma {:induction false} Fill(s: State, i: nat) returns (ops: seq<Op>, s': State)
    requires Consistent(s) && IdleBelow(s.tree, i)
    ensures Grew(s, ops, s', i) && s'.tree[i].load >= s.tree[i].rate
    decreases |s.tree| - i, 1, 0
  {
    hide Configured, Accounts, Conserved, UniqueNames, Shaped, Runs, Consistent, ChildrenIdle;
    ConsistentParts(s);
    SizedNow(s);
    IdleParts(s.tree, i);
    if ChildRate(s.tree, i) < s.tree[i].rate {
      ops, s' := TakeOnes(s, i, s.tree[i].rate);
    } else {
      ops, s' := FillChildren(s, i, 0, |s.tree[i].children|);
      FilledLoad(s, s', i, |s.tree[i].children|) by { GrewKept(s, ops, s', i); }
    }
  }

  /** The children of i from the k-th on, except one, are filled; the others stay as they are. */
  lemma {:induction false} FillChildren(s: State, i: nat, k: nat, skip: nat) returns (ops: seq<Op>, s': State)
    requires Consistent(s) && i < |s.tree| && k <= |s.tree[i].children|
    requires forall l | k <= l < |s.tree[i].children| && l != skip :: IdleBelow(s.tree, s.tree[i].children[l])
    ensures Grew(s, ops, s', i) && s'.held[i] == s.held[i] && (forall op | op in ops :: op.Take? && op.i > i)
    ensures Filled(s, s', i, k, skip)
    decreases |s.tree| - i, 0, |s.tree[i].children| - k
  {
    hide Configured, Accounts, Conserved, UniqueNames, Shaped, Runs, Consistent, IdleBelow, Filled;
    ConsistentParts(s);
    SizedNow(s);
    if k == |s.tree[i].children| {
      ops, s' := [], s;
      GrewNothing(s, i);
      FilledNone(s, i, k, skip);
    } else if k == skip {
      ops, s' := FillChildren(s, i, k + 1, skip);
      FilledSkip(s, s', i, k);
    } else {
      var c := s.tree[i].children[k];
      ChildOf(s.tree, i, k);
      var first, s1 := Fill(s, c);
      GrewKept(s, first, s1, c);
      forall l | k + 1 <= l < |s.tree[i].children| && l != skip ensures IdleBelow(s1.tree, s.tree[i].children[l]) {
        SiblingsKept(s, s1, i, k, l);
      }
      var more: seq<Op>;
      more, s' := FillChildren(s1, i, k + 1, skip);
      ops := first + more;
      OwnKept(s, s1, i, k);
      ChildGrew(s, first, s1, i, c);
      GrewTrans(s, first, s1, more, s', i, i) by { assert Above(s.tree, i, i); }
      FilledMore(s, s1, s', i, k, skip);
    }
  }

  /** Children from the k-th on, except one, use at least their rates; the others what they used before. */
  ghost predicate Filled(s: State, s': State, i: nat, k: nat, skip: nat) {
    && i < |s.tree| == |s'.tree| && Within(s.tree, s.tree[i].children)
    && forall l | 0 <= l < |s.tree[i].children| ::
         var c := s.tree[i].children[l];
         if k <= l && l != skip then s'.tree[c].load >= s.tree[c].rate else s'.tree[c].load == s.tree[c].load
  }

  lemma FilledNone(s: State, i: nat, k: nat, skip: nat)
    requires Shaped(s.tree) && i < |s.tree| && k == |s.tree[i].children|
    ensures Filled(s, s, i, k, skip)
  {
    ChildrenWithin(s.tree, i);
  }

  lemma FilledSkip(s: State, s': State, i: nat, k: nat)
    requires Filled(s, s', i, k + 1, k)
    ensures Filled(s, s', i, k, k)
  {
  }

  lemma FilledMore(s: State, s1: State, s': State, i: nat, k: nat, skip: nat)
    requires Shaped(s.tree) && SameRates(s.tree, s1.tree) && i < |s.tree| && k < |s.tree[i].children| && k != skip
    requires OthersKept(s, s1, s.tree[i].children[k]) && Filled(s1, s', i, k + 1, skip)
    requires s1.tree[s.tree[i].children[k]].load >= s.tree[s.tree[i].children[k]].rate
    ensures Filled(s, s', i, k, skip)
  {
    forall l | 0 <= l < |s.tree[i].children| && l != k
      ensures var c := s.tree[i].children[l]; s1.tree[c].load == s.tree[c].load { SiblingsKept(s, s1, i, k, l); }
  }

  /** A run below a child is a run strictly below its parent. */
  lemma ChildGrew(s: State, ops: seq<Op>, s': State, i: nat, c: nat)
    requires Shaped(s.tree) && Grew(s, ops, s', c) && i < c && c < |s.tree| && s.tree[c].parent == i
    ensures Grew(s, ops, s', i) && forall op | op in ops :: op.Take? && op.i > i
  {
    hide Consistent, Runs;
    assert Above(s.tree, i, c);
    forall op | op in ops ensures op.Take? && op.i > i && op.i < |s.tree| && Above(s.tree, i, op.i) {
      AboveBounds(s.tree, c, op.i);
      AboveTrans(s.tree, i, c, op.i);
    }
    assert OthersKept(s, s, i);
    OthersTrans(s, s, s', i, c);
  }

  /** Filled children add up to at least what is reserved for them. */
  lemma FilledLoad(s: State, s': State, i: nat, skip: nat)
    requires Shaped(s.tree) && Consistent(s') && SameRates(s.tree, s'.tree) && i < |s.tree| && Filled(s, s', i, 0, skip)
    requires skip < |s.tree[i].children| ==>
               s'.tree[s.tree[i].children[skip]].load >= s.tree[s.tree[i].children[skip]].rate
    ensures Sized(s') && s'.tree[i].load >= s'.held[i] + ChildRate(s.tree, i)
    ensures skip < |s.tree[i].children|
            && s'.tree[s.tree[i].children[skip]].load > s.tree[s.tree[i].children[skip]].rate ==>
              s'.tree[i].load > s'.held[i] + ChildRate(s.tree, i)
  {
    hide Configured, Conserved, UniqueNames, Shaped;
    var t, ids := s.tree, s.tree[i].children;
    ConsistentParts(s');
    ChildrenWithin(t, i);
    ChildrenWithin(s'.tree, i);
    OwnTokens(s'.tree, s'.held, i);
    var a, b := Rates(t, ids), Loads(s'.tree, ids);
    SumMono(a, b);
    if skip < |ids| && b[skip] > a[skip] {
      SumMono(a[skip := a[skip] + 1], b);
      SumUpdate(a, skip, a[skip] + 1);
    }
  }

  // ---------------------------------------------------------------- spilling over

  /** From idle, a bucket that is not tight can be pushed past its rate. */
  lemma {:induction false} Spill(s: State, i: nat) returns (ops: seq<Op>, s': State)
    requires Consistent(s) && IdleBelow(s.tree, i) && Shaped(s.tree) && !Tight(s.tree, i)
    ensures Grew(s, ops, s', i) && s'.tree[i].load > s.tree[i].rate
    decreases |s.tree| - i
  {
    hide Configured, Accounts, Conserved, UniqueNames, Shaped, Runs, Consistent, ChildrenIdle, IdleBelow, Filled;
    SizedNow(s);
    var t := s.tree;
    IdleInside(t, i);
    IdleParts(t, i);
    if ChildRate(t, i) < t[i].rate {
      ops, s' := SpillUnreserved(s, i);
    } else if ChildRate(t, i) > t[i].rate {
      ops, s' := FillChildren(s, i, 0, |t[i].children|);
      FilledLoad(s, s', i, |t[i].children|) by { GrewKept(s, ops, s', i); }
    } else {
      var k := LooseChild(t, i);
      var c := t[i].children[k];
      ChildOf(t, i, k);
      var first, s1 := Spill(s, c);
      ops, s' := SpillSiblings(s, first, s1, i, k);
    }
  }

  lemma IdleInside(t: Tree, i: nat)
    requires IdleBelow(t, i)
    ensures i < |t|
  {
  }

  lemma LooseChild(t: Tree, i: nat) returns (k: nat)
    requires Shaped(t) && i < |t| && !Tight(t, i) && ChildRate(t, i) == t[i].rate
    ensures k < |t[i].children| && t[i].children[k] < |t| && !Tight(t, t[i].children[k])
  {
    assert ChildrenOk(t, i);
    k :| 0 <= k < |t[i].children| && !Tight(t, t[i].children[k]);
  }

  /** The bucket itself uses up its rate; a child still has its own. */
  lemma SpillUnreserved(s: State, i: nat) returns (ops: seq<Op>, s': State)
    requires Consistent(s) && Shaped(s.tree) && IdleBelow(s.tree, i) && 0 < ChildRate(s.tree, i) < s.tree[i].rate
    ensures Grew(s, ops, s', i) && s'.tree[i].load > s.tree[i].rate
  {
    hide Configured, Accounts, Conserved, UniqueNames, Shaped, Runs, Consistent, ChildrenIdle, IdleBelow, Filled;
    SizedNow(s);
    var t := s.tree;
    IdleInside(t, i);
    IdleParts(t, i);
    var first, s1 := TakeOnes(s, i, t[i].rate);
    GrewKept(s, first, s1, i);
    ConsistentParts(s1);
    forall l | 0 <= l < |t[i].children| ensures IdleBelow(s1.tree, t[i].children[l]) { ChildStillIdle(s1.tree, i, l); }
    var more: seq<Op>;
    more, s' := FillChildren(s1, i, 0, |t[i].children|);
    GrewTrans(s, first, s1, more, s', i, i) by { assert Above(t, i, i); }
    ops := first + more;
    FilledLoad(s1, s', i, |t[i].children|) by { GrewKept(s1, more, s', i); }
    SameChildRate(t, s1.tree, i);
  }

  lemma ChildStillIdle(t: Tree, i: nat, l: nat)
    requires Shaped(t) && ChildrenIdle(t, i) && l < |t[i].children|
    ensures IdleBelow(t, t[i].children[l])
  {
    ChildOf(t, i, l);
    forall j | 0 <= j < |t| && Above(t, t[i].children[l], j) ensures t[j].load == 0 { ChildBelow(t, i, l, j); }
  }

  /** One child is past its rate already; the others are filled. */
  lemma SpillSiblings(s: State, first: seq<Op>, s1: State, i: nat, k: nat) returns (ops: seq<Op>, s': State)
    requires Consistent(s) && Shaped(s.tree) && i < |s.tree| && k < |s.tree[i].children|
             && ChildRate(s.tree, i) == s.tree[i].rate
    requires forall l | 0 <= l < |s.tree[i].children| :: IdleBelow(s.tree, s.tree[i].children[l])
    requires Grew(s, first, s1, s.tree[i].children[k])
    requires s.tree[i].children[k] < |s1.tree|
             && s1.tree[s.tree[i].children[k]].load > s.tree[s.tree[i].children[k]].rate
    ensures Grew(s, ops, s', i) && s'.tree[i].load > s.tree[i].rate
  {
    hide Configured, Accounts, Conserved, UniqueNames, Shaped, Runs, Consistent, IdleBelow, Filled;
    var t, c := s.tree, s.tree[i].children[k];
    ChildOf(t, i, k);
    GrewKept(s, first, s1, c);
    ConsistentParts(s1);
    forall l | 0 <= l < |t[i].children| && l != k
      ensures IdleBelow(s1.tree, t[i].children[l]) { SiblingsKept(s, s1, i, k, l); }
    var more: seq<Op>;
    more, s' := FillChildren(s1, i, 0, k);
    ChildGrew(s, first, s1, i, c);
    GrewTrans(s, first, s1, more, s', i, i) by { assert Above(t, i, i); }
    ops := first + more;
    GrewKept(s1, more, s', i);
    assert s'.tree[c].load == s1.tree[c].load by { FilledAt(s1, s', i, k); }
    FilledLoad(s1, s', i, k);
    SameChildRate(t, s1.tree, i);
  }

  lemma FilledAt(s: State, s': State, i: nat, k: nat)
    requires Filled(s, s', i, 0, k) && k < |s.tree[i].children|
    ensures s.tree[i].children[k] < |s.tree|
            && s'.tree[s.tree[i].children[k]].load == s.tree[s.tree[i].children[k]].load
  {
  }

  /**
   * A shaper keeps to its capacity, whatever tokens are taken, returned or queued at whatever
   * buckets, exactly if every bucket has reserved all of its rate for its children, going down
   * from the root, until some have reserved nothing.
   */
  lemma CapacityExact(s: State)
    requires Consistent(s) && Idle(s)
    ensures Shaped(s.tree)
    ensures (forall ops, s' | Runs(s, ops, s') && KeepConfig(ops) :: WithinCapacity(s')) <==> Tight(s.tree, 0)
  {
    hide Consistent, Runs, Tight, Shaped;
    ConsistentParts(s);
    if Tight(s.tree, 0) {
      forall ops, s' | Runs(s, ops, s') && KeepConfig(ops) ensures WithinCapacity(s') { TightKeeps(s, ops, s'); }
    } else {
      assert |s.tree| > 0 by { NotEmpty(s.tree); }
      var ops, s' := Spill(s, 0);
      assert Runs(s, ops, s') && KeepConfig(ops) && s'.tree[0].rate == s.tree[0].rate;
      assert !WithinCapacity(s');
    }
  }

  lemma NotEmpty(t: Tree)
    requires Shaped(t)
    ensures |t| > 0
  {
  }

  /** For a root with leaves the condition is about the root alone. */
  lemma LeavesTight(t: Tree)
    requires Shaped(t) && forall i | 0 < i < |t| :: t[i].parent == 0
    ensures Tight(t, 0) <==> ChildRate(t, 0) == 0 || ChildRate(t, 0) == t[0].rate
  {
    assert ChildrenOk(t, 0);
    forall k | 0 <= k < |t[0].children| ensures 0 < t[0].children[k] < |t| && Tight(t, t[0].children[k]) {
      var c := t[0].children[k];
      ChildOf(t, 0, k);
      if t[c].children != [] { ChildOf(t, c, 0); }
      ChildrenWithin(t, c);
    }
  }

  lemma BoundedSize(s: State)
    requires Bounded(s)
    ensures |s.tree| > 0
  {
  }

  ghost predicate AllBelowRoot(ops: seq<Op>) {
    forall op | op in ops :: BelowRoot(op)
  }

  /**
   * With tokens taken below the root only, and nothing assured to buckets further down than the
   * root's children, a shaper keeps to its capacity exactly if it reserves no more than it has.
   */
  lemma BelowRootExact(s: State)
    requires Consistent(s) && Idle(s) && FlatRates(s.tree) && s.tree[0].queue == []
    ensures (forall ops, s' | Runs(s, ops, s') && AllBelowRoot(ops) :: WithinCapacity(s'))
       <==> ChildRate(s.tree, 0) <= s.tree[0].rate
  {
    hide Consistent, Runs, FlatRates, Bounded, Filled;
    var t := s.tree;
    ConsistentParts(s);
    assert |t| > 0 by { NotEmpty(t); }
    if ChildRate(t, 0) <= t[0].rate {
      IdleBounded(s);
      forall ops, s' | Runs(s, ops, s') && AllBelowRoot(ops) ensures WithinCapacity(s') {
        RunBounded(s, ops, s');
        BoundedSize(s');
      }
    } else {
      IdleParts(t, 0);
      SizedNow(s);
      var ops, s' := FillChildren(s, 0, 0, |t[0].children|);
      FilledLoad(s, s', 0, |t[0].children|) by { GrewKept(s, ops, s', 0); }
      assert Runs(s, ops, s') && AllBelowRoot(ops) && s'.tree[0].rate == t[0].rate;
      assert !WithinCapacity(s');
    }
  }
}
