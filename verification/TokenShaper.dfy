/**
 * The token shaper as it runs: nodes on the heap that update their fields in place.
 *
 * Every method takes, as a ghost, the sequence of all nodes of its tree and says what it does
 * to the value of that tree.
 */
module TokenShaper {
  import opened Wrappers
  import opened ShaperTree
  import opened ShaperTokens
  import opened ShaperRates
  import opened ShaperReserve
  import opened ShaperQueues
  import opened ShaperRuns

  ghost function Ids(ns: seq<Node>): (r: seq<nat>)
    ensures |r| == |ns|
  {
    seq(|ns|, k requires 0 <= k < |ns| => ns[k].id)
  }

  /** The value of the tree: the fields of each node, in creation order. */
  ghost function Snap(all: seq<Node>): (t: Tree)
    reads all
    ensures |t| == |all| && forall i | 0 <= i < |all| :: t[i] == all[i].Fields()
  {
    if all == [] then [] else
    var last := all[|all| - 1];
    Snap(all[..|all| - 1]) + [last.Fields()]
  }

  ghost predicate In(x: Node, all: seq<Node>) {
    x.id < |all| && all[x.id] == x
  }

  ghost predicate LinksOk(x: Node, all: seq<Node>)
    reads x`children
  {
    && (x.parent == null <==> x.id == 0)
    && (x.parent != null ==> In(x.parent, all))
    && (forall k | 0 <= k < |x.children| :: In(x.children[k], all))
  }

  /** The nodes of one tree, each at the place its id says, linked as the tree's value says. */
  ghost predicate Linked(all: seq<Node>)
    reads all
  {
    && (forall i | 0 <= i < |all| :: all[i].id == i)
    && (forall i | 0 <= i < |all| :: LinksOk(all[i], all))
    && Shaped(Snap(all))
  }

  /** The tree once one node's fields have changed and nothing else has. */
  lemma OnlyOne(all: seq<Node>, t: Tree, x: Node)
    requires In(x, all) && |t| == |all| && Shaped(t)
    requires forall i | 0 <= i < |all| :: all[i].id == i && LinksOk(all[i], all)
    requires forall i | 0 <= i < |all| && i != x.id :: all[i].Fields() == t[i]
    requires x.Fields().parent == t[x.id].parent && x.Fields().children == t[x.id].children
    requires x.dequeueOffset == 0 || x.dequeueOffset < |x.children|
    ensures Linked(all) && Shaped(Snap(all)) && Snap(all) == t[x.id := x.Fields()]
  {
    hide Shaped, LinksOk, Ids, Snap;
    ShapedOffsets(t);
    var r := t[x.id := x.Fields()];
    forall i | 0 <= i < |all| ensures Snap(all)[i] == r[i] {
      if i == x.id { assert all[i] == x; }
    }
    assert Snap(all) == r;
    SameShaped(t, r) by {
      forall i | 0 <= i < |t| ensures r[i].parent == t[i].parent && r[i].children == t[i].children
                                      && (r[i].offset == 0 || r[i].offset < |r[i].children|) {
        assert |Ids(x.children)| == |x.children|;
      }
    }
  }

  /** What every method may use of a linked tree. */
  lemma Use(all: seq<Node>, x: Node)
    requires Linked(all) && In(x, all)
    ensures Shaped(Snap(all)) && Snap(all)[x.id] == x.Fields()
    ensures forall i | 0 <= i < |all| :: all[i].id == i && LinksOk(all[i], all)
    ensures x.dequeueOffset == 0 || x.dequeueOffset < |x.children|
  {
    assert LinksOk(all[x.id], all) && ChildrenOk(Snap(all), x.id);
  }

  /** The neighbours of a node are nodes of the tree, as its value says. */
  lemma Neighbours(all: seq<Node>, x: Node)
    requires Linked(all) && In(x, all)
    ensures Shaped(Snap(all)) && Snap(all)[x.id] == x.Fields()
    ensures x.parent == null <==> x.id == 0
    ensures x.parent != null ==> In(x.parent, all) && x.parent.id == Snap(all)[x.id].parent < x.id
    ensures |Snap(all)[x.id].children| == |x.children|
    ensures forall k | 0 <= k < |x.children| ::
              In(x.children[k], all) && x.children[k].id == Snap(all)[x.id].children[k] && x.id < x.children[k].id
    ensures x.dequeueOffset == 0 || x.dequeueOffset < |x.children|
  {
    hide Shaped, Snap;
    var t := Snap(all);
    Use(all, x);
    assert LinksOk(all[x.id], all);
    if x.id > 0 { ParentOf(t, x.id); }
    forall k | 0 <= k < |x.children|
      ensures In(x.children[k], all) && x.children[k].id == t[x.id].children[k] && x.id < x.children[k].id {
      ChildOf(t, x.id, k);
      assert t[x.id].children[k] == Ids(x.children)[k];
    }
  }

  class Node {
    var name: string
    var rate: nat
    var ceil: nat
    var ratePercent: real
    var ceilPercent: real
    const parent: Node?
    var children: seq<Node>
    var actualRate: nat
    var queue: seq<Item>
    var queued: nat
    var dropped: nat
    var queueTimeout: int
    var dequeueOffset: nat
    ghost const id: nat

    ghost function Fields(): Bucket
      reads this
    {
      Bucket(name, rate, ceil, ratePercent, ceilPercent, if parent == null then 0 else parent.id, Ids(children),
             actualRate, queue, queued, dropped, queueTimeout, dequeueOffset)
    }

    constructor (name: string, tokenRate: nat, tokenCeil: nat, rate: real, ceil: real, parent: Node?, ghost id: nat)
      ensures this.parent == parent && this.id == id && this.children == []
      ensures Fields() == Bucket(name, tokenRate, tokenCeil, rate, ceil, if parent == null then 0 else parent.id, [],
                                 0, [], 0, 0, QUEUE_TIMEOUT, 0)
    {
      this.name, this.rate, this.ceil, ratePercent, ceilPercent := name, tokenRate, tokenCeil, rate, ceil;
      this.parent, children, actualRate := parent, [], 0;
      queue, queued, dropped, queueTimeout, dequeueOffset := [], 0, 0, QUEUE_TIMEOUT, 0;
      this.id := id;
      new;
      assert Ids(children) == [];
    }

    // -------------------------------------------------------------- counters

    method Increment(n: nat, ghost all: seq<Node>)
      requires Linked(all) && In(this, all)
      modifies this`actualRate
      ensures Linked(all) && Shaped(Snap(all)) && Snap(all) == AddLoad(old(Snap(all)), id, n)
    {
      hide Linked, Shaped, Snap, LinksOk, Ids;
      ghost var t := Snap(all);
      Use(all, this);
      actualRate := actualRate + n;
      OnlyOne(all, t, this);
    }

    method Decrement(n: nat, ghost all: seq<Node>)
      requires Linked(all) && In(this, all) && n <= actualRate
      modifies this`actualRate
      ensures Linked(all) && Shaped(Snap(all))
              && Snap(all) == old(Snap(all)[id := Snap(all)[id].(load := actualRate - n)])
    {
      hide Linked, Shaped, Snap, LinksOk, Ids;
      ghost var t := Snap(all);
      Use(all, this);
      actualRate := actualRate - n;
      OnlyOne(all, t, this);
    }

    // -------------------------------------------------------------- sums over the children

    function OverRate(): (r: nat)
      reads this
      ensures r == Over(Fields())
    {
      if actualRate > rate then actualRate - rate else 0
    }

    method ChildRateSum(ghost all: seq<Node>) returns (sum: nat)
      requires Linked(all) && In(this, all)
      ensures sum == ChildRate(Snap(all), id)
    {
      ghost var t := Snap(all);
      ChildrenWithin(t, id);
      sum := 0;
      for i := 0 to |children|
        invariant sum == Sum(Rates(t, t[id].children)[..i])
      {
        assert LinksOk(this, all) && In(children[i], all);
        SumTo(Rates(t, t[id].children), i);
        sum := sum + children[i].rate;
      }
      assert Rates(t, t[id].children)[..|children|] == Rates(t, t[id].children);
    }

    method ActualChildRate(ghost all: seq<Node>) returns (sum: nat)
      requires Linked(all) && In(this, all)
      ensures sum == ChildLoad(Snap(all), id)
    {
      ghost var t := Snap(all);
      ChildrenWithin(t, id);
      sum := 0;
      for i := 0 to |children|
        invariant sum == Sum(Loads(t, t[id].children)[..i])
      {
        assert LinksOk(this, all) && In(children[i], all);
        SumTo(Loads(t, t[id].children), i);
        sum := sum + children[i].actualRate;
      }
      assert Loads(t, t[id].children)[..|children|] == Loads(t, t[id].children);
    }

    method ActualChildOverRate(ghost all: seq<Node>) returns (sum: nat)
      requires Linked(all) && In(this, all)
      ensures sum == ChildOver(Snap(all), id)
    {
      ghost var t := Snap(all);
      ChildrenWithin(t, id);
      sum := 0;
      for i := 0 to |children|
        invariant sum == Sum(Overs(t, t[id].children)[..i])
      {
        assert LinksOk(this, all) && In(children[i], all);
        SumTo(Overs(t, t[id].children), i);
        sum := sum + children[i].OverRate();
      }
      assert Overs(t, t[id].children)[..|children|] == Overs(t, t[id].children);
    }

    // -------------------------------------------------------------- tokens

    /** Adds n to every node from this one up to the root. */
    method Propagate(n: nat, ghost all: seq<Node>)
      requires Linked(all) && In(this, all)
      modifies all`actualRate
      ensures Linked(all) && Snap(all) == Charge(old(Snap(all)), id, n)
    {
      hide Linked, Shaped, Snap, LinksOk, Ids, Charge;
      ghost var t := Snap(all);
      Neighbours(all, this);
      var p: Node? := this;
      while p != null
        invariant Linked(all) && |Snap(all)| == |all| && Shaped(Snap(all))
        invariant p == null ==> Snap(all) == Charge(t, id, n)
        invariant p != null ==> In(p, all) && Charge(Snap(all), p.id, n) == Charge(t, id, n)
        decreases if p == null then 0 else p.id + 1
      {
        ghost var t1 := Snap(all);
        Neighbours(all, p);
        ChargeStep(t1, p.id, n);
        p.Increment(n, all);
        p := p.parent;
      }
    }

    method Get(n: nat, ghost all: seq<Node>) returns (r: nat)
      requires Linked(all) && In(this, all)
      modifies all`actualRate
      ensures Linked(all) && Shaped(old(Snap(all))) && (Snap(all), r) == ShaperTokens.Get(old(Snap(all)), id, n)
      decreases id
    {
      hide Linked, Shaped, Snap, LinksOk, Ids, Charge, ChildRate, ChildOver;
      ghost var t := Snap(all);
      Neighbours(all, this);
      var Rc := ChildRateSum(all);
      var Oc := ActualChildOverRate(all);
      if Max(actualRate, Rc + Oc) + n <= rate {
        Propagate(n, all);
        return n;
      }
      r := 0;
      if actualRate + n <= ceil && parent != null {
        var k := parent.Get(n, all);
        if k != 0 {
          Increment(n, all);
          r := n;
        }
      }
    }

    /** `ok` is false where an assertion of the source fails. */
    method Put(n: nat, ghost all: seq<Node>) returns (ok: bool)
      requires Linked(all) && In(this, all)
      modifies all`actualRate
      ensures Linked(all) && Shaped(old(Snap(all))) && ok == PutBack(old(Snap(all)), id, n).Done?
      ensures ok ==> Snap(all) == PutBack(old(Snap(all)), id, n).tree
    {
      hide Linked, Shaped, Snap, LinksOk, Ids, PutBack, ChildLoad;
      ghost var t := Snap(all);
      Neighbours(all, this);
      var p: Node? := this;
      while p != null
        invariant Linked(all) && |Snap(all)| == |all| && Shaped(Snap(all))
        invariant p == null ==> PutBack(t, id, n) == Done(Snap(all))
        invariant p != null ==> In(p, all) && PutBack(Snap(all), p.id, n) == PutBack(t, id, n)
        decreases if p == null then 0 else p.id + 1
      {
        ghost var t1 := Snap(all);
        Neighbours(all, p);
        PutStep(t1, p.id, n);
        var used := p.ActualChildRate(all);
        if !(n <= p.actualRate && used <= p.actualRate - n) { return false; }
        p.Decrement(n, all);
        p := p.parent;
      }
      ok := true;
    }

    // -------------------------------------------------------------- configuration

    method SetTokens(tokenRate: nat, tokenCeil: nat, ghost all: seq<Node>)
      requires Linked(all) && In(this, all)
      modifies this`rate, this`ceil
      ensures Linked(all) && Shaped(Snap(all))
      ensures Snap(all) == old(Snap(all)[id := Snap(all)[id].(rate := tokenRate, ceil := tokenCeil)])
    {
      hide Linked, Shaped, Snap, LinksOk, Ids;
      ghost var t := Snap(all);
      Use(all, this);
      rate, ceil := tokenRate, tokenCeil;
      OnlyOne(all, t, this);
    }

    method SetPercents(p: real, q: real, ghost all: seq<Node>)
      requires Linked(all) && In(this, all)
      modifies this`ratePercent, this`ceilPercent
      ensures Linked(all) && Shaped(Snap(all))
      ensures Snap(all) == old(Snap(all)[id := Snap(all)[id].(rateP := p, ceilP := q)])
    {
      hide Linked, Shaped, Snap, LinksOk, Ids;
      ghost var t := Snap(all);
      Use(all, this);
      ratePercent, ceilPercent := p, q;
      OnlyOne(all, t, this);
    }

    method UpdateChildNodes(ghost all: seq<Node>)
      requires Linked(all) && In(this, all) && AllPercents(Snap(all))
      modifies all`rate, all`ceil
      ensures Linked(all) && Shaped(old(Snap(all))) && Snap(all) == UpdateChildren(old(Snap(all)), id, 0)
      decreases |all| - id, 0
    {
      hide Linked, Shaped, Snap, LinksOk, Ids, AllPercents, UpdateChildren, ShaperRates.Update;
      ghost var t := Snap(all);
      Neighbours(all, this);
      for i := 0 to |children|
        invariant Linked(all) && Shaped(Snap(all)) && AllPercents(Snap(all)) && |Snap(all)| == |t|
        invariant children == old(children) && Snap(all)[id].children == t[id].children
        invariant UpdateChildren(Snap(all), id, i) == UpdateChildren(t, id, 0)
      {
        Neighbours(all, this);
        UpdateStep(Snap(all), id, i);
        children[i].Update(all);
        Neighbours(all, this);
      }
      UpdateEnd(Snap(all), id);
    }

    method Update(ghost all: seq<Node>)
      requires Linked(all) && In(this, all) && AllPercents(Snap(all))
      modifies all`rate, all`ceil
      ensures Linked(all) && Shaped(old(Snap(all))) && Snap(all) == ShaperRates.Update(old(Snap(all)), id)
      decreases |all| - id, 1
    {
      hide Linked, Shaped, Snap, LinksOk, Ids, Portion, UpdateChildren;
      ghost var t := Snap(all);
      Neighbours(all, this);
      if parent != null {
        Neighbours(all, parent);
        assert Percents(t[id]);
        RatesOnly(t, Refresh(t, id));
        SetTokens(Portion(parent.rate, ratePercent), Portion(parent.ceil, ceilPercent), all);
      }
      UpdateChildNodes(all);
    }

    /** The root's update when the capacity changes. */
    method UpdateCapacity(capacity: nat, ghost all: seq<Node>)
      requires Linked(all) && In(this, all) && AllPercents(Snap(all)) && id == 0 && rate != capacity
      modifies all`rate, all`ceil
      ensures Linked(all) && Shaped(old(Snap(all))) && Snap(all) == ShaperRates.Resize(old(Snap(all)), capacity)
    {
      hide Linked, Shaped, Snap, LinksOk, Ids, Portion, UpdateChildren;
      ghost var t := Snap(all);
      Neighbours(all, this);
      assert Percents(t[0]);
      SetTokens(Portion(capacity, ratePercent), Portion(capacity, ceilPercent), all);
      RatesOnly(t, Snap(all));
      UpdateChildNodes(all);
    }

    method SetRate(newRate: real, ghost all: seq<Node>) returns (e: Error)
      requires Linked(all) && In(this, all) && AllPercents(Snap(all))
      modifies all`rate, all`ceil, this`ratePercent, this`ceilPercent
      ensures Linked(all) && Shaped(old(Snap(all)))
              && (Snap(all), e) == ShaperRates.SetRate(old(Snap(all)), id, newRate)
    {
      hide Linked, Shaped, Snap, LinksOk, Ids, Portion, UpdateChildren;
      ghost var t := Snap(all);
      Neighbours(all, this);
      if parent == null { return InvalidChildNode; }
      if newRate < 0.0 || newRate > ceilPercent { return RateLimitOverflow; }
      Neighbours(all, parent);
      assert Percents(t[id]);
      SetPercents(newRate, ceilPercent, all);
      SetTokens(Portion(parent.rate, ratePercent), ceil, all);
      ghost var t1 := t[id := t[id].(rateP := newRate, rate := Portion(t[t[id].parent].rate, newRate))];
      assert Snap(all) == t1;
      PercentsOnly(t, t1);
      UpdateChildNodes(all);
      e := Success;
    }

    method SetCeil(newCeil: real, ghost all: seq<Node>) returns (e: Error)
      requires Linked(all) && In(this, all) && AllPercents(Snap(all))
      modifies all`rate, all`ceil, this`ratePercent, this`ceilPercent
      ensures Linked(all) && Shaped(old(Snap(all)))
              && (Snap(all), e) == ShaperRates.SetCeil(old(Snap(all)), id, newCeil)
    {
      hide Linked, Shaped, Snap, LinksOk, Ids, Portion, UpdateChildren;
      ghost var t := Snap(all);
      Neighbours(all, this);
      if parent == null { return InvalidChildNode; }
      if newCeil < ratePercent || newCeil > 1.0 { return CeilLimitOverflow; }
      Neighbours(all, parent);
      assert Percents(t[id]);
      SetPercents(ratePercent, newCeil, all);
      SetTokens(rate, Portion(parent.ceil, ceilPercent), all);
      ghost var t1 := t[id := t[id].(ceilP := newCeil, ceil := Portion(t[t[id].parent].ceil, newCeil))];
      assert Snap(all) == t1;
      PercentsOnly(t, t1);
      UpdateChildNodes(all);
      e := Success;
    }

    method SetRateAndCeil(newRate: real, newCeil: real, ghost all: seq<Node>) returns (e: Error)
      requires Linked(all) && In(this, all) && AllPercents(Snap(all))
      modifies all`rate, all`ceil, this`ratePercent, this`ceilPercent
      ensures Linked(all) && Shaped(old(Snap(all))) && (Snap(all), e) == SetBoth(old(Snap(all)), id, newRate, newCeil)
    {
      hide Linked, Shaped, Snap, LinksOk, Ids, Portion, ShaperRates.Update;
      ghost var t := Snap(all);
      Neighbours(all, this);
      if parent == null { return InvalidChildNode; }
      if newRate < 0.0 || newRate > newCeil { return RateLimitOverflow; }
      if newCeil > 1.0 { return CeilLimitOverflow; }
      SetPercents(newRate, newCeil, all);
      PercentsOnly(t, Snap(all));
      Update(all);
      e := Success;
    }

    method RootNode(ghost all: seq<Node>) returns (n: Node)
      requires Linked(all) && In(this, all)
      ensures n.id == 0 && In(n, all)
    {
      n := this;
      Neighbours(all, n);
      while n.parent != null
        invariant In(n, all)
        decreases n.id
      {
        Neighbours(all, n);
        n := n.parent;
      }
      Neighbours(all, n);
    }

    method FindChild(name: string, ghost all: seq<Node>) returns (r: Node?)
      requires Linked(all) && In(this, all)
      ensures r != null ==> In(r, all)
      ensures ShaperRates.FindChild(Snap(all), id, name) == if r == null then None else Some(r.id)
      decreases |all| - id
    {
      hide Linked, Shaped, Snap, LinksOk, Ids, ShaperRates.FindChild, FindDirect, FindBelow;
      ghost var t := Snap(all);
      Neighbours(all, this);
      ghost var ids := t[id].children;
      ChildrenWithin(t, id);
      FindStart(t, id, name);
      for i := 0 to |children|
        invariant FindDirect(t, ids[i..], name) == FindDirect(t, ids, name)
      {
        DirectStep(t, ids, i, name);
        Neighbours(all, children[i]);
        if children[i].name == name { return children[i]; }
      }
      DirectEnd(t, name);
      assert ids[|children|..] == [];
      for i := 0 to |children|
        invariant FindBelow(t, id, i, name) == ShaperRates.FindChild(t, id, name)
      {
        BelowStep(t, id, i, name);
        r := children[i].FindChild(name, all);
        if r != null { return; }
      }
      BelowEnd(t, id, name);
      r := null;
    }

    method ChildRatePercent(ghost all: seq<Node>) returns (sum: real)
      requires Linked(all) && In(this, all)
      ensures sum == ChildRateP(Snap(all), id)
    {
      ghost var t := Snap(all);
      ChildrenWithin(t, id);
      sum := 0.0;
      Neighbours(all, this);
      for i := 0 to |children|
        invariant sum == SumP(Percentages(t, t[id].children)[..i])
      {
        SumPTo(Percentages(t, t[id].children), i);
        sum := sum + children[i].ratePercent;
      }
      assert Percentages(t, t[id].children)[..|children|] == Percentages(t, t[id].children);
    }

    method SetName(value: string, ghost all: seq<Node>) returns (e: Error)
      requires Linked(all) && In(this, all)
      modifies this`name
      ensures Linked(all) && Shaped(old(Snap(all))) && (Snap(all), e) == ShaperRates.SetName(old(Snap(all)), id, value)
    {
      hide Linked, Shaped, Snap, LinksOk, Ids, ShaperRates.FindChild;
      ghost var t := Snap(all);
      Use(all, this);
      var root := RootNode(all);
      var other := root.FindChild(value, all);
      if other != null { return NameConflict; }
      name := value;
      OnlyOne(all, t, this);
      e := Success;
    }

    method AttachChild(name: string, rate: real, ceil: real, ghost all: seq<Node>) returns (ghost all': seq<Node>)
      requires Linked(all) && In(this, all) && 0.0 <= rate <= ceil
      modifies this`children
      ensures Linked(all') && Snap(all') == Grown(old(Snap(all)), id, NewBucket(old(Snap(all)), id, name, rate, ceil))
      ensures |all'| == |all| + 1 && all'[..|all|] == all && fresh(all'[|all|])
    {
      hide Linked, Shaped, Snap, LinksOk, Grown, Portion;
      ghost var t := Snap(all);
      Neighbours(all, this);
      Use(all, this);
      var b := new Node(name, Portion(this.rate, rate), Portion(this.ceil, ceil), rate, ceil, this, |all|);
      children := children + [b];
      all' := all + [b];
      assert Ids(children) == t[id].children + [|all|];
      ChildAdded(all, all', t, this, b);
    }

    method CreateChild(name: string, rate: real, ceil: real, ghost all: seq<Node>)
        returns (e: Error, ghost all': seq<Node>)
      requires Linked(all) && In(this, all)
      modifies this`children
      ensures Linked(all') && Shaped(old(Snap(all))) && (Snap(all'), e) == Create(old(Snap(all)), id, name, rate, ceil)
      ensures if e == Success then |all'| == |all| + 1 && all'[..|all|] == all && fresh(all'[|all|]) else all' == all
    {
      hide Linked, Shaped, Snap, LinksOk, ShaperRates.FindChild, ChildRateP, Create, Grown, NewBucket;
      ghost var t := Snap(all);
      Neighbours(all, this);
      CreateCases(t, id, name, rate, ceil);
      all' := all;
      var sum := ChildRatePercent(all);
      if rate < 0.0 || rate + sum > 1.0 { return RateLimitOverflow, all; }
      if ceil < rate || ceil > 1.0 { return CeilLimitOverflow, all; }
      var root := RootNode(all);
      var other := root.FindChild(name, all);
      if other != null { return NameConflict, all; }
      all' := AttachChild(name, rate, ceil, all);
      e := Success;
    }

    // -------------------------------------------------------------- queues

    /** Drops the front item. */
    method DropFront(ghost all: seq<Node>) returns (token: Packet)
      requires Linked(all) && In(this, all) && queue != [] && queued > 0
      modifies this`queue, this`queued, this`dropped
      ensures Linked(all) && token == old(queue[0].token)
      ensures queue == old(queue)[1..] && queued == old(queued) - 1
      ensures Fields() == PopFront(old(Fields())).(dropped := old(dropped) + 1)
      ensures Snap(all) == old(Snap(all))[id := Fields()]
    {
      hide Linked, Shaped, Snap, LinksOk, Ids;
      ghost var t := Snap(all);
      Use(all, this);
      var front := queue[0];
      queue := queue[1..];
      queued := queued - 1;
      dropped := dropped + 1;
      OnlyOne(all, t, this);
      token := front.token;
    }

    /** Drops a front item that has timed out; what is still to be dropped behind it does not change. */
    method ExpireFront(now: int, ghost all: seq<Node>) returns (token: Packet)
      requires Linked(all) && In(this, all) && queued == |queue| && queue != [] && now - queue[0].ctime >= queueTimeout
      modifies this`queue, this`queued, this`dropped
      ensures Linked(all) && Snap(all) == old(Snap(all))[id := Fields()] && queued == |queue|
      ensures queue == old(queue)[1..] && token == old(queue)[0].token
      ensures Expire(Fields(), now) == Expire(old(Fields()), now)
      ensures Stale(old(Fields()), now) == 1 + Stale(Fields(), now)
    {
      hide Linked, Shaped, Snap, LinksOk, Ids, Expire, Stale, PopFront;
      ExpireStep(Fields(), now);
      token := DropFront(all);
    }

    /** Pops what has timed out and reports it in order. */
    method DropExpired(now: int, ghost all: seq<Node>) returns (expired: seq<Packet>)
      requires Linked(all) && In(this, all) && queued == |queue|
      modifies this`queue, this`queued, this`dropped
      ensures Linked(all) && Snap(all) == old(Snap(all))[id := Fields()]
      ensures Fields() == Expire(old(Fields()), now)
      ensures TimedOut(old(queue), queueTimeout, now, queue, expired)
    {
      hide Linked, Shaped, Snap, LinksOk, Ids, Expire, Stale, PopFront;
      ghost var t, b := Snap(all), Fields();
      assert t[id := Fields()] == t by { Neighbours(all, this); }
      expired := [];
      while queue != [] && now - queue[0].ctime >= queueTimeout
        invariant Linked(all) && Snap(all) == t[id := Fields()]
        invariant queued == |queue| && |expired| <= |b.queue| && queue == b.queue[|expired|..]
        invariant Expire(Fields(), now) == Expire(b, now)
        invariant forall k | 0 <= k < |expired| ::
                    expired[k] == b.queue[k].token && b.queue[k].ctime + queueTimeout <= now
        decreases |queue|
      {
        var token := ExpireFront(now, all);
        expired := expired + [token];
      }
      ExpireEnd(Fields(), now);
    }

    /** Drops what has timed out and says when to look again. */
    method UpdateQueueTimer(now: int, ghost all: seq<Node>) returns (expired: seq<Packet>, timer: Option<int>)
      requires Linked(all) && In(this, all) && queued == |queue|
      modifies this`queue, this`queued, this`dropped
      ensures Linked(all) && Snap(all) == old(Snap(all))[id := Expire(old(Fields()), now)]
      ensures TimedOut(old(queue), queueTimeout, now, queue, expired)
      ensures timer == if queue == [] then None else Some(queueTimeout - (now - queue[0].ctime))
    {
      hide Linked, Shaped, Snap, LinksOk, Ids, Expire, Stale;
      expired := DropExpired(now, all);
      if queue == [] { return expired, None; }
      timer := Some(queueTimeout - (now - queue[0].ctime));
    }

    method Enqueue(value: Packet, now: int, later: int, ghost all: seq<Node>)
        returns (expired: seq<Packet>, timer: Option<int>)
      requires Linked(all) && In(this, all) && queued == |queue|
      modifies this`queue, this`queued, this`dropped
      ensures Linked(all) && Snap(all) == old(Snap(all))[id := Expire(Append(old(Fields()), Item(value, now)), later)]
      ensures TimedOut(old(queue) + [Item(value, now)], queueTimeout, later, queue, expired)
      ensures timer == if queue == [] then None else Some(queueTimeout - (later - queue[0].ctime))
    {
      hide Linked, Shaped, Snap, LinksOk, Ids, Expire;
      ghost var t := Snap(all);
      Use(all, this);
      queue := queue + [Item(value, now)];
      queued := queued + 1;
      OnlyOne(all, t, this);
      expired, timer := UpdateQueueTimer(later, all);
    }

    /** Takes the tokens, or queues the packet and says so. */
    method Send(packet: Packet, cost: nat, now: int, later: int, ghost all: seq<Node>) returns (sent: bool)
      requires Linked(all) && In(this, all) && queued == |queue|
      modifies all`actualRate, this`queue, this`queued, this`dropped
      ensures Linked(all)
      ensures var (t, k) := ShaperTokens.Get(old(Snap(all)), id, cost);
              && sent == (k != 0)
              && Snap(all) == if k != 0 then t else t[id := Expire(Append(t[id], Item(packet, now)), later)]
    {
      assert all[id] == this;
      var k := Get(cost, all);
      if k != 0 { return true; }
      var expired, timer := Enqueue(packet, now, later, all);
      sent := false;
    }

    method SetDequeueOffset(o: nat, ghost all: seq<Node>)
      requires Linked(all) && In(this, all) && (o == 0 || o < |children|)
      modifies this`dequeueOffset
      ensures Linked(all) && Snap(all) == SetOffset(old(Snap(all)), id, o)
    {
      hide Linked, Shaped, Snap, LinksOk, Ids;
      ghost var t := Snap(all);
      Use(all, this);
      dequeueOffset := o;
      OnlyOne(all, t, this);
    }

    method PopQueue(ghost all: seq<Node>) returns (token: Packet)
      requires Linked(all) && In(this, all) && queue != [] && queued > 0
      modifies this`queue, this`queued
      ensures Linked(all) && Snap(all) == Pop(old(Snap(all)), id) && token == old(queue[0].token)
    {
      hide Linked, Shaped, Snap, LinksOk, Ids;
      ghost var t := Snap(all);
      Use(all, this);
      var item := queue[0];
      queue := queue[1..];
      queued := queued - 1;
      OnlyOne(all, t, this);
      token := item.token;
    }

    /** The node's own queue: the front item if there is one and a token for it. */
    method ServeQueue(ghost all: seq<Node>) returns (r: Option<Packet>)
      requires Linked(all) && In(this, all) && Counted(Snap(all))
      modifies all`actualRate, this`queue, this`queued
      ensures Linked(all) && Shaped(old(Snap(all))) && (Snap(all), r) == ServeOwn(old(Snap(all)), id)
    {
      hide Linked, Shaped, Snap, LinksOk, Ids, ShaperTokens.Get;
      Neighbours(all, this);
      if queue != [] {
        var k := Get(1, all);
        Neighbours(all, this);
        if k != 0 {
          var token := PopQueue(all);
          return Some(token);
        }
      }
      r := None;
    }

    /** One turn: the offset moves one place round and that child is asked. */
    method TryChild(ghost left: nat, ghost all: seq<Node>) returns (r: Option<Packet>)
      requires Linked(all) && In(this, all) && Counted(Snap(all)) && 0 < left <= |children|
      modifies all`actualRate, all`queue, all`queued, all`dequeueOffset
      ensures Linked(all) && Shaped(old(Snap(all))) && Shaped(Snap(all)) && Counted(Snap(all)) && |Snap(all)| == |all|
      ensures Snap(all)[id].children == old(Snap(all)[id].children) && left <= |old(Snap(all)[id].children)|
      ensures DequeueRound(old(Snap(all)), id, left) == if r.Some? then (Snap(all), r)
              else DequeueRound(Snap(all), id, left - 1)
      decreases |all| - id, 0
    {
      hide Linked, Shaped, Snap, LinksOk, Ids, DequeueRound, ShaperQueues.Dequeue, Flows;
      ghost var t := Snap(all);
      Neighbours(all, this);
      var o := if dequeueOffset == 0 then |children| - 1 else dequeueOffset - 1;
      ShapedOffsets(t);
      RoundTurn(t, id, left, o, SetOffset(t, id, o));
      SetDequeueOffset(o, all);
      Neighbours(all, this);
      r := children[o].Dequeue(all);
    }

    method Dequeue(ghost all: seq<Node>) returns (r: Option<Packet>)
      requires Linked(all) && In(this, all) && Counted(Snap(all))
      modifies all`actualRate, all`queue, all`queued, all`dequeueOffset
      ensures Linked(all) && Shaped(old(Snap(all))) && (Snap(all), r) == ShaperQueues.Dequeue(old(Snap(all)), id)
      decreases |all| - id, 1
    {
      hide Linked, Shaped, Snap, LinksOk, Ids, ServeOwn, DequeueRound, Flows;
      ghost var t := Snap(all);
      Neighbours(all, this);
      var childCount := |children|;
      for i := 0 to childCount
        invariant Linked(all) && Shaped(Snap(all)) && Counted(Snap(all)) && |children| == childCount
                  && |Snap(all)| == |t|
        invariant Snap(all)[id].children == t[id].children
        invariant DequeueRound(Snap(all), id, childCount - i) == ShaperQueues.Dequeue(t, id)
      {
        var token := TryChild(childCount - i, all);
        Neighbours(all, this);
        if token.Some? { return token; }
      }
      NoRound(Snap(all), id);
      r := ServeQueue(all);
    }
  }

  /** A new node b at the end of the children of x. */
  ghost predicate Added(all: seq<Node>, all': seq<Node>, t: Tree, x: Node, b: Node)
    reads all, b
  {
    && all' == all + [b] && |t| == |all| && In(x, all)
    && b.id == |all| && b.parent == x && b.children == [] && b.dequeueOffset == 0
    && (forall i | 0 <= i < |all| :: all[i].id == i)
    && (forall i | 0 <= i < |all| && i != x.id :: all[i].Fields() == t[i] && LinksOk(all[i], all))
    && |x.children| > 0 && x.children[|x.children| - 1] == b
    && x.Fields() == t[x.id].(children := t[x.id].children + [|all|])
    && (forall k | 0 <= k < |x.children| - 1 :: In(x.children[k], all))
    && (x.parent == null <==> x.id == 0) && (x.parent != null ==> In(x.parent, all))
  }

  lemma AddedLinks(all: seq<Node>, all': seq<Node>, t: Tree, x: Node, b: Node, i: nat)
    requires Added(all, all', t, x, b) && i < |all'|
    ensures all'[i].id == i && LinksOk(all'[i], all')
  {
    if i == |all| {
      assert all'[i] == b && all'[x.id] == x;
    } else {
      var y := all[i];
      assert all'[i] == y;
      forall k | 0 <= k < |y.children| ensures In(y.children[k], all') {
        if y == x && k == |x.children| - 1 { assert all'[|all|] == b; } else { assert In(y.children[k], all); }
      }
    }
  }

  lemma ChildAdded(all: seq<Node>, all': seq<Node>, t: Tree, x: Node, b: Node)
    requires Added(all, all', t, x, b) && Shaped(t)
    ensures Linked(all') && Snap(all') == Grown(t, x.id, b.Fields())
  {
    hide LinksOk, Shaped;
    var r := Grown(t, x.id, b.Fields());
    assert Ids(b.children) == [];
    GrownShaped(t, x.id, b.Fields());
    forall i | 0 <= i < |all'| ensures all'[i].id == i && LinksOk(all'[i], all') { AddedLinks(all, all', t, x, b, i); }
    forall i | 0 <= i < |all'| ensures Snap(all')[i] == r[i] {
      assert all'[i] == if i < |all| then all[i] else b;
      if i < |all| { assert all[i].id == i; }
    }
    assert Snap(all') == r;
  }

  lemma CreateCases(t: Tree, i: nat, name: string, rate: real, ceil: real)
    requires Shaped(t) && i < |t|
    ensures Create(t, i, name, rate, ceil) ==
              if rate < 0.0 || rate + ChildRateP(t, i) > 1.0 then (t, RateLimitOverflow)
              else if ceil < rate || ceil > 1.0 then (t, CeilLimitOverflow)
              else if ShaperRates.FindChild(t, 0, name).Some? then (t, NameConflict)
              else (Grown(t, i, NewBucket(t, i, name, rate, ceil)), Success)
  {
  }

  lemma UpdateStep(t: Tree, i: nat, k: nat)
    requires Shaped(t) && AllPercents(t) && i < |t| && k < |t[i].children|
    ensures i < t[i].children[k] < |t|
    ensures var t1 := Update(t, t[i].children[k]);
            && Shaped(t1) && AllPercents(t1) && |t1| == |t| && t1[i].children == t[i].children
            && UpdateChildren(t, i, k) == UpdateChildren(t1, i, k + 1)
  {
    ChildOf(t, i, k);
    RatesOnly(t, Update(t, t[i].children[k]));
  }

  lemma UpdateEnd(t: Tree, i: nat)
    requires Shaped(t) && AllPercents(t) && i < |t|
    ensures UpdateChildren(t, i, |t[i].children|) == t
  {
  }

  lemma FindStart(t: Tree, i: nat, name: string)
    requires Shaped(t) && i < |t|
    ensures Within(t, t[i].children) && t[i].children[0..] == t[i].children
    ensures var d := FindDirect(t, t[i].children, name);
            FindChild(t, i, name) == if d.Some? then d else FindBelow(t, i, 0, name)
  {
    ChildrenWithin(t, i);
  }

  lemma DirectStep(t: Tree, ids: seq<nat>, i: nat, name: string)
    requires Within(t, ids) && i < |ids|
    ensures FindDirect(t, ids[i..], name) == if t[ids[i]].name == name then Some(ids[i])
            else FindDirect(t, ids[i + 1..], name)
  {
    assert ids[i..][1..] == ids[i + 1..];
  }

  lemma DirectEnd(t: Tree, name: string)
    ensures FindDirect(t, [], name) == None
  {
  }

  lemma BelowStep(t: Tree, i: nat, k: nat, name: string)
    requires Shaped(t) && i < |t| && k < |t[i].children|
    ensures i < t[i].children[k] < |t|
    ensures var d := FindChild(t, t[i].children[k], name);
            FindBelow(t, i, k, name) == if d.Some? then d else FindBelow(t, i, k + 1, name)
  {
    ChildOf(t, i, k);
  }

  lemma BelowEnd(t: Tree, i: nat, name: string)
    requires Shaped(t) && i < |t|
    ensures FindBelow(t, i, |t[i].children|, name) == None
  {
  }

  lemma SumPTo(s: seq<real>, i: nat)
    requires i < |s|
    ensures SumP(s[..i + 1]) == SumP(s[..i]) + s[i]
  {
    assert s[..i + 1] == s[..i] + [s[i]];
    SumPConcat(s[..i], [s[i]]);
  }

  /** The running sum of a loop over a sequence. */
  lemma SumTo(s: seq<nat>, i: nat)
    requires i < |s|
    ensures Sum(s[..i + 1]) == Sum(s[..i]) + s[i]
  {
    assert s[..i + 1] == s[..i] + [s[i]];
    SumConcat(s[..i], [s[i]]);
  }

  class Shaper {
    const root: Node
    ghost var all: seq<Node>

    ghost predicate Valid()
      reads this, all
    {
      Linked(all) && In(root, all) && root.id == 0 && Configured(Snap(all)) && Counted(Snap(all))
    }

    constructor (size: nat)
      ensures Valid() && fresh(all)
      ensures Snap(all) == [Bucket("root", size, size, 1.0, 1.0, 0, [], 0, [], 0, 0, QUEUE_TIMEOUT, 0)]
    {
      root := new Node("root", size, size, 1.0, 1.0, null, 0);
      all := [root];
      new;
      RootAlone(root, all);
    }

    function Size(): nat
      reads root
    {
      root.rate
    }

    method Resize(capacity: nat)
      requires Valid()
      modifies all`rate, all`ceil
      ensures Valid() && Snap(all) == ShaperRates.Resize(old(Snap(all)), capacity) && Size() == capacity
    {
      ghost var t := Snap(all);
      ResizeConfigured(t, capacity);
      if root.rate == capacity { return; }
      root.UpdateCapacity(capacity, all);
      assert Snap(all)[0] == root.Fields();
    }

    method CreateNode(name: string, rate: real, ceil: real) returns (e: Error)
      requires Valid()
      modifies this`all, root`children
      ensures Valid() && (Snap(all), e) == Create(old(Snap(all)), 0, name, rate, ceil)
    {
      hide Linked, Snap, Create, Shaped;
      ghost var t := Snap(all);
      CreateConfigured(t, 0, name, rate, ceil);
      CreateCounted(t, 0, name, rate, ceil);
      e, all := root.CreateChild(name, rate, ceil, all);
    }

    method FindNode(name: string) returns (r: Node?)
      requires Valid()
      ensures r != null ==> In(r, all) && r.id > 0 && r.name == name
      ensures r == null <==> forall j | 0 < j < |all| :: all[j].name != name
    {
      r := root.FindChild(name, all);
      ghost var t := Snap(all);
      FindChildFinds(t, 0, name);
      NameTaken(t, name);
      forall j | 0 < j < |all| ensures t[j].name == all[j].name { assert t[j] == all[j].Fields(); }
      if r != null { assert t[r.id] == r.Fields(); }
    }

    method Get(tokens: nat) returns (r: nat)
      requires Valid()
      modifies all`actualRate
      ensures Valid() && (Snap(all), r) == ShaperTokens.Get(old(Snap(all)), 0, tokens)
    {
      hide Linked, Shaped, Snap, Configured, ShaperTokens.Get;
      ghost var t := Snap(all);
      r := root.Get(tokens, all);
      LoadsKeep(t, Snap(all));
    }

    method Put(tokens: nat) returns (ok: bool)
      requires Valid()
      modifies all`actualRate
      ensures Linked(all) && ok == PutBack(old(Snap(all)), 0, tokens).Done?
      ensures ok ==> Valid() && Snap(all) == PutBack(old(Snap(all)), 0, tokens).tree
    {
      hide Linked, Shaped, Snap, Configured, PutBack;
      ghost var t := Snap(all);
      ok := root.Put(tokens, all);
      if ok {
        PutLoads(t, 0, tokens);
        LoadsKeep(t, Snap(all));
      }
    }

    method Dequeue() returns (r: Option<Packet>)
      requires Valid()
      modifies all`actualRate, all`queue, all`queued, all`dequeueOffset
      ensures Valid() && (Snap(all), r) == ShaperQueues.Dequeue(old(Snap(all)), 0)
    {
      hide Linked, Shaped, Snap, Configured, ShaperQueues.Dequeue;
      ghost var t := Snap(all);
      r := root.Dequeue(all);
      SameConfigured(t, Snap(all));
    }
  }

  lemma RootAlone(root: Node, all: seq<Node>)
    requires all == [root] && root.id == 0 && root.parent == null && root.children == [] && root.queued == |root.queue|
    requires root.dequeueOffset == 0 && root.ratePercent == root.ceilPercent == 1.0 && root.rate == root.ceil
    ensures Linked(all) && Snap(all) == [root.Fields()] && Configured(Snap(all)) && Counted(Snap(all))
  {
    var t := Snap(all);
    assert t == [root.Fields()];
    assert Ids(root.children) == [];
    assert ParentOk(t, 0) && ChildrenOk(t, 0);
  }

  lemma LoadsKeep(t: Tree, t': Tree)
    requires Configured(t) && Counted(t) && SameButLoads(t, t')
    ensures Configured(t') && Counted(t')
  {
    ShapedOffsets(t);
    SameConfigured(t, t');
  }

  lemma {:induction false} PutLoads(t: Tree, i: nat, n: nat)
    requires Shaped(t) && i < |t| && PutBack(t, i, n).Done?
    ensures SameButLoads(t, PutBack(t, i, n).tree)
    decreases i
  {
    PutStep(t, i, n);
    if i > 0 { PutLoads(t[i := t[i].(load := t[i].load - n)], t[i].parent, n); }
  }

  lemma CreateCounted(t: Tree, i: nat, name: string, rate: real, ceil: real)
    requires Shaped(t) && Counted(t) && i < |t|
    ensures Counted(Create(t, i, name, rate, ceil).0)
  {
  }
}
