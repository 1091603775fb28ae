/**
 * The prefix tree and the suffix tree on the heap. Both grow one node per element of a key and
 * answer a query by walking down as far as it goes and then up to the nearest value.
 *
 * Value 0 stands for the null value that a node without an entry has.
 */
module PrefixTree {
  import opened PrefixIndex

  class Node {
    const parent: Node?
    const element: char
    var children: map<char, Node>
    var value: nat
    ghost const path: string
    ghost const id: nat

    constructor (parent: Node?, element: char, ghost path: string, ghost id: nat)
      ensures this.parent == parent && this.element == element && this.path == path && this.id == id
      ensures children == map[] && value == 0
    {
      this.parent, this.element, children, value := parent, element, map[], 0;
      this.path, this.id := path, id;
    }
  }

  ghost predicate In(x: Node, all: seq<Node>) {
    x.id < |all| && all[x.id] == x
  }

  /** A node's path is its parent's and one element more. */
  ghost predicate UpOk(x: Node, all: seq<Node>) {
    if x.parent == null then x.path == [] else In(x.parent, all) && x.path == x.parent.path + [x.element]
  }

  /** A node has a child for exactly the elements that continue its path to another one. */
  ghost predicate DownOk(x: Node, all: seq<Node>, at: map<string, nat>)
    reads x`children
  {
    && (forall e | e in x.children :: In(x.children[e], all) && x.children[e].path == x.path + [e])
    && (forall e | x.path + [e] in at :: e in x.children)
  }

  /** The nodes of one tree in creation order; `at` says where the node for a path is. */
  ghost predicate Trie(all: seq<Node>, at: map<string, nat>)
    reads all`children
  {
    && |all| > 0 && all[0].path == []
    && (forall i | 0 <= i < |all| :: all[i].id == i && all[i].path in at && at[all[i].path] == i)
    && (forall k | k in at :: at[k] < |all| && all[at[k]].path == k)
    && (forall i | 0 <= i < |all| :: UpOk(all[i], all))
    && (forall i | 0 <= i < |all| :: DownOk(all[i], all, at))
  }

  function ValueOf(index: map<string, nat>, k: string): nat {
    if k in index then index[k] else 0
  }

  /** Every inserted key has a node, a node has the value of its path, and other nodes have none. */
  ghost predicate Holds(all: seq<Node>, at: map<string, nat>, index: map<string, nat>)
    reads all`value
  {
    && (forall k | k in index :: k in at)
    && (forall i | 0 <= i < |all| :: all[i].value == ValueOf(index, all[i].path))
  }

  /** What is known of one node. */
  lemma NodeAt(all: seq<Node>, at: map<string, nat>, x: Node)
    requires Trie(all, at) && In(x, all)
    ensures x.path in at && at[x.path] == x.id
    ensures x.parent == null <==> x.path == []
    ensures x.parent != null ==> In(x.parent, all) && x.path == x.parent.path + [x.element]
    ensures forall e | e in x.children :: In(x.children[e], all) && x.children[e].path == x.path + [e]
    ensures forall e | x.path + [e] in at :: e in x.children
  {
    assert UpOk(all[x.id], all) && DownOk(all[x.id], all, at);
  }

  /** A path with a node leads from the node of the path before it. */
  lemma StepDown(all: seq<Node>, at: map<string, nat>, q: string, i: nat)
    requires Trie(all, at) && i < |q| && q[..i + 1] in at
    ensures q[..i] in at && q[i] in all[at[q[..i]]].children
  {
    hide UpOk, DownOk;
    var x := all[at[q[..i + 1]]];
    assert In(x, all);
    NodeAt(all, at, x);
    assert x.parent.path == x.path[..i] == q[..i];
    NodeAt(all, at, x.parent);
    assert q[..i + 1] == q[..i] + [q[i]];
  }

  lemma {:induction false} PrefixClosed(all: seq<Node>, at: map<string, nat>, q: string, k: nat, n: nat)
    requires Trie(all, at) && n <= k <= |q| && q[..k] in at
    ensures q[..n] in at
    decreases k
  {
    hide UpOk, DownOk;
    if n < k {
      StepDown(all, at, q, k - 1);
      PrefixClosed(all, at, q, k - 1, n);
    }
  }

  /** Where the walk down stops, nothing longer has a node. */
  lemma AsFarAsItGoes(all: seq<Node>, at: map<string, nat>, q: string, i: nat)
    requires Trie(all, at) && i <= |q| && q[..i] in at
    requires i < |q| ==> q[i] !in all[at[q[..i]]].children
    ensures forall k | i < k <= |q| :: q[..k] !in at
  {
    hide UpOk, DownOk;
    forall k | i < k <= |q| ensures q[..k] !in at {
      if q[..k] in at {
        PrefixClosed(all, at, q, k, i + 1);
        StepDown(all, at, q, i);
        assert false;
      }
    }
  }

  /** A new node b below x, before the sequence and the map know about it. */
  ghost predicate Added(all: seq<Node>, at: map<string, nat>, x: Node, b: Node)
    reads all`children, b`children
  {
    && |all| > 0 && all[0].path == [] && In(x, all)
    && (forall i | 0 <= i < |all| :: all[i].id == i && all[i].path in at && at[all[i].path] == i)
    && (forall k | k in at :: at[k] < |all| && all[at[k]].path == k)
    && (forall i | 0 <= i < |all| :: UpOk(all[i], all))
    && b.id == |all| && b.parent == x && b.path == x.path + [b.element] && b.path !in at && b.children == map[]
    && (forall e :: b.path + [e] !in at)
    && (forall i | 0 <= i < |all| && i != x.id :: DownOk(all[i], all, at))
    && b.element in x.children && x.children[b.element] == b
    && (forall e | e in x.children && e != b.element :: In(x.children[e], all) && x.children[e].path == x.path + [e])
    && (forall e | x.path + [e] in at :: e in x.children)
  }

  lemma AddedAt(all: seq<Node>, at: map<string, nat>, x: Node, b: Node, i: nat)
    requires Added(all, at, x, b) && i <= |all|
    ensures var all', at' := all + [b], at[b.path := |all|];
            && all'[i].id == i && all'[i].path in at' && at'[all'[i].path] == i
            && UpOk(all'[i], all') && DownOk(all'[i], all', at')
  {
    var all', at' := all + [b], at[b.path := |all|];
    if i < |all| {
      var y := all[i];
      assert all'[i] == y && UpOk(y, all);
      forall e | e in y.children ensures In(y.children[e], all') && y.children[e].path == y.path + [e] {
        if y != x { assert DownOk(y, all, at); }
      }
      forall e | y.path + [e] in at' ensures e in y.children {
        if y.path + [e] == b.path {
          assert b.path[..|b.path| - 1] == x.path && (y.path + [e])[..|b.path| - 1] == y.path;
          assert (y.path + [e])[|y.path|] == e;
        } else if y != x {
          assert DownOk(y, all, at);
        }
      }
    } else {
      assert all'[i] == b && In(x, all');
      assert forall e :: |b.path + [e]| != |b.path|;
    }
  }

  lemma NodeAdded(all: seq<Node>, at: map<string, nat>, x: Node, b: Node)
    requires Added(all, at, x, b)
    ensures Trie(all + [b], at[b.path := |all|])
  {
    hide UpOk, DownOk;
    var all', at' := all + [b], at[b.path := |all|];
    forall i | 0 <= i < |all'|
      ensures all'[i].id == i && all'[i].path in at' && at'[all'[i].path] == i && UpOk(all'[i], all')
              && DownOk(all'[i], all', at')
    {
      AddedAt(all, at, x, b, i);
    }
    assert all'[0] == all[0];
    forall k | k in at' ensures at'[k] < |all'| && all'[at'[k]].path == k {
      if k != b.path { assert k in at; }
    }
  }

  method Acquire(elem: char, n: Node, ghost all: seq<Node>, ghost at: map<string, nat>)
      returns (c: Node, ghost all': seq<Node>, ghost at': map<string, nat>)
    requires Trie(all, at) && In(n, all)
    modifies n`children
    ensures Trie(all', at') && In(c, all') && c.path == n.path + [elem]
    ensures (all' == all && at' == at) || (all' == all + [c] && at' == at[c.path := |all|] && fresh(c) && c.value == 0
            && c.path !in at)
  {
    hide UpOk, DownOk;
    NodeAt(all, at, n);
    if elem in n.children {
      return n.children[elem], all, at;
    }
    ghost var p := n.path + [elem];
    NothingBelow(all, at, n, elem);
    c := new Node(n, elem, p, |all|);
    n.children := n.children[elem := c];
    all', at' := all + [c], at[p := |all|];
    NodeAdded(all, at, n, c);
  }

  lemma NothingBelow(all: seq<Node>, at: map<string, nat>, n: Node, elem: char)
    requires Trie(all, at) && In(n, all) && elem !in n.children
    ensures n.path + [elem] !in at && forall e :: n.path + [elem] + [e] !in at
  {
    hide UpOk, DownOk;
    NodeAt(all, at, n);
    var p := n.path + [elem];
    forall e ensures p + [e] !in at {
      var q := p + [e];
      if q in at {
        assert q[..|p| + 1] == q && q[..|p|] == p;
        StepDown(all, at, q, |p|);
        assert false;
      }
    }
  }

  lemma HoldsMore(all: seq<Node>, at: map<string, nat>, index: map<string, nat>, c: Node)
    requires Holds(all, at, index) && c.value == 0 && c.path !in at
    ensures Holds(all + [c], at[c.path := |all|], index)
  {
    hide UpOk, DownOk;
  }

  lemma RootIn(all: seq<Node>, at: map<string, nat>)
    requires Trie(all, at)
    ensures |all| > 0 && In(all[0], all) && all[0].path == []
  {
  }

  lemma HoldsOthers(all: seq<Node>, at: map<string, nat>, index: map<string, nat>, x: Node)
    requires Holds(all, at, index)
    ensures forall k | k in index :: k in at
    ensures forall i | 0 <= i < |all| && all[i] != x :: all[i].value == ValueOf(index, all[i].path)
  {
  }

  /** Setting one node's value and its path's entry. */
  lemma ValueSet(all: seq<Node>, at: map<string, nat>, index: map<string, nat>, x: Node)
    requires Trie(all, at) && In(x, all)
    requires forall k | k in index :: k in at
    requires forall i | 0 <= i < |all| && all[i] != x :: all[i].value == ValueOf(index, all[i].path)
    ensures Holds(all, at, index[x.path := x.value])
  {
    hide UpOk, DownOk;
    NodeAt(all, at, x);
    forall i | 0 <= i < |all| && all[i] != x ensures all[i].path != x.path { assert at[all[i].path] == i; }
  }

  /** Climbs to the nearest node below the root that has a value. */
  method Climb(start: Node, ghost all: seq<Node>, ghost at: map<string, nat>, ghost index: map<string, nat>,
        ghost q: string) returns (found: bool, value: nat)
    requires Trie(all, at) && Holds(all, at, index) && In(start, all) && start.path <= q
    requires forall k | |start.path| < k <= |q| :: q[..k] !in at
    ensures found == (LongestPrefix(index, q) != 0) && value == LongestPrefix(index, q)
  {
    hide UpOk, DownOk;
    var level: Node := start;
    NodeAt(all, at, level);
    while level.parent != null
      invariant In(level, all) && level.path <= q && (level.parent == null <==> level.path == [])
      invariant forall k | |level.path| < k <= |q| :: !(q[..k] in index && index[q[..k]] != 0)
      decreases |level.path|
    {
      NodeAt(all, at, level);
      assert q[..|level.path|] == level.path;
      if level.value != 0 { return true, level.value; }
      NodeAt(all, at, level.parent);
      level := level.parent;
    }
    return false, 0;
  }

  class PrefixTree {
    const root: Node
    ghost var all: seq<Node>
    ghost var at: map<string, nat>
    /** The latest value given to each key. */
    ghost var index: map<string, nat>

    ghost predicate Valid()
      reads this, all
    {
      Trie(all, at) && |all| > 0 && all[0] == root && Holds(all, at, index)
    }

    constructor ()
      ensures Valid() && index == map[] && fresh(all)
    {
      root := new Node(null, 'x', [], 0);
      all, at, index := [root], map[[] := 0], map[];
      new;
      assert UpOk(root, all) && DownOk(root, all, at);
    }

    method Insert(key: string, value: nat)
      requires Valid()
      modifies this`all, this`at, this`index, all
      ensures Valid() && index == old(index)[key := value] && forall j | 0 <= j < |all| ::
                all[j] in old(all) || fresh(all[j])
    {
      hide Trie, Holds;
      RootIn(all, at);
      var level := root;
      for i := 0 to |key|
        invariant Valid() && index == old(index)
        invariant forall j | 0 <= j < |all| :: all[j] in old(all) || fresh(all[j])
        invariant In(level, all) && level.path == key[..i]
      {
        ghost var all0, at0 := all, at;
        assert key[..i + 1] == key[..i] + [key[i]];
        level, all, at := Acquire(key[i], level, all, at);
        if all != all0 { HoldsMore(all0, at0, index, level); }
      }
      assert key[..|key|] == key;
      ghost var index0 := index;
      HoldsOthers(all, at, index0, level);
      level.value := value;
      index := index[key := value];
      ValueSet(all, at, index0, level);
    }

    method Lookup(key: string) returns (found: bool, value: nat)
      requires Valid()
      ensures found == (LongestPrefix(index, key) != 0) && value == LongestPrefix(index, key)
    {
      hide Holds, UpOk, DownOk;
      var level, i := root, 0;
      while i < |key| && key[i] in level.children
        invariant 0 <= i <= |key| && In(level, all) && level.path == key[..i]
      {
        NodeAt(all, at, level);
        assert key[..i + 1] == key[..i] + [key[i]];
        level := level.children[key[i]];
        i := i + 1;
      }
      NodeAt(all, at, level);
      AsFarAsItGoes(all, at, key, i);
      found, value := Climb(level, all, at, index, key);
    }
  }

  /** The same tree over reversed keys. */
  class SuffixTree {
    const root: Node
    ghost var all: seq<Node>
    ghost var at: map<string, nat>
    /** The latest value given to each key, under the key reversed. */
    ghost var index: map<string, nat>

    ghost predicate Valid()
      reads this, all
    {
      Trie(all, at) && |all| > 0 && all[0] == root && Holds(all, at, index)
    }

    constructor ()
      ensures Valid() && index == map[] && fresh(all)
    {
      root := new Node(null, 'x', [], 0);
      all, at, index := [root], map[[] := 0], map[];
      new;
      assert UpOk(root, all) && DownOk(root, all, at);
    }

    method Insert(key: string, value: nat)
      requires Valid()
      modifies this`all, this`at, this`index, all
      ensures Valid() && index == old(index)[Reverse(key) := value] && forall j | 0 <= j < |all| ::
                all[j] in old(all) || fresh(all[j])
    {
      hide Trie, Holds;
      RootIn(all, at);
      var level := root;
      ghost var q := Reverse(key);
      var i := |key|;
      while i > 0
        invariant 0 <= i <= |key| && Valid() && index == old(index)
        invariant forall j | 0 <= j < |all| :: all[j] in old(all) || fresh(all[j])
        invariant In(level, all) && level.path == q[..|key| - i]
      {
        i := i - 1;
        ghost var all0, at0 := all, at;
        assert q[..|key| - i] == q[..|key| - i - 1] + [key[i]];
        level, all, at := Acquire(key[i], level, all, at);
        if all != all0 { HoldsMore(all0, at0, index, level); }
      }
      assert q[..|key|] == q;
      ghost var index0 := index;
      HoldsOthers(all, at, index0, level);
      level.value := value;
      index := index[q := value];
      ValueSet(all, at, index0, level);
    }

    method Lookup(key: string) returns (found: bool, value: nat)
      requires Valid()
      ensures found == (LongestPrefix(index, Reverse(key)) != 0) && value == LongestPrefix(index, Reverse(key))
    {
      hide Holds, UpOk, DownOk;
      var level, i := root, |key|;
      ghost var q := Reverse(key);
      while i > 0 && key[i - 1] in level.children
        invariant 0 <= i <= |key| && In(level, all) && level.path == q[..|key| - i]
      {
        NodeAt(all, at, level);
        assert q[..|key| - i + 1] == q[..|key| - i] + [key[i - 1]];
        level := level.children[key[i - 1]];
        i := i - 1;
      }
      NodeAt(all, at, level);
      AsFarAsItGoes(all, at, q, |key| - i);
      found, value := Climb(level, all, at, index, q);
    }
  }
}
