/**
  What the prefix and suffix trees are for, on plain maps: the value of the longest non-empty
  key that starts (or ends) a query. Value 0 means "no value", as in the trees.
 */
module PrefixIndex {

  /** Length of the longest non-empty prefix of q that has a value, 0 if there is none. */
  function LongestLength<E(==)>(index: map<seq<E>, nat>, q: seq<E>): (n: nat)
    ensures n <= |q|
    ensures n > 0 ==> q[..n] in index && index[q[..n]] != 0
    ensures forall k | n < k <= |q| :: !(q[..k] in index && index[q[..k]] != 0)
    decreases |q|
  {
    if q == [] then 0
    else if q in index && index[q] != 0 then
      assert q[..|q|] == q; |q|
    else
      var p := q[..|q| - 1];
      assert forall k | 0 <= k <= |p| :: p[..k] == q[..k];
      assert q[..|q|] == q;
      LongestLength(index, p)
  }

  /** The value found for q, 0 if none. */
  function LongestPrefix<E(==)>(index: map<seq<E>, nat>, q: seq<E>): nat {
    var n := LongestLength(index, q);
    if n == 0 then 0 else index[q[..n]]
  }

  function Reverse<E>(s: seq<E>): (r: seq<E>)
    ensures |r| == |s|
    ensures forall i | 0 <= i < |s| :: r[i] == s[|s| - 1 - i]
  {
    seq(|s|, i requires 0 <= i < |s| => s[|s| - 1 - i])
  }

  lemma ReverseTwice<E>(s: seq<E>)
    ensures Reverse(Reverse(s)) == s
  {
  }

  /** Reversal turns suffixes into prefixes. */
  lemma ReversePrefix<E>(t: seq<E>, s: seq<E>)
    ensures Reverse(t) <= Reverse(s) <==> |t| <= |s| && s[|s| - |t|..] == t
  {
    if Reverse(t) <= Reverse(s) {
      forall i | 0 <= i < |t| ensures s[|s| - |t|..][i] == t[i] {
        assert Reverse(t)[|t| - 1 - i] == Reverse(s)[|t| - 1 - i];
      }
    }
    if |t| <= |s| && s[|s| - |t|..] == t {
      forall i | 0 <= i < |t| ensures Reverse(t)[i] == Reverse(s)[i] {
        assert s[|s| - |t|..][|t| - 1 - i] == t[|t| - 1 - i];
      }
    }
  }

  /** Giving one more key a value changes the answer only if the key is a prefix of the query
      at least as long as the best one so far. */
  lemma LongestAfterInsert<E>(index: map<seq<E>, nat>, key: seq<E>, v: nat, q: seq<E>)
    requires v != 0
    ensures var n := LongestLength(index, q); var n' := LongestLength(index[key := v], q);
            if key != [] && key <= q && n <= |key| then n' == |key| else n' == n
  {
    var n, n' := LongestLength(index, q), LongestLength(index[key := v], q);
    var index' := index[key := v];
    if key != [] && key <= q {
      assert q[..|key|] == key;
    }
  }

  ghost predicate Entry<E>(index: map<seq<E>, nat>, key: seq<E>) {
    key != [] && key in index && index[key] != 0
  }

  /** Against a scan of all the keys: no key that begins the query is longer than the one found. */
  lemma LongestByScan<E(!new)>(index: map<seq<E>, nat>, q: seq<E>)
    ensures LongestPrefix(index, q) == 0 <==> forall k :: Entry(index, k) ==> !(k <= q)
    ensures LongestPrefix(index, q) != 0 ==>
              exists k :: Entry(index, k) && k <= q && index[k] == LongestPrefix(index, q)
                          && forall l :: Entry(index, l) && l <= q ==> |l| <= |k|
  {
    var n := LongestLength(index, q);
    forall l | Entry(index, l) && l <= q ensures |l| <= n { assert q[..|l|] == l; }
    if n > 0 {
      assert Entry(index, q[..n]) && q[..n] <= q;
    }
  }

  ghost predicate EndsWith<E>(s: seq<E>, t: seq<E>) {
    |t| <= |s| && s[|s| - |t|..] == t
  }

  /** Over reversed keys the same scan finds the longest key that ends the query. */
  lemma LongestByReverseScan<E(!new)>(index: map<seq<E>, nat>, q: seq<E>)
    ensures var v := LongestPrefix(index, Reverse(q));
            v == 0 <==> forall k :: Entry(index, Reverse(k)) ==> !EndsWith(q, k)
    ensures var v := LongestPrefix(index, Reverse(q));
            v != 0 ==> exists k :: Entry(index, Reverse(k)) && EndsWith(q, k) && index[Reverse(k)] == v
                                   && forall l :: Entry(index, Reverse(l)) && EndsWith(q, l) ==> |l| <= |k|
  {
    LongestByScan(index, Reverse(q));
    forall k ensures Reverse(k) <= Reverse(q) <==> EndsWith(q, k) { ReversePrefix(k, q); }
    forall r: seq<E> ensures Reverse(Reverse(r)) == r { ReverseTwice(r); }
    var v := LongestPrefix(index, Reverse(q));
    if v != 0 {
      var r :| Entry(index, r) && r <= Reverse(q) && index[r] == v
               && forall l :: Entry(index, l) && l <= Reverse(q) ==> |l| <= |r|;
      var k := Reverse(r);
      assert Reverse(k) == r;
      forall l | Entry(index, Reverse(l)) && EndsWith(q, l) ensures |l| <= |k| { assert Reverse(l) <= Reverse(q); }
    } else {
      forall k | Entry(index, Reverse(k)) ensures !EndsWith(q, k) { assert !(Reverse(k) <= Reverse(q)); }
    }
    if forall k :: Entry(index, Reverse(k)) ==> !EndsWith(q, k) {
      forall r | Entry(index, r) ensures !(r <= Reverse(q)) { assert Reverse(Reverse(r)) == r; }
    }
  }
}
