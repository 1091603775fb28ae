/** Matching the arguments of a call against what a builtin declares, by name or by position. */
module ParamList {
  import opened Wrappers

  datatype Type = Void | Boolean | Number | String | IPAddress | Cidr | RegExp | Handler
                | IntArray | StringArray | IPAddrArray | CidrArray

  /** An argument expression: its type and which expression it is. */
  datatype Arg = Arg(ty: Type, id: nat)

  /** A builtin's signature. Declared parameter by parameter it has names and defaults, declared
      in one go it has neither. */
  datatype Native = Native(types: seq<Type>, names: seq<string>, defaults: seq<Option<Arg>>)

  ghost predicate Distinct<T>(s: seq<T>) {
    forall i, j | 0 <= i < j < |s| :: s[i] != s[j]
  }

  ghost predicate Declared(n: Native) {
    && ((n.names == [] && n.defaults == []) || |n.names| == |n.defaults| == |n.types|)
    && (forall i | 0 <= i < |n.defaults| && n.defaults[i].Some? :: n.defaults[i].value.ty == n.types[i])
    && Distinct(n.names)
  }

  function DefaultAt(n: Native, i: nat): Option<Arg> {
    if i < |n.defaults| then n.defaults[i] else None
  }

  /** The types for which a default can be turned into an argument; the others abort. */
  predicate Completable(t: Type) {
    t in {Boolean, Number, String, IPAddress, Cidr}
  }

  datatype Outcome =
    | Matched
    | NoNames
    | Missing(name: string)
    | Superfluous(names: seq<string>)
    | TooMany
    | Mismatch(i: nat)
    | NoDefault(i: nat)
    | Abort

  // ---------------------------------------------------------------- what a match should be

  /** The first place of a name, or the length if it is not there. */
  function Place(names: seq<string>, x: string): (i: nat)
    ensures i <= |names|
    ensures i < |names| ==> names[i] == x
    ensures forall j | 0 <= j < i :: names[j] != x
    ensures x in names <==> i < |names|
  {
    if names == [] || names[0] == x then 0 else 1 + Place(names[1..], x)
  }

  /** The value a parameter should get: the one given under its name, or else its default. */
  ghost predicate Gets(n: Native, names: seq<string>, values: seq<Arg>, i: nat, v: Arg)
    requires |names| == |values| && i < |n.names|
  {
    if n.names[i] in names then v == values[Place(names, n.names[i])] else DefaultAt(n, i) == Some(v)
  }

  ghost predicate Known(n: Native, names: seq<string>) {
    forall i | 0 <= i < |names| :: names[i] in n.names
  }

  ghost predicate Supplied(n: Native, names: seq<string>)
    requires |n.names| == |n.types|
  {
    forall i | 0 <= i < |n.names| :: n.names[i] in names || (DefaultAt(n, i).Some? && Completable(n.types[i]))
  }

  // ---------------------------------------------------------------- filling in defaults

  /** Appends the default of every omitted parameter from i on, up to the first that has none. */
  function Fill(n: Native, names: seq<string>, values: seq<Arg>, i: nat): (r: (seq<string>, seq<Arg>, Outcome))
    requires |n.names| == |n.types| && i <= |n.types| && |names| == |values|
    ensures |r.0| == |r.1|
    decreases |n.types| - i
  {
    if i == |n.types| then (names, values, Matched)
    else if n.names[i] in names then Fill(n, names, values, i + 1)
    else if DefaultAt(n, i).None? then (names, values, Missing(n.names[i]))
    else if !Completable(n.types[i]) then (names, values, Abort)
    else Fill(n, names + [n.names[i]], values + [DefaultAt(n, i).value], i + 1)
  }

  /** The given arguments followed by the omitted parameters in declaration order. */
  ghost predicate Filled(n: Native, names: seq<string>, values: seq<Arg>, names': seq<string>, values': seq<Arg>,
        i: nat)
  {
    && |names| == |values| <= |names'| == |values'| && |n.names| == |n.types| && i <= |n.names|
    && names'[..|names|] == names && values'[..|values|] == values
    && (forall k | |names| <= k < |names'| :: exists j ::
          0 <= j < i && n.names[j] == names'[k] && DefaultAt(n, j) == Some(values'[k]))
    && (forall k | |names| <= k < |names'| :: names'[k] !in names)
    && (forall k, l | |names| <= k < l < |names'| :: names'[k] != names'[l])
    && (forall j | 0 <= j < i :: n.names[j] in names')
  }

  lemma {:induction false} FillAll(n: Native, names: seq<string>, values: seq<Arg>, names': seq<string>,
        values': seq<Arg>, i: nat)
    requires Declared(n) && Filled(n, names, values, names', values', i)
    ensures var r := Fill(n, names', values', i);
            && (r.2 == Matched <==> forall j | i <= j < |n.names| ::
                  n.names[j] in names || (DefaultAt(n, j).Some? && Completable(n.types[j])))
            && (r.2 == Matched ==> Filled(n, names, values, r.0, r.1, |n.names|))
            && (r.2 != Matched ==> r.2.Missing? || r.2.Abort?)
    decreases |n.types| - i
  {
    hide Filled, Declared;
    FilledSizes(n, names, values, names', values', i);
    if i < |n.types| {
      var x := n.names[i];
      StillOmitted(n, names, values, names', values', i);
      if x in names' {
        FilledSkip(n, names, values, names', values', i);
        FillAll(n, names, values, names', values', i + 1);
      } else if DefaultAt(n, i).Some? && Completable(n.types[i]) {
        var names1, values1 := names' + [x], values' + [DefaultAt(n, i).value];
        FilledMore(n, names, values, names', values', i);
        FillAll(n, names, values, names1, values1, i + 1);
      }
    }
  }

  /** Given, or left out with a default of one of the five types that have a constant expression. */
  ghost predicate Served(n: Native, names: seq<string>, j: nat)
    requires j < |n.names| == |n.types| == |n.defaults|
  {
    n.names[j] in names || (n.defaults[j].Some? && n.types[j] in {Boolean, Number, String, IPAddress, Cidr})
  }

  /** Why filling in ends as it does: with nothing more to serve, or at the first parameter from i on
      that is left out and has no default, or one of a type that has no constant expression. */
  ghost predicate FillEnds(n: Native, names: seq<string>, i: nat, r: Outcome)
    requires |n.names| == |n.types| == |n.defaults|
  {
    match r
    case Matched => forall j | i <= j < |n.names| :: Served(n, names, j)
    case Missing(x) =>
      exists k :: i <= k < |n.names| && StopsAt(n, names, i, k) && n.defaults[k].None? && x == n.names[k]
    case Abort =>
      exists k :: i <= k < |n.names| && StopsAt(n, names, i, k) && n.defaults[k].Some?
        && n.types[k] in {Void, RegExp, Handler, IntArray, StringArray, IPAddrArray, CidrArray}
    case _ => false
  }

  ghost predicate StopsAt(n: Native, names: seq<string>, i: nat, k: nat)
    requires k < |n.names| == |n.types| == |n.defaults|
  {
    n.names[k] !in names && forall j | i <= j < k :: Served(n, names, j)
  }

  lemma EndsEarlier(n: Native, names: seq<string>, i: nat, r: Outcome)
    requires i < |n.names| == |n.types| == |n.defaults| && Served(n, names, i) && FillEnds(n, names, i + 1, r)
    ensures FillEnds(n, names, i, r)
  {
    hide Served;
    if r.Missing? {
      var k :| i + 1 <= k < |n.names| && StopsAt(n, names, i + 1, k) && n.defaults[k].None? && r.name == n.names[k];
      assert StopsAt(n, names, i, k);
    } else if r.Abort? {
      var k :| i + 1 <= k < |n.names| && StopsAt(n, names, i + 1, k) && n.defaults[k].Some?
        && n.types[k] in {Void, RegExp, Handler, IntArray, StringArray, IPAddrArray, CidrArray};
      assert StopsAt(n, names, i, k);
    }
  }

  lemma EndsHere(n: Native, names: seq<string>, i: nat)
    requires i <= |n.names| == |n.types| == |n.defaults|
    ensures i == |n.names| ==> FillEnds(n, names, i, Matched)
    ensures i < |n.names| && n.names[i] !in names && n.defaults[i].None? ==> FillEnds(n, names, i, Missing(n.names[i]))
    ensures i < |n.names| && n.names[i] !in names && n.defaults[i].Some? && !Served(n, names, i) ==>
              FillEnds(n, names, i, Abort)
  {
    if i < |n.names| && n.names[i] !in names {
      assert StopsAt(n, names, i, i);
      var t := n.types[i];
      assert t.Boolean? || t.Number? || t.String? || t.IPAddress? || t.Cidr? ||
        t in {Void, RegExp, Handler, IntArray, StringArray, IPAddrArray, CidrArray};
    }
  }

  lemma {:induction false} FillEndsSo(n: Native, names: seq<string>, values: seq<Arg>, names': seq<string>,
        values': seq<Arg>, i: nat)
    requires Declared(n) && Filled(n, names, values, names', values', i)
    ensures |n.names| == |n.types| == |n.defaults| && |names'| == |values'| && i <= |n.types|
    ensures FillEnds(n, names, i, Fill(n, names', values', i).2)
    decreases |n.types| - i
  {
    hide Filled, FillEnds, Distinct;
    FilledSizes(n, names, values, names', values', i);
    EndsHere(n, names, i);
    if i < |n.types| {
      var x := n.names[i];
      StillOmitted(n, names, values, names', values', i);
      if x in names' {
        FilledSkip(n, names, values, names', values', i);
        FillEndsSo(n, names, values, names', values', i + 1);
        EndsEarlier(n, names, i, Fill(n, names', values', i).2);
      } else if DefaultAt(n, i).Some? && Completable(n.types[i]) {
        FilledMore(n, names, values, names', values', i);
        FillEndsSo(n, names, values, names' + [x], values' + [DefaultAt(n, i).value], i + 1);
        EndsEarlier(n, names, i, Fill(n, names', values', i).2);
      }
    }
  }

  /** Filling in from the start: all is served, or the first parameter that is not says why. */
  lemma FillExact(n: Native, names: seq<string>, values: seq<Arg>)
    requires Declared(n) && |n.names| == |n.types| && |names| == |values|
    ensures |n.defaults| == |n.types| && FillEnds(n, names, 0, Fill(n, names, values, 0).2)
  {
    hide FillEnds, Fill;
    assert names[..|names|] == names && values[..|values|] == values;
    FillEndsSo(n, names, values, names, values, 0);
  }

  lemma FilledSizes(n: Native, names: seq<string>, values: seq<Arg>, names': seq<string>, values': seq<Arg>, i: nat)
    requires Filled(n, names, values, names', values', i)
    ensures |names| == |values| <= |names'| == |values'| && |n.names| == |n.types| && i <= |n.names|
  {
  }

  lemma FilledSkip(n: Native, names: seq<string>, values: seq<Arg>, names': seq<string>, values': seq<Arg>, i: nat)
    requires Filled(n, names, values, names', values', i) && i < |n.names| && n.names[i] in names'
    ensures Filled(n, names, values, names', values', i + 1)
  {
    forall k | |names| <= k < |names'|
      ensures exists j :: 0 <= j < i + 1 && n.names[j] == names'[k] && DefaultAt(n, j) == Some(values'[k])
    {
      var j :| 0 <= j < i && n.names[j] == names'[k] && DefaultAt(n, j) == Some(values'[k]);
      assert n.names[j] == names'[k];
    }
  }

  lemma StillOmitted(n: Native, names: seq<string>, values: seq<Arg>, names': seq<string>, values': seq<Arg>, i: nat)
    requires Declared(n) && Filled(n, names, values, names', values', i) && i < |n.names|
    ensures n.names[i] in names' <==> n.names[i] in names
  {
    var x := n.names[i];
    if x in names' {
      var k :| 0 <= k < |names'| && names'[k] == x;
      if k >= |names| { assert false; }
      assert names'[..|names|][k] == x;
    }
    if x in names {
      var k :| 0 <= k < |names| && names[k] == x;
      assert names'[..|names|][k] == x;
    }
  }

  lemma FilledMore(n: Native, names: seq<string>, values: seq<Arg>, names': seq<string>, values': seq<Arg>, i: nat)
    requires Declared(n) && Filled(n, names, values, names', values', i) && i < |n.names|
    requires n.names[i] !in names' && n.names[i] !in names && DefaultAt(n, i).Some?
    ensures Filled(n, names, values, names' + [n.names[i]], values' + [DefaultAt(n, i).value], i + 1)
  {
    var names1, values1 := names' + [n.names[i]], values' + [DefaultAt(n, i).value];
    assert names1[..|names|] == names'[..|names|] && values1[..|values|] == values'[..|values|];
    forall k | |names| <= k < |names1|
      ensures exists j :: 0 <= j < i + 1 && n.names[j] == names1[k] && DefaultAt(n, j) == Some(values1[k])
    {
      if k < |names'| {
        var j :| 0 <= j < i && n.names[j] == names'[k] && DefaultAt(n, j) == Some(values'[k]);
        assert n.names[j] == names1[k];
      } else {
        assert n.names[i] == names1[k];
      }
    }
    forall j | 0 <= j < i + 1 ensures n.names[j] in names1 {
      if j < i { assert n.names[j] in names'; } else { assert names1[|names'|] == n.names[i]; }
    }
  }

  // ---------------------------------------------------------------- counting names

  ghost function Elems<T>(s: seq<T>): (r: set<T>) {
    set x | x in s
  }

  lemma {:induction false} Cardinality<T>(s: seq<T>)
    ensures |Elems(s)| <= |s|
    ensures |Elems(s)| == |s| <==> Distinct(s)
  {
    if s != [] {
      var t := s[..|s| - 1];
      var x := s[|s| - 1];
      Cardinality(t);
      assert s == t + [x];
      assert Elems(s) == Elems(t) + {x};
      if Distinct(s) {
        assert Distinct(t);
        assert x !in t;
      } else if Distinct(t) {
        assert x in t by {
          var i, j :| 0 <= i < j < |s| && s[i] == s[j];
          assert j == |s| - 1;
          assert t[i] == x;
        }
      }
    }
  }

  lemma SubsetCard<T>(a: set<T>, b: set<T>)
    requires a <= b
    ensures |a| <= |b| && (|a| == |b| ==> a == b)
  {
    var c := b - a;
    assert b == a + c && |b| == |a| + |c|;
  }

  /** Filling in leaves nothing over exactly when the given names are distinct and known. */
  lemma NothingOver(n: Native, names: seq<string>, values: seq<Arg>, names': seq<string>, values': seq<Arg>)
    requires Declared(n) && Filled(n, names, values, names', values', |n.names|)
    ensures |n.names| <= |names'|
    ensures |names'| == |n.names| <==> Distinct(names) && Known(n, names)
    ensures |names'| == |n.names| ==> Distinct(names')
  {
    Cardinality(names');
    Cardinality(n.names);
    assert Elems(n.names) <= Elems(names');
    SubsetCard(Elems(n.names), Elems(names'));
    if Distinct(names) && Known(n, names) {
      assert Distinct(names') by {
        forall i, j | 0 <= i < j < |names'| ensures names'[i] != names'[j] {
          if i < |names| { assert names'[..|names|][i] == names[i]; }
          if j < |names| { assert names'[..|names|][j] == names[j]; }
        }
      }
      assert Elems(names') <= Elems(n.names) by {
        forall k | 0 <= k < |names'| ensures names'[k] in n.names {
          if k < |names| { assert names'[..|names|][k] == names[k]; }
        }
      }
      SubsetCard(Elems(names'), Elems(n.names));
    }
    if |names'| == |n.names| {
      forall i | 0 <= i < |names| ensures names[i] in n.names {
        assert names'[..|names|][i] == names[i];
        assert names'[i] in Elems(names');
      }
      forall i, j | 0 <= i < j < |names| ensures names[i] != names[j] {
        assert names'[..|names|][i] == names[i] && names'[..|names|][j] == names[j];
      }
    }
  }

  // ---------------------------------------------------------------- reordering

  /** Each value with its name. */
  ghost function Pairs(names: seq<string>, values: seq<Arg>): (r: seq<(string, Arg)>)
    requires |names| == |values|
  {
    seq(|names|, i requires 0 <= i < |names| => (names[i], values[i]))
  }

  lemma SwapPairs(names: seq<string>, values: seq<Arg>, i: nat, j: nat)
    requires |names| == |values| && i < |names| && j < |names|
    ensures var ns := names[i := names[j]][j := names[i]]; var vs := values[i := values[j]][j := values[i]];
            multiset(Pairs(ns, vs)) == multiset(Pairs(names, values)) && multiset(ns) == multiset(names)
  {
    var ns, vs := names[i := names[j]][j := names[i]], values[i := values[j]][j := values[i]];
    var p := Pairs(names, values);
    assert Pairs(ns, vs) == p[i := p[j]][j := p[i]];
  }

  /** A pair that was somewhere before is somewhere after. */
  lemma SamePairs(names: seq<string>, values: seq<Arg>, ns: seq<string>, vs: seq<Arg>, i: nat) returns (j: nat)
    requires |names| == |values| && |ns| == |vs| && multiset(Pairs(ns, vs)) == multiset(Pairs(names, values))
             && i < |ns|
    ensures j < |names| && names[j] == ns[i] && values[j] == vs[i]
  {
    var x := Pairs(ns, vs)[i];
    assert x in multiset(Pairs(ns, vs));
    assert x in Pairs(names, values);
    j :| 0 <= j < |names| && Pairs(names, values)[j] == x;
  }

  /** The first i places hold their parameters, or names the builtin does not know. */
  ghost predicate InPlace(n: Native, names: seq<string>, i: nat) {
    i <= |names| && i <= |n.names| && forall j | 0 <= j < i :: names[j] == n.names[j] || names[j] !in n.names
  }

  /** Those among the first i names that the builtin does not know, in order. */
  function Strange(n: Native, names: seq<string>, i: nat): seq<string>
    requires i <= |names|
  {
    if i == 0 then [] else Strange(n, names, i - 1) + (if names[i - 1] in n.names then [] else [names[i - 1]])
  }

  lemma {:induction false} StrangeSame(n: Native, names: seq<string>, ns: seq<string>, i: nat)
    requires i <= |names| && i <= |ns| && names[..i] == ns[..i]
    ensures Strange(n, names, i) == Strange(n, ns, i)
  {
    if i > 0 {
      assert names[..i - 1] == names[..i][..i - 1] && ns[..i - 1] == ns[..i][..i - 1];
      assert names[i - 1] == names[..i][i - 1] == ns[i - 1];
      StrangeSame(n, names, ns, i - 1);
    }
  }

  lemma {:induction false} NoneStrange(n: Native, names: seq<string>, i: nat)
    requires i <= |names| && forall x | x in names[..i] :: x in n.names
    ensures Strange(n, names, i) == []
  {
    if i > 0 {
      assert names[..i] == names[..i - 1] + [names[i - 1]];
      NoneStrange(n, names, i - 1);
    }
  }

  /** The next parameter's name is not among those already in place. */
  lemma NotYetPlaced(n: Native, names: seq<string>, i: nat)
    requires Declared(n) && i < |n.names| && i < |names| && InPlace(n, names, i)
    ensures n.names[i] in names ==> i <= Place(names, n.names[i])
  {
  }

  lemma OneMorePlaced(n: Native, ns: seq<string>, names: seq<string>, i: nat)
    requires i < |names| == |ns| && i < |n.names| && ns[..i] == n.names[..i] == names[..i] && names[i] == n.names[i]
    ensures names[..i + 1] == n.names[..i + 1]
  {
    assert names[..i + 1] == names[..i] + [names[i]] && n.names[..i + 1] == n.names[..i] + [n.names[i]];
  }

  lemma NonePlaced(n: Native, names: seq<string>)
    ensures InPlace(n, names, 0) && Strange(n, names, 0) == []
  {
  }

  /** From ns to names only the places from i on were written, the i-th for good. */
  lemma OneMoreInPlace(n: Native, ns: seq<string>, names: seq<string>, i: nat)
    requires InPlace(n, ns, i) && i < |ns| == |names| && i < |n.names| && names[..i] == ns[..i]
    requires names[i] == n.names[i] || names[i] !in n.names
    ensures InPlace(n, names, i + 1)
    ensures Strange(n, names, i + 1) == Strange(n, ns, i) + (if names[i] in n.names then [] else [names[i]])
  {
    StrangeSame(n, ns, names, i);
    forall j | 0 <= j < i ensures names[j] == ns[j] { assert names[..i][j] == ns[..i][j]; }
  }

  class ParamList {
    const isNamed: bool
    var names: seq<string>
    var values: seq<Arg>

    ghost predicate Valid()
      reads this
    {
      if isNamed then |names| == |values| else names == []
    }

    constructor (named: bool)
      ensures Valid() && isNamed == named && names == [] && values == []
    {
      isNamed, names, values := named, [], [];
    }

    method PushNamed(name: string, arg: Arg)
      requires Valid() && isNamed
      modifies this
      ensures Valid() && names == old(names) + [name] && values == old(values) + [arg]
    {
      names := names + [name];
      values := values + [arg];
    }

    method PushBack(arg: Arg)
      requires Valid() && !isNamed
      modifies this
      ensures Valid() && names == [] && values == old(values) + [arg]
    {
      values := values + [arg];
    }

    method Contains(name: string) returns (found: bool)
      ensures found <==> name in names
    {
      for i := 0 to |names|
        invariant name !in names[..i]
      {
        if name == names[i] { return true; }
      }
      return false;
    }

    method Find(name: string) returns (r: int)
      ensures r == -1 <==> name !in names
      ensures r != -1 ==> r == Place(names, name) < |names|
    {
      for i := 0 to |names|
        invariant forall j | 0 <= j < i :: names[j] != name
      {
        if names[i] == name {
          assert Place(names, name) == i;
          return i;
        }
      }
      assert Place(names, name) == |names|;
      return -1;
    }

    method Swap(source: nat, dest: nat)
      requires Valid() && isNamed && source < |names| && dest < |names|
      modifies this
      ensures Valid() && |names| == |old(names)|
      ensures names == old(names[source := names[dest]][dest := names[source]])
      ensures multiset(Pairs(names, values)) == old(multiset(Pairs(names, values)))
              && multiset(names) == old(multiset(names))
    {
      SwapPairs(names, values, source, dest);
      names := names[source := names[dest]][dest := names[source]];
      values := values[source := values[dest]][dest := values[source]];
    }

    /** Brings the i-th parameter to place i if it is there at all. If it is not, a name the builtin
        does not know stays in its place and is left over, and any other name stops the process. */
    method PlaceParam(native: Native, i: nat) returns (ok: bool, over: bool)
      requires Valid() && isNamed && Declared(native) && i < |native.names| && i < |names| && InPlace(native, names, i)
      modifies this
      ensures Valid() && |names| == |old(names)| && names[..i] == old(names)[..i]
              && multiset(names) == old(multiset(names))
      ensures multiset(Pairs(names, values)) == old(multiset(Pairs(names, values)))
      ensures if native.names[i] in old(names) then ok && !over && names[i] == native.names[i]
              else (names, values) == (old(names), old(values)) && ok == over == (names[i] !in native.names)
    {
      hide Pairs, Declared, Distinct;
      ok, over := true, false;
      var localName, otherName := names[i], native.names[i];
      var nativeIndex := Place(native.names, localName);
      if nativeIndex == i { return; }
      var other := Find(otherName);
      NotYetPlaced(native, names, i);
      if other != -1 {
        Swap(i, other);
      } else if nativeIndex == |native.names| {
        over := true;
      } else {
        ok := false;
      }
    }

    /** Brings the parameters to the front in declaration order and reports what is left over. It
        stops the process only if a declared name is missing. */
    method Reorder(native: Native) returns (ok: bool, superfluous: seq<string>)
      requires Valid() && isNamed && Declared(native) && |native.names| == |native.types|
      modifies this
      ensures Valid() && |names| == |old(names)|
              && multiset(Pairs(names, values)) == old(multiset(Pairs(names, values)))
      ensures ok ==> var argc := if |native.types| < |names| then |native.types| else |names|;
                     InPlace(native, names, argc) && superfluous == Strange(native, names, argc) + names[argc..]
      ensures (forall x | x in native.names :: x in old(names)) ==>
                ok && |native.names| <= |names| && names[..|native.names|] == native.names
                    && superfluous == names[|native.names|..]
    {
      hide Pairs, Declared, Distinct, InPlace, Strange;
      assert InPlace(native, names, 0) && Strange(native, names, 0) == [] by { NonePlaced(native, names); }
      ghost var all := forall x | x in native.names :: x in names;
      if all { EnoughNames(native, names); }
      var argc := if |native.types| < |names| then |native.types| else |names|;
      superfluous := [];
      for i := 0 to argc
        invariant Valid() && |names| == |old(names)| && multiset(names) == old(multiset(names))
        invariant multiset(Pairs(names, values)) == old(multiset(Pairs(names, values)))
        invariant InPlace(native, names, i) && superfluous == Strange(native, names, i)
        invariant all ==> names[..i] == native.names[..i]
      {
        if all { AllThere(native.names, old(names), names); }
        ghost var ns := names;
        var localName := names[i];
        var over: bool;
        ok, over := PlaceParam(native, i);
        if !ok { return; }
        if over { superfluous := superfluous + [localName]; }
        OneMoreInPlace(native, ns, names, i);
        if all { OneMorePlaced(native, ns, names, i); }
      }
      assert all ==> native.names[..argc] == native.names;
      if all { NoneStrange(native, names, argc); }
      var rest := Leftover(argc);
      ok, superfluous := true, superfluous + rest;
    }

    method Leftover(argc: nat) returns (superfluous: seq<string>)
      requires argc <= |names|
      ensures superfluous == names[argc..]
    {
      superfluous := [];
      for i := argc to |names|
        invariant superfluous == names[argc..i]
      {
        superfluous := superfluous + [names[i]];
      }
    }

    // -------------------------------------------------------------- matching

    /** Fills in the defaults of the omitted parameters. */
    method CompleteNamed(native: Native) returns (r: Outcome)
      requires Valid() && isNamed && |native.names| == |native.types|
      modifies this
      ensures Valid() && (names, values, r) == Fill(native, old(names), old(values), 0)
    {
      hide Fill;
      for i := 0 to |native.types|
        invariant Valid() && Fill(native, names, values, i) == Fill(native, old(names), old(values), 0)
      {
        FillStep(native, names, values, i);
        var given := Contains(native.names[i]);
        if !given {
          var default := DefaultAt(native, i);
          if default.None? { return Missing(native.names[i]); }
          if !Completable(native.types[i]) { return Abort; }
          PushNamed(native.names[i], default.value);
        }
      }
      FillEnd(native, names, values);
      return Matched;
    }

    /** Named arguments against a builtin that names its parameters. */
    method MatchNamed(native: Native) returns (r: Outcome)
      requires Valid() && isNamed && Declared(native) && |native.names| == |native.types|
      modifies this
      ensures Valid()
      ensures r == Matched <==> Distinct(old(names)) && Known(native, old(names)) && Supplied(native, old(names))
      ensures r == Matched ==> names == native.names
                               && forall i | 0 <= i < |names| :: Gets(native, old(names), old(values), i, values[i])
      ensures r == Matched ==> ((forall i | 0 <= i < |values| :: values[i].ty == native.types[i])
                                <==> GivenTypes(native, old(names), old(values)))
      ensures r.Superfluous? ==> Supplied(native, old(names)) && r.names != []
      ensures var f := Fill(native, old(names), old(values), 0);
              if f.2 != Matched then (names, values, r) == f
              else |native.names| <= |names| && names[..|native.names|] == native.names
                   && multiset(Pairs(names, values)) == multiset(Pairs(f.0, f.1))
                   && (r.Superfluous? ==> r.names == names[|native.names|..]) && (r == Matched || r.Superfluous?)
    {
      hide Fill, Filled, Declared, Pairs, Gets, Supplied;
      ghost var ns0, vs0 := names, values;
      r := CompleteNamed(native);
      FillOutcome(native, ns0, vs0);
      if r != Matched { return; }
      ghost var ns1, vs1 := names, values;
      NothingOver(native, ns0, vs0, ns1, vs1);
      FilledNames(native, ns0, vs0, ns1, vs1);
      var ok, superfluous := Reorder(native);
      if superfluous != [] { return Superfluous(superfluous); }
      assert names == names[..|native.names|] == native.names;
      AllBound(native, ns0, vs0, ns1, vs1, values);
      TypesExact(native, ns0, vs0, values);
      return Matched;
    }

    method MatchPositional(types: seq<Type>, native: Option<Native>) returns (r: Outcome)
      requires Valid() && !isNamed && (native.Some? ==> Declared(native.value) && types == native.value.types)
               && (native.None? ==> types == [])
      modifies this
      ensures Valid()
      ensures r == Matched <==> PositionalOk(types, native, old(values))
      ensures |old(values)| <= |values| && values[..|old(values)|] == old(values)
      ensures r == Matched ==> |values| == |types| && forall i | |old(values)| <= i < |types| ::
                DefaultAt(native.value, i) == Some(values[i])
      ensures r == Matched ==> forall i | 0 <= i < |types| :: values[i].ty == types[i]
      ensures PositionalEnds(types, if native.Some? then native.value.defaults else [], old(values), r)
    {
      var given := |values|;
      if given > |types| { return TooMany; }
      for i := 0 to given
        invariant forall j | 0 <= j < i :: values[j].ty == types[j]
      {
        if values[i].ty != types[i] { return Mismatch(i); }
      }
      ghost var defaults := if native.Some? then native.value.defaults else [];
      for i := given to |types|
        invariant Valid() && |values| == i && values[..given] == old(values)
        invariant forall j | given <= j < i :: Usable(types, defaults, j)
        invariant forall j | 0 <= j < i :: values[j].ty == types[j]
        invariant forall j | given <= j < i :: DefaultAt(native.value, j) == Some(values[j]) && Completable(types[j])
      {
        assert OmittedUpTo(types, defaults, old(values), i);
        var default := DefaultAt(native.value, i);
        if default.None? { return NoDefault(i); }
        if !Completable(types[i]) { return Abort; }
        PushBack(default.value);
      }
      return Matched;
    }

    /** Callable::tryMatch: a callee without a native callback is a handler and takes nothing. */
    method TryMatch(native: Option<Native>) returns (r: Outcome)
      requires Valid() && (native.Some? ==> Declared(native.value))
      modifies this
      ensures Valid()
      ensures r == Matched <==>
                || (old(values) == [] && (native.None? || native.value.types == []))
                || (isNamed && native.Some? && native.value.names != [] && Distinct(old(names))
                    && Known(native.value, old(names))
                    && Supplied(native.value, old(names)))
                || (!isNamed && PositionalOk(if native.Some? then native.value.types else [], native, old(values)))
      ensures r == Matched && isNamed && !(old(values) == [] && (native.None? || native.value.types == [])) ==>
                names == native.value.names && forall i | 0 <= i < |names| ::
                      Gets(native.value, old(names), old(values), i, values[i])
      ensures r == Matched && !isNamed ==>
                var types := if native.Some? then native.value.types else [];
                && |old(values)| <= |values| == |types| && values[..|old(values)|] == old(values)
                && (forall i | |old(values)| <= i < |types| :: DefaultAt(native.value, i) == Some(values[i]))
                && (forall i | 0 <= i < |types| :: values[i].ty == types[i])
      ensures native.None? && isNamed && old(values) != [] ==> r == Abort
    {
      if values == [] && (native.None? || native.value.types == []) { return Matched; }
      if isNamed {
        if native.None? { return Abort; }
        if native.value.names == [] { return NoNames; }
        r := MatchNamed(native.value);
      } else {
        r := MatchPositional(if native.Some? then native.value.types else [], native);
      }
    }
  }

  ghost predicate PositionalOk(types: seq<Type>, native: Option<Native>, values: seq<Arg>)
    requires types != [] ==> native.Some?
  {
    && |values| <= |types|
    && (forall i | 0 <= i < |values| :: values[i].ty == types[i])
    && (forall i | |values| <= i < |types| :: DefaultAt(native.value, i).Some? && Completable(types[i]))
  }

  /** Why a match by position ends as it does. */
  ghost predicate PositionalEnds(types: seq<Type>, defaults: seq<Option<Arg>>, values: seq<Arg>, r: Outcome) {
    match r
    case TooMany => |values| > |types|
    case Mismatch(i) =>
      i < |values| <= |types| && values[i].ty != types[i] && forall j | 0 <= j < i :: values[j].ty == types[j]
    case NoDefault(i) => OmittedUpTo(types, defaults, values, i) && (i < |defaults| ==> defaults[i].None?)
    case Abort =>
      exists i: nat :: OmittedUpTo(types, defaults, values, i) && i < |defaults| && defaults[i].Some?
        && types[i] in {Void, RegExp, Handler, IntArray, StringArray, IPAddrArray, CidrArray}
    case Matched =>
      && |values| <= |types| && (forall j | 0 <= j < |values| :: values[j].ty == types[j])
      && (forall j | |values| <= j < |types| :: Usable(types, defaults, j))
    case _ => false
  }

  ghost predicate Usable(types: seq<Type>, defaults: seq<Option<Arg>>, j: nat)
    requires j < |types|
  {
    j < |defaults| && defaults[j].Some? && types[j] in {Boolean, Number, String, IPAddress, Cidr}
  }

  /** What was given is of the right types, and of what was left out all before i have usable defaults. */
  ghost predicate OmittedUpTo(types: seq<Type>, defaults: seq<Option<Arg>>, values: seq<Arg>, i: nat) {
    && |values| <= i < |types|
    && (forall j | 0 <= j < |values| :: values[j].ty == types[j])
    && (forall j | |values| <= j < i :: Usable(types, defaults, j))
  }

  /** How many of the parameters from i on are left out and have a usable default, up to the first without one. */
  function Appended(n: Native, names: seq<string>, i: nat): nat
    requires |n.names| == |n.types| && i <= |n.types|
    decreases |n.types| - i
  {
    if i == |n.types| then 0
    else if n.names[i] in names then Appended(n, names, i + 1)
    else if DefaultAt(n, i).None? || !Completable(n.types[i]) then 0
    else 1 + Appended(n, names + [n.names[i]], i + 1)
  }

  /** A match that fails for want of an argument leaves the defaults before it behind: the list
      stays as it was exactly if the first parameter left out is the one that fails. */
  lemma {:induction false} FailedFill(n: Native, names: seq<string>, values: seq<Arg>, i: nat)
    requires |n.names| == |n.types| && i <= |n.types| && |names| == |values|
    ensures var r := Fill(n, names, values, i);
            && |r.0| == |names| + Appended(n, names, i) && r.0[..|names|] == names && r.1[..|values|] == values
            && (r.0 == names <==> forall j | i <= j < |n.names| && (forall k | i <= k < j :: n.names[k] in names) ::
                                    n.names[j] in names || DefaultAt(n, j).None? || !Completable(n.types[j]))
    decreases |n.types| - i
  {
    if i < |n.types| {
      var x := n.names[i];
      if x in names {
        FailedFill(n, names, values, i + 1);
      } else if DefaultAt(n, i).Some? && Completable(n.types[i]) {
        FailedFill(n, names + [x], values + [DefaultAt(n, i).value], i + 1);
        var r := Fill(n, names, values, i);
        assert (names + [x])[..|names|] == names && (values + [DefaultAt(n, i).value])[..|values|] == values;
        assert r.0[..|names|] == r.0[..|names| + 1][..|names|] && r.1[..|values|] == r.1[..|values| + 1][..|values|];
      }
    }
  }

  lemma FillStep(n: Native, names: seq<string>, values: seq<Arg>, i: nat)
    requires |n.names| == |n.types| && i < |n.types| && |names| == |values|
    ensures Fill(n, names, values, i) ==
              if n.names[i] in names then Fill(n, names, values, i + 1)
              else if DefaultAt(n, i).None? then (names, values, Missing(n.names[i]))
              else if !Completable(n.types[i]) then (names, values, Abort)
              else Fill(n, names + [n.names[i]], values + [DefaultAt(n, i).value], i + 1)
  {
  }

  lemma FillEnd(n: Native, names: seq<string>, values: seq<Arg>)
    requires |n.names| == |n.types| && |names| == |values|
    ensures Fill(n, names, values, |n.types|) == (names, values, Matched)
  {
  }

  lemma FillOutcome(n: Native, names: seq<string>, values: seq<Arg>)
    requires Declared(n) && |n.names| == |n.types| && |names| == |values|
    ensures var r := Fill(n, names, values, 0);
            && (r.2 == Matched <==> Supplied(n, names))
            && (r.2 == Matched ==> Filled(n, names, values, r.0, r.1, |n.names|))
            && (r.2 != Matched ==> r.2.Missing? || r.2.Abort?)
  {
    assert names[..|names|] == names && values[..|values|] == values;
    FillAll(n, names, values, names, values, 0);
  }

  lemma FilledNames(n: Native, names: seq<string>, values: seq<Arg>, ns: seq<string>, vs: seq<Arg>)
    requires Filled(n, names, values, ns, vs, |n.names|)
    ensures forall x | x in n.names :: x in ns
  {
  }

  /** After a permutation of the filled-in pairs into declaration order every parameter has its value. */
  lemma AllBound(n: Native, names: seq<string>, values: seq<Arg>, ns: seq<string>, vs: seq<Arg>, vs': seq<Arg>)
    requires Declared(n) && Filled(n, names, values, ns, vs, |n.names|) && Distinct(ns)
    requires |vs'| == |n.names| && |ns| == |vs| && multiset(Pairs(n.names, vs')) == multiset(Pairs(ns, vs))
    ensures |names| == |values| && forall i | 0 <= i < |n.names| :: Gets(n, names, values, i, vs'[i])
  {
    forall i | 0 <= i < |n.names| ensures Gets(n, names, values, i, vs'[i]) {
      var k := SamePairs(ns, vs, n.names, vs', i);
      OneBound(n, names, values, ns, vs, i, k);
    }
  }

  /** Every given value has the type of the parameter it names. */
  ghost predicate GivenTypes(n: Native, names: seq<string>, values: seq<Arg>)
    requires |names| == |values| && |n.names| == |n.types|
  {
    forall k | 0 <= k < |names| && names[k] in n.names :: values[k].ty == n.types[Place(n.names, names[k])]
  }

  /** Nobody looks at the types of named arguments: the bound values have the declared types
      exactly if the given ones do. */
  lemma TypesExact(n: Native, names: seq<string>, values: seq<Arg>, vs: seq<Arg>)
    requires Declared(n) && |n.names| == |n.types| == |vs| && |names| == |values| && Distinct(names) && Known(n, names)
    requires forall i | 0 <= i < |vs| :: Gets(n, names, values, i, vs[i])
    ensures (forall i | 0 <= i < |vs| :: vs[i].ty == n.types[i]) <==> GivenTypes(n, names, values)
  {
    if GivenTypes(n, names, values) {
      forall i | 0 <= i < |vs| ensures vs[i].ty == n.types[i] {
        assert Gets(n, names, values, i, vs[i]);
        if n.names[i] in names {
          var k := Place(names, n.names[i]);
          assert Place(n.names, names[k]) == i;
        }
      }
    }
    if forall i | 0 <= i < |vs| :: vs[i].ty == n.types[i] {
      forall k | 0 <= k < |names| ensures values[k].ty == n.types[Place(n.names, names[k])] {
        var i := Place(n.names, names[k]);
        assert Gets(n, names, values, i, vs[i]);
        assert Place(names, n.names[i]) == k;
      }
    }
  }

  /** A builtin that takes a number `a`, given a string under that name: all that a match asks for
      is there, and the string is what the parameter gets. */
  lemma WrongTypeBound(v: Arg)
    ensures var n := Native([Number], ["a"], [None]); var names, values := ["a"], [Arg(String, 0)];
            && Declared(n) && Distinct(names) && Known(n, names) && Supplied(n, names)
            && (Gets(n, names, values, 0, v) <==> v == Arg(String, 0)) && Arg(String, 0).ty != n.types[0]
  {
    var n, names := Native([Number], ["a"], [None]), ["a"];
    assert names[0] == "a" && n.names[0] in names;
    assert Place(names, "a") == 0;
  }

  lemma OneBound(n: Native, names: seq<string>, values: seq<Arg>, ns: seq<string>, vs: seq<Arg>, i: nat, k: nat)
    requires Declared(n) && Filled(n, names, values, ns, vs, |n.names|) && Distinct(ns)
    requires i < |n.names| && k < |ns| && ns[k] == n.names[i]
    ensures Gets(n, names, values, i, vs[k])
  {
    if k < |names| {
      assert ns[..|names|][k] == names[k] && vs[..|values|][k] == values[k];
      var p := Place(names, n.names[i]);
      assert ns[..|names|][p] == names[p];
      assert p == k;
    } else {
      var j :| 0 <= j < |n.names| && n.names[j] == ns[k] && DefaultAt(n, j) == Some(vs[k]);
      assert j == i;
    }
  }

  lemma EnoughNames(n: Native, names: seq<string>)
    requires Declared(n) && forall x | x in n.names :: x in names
    ensures |n.names| <= |names|
  {
    Cardinality(n.names);
    Cardinality(names);
    assert Elems(n.names) <= Elems(names);
    SubsetCard(Elems(n.names), Elems(names));
  }

  lemma AllThere(ns: seq<string>, names0: seq<string>, names: seq<string>)
    requires multiset(names) == multiset(names0) && forall x | x in ns :: x in names0
    ensures forall x | x in ns :: x in names
  {
    forall x | x in ns ensures x in names { assert x in multiset(names0); }
  }
}
