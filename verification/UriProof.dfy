/** Parsing a printed URI gives back its parts exactly when they are well formed. */
module UriProof {
  import opened Wrappers
  import opened UriText

  /** Parts of which only the scheme is known yet. */
  ghost predicate Bare(v: Parts) {
    v == EMPTY.(scheme := v.scheme)
  }

  function TailText(u: Parts): string {
    u.path + (QueryText(u) + FragmentText(u))
  }

  lemma TailStart(u: Parts)
    ensures QueryText(u) + FragmentText(u) == "" || (QueryText(u) + FragmentText(u))[0] in {'?', '#'}
    ensures FragmentText(u) == "" || FragmentText(u)[0] == '#'
  {
  }

  // ---------------------------------------------------------------- well-formed parts come back

  lemma QueryBack(v: Parts, u: Parts)
    requires v.query == "" && v.fragment == "" && Free(u.query, {'#'})
    ensures var (v1, s1) := TakeQuery(v, QueryText(u) + FragmentText(u));
            TakeFragment(v1, s1) == v.(query := u.query, fragment := u.fragment)
  {
    var s := QueryText(u) + FragmentText(u);
    if u.query != "" {
      assert s[1..] == u.query + FragmentText(u);
      CutAt(u.query, FragmentText(u), {'#'});
    } else {
      assert s == FragmentText(u);
    }
    if u.fragment != "" { assert FragmentText(u)[1..] == u.fragment; }
  }

  lemma TailBack(v: Parts, u: Parts)
    requires v.path == "" && v.query == "" && v.fragment == "" && Free(u.path, {'?', '#'}) && Free(u.query, {'#'})
    ensures TakeTail(v, TailText(u)) == v.(path := u.path, query := u.query, fragment := u.fragment)
  {
    TailStart(u);
    CutAt(u.path, QueryText(u) + FragmentText(u), {'?', '#'});
    QueryBack(v.(path := u.path), u);
  }

  lemma DigitsAll(s: string)
    requires forall i | 0 <= i < |s| :: Digit(s[i])
    ensures Digits(s) == |s| && s[..|s|] == s
  {
  }

  lemma PortBack(v: Parts, u: Parts)
    requires v.port == 0 && u.port <= INT_MAX
    ensures TakePort(v, PortText(u)) == Some(v.(port := u.port))
  {
    if u.port > 0 {
      assert PortText(u)[1..] == Decimal(u.port);
      DigitsAll(Decimal(u.port));
      NumberBack(u.port);
    }
  }

  lemma HostBack(v: Parts, u: Parts)
    requires v.port == 0 && u.port <= INT_MAX && Free(u.host, {':'})
    ensures TakeHost(v, u.host + PortText(u)) == Some(v.(host := u.host, port := u.port))
  {
    CutAt(u.host, PortText(u), {':'});
    PortBack(v.(host := u.host), u);
  }

  lemma PortFree(u: Parts, stops: set<char>)
    requires stops <= {'/', '?', '#', '@'}
    ensures Free(PortText(u), stops)
  {
    var p := PortText(u);
    forall i | 0 <= i < |p| ensures p[i] !in stops {
      if i > 0 { assert p[i] == Decimal(u.port)[i - 1] && Digit(Decimal(u.port)[i - 1]); }
    }
  }

  lemma FreeConcat(a: string, b: string, stops: set<char>)
    requires Free(a, stops) && Free(b, stops)
    ensures Free(a + b, stops)
  {
  }

  lemma FreeLess(a: string, stops: set<char>, fewer: set<char>)
    requires Free(a, stops) && fewer <= stops
    ensures Free(a, fewer)
  {
  }

  lemma AuthorityBack(v: Parts, u: Parts)
    requires Bare(v) && u.host != "" && RestOk(u)
    ensures TakeAuthority(v, AuthorityText(u)) == Some(v.(userinfo := u.userinfo, host := u.host, port := u.port))
  {
    var a := AuthorityText(u);
    FreeLess(u.userinfo, {'/', '?', '#', '@'}, {'@'});
    FreeLess(u.host, {'/', '?', '#', ':'}, {':'});
    if u.userinfo != "" {
      assert a == u.userinfo + ("@" + (u.host + PortText(u)));
      CutAt(u.userinfo, "@" + (u.host + PortText(u)), {'@'});
      assert a[|u.userinfo| + 1..] == u.host + PortText(u);
    } else {
      PortFree(u, {'@'});
      FreeConcat(u.host, PortText(u), {'@'});
      assert a == u.host + PortText(u);
      assert a + "" == a;
      CutAt(a, "", {'@'});
    }
    HostBack(v.(userinfo := u.userinfo), u);
  }

  lemma AuthorityFree(u: Parts)
    requires Free(u.userinfo, {'/', '?', '#', '@'}) && Free(u.host, {'/', '?', '#', ':'})
    ensures Free(AuthorityText(u), {'/', '?', '#'})
  {
    PortFree(u, {'/', '?', '#'});
    FreeConcat(UserText(u), u.host, {'/', '?', '#'});
    FreeConcat(UserText(u) + u.host, PortText(u), {'/', '?', '#'});
  }

  lemma RestSplit(u: Parts)
    requires u.host != ""
    ensures var s := RestText(u);
            && s == "//" + (AuthorityText(u) + TailText(u)) && HasAuthority(s)
            && s[2..] == AuthorityText(u) + TailText(u)
            && AuthorityText(u) != ""
  {
    var s := RestText(u);
    assert s == "//" + (AuthorityText(u) + TailText(u));
    assert |AuthorityText(u)| >= |u.host|;
  }

  lemma RestBack(v: Parts, u: Parts)
    requires Bare(v) && RestOk(u)
    ensures TakeRest(v, RestText(u)) == Some(u.(scheme := v.scheme))
  {
    if u.host == "" {
      assert RestText(u) == TailText(u);
      TailBack(v, u);
    } else {
      RestSplit(u);
      AuthorityFree(u);
      AuthorityEnds(u);
      AuthorityBack(v, u);
      TailBack(v.(userinfo := u.userinfo, host := u.host, port := u.port), u);
    }
  }

  lemma AuthorityEnds(u: Parts)
    requires u.host != "" && Free(AuthorityText(u), {'/', '?', '#'}) && (u.path == "" || u.path[0] == '/')
    ensures var s := RestText(u); var n := 2 + |AuthorityText(u)|;
            HasAuthority(s) && AuthorityEnd(s) == n && s[2..n] == AuthorityText(u) && s[n..] == TailText(u)
  {
    RestSplit(u);
    TailStart(u);
    var a, t := AuthorityText(u), TailText(u);
    if u.path == "" { assert t == QueryText(u) + FragmentText(u); } else { assert t[0] == u.path[0]; }
    CutAt(a, t, {'/', '?', '#'});
    var s := RestText(u);
    assert s[2..2 + |a|] == s[2..][..|a|] && s[2 + |a|..] == s[2..][|a|..];
  }

  lemma SchemeBack(u: Parts)
    requires Free(u.scheme, {'/', ':'})
    ensures TakeScheme(EMPTY, Text(u)) == (EMPTY.(scheme := u.scheme), RestText(u))
  {
    hide RestText;
    CutAt(u.scheme, ":" + RestText(u), {'/', ':'});
    assert (":" + RestText(u))[1..] == RestText(u);
    assert Text(u)[|u.scheme| + 1..] == Text(u)[|u.scheme|..][1..];
  }

  // ---------------------------------------------------------------- nothing else comes back

  lemma HostKeeps(v: Parts, a: string)
    ensures var r := TakeHost(v, a);
            r.Some? ==> && r.value == v.(host := r.value.host, port := r.value.port)
                        && r.value.host == a[..Cut(a, {':'})]
                        && (r.value.port == v.port || r.value.port <= INT_MAX)
  {
  }

  lemma FreeSlice(s: string, i: nat, j: nat, stops: set<char>)
    requires i <= j <= |s| && Free(s, stops)
    ensures Free(s[i..j], stops)
  {
  }

  /** What an authority leaves behind holds none of the characters that end its parts. */
  lemma AuthorityClean(v: Parts, a: string)
    requires Bare(v) && Free(a, {'/', '?', '#'})
    ensures var r := TakeAuthority(v, a);
            r.Some? ==> && r.value == v.(userinfo := r.value.userinfo, host := r.value.host, port := r.value.port)
                        && Free(r.value.userinfo, {'/', '?', '#', '@'}) && Free(r.value.host, {'/', '?', '#', ':'})
                        && r.value.port <= INT_MAX
  {
    if a != "" {
      var (u1, a1) := TakeUserinfo(v, a);
      var n := Cut(a, {'@'});
      FreeSlice(a, 0, n, {'/', '?', '#'});
      if n < |a| {
        FreeSlice(a, n + 1, |a|, {'/', '?', '#'});
        assert a1 == a[n + 1..|a|];
      }
      HostKeeps(u1, a1);
      FreeSlice(a1, 0, Cut(a1, {':'}), {'/', '?', '#'});
    }
  }

  lemma TailClean(v: Parts, s: string)
    requires v.path == "" && v.query == ""
    ensures var r := TakeTail(v, s);
            && r == v.(path := r.path, query := r.query, fragment := r.fragment)
            && r.path == s[..Cut(s, {'?', '#'})] && Free(r.path, {'?', '#'}) && Free(r.query, {'#'})
  {
  }

  lemma RestClean(v: Parts, s: string)
    requires Bare(v)
    ensures var r := TakeRest(v, s);
            r.Some? ==> && r.value.scheme == v.scheme
                        && Free(r.value.userinfo, {'/', '?', '#', '@'}) && Free(r.value.host, {'/', '?', '#', ':'})
                        && Free(r.value.path, {'?', '#'}) && Free(r.value.query, {'#'}) && r.value.port <= INT_MAX
                        && (!HasAuthority(s) ==> r.value.userinfo == "" && r.value.port == 0)
                        && (HasAuthority(s) ==>
                              r.value.path == s[AuthorityEnd(s)..][..Cut(s[AuthorityEnd(s)..], {'?', '#'})])
  {
    if HasAuthority(s) {
      var n := AuthorityEnd(s);
      var a := s[2..n];
      assert a == s[2..][..n - 2];
      assert Free(a, {'/', '?', '#'});
      AuthorityClean(v, a);
      var w := TakeAuthority(v, a);
      if w.Some? { TailClean(w.value, s[n..]); }
    } else {
      TailClean(v, s);
    }
  }

  /** A path read after an authority ends where the path of the whole text ends, and starts later. */
  lemma PathLater(p: string, t: string, k: nat)
    requires Free(p, {'?', '#'}) && (t == "" || t[0] in {'?', '#'}) && k <= |p|
    ensures (p + t)[k..][..Cut((p + t)[k..], {'?', '#'})] == p[k..]
  {
    assert (p + t)[k..] == p[k..] + t;
    FreeSlice(p, k, |p|, {'?', '#'});
    assert p[k..|p|] == p[k..];
    CutAt(p[k..], t, {'?', '#'});
  }

  lemma NoHostNoAuthority(v: Parts, u: Parts)
    requires Bare(v) && u.host == "" && TakeRest(v, RestText(u)) == Some(u.(scheme := v.scheme))
    ensures !HasAuthority(RestText(u))
  {
    var s := RestText(u);
    RestClean(v, s);
    if HasAuthority(s) {
      TailStart(u);
      var t := QueryText(u) + FragmentText(u);
      assert s == u.path + t;
      var n := AuthorityEnd(s);
      AuthorityWithin(u.path, t, s, n);
      PathLater(u.path, t, n);
      assert false;
    }
  }

  lemma AuthorityWithin(p: string, t: string, s: string, n: nat)
    requires s == p + t && Free(p, {'?', '#'}) && (t == "" || t[0] in {'?', '#'}) && HasAuthority(s)
             && n == AuthorityEnd(s)
    ensures 2 <= n <= |p|
  {
    assert t != "" ==> s[|p|] == t[0];
    assert |p| >= 2;
    if t != "" { assert s[2..][|p| - 2] == t[0]; }
  }

  /** With a host, a path that does not start with a slash runs into the authority. */
  lemma PathSwallowed(u: Parts)
    requires u.host != "" && Free(AuthorityText(u), {'/', '?', '#'}) && Free(u.path, {'?', '#'})
    requires u.path != "" && u.path[0] != '/'
    ensures var s := RestText(u);
            HasAuthority(s) && |s[AuthorityEnd(s)..][..Cut(s[AuthorityEnd(s)..], {'?', '#'})]| < |u.path|
  {
    hide AuthorityText, QueryText, FragmentText, RestText, Cut;
    var s := RestText(u);
    RestSplit(u);
    TailStart(u);
    var a, t := AuthorityText(u), QueryText(u) + FragmentText(u);
    var k := Cut(u.path + t, {'/', '?', '#'});
    CutPast(a, u.path + t, {'/', '?', '#'});
    var n := AuthorityEnd(s);
    assert n == 2 + |a| + k;
    assert s[n..] == (u.path + t)[k..];
    CutWithin(u.path, t, k);
    PathLater(u.path, t, k);
  }

  lemma PathStarts(v: Parts, u: Parts)
    requires Bare(v) && u.host != "" && TakeRest(v, RestText(u)) == Some(u.(scheme := v.scheme))
    ensures u.path == "" || u.path[0] == '/'
  {
    RestClean(v, RestText(u));
    AuthorityFree(u);
    if u.path != "" && u.path[0] != '/' {
      PathSwallowed(u);
      assert false;
    }
  }

  lemma CutPast(a: string, b: string, stops: set<char>)
    requires Free(a, stops)
    ensures Cut(a + b, stops) == |a| + Cut(b, stops)
  {
    var n := Cut(b, stops);
    assert a + b == (a + b[..n]) + b[n..];
    CutAt(a + b[..n], b[n..], stops);
  }

  lemma CutWithin(p: string, t: string, k: nat)
    requires Free(p, {'?', '#'}) && p != "" && p[0] != '/' && (t == "" || t[0] in {'?', '#'})
    requires k == Cut(p + t, {'/', '?', '#'})
    ensures 0 < k <= |p|
  {
    assert (p + t)[0] == p[0];
    if t != "" { assert (p + t)[|p|] == t[0]; }
  }

  /** Without userinfo, an at sign in the host is taken for the end of one. */
  lemma HostCut(v: Parts, u: Parts)
    requires u.userinfo == "" && Free(u.host, {'/', '?', '#', ':'}) && !Free(u.host, {'@'})
    ensures var w := TakeAuthority(v, AuthorityText(u)); w.Some? ==> w.value.userinfo != "" || |w.value.host| < |u.host|
  {
    hide Cut, TakeHost, PortText;
    var a := AuthorityText(u);
    assert a == u.host + PortText(u);
    CutEarly(u.host, PortText(u), {'@'});
    var n := Cut(a, {'@'});
    HostKeeps(v.(userinfo := a[..n]), a[n + 1..]);
    if n == 0 { HostTail(u); }
  }

  lemma HostTail(u: Parts)
    requires Free(u.host, {'/', '?', '#', ':'}) && u.host != ""
    ensures Cut((u.host + PortText(u))[1..], {':'}) == |u.host| - 1
  {
    var h := u.host[1..];
    assert (u.host + PortText(u))[1..] == h + PortText(u);
    FreeSlice(u.host, 1, |u.host|, {'/', '?', '#', ':'});
    assert u.host[1..|u.host|] == h;
    FreeLess(h, {'/', '?', '#', ':'}, {':'});
    CutAt(h, PortText(u), {':'});
  }

  lemma HostAt(v: Parts, u: Parts)
    requires Bare(v) && u.host != "" && u.userinfo == "" && TakeRest(v, RestText(u)) == Some(u.(scheme := v.scheme))
    ensures Free(u.host, {'@'})
  {
    RestClean(v, RestText(u));
    PathStarts(v, u);
    AuthorityFree(u);
    AuthorityKept(v, u);
    if !Free(u.host, {'@'}) {
      HostCut(v, u);
      assert false;
    }
  }

  /** What the authority gave is what the whole parse ends with. */
  lemma AuthorityKept(v: Parts, u: Parts)
    requires Bare(v) && u.host != "" && TakeRest(v, RestText(u)) == Some(u.(scheme := v.scheme))
    requires Free(AuthorityText(u), {'/', '?', '#'}) && (u.path == "" || u.path[0] == '/')
    ensures TakeAuthority(v, AuthorityText(u)).Some?
    ensures var w := TakeAuthority(v, AuthorityText(u)).value; w.userinfo == u.userinfo && w.host == u.host
  {
    AuthorityEnds(u);
    AuthorityClean(v, AuthorityText(u));
    var w := TakeAuthority(v, AuthorityText(u));
    if w.Some? { TailClean(w.value, TailText(u)); }
  }

  lemma RestOnly(v: Parts, u: Parts)
    requires Bare(v) && TakeRest(v, RestText(u)) == Some(u.(scheme := v.scheme))
    ensures RestOk(u)
  {
    RestClean(v, RestText(u));
    if u.host == "" {
      NoHostNoAuthority(v, u);
    } else {
      PathStarts(v, u);
      if u.userinfo == "" { HostAt(v, u); }
    }
  }

  lemma SchemeCut(u: Parts)
    requires !Free(u.scheme, {'/', ':'})
    ensures |TakeScheme(EMPTY, Text(u)).0.scheme| < |u.scheme|
  {
    hide RestText;
    CutEarly(u.scheme, ":" + RestText(u), {'/', ':'});
  }

  lemma SchemeOnly(u: Parts)
    requires ParseOnto(EMPTY, Text(u)) == Some(u)
    ensures Free(u.scheme, {'/', ':'})
  {
    hide Text;
    var (v, s1) := TakeScheme(EMPTY, Text(u));
    RestClean(v, s1);
    if !Free(u.scheme, {'/', ':'}) {
      SchemeCut(u);
      assert false;
    }
  }

  /** Parsing the printed form gives back every part exactly when the parts are well formed. */
  lemma RoundTrip(u: Parts)
    ensures ParseOnto(EMPTY, Text(u)) == Some(u) <==> WellFormed(u)
  {
    if WellFormed(u) {
      SchemeBack(u);
      RestBack(EMPTY.(scheme := u.scheme), u);
    }
    if ParseOnto(EMPTY, Text(u)) == Some(u) {
      SchemeOnly(u);
      SchemeBack(u);
      RestOnly(EMPTY.(scheme := u.scheme), u);
    }
  }
}
