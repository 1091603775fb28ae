/**
 * What parsing does to any text, printed or not. A text falls apart in one way only: scheme,
 * authority, path, query and fragment, as in appendix B of RFC 3986, except that a scheme may be
 * empty, that "//" alone is a path and that a port is whatever follows the colon.
 */
module UriGrammar {
  import opened Wrappers
  import opened UriText
  import opened UriProof

  datatype Authority = Authority(userinfo: Option<string>, host: string, port: Option<string>)

  datatype Pieces = Pieces(scheme: Option<string>, authority: Option<Authority>, path: string,
                           query: Option<string>, fragment: Option<string>)

  // ---------------------------------------------------------------- putting pieces together

  /** A piece with the mark that introduces it. */
  function Before(mark: string, piece: Option<string>): string {
    if piece.Some? then mark + piece.value else ""
  }

  /** A piece with the mark that ends it. */
  function Behind(piece: Option<string>, mark: string): string {
    if piece.Some? then piece.value + mark else ""
  }

  function Joined(a: Authority): string {
    Behind(a.userinfo, "@") + (a.host + Before(":", a.port))
  }

  function Tail(p: Pieces): string {
    p.path + (Before("?", p.query) + Before("#", p.fragment))
  }

  function Rest(p: Pieces): string {
    (if p.authority.Some? then "//" + Joined(p.authority.value) else "") + Tail(p)
  }

  function Whole(p: Pieces): string {
    Behind(p.scheme, ":") + Rest(p)
  }

  // ---------------------------------------------------------------- the one way to take a text apart

  ghost predicate AuthoritySplit(a: Authority) {
    && Free(Joined(a), {'/', '?', '#'}) && Free(a.host, {':'})
    && (if a.userinfo.Some? then Free(a.userinfo.value, {'@'}) else Free(Joined(a), {'@'}))
  }

  /** No colon before the first slash. */
  ghost predicate NoScheme(s: string) {
    forall i | 0 <= i < |s| && s[i] == ':' :: exists j :: 0 <= j < i && s[j] == '/'
  }

  ghost predicate Split(p: Pieces) {
    && (if p.scheme.Some? then Free(p.scheme.value, {'/', ':'}) else NoScheme(Rest(p)))
    && (if p.authority.Some?
        then AuthoritySplit(p.authority.value) && (p.path == "" || p.path[0] == '/') && |Rest(p)| > 2
        else |Rest(p)| <= 2 || Rest(p)[..2] != "//")
    && Free(p.path, {'?', '#'}) && (p.query.Some? ==> Free(p.query.value, {'#'}))
  }

  // ---------------------------------------------------------------- what the pieces do to the parts

  /** The number at the front of a port, if there is one. */
  function PortNumber(port: Option<string>): Option<nat> {
    if port.None? || Digits(port.value) == 0 then None else Some(Number(port.value[..Digits(port.value)]))
  }

  /** An authority gives the host, and what else it has; an empty one gives nothing. */
  function WithAuthority(v: Parts, a: Authority): Option<Parts> {
    if Joined(a) == "" then Some(v) else
      var w := v.(userinfo := if a.userinfo.Some? then a.userinfo.value else v.userinfo, host := a.host);
      match PortNumber(a.port)
      case None => Some(w)
      case Some(n) => if n > 2147483647 then None else Some(w.(port := n))
  }

  /** Path, query and fragment are given unless they are empty. */
  function WithTail(v: Parts, p: Pieces): Parts {
    v.(path := if p.path != "" then p.path else v.path,
       query := if p.query.Some? && p.query.value != "" then p.query.value else v.query,
       fragment := if p.fragment.Some? && p.fragment.value != "" then p.fragment.value else v.fragment)
  }

  /** The parts after a text with these pieces was parsed onto v; None where the port is too large. */
  function Given(v: Parts, p: Pieces): Option<Parts> {
    var w := v.(scheme := if p.scheme.Some? then p.scheme.value else v.scheme);
    var a := if p.authority.Some? then WithAuthority(w, p.authority.value) else Some(w);
    if a.None? then None else Some(WithTail(a.value, p))
  }

  // ---------------------------------------------------------------- parsing follows the pieces

  lemma MarksStart(p: Pieces)
    ensures var t := Before("?", p.query) + Before("#", p.fragment); t == "" || t[0] in {'?', '#'}
    ensures Before("#", p.fragment) == "" || Before("#", p.fragment)[0] == '#'
  {
  }

  lemma TailFollows(v: Parts, p: Pieces)
    requires Free(p.path, {'?', '#'}) && (p.query.Some? ==> Free(p.query.value, {'#'}))
    ensures TakeTail(v, Tail(p)) == WithTail(v, p)
  {
    MarksStart(p);
    CutAt(p.path, Before("?", p.query) + Before("#", p.fragment), {'?', '#'});
    var w := v.(path := if p.path != "" then p.path else v.path);
    MarksFollow(w, p);
  }

  lemma MarksFollow(v: Parts, p: Pieces)
    requires p.query.Some? ==> Free(p.query.value, {'#'})
    ensures var (w, s) := TakeQuery(v, Before("?", p.query) + Before("#", p.fragment));
            TakeFragment(w, s) == WithTail(v, p.(path := ""))
  {
    hide Cut, TakeQuery, TakeFragment;
    MarksStart(p);
    var f := Before("#", p.fragment);
    QueryFollows(v, p.query, f);
    var w := v.(query := if p.query.Some? && p.query.value != "" then p.query.value else v.query);
    FragmentFollows(w, p.fragment);
  }

  lemma QueryFollows(v: Parts, query: Option<string>, f: string)
    requires (query.Some? ==> Free(query.value, {'#'})) && (f == "" || f[0] == '#')
    ensures TakeQuery(v, Before("?", query) + f)
         == (v.(query := if query.Some? && query.value != "" then query.value else v.query), f)
  {
    var s := Before("?", query) + f;
    if query.Some? {
      assert s[0] == '?' && s[1..] == query.value + f;
      CutAt(query.value, f, {'#'});
    } else {
      assert s == f;
    }
  }

  lemma FragmentFollows(v: Parts, fragment: Option<string>)
    ensures TakeFragment(v, Before("#", fragment))
         == v.(fragment := if fragment.Some? && fragment.value != "" then fragment.value else v.fragment)
  {
    if fragment.Some? { assert Before("#", fragment)[1..] == fragment.value; }
  }

  lemma HostFollows(v: Parts, a: Authority)
    requires Free(a.host, {':'})
    ensures TakeHost(v, a.host + Before(":", a.port))
         == match PortNumber(a.port)
            case None => Some(v.(host := a.host))
            case Some(n) => if n > 2147483647 then None else Some(v.(host := a.host, port := n))
  {
    hide Number;
    CutAt(a.host, Before(":", a.port), {':'});
    if a.port.Some? {
      assert Before(":", a.port)[1..] == a.port.value;
    }
  }

  lemma AuthorityFollows(v: Parts, a: Authority)
    requires AuthoritySplit(a)
    ensures TakeAuthority(v, Joined(a)) == WithAuthority(v, a)
  {
    hide TakeHost, PortNumber;
    var t := a.host + Before(":", a.port);
    if a.userinfo.Some? {
      var u := a.userinfo.value;
      assert Joined(a) == u + ("@" + t);
      CutAt(u, "@" + t, {'@'});
      assert Joined(a)[|u| + 1..] == t;
      HostFollows(v.(userinfo := u), a);
    } else {
      assert Joined(a) == t && t + "" == t;
      CutAt(t, "", {'@'});
      HostFollows(v, a);
    }
  }

  lemma RestFollows(v: Parts, p: Pieces)
    requires Split(p)
    ensures TakeRest(v, Rest(p)) == Given(v.(scheme := v.scheme), p.(scheme := None))
  {
    hide TakeAuthority, TakeTail, WithAuthority, WithTail;
    var s := Rest(p);
    if p.authority.Some? {
      var a, t := Joined(p.authority.value), Tail(p);
      MarksStart(p);
      assert s == "//" + (a + t) && s[2..] == a + t;
      assert t == "" || t[0] in {'/', '?', '#'};
      CutAt(a, t, {'/', '?', '#'});
      var n := AuthorityEnd(s);
      assert n == 2 + |a| && s[2..n] == s[2..][..|a|] == a && s[n..] == s[2..][|a|..] == t;
      AuthorityFollows(v, p.authority.value);
      var w := TakeAuthority(v, a);
      if w.Some? { TailFollows(w.value, p); SameTail(w.value, p); }
    } else {
      assert s == Tail(p);
      assert !HasAuthority(s) by { SlashesFirst(s); }
      TailFollows(v, p);
      SameTail(v, p);
    }
  }

  lemma SlashesFirst(s: string)
    ensures HasAuthority(s) <==> |s| > 2 && s[..2] == "//"
  {
    if HasAuthority(s) { assert s[..2] == [s[0], s[1]]; }
  }

  lemma SameTail(v: Parts, p: Pieces)
    ensures WithTail(v, p) == WithTail(v, p.(scheme := None))
  {
  }

  /** Whatever the parts were before: parsing a text that falls apart into p gives what p gives. */
  lemma ParseFollows(v: Parts, p: Pieces)
    requires Split(p)
    ensures ParseOnto(v, Whole(p)) == Given(v, p)
  {
    hide Rest, TakeRest, WithAuthority, WithTail;
    var r := Rest(p);
    RestFollows(v, p);
    if p.scheme.Some? {
      var c := p.scheme.value;
      assert Whole(p) == c + (":" + r);
      CutAt(c, ":" + r, {'/', ':'});
      assert Whole(p)[|c| + 1..] == r;
      RestFollows(v.(scheme := c), p);
      GivenScheme(v, p);
    } else {
      assert Whole(p) == r;
      SchemeKept(v, r);
      GivenScheme(v, p);
    }
  }

  lemma GivenScheme(v: Parts, p: Pieces)
    ensures Given(v, p) == Given(v.(scheme := if p.scheme.Some? then p.scheme.value else v.scheme), p.(scheme := None))
  {
  }

  /** A text without a colon before its first slash leaves the scheme alone and loses nothing. */
  lemma SchemeKept(v: Parts, s: string)
    requires NoScheme(s)
    ensures TakeScheme(v, s) == (v, s)
  {
    var n := Cut(s, {'/', ':'});
    assert forall j | 0 <= j < n :: s[j] != '/';
  }

  // ---------------------------------------------------------------- every text falls apart

  lemma ApartTail(s: string) returns (p: Pieces)
    ensures p.scheme.None? && p.authority.None? && Tail(p) == s
    ensures Free(p.path, {'?', '#'}) && (p.query.Some? ==> Free(p.query.value, {'#'}))
    ensures s == "" || s[0] in {'/', '?', '#'} ==> p.path == "" || p.path[0] == '/'
  {
    var n := Cut(s, {'?', '#'});
    var query, fragment := ApartMarks(s[n..]);
    p := Pieces(None, None, s[..n], query, fragment);
    assert s == s[..n] + s[n..];
  }

  lemma ApartMarks(rest: string) returns (query: Option<string>, fragment: Option<string>)
    requires rest == "" || rest[0] in {'?', '#'}
    ensures Before("?", query) + Before("#", fragment) == rest && (query.Some? ==> Free(query.value, {'#'}))
  {
    query, fragment := None, None;
    if rest != "" && rest[0] == '?' {
      var t := rest[1..];
      var m := Cut(t, {'#'});
      query, fragment := Some(t[..m]), if m < |t| then Some(t[m + 1..]) else None;
      FragmentJoins(t, m);
      QueryJoins(rest, t[..m], Before("#", fragment));
    } else if rest != "" {
      fragment := Some(rest[1..]);
      assert rest == "#" + rest[1..];
    }
  }

  lemma FragmentJoins(t: string, m: nat)
    requires m == Cut(t, {'#'})
    ensures t[..m] + Before("#", if m < |t| then Some(t[m + 1..]) else None) == t
  {
    assert t == t[..m] + t[m..];
    if m < |t| { assert t[m..] == "#" + t[m + 1..]; }
  }

  lemma QueryJoins(rest: string, query: string, fragment: string)
    requires rest != "" && rest[0] == '?' && query + fragment == rest[1..]
    ensures Before("?", Some(query)) + fragment == rest
  {
    assert "?" + query + fragment == "?" + (query + fragment);
    assert rest == "?" + rest[1..];
  }

  lemma ApartHost(h: string) returns (host: string, port: Option<string>)
    ensures Free(host, {':'}) && host + Before(":", port) == h
  {
    var m := Cut(h, {':'});
    host, port := h[..m], if m < |h| then Some(h[m + 1..]) else None;
    if m < |h| { assert h == h[..m] + (":" + h[m + 1..]); } else { assert h[..m] == h; }
  }

  lemma ApartAuthority(t: string) returns (a: Authority)
    requires Free(t, {'/', '?', '#'})
    ensures AuthoritySplit(a) && Joined(a) == t
  {
    var n := Cut(t, {'@'});
    var host, port := ApartHost(if n < |t| then t[n + 1..] else t);
    if n < |t| {
      a := Authority(Some(t[..n]), host, port);
      assert t == t[..n] + "@" + t[n + 1..];
    } else {
      a := Authority(None, host, port);
      assert Joined(a) == t;
    }
  }

  lemma ApartRest(s: string) returns (p: Pieces)
    ensures p.scheme.None? && Rest(p) == s && (NoScheme(s) ==> Split(p))
    ensures Split(p.(scheme := Some(""))) && Rest(p.(scheme := Some(""))) == s
  {
    hide Tail, NoScheme, AuthoritySplit, Joined;
    SlashesFirst(s);
    if HasAuthority(s) {
      var n := AuthorityEnd(s);
      assert s[2..n] == s[2..][..n - 2] && s[n..] == s[2..][n - 2..];
      var a := ApartAuthority(s[2..n]);
      var q := ApartTail(s[n..]);
      p := q.(authority := Some(a));
      assert Tail(p) == Tail(q) by { TailOnly(p, q); }
      assert s == "//" + s[2..n] + s[n..];
    } else {
      p := ApartTail(s);
    }
    TailOnly(p, p.(scheme := Some("")));
  }

  lemma TailOnly(p: Pieces, q: Pieces)
    requires p.path == q.path && p.query == q.query && p.fragment == q.fragment
    ensures Tail(p) == Tail(q)
  {
  }

  /** Every text falls apart. */
  lemma Apart(s: string) returns (p: Pieces)
    ensures Split(p) && Whole(p) == s
  {
    hide Rest;
    var n := Cut(s, {'/', ':'});
    if n < |s| && s[n] == ':' {
      var q := ApartRest(s[n + 1..]);
      p := q.(scheme := Some(s[..n]));
      SchemeFree(q, p);
      assert s == s[..n] + ":" + s[n + 1..];
    } else {
      assert NoScheme(s) by { NoColonFirst(s, n); }
      p := ApartRest(s);
    }
  }

  lemma SchemeFree(q: Pieces, p: Pieces)
    requires Split(q.(scheme := Some(""))) && p.scheme.Some? && p == q.(scheme := p.scheme)
    requires Free(p.scheme.value, {'/', ':'})
    ensures Split(p) && Rest(p) == Rest(q.(scheme := Some("")))
  {
  }

  lemma NoColonFirst(s: string, n: nat)
    requires n == Cut(s, {'/', ':'}) && (n < |s| ==> s[n] != ':')
    ensures NoScheme(s)
  {
    hide Cut;
    forall i | 0 <= i < |s| && s[i] == ':' ensures exists j :: 0 <= j < i && s[j] == '/' {
      assert i >= n;
      assert s[n] == '/';
    }
  }

  // ---------------------------------------------------------------- what that means

  /** Any text parsed onto any parts: it falls apart into pieces that make it up again and say what
      every part is afterwards. Two ways to take it apart would say the same. */
  lemma ParseExact(v: Parts, s: string) returns (p: Pieces)
    ensures Split(p) && Whole(p) == s && ParseOnto(v, s) == Given(v, p)
    ensures forall q | Split(q) && Whole(q) == s :: Given(v, q) == Given(v, p)
  {
    hide Split, Whole, Given, ParseOnto;
    p := Apart(s);
    ParseFollows(v, p);
    forall q | Split(q) && Whole(q) == s ensures Given(v, q) == Given(v, p) { ParseFollows(v, q); }
  }

  /** A text without a scheme is parsed as it would be behind an empty one, and keeps the scheme there was. */
  lemma NoSchemeParsed(v: Parts, s: string)
    requires NoScheme(s)
    ensures ParseOnto(v, s).Some? ==> ParseOnto(v, s).value.scheme == v.scheme
    ensures ParseOnto(v, ":" + s)
         == if ParseOnto(v, s).None? then None else Some(ParseOnto(v, s).value.(scheme := ""))
  {
    hide WithAuthority, WithTail;
    var p := ApartRest(s);
    assert Whole(p) == s && Whole(p.(scheme := Some(""))) == ":" + s;
    ParseFollows(v, p);
    ParseFollows(v, p.(scheme := Some("")));
    SchemeApart(v, p);
  }

  lemma SchemeApart(v: Parts, p: Pieces)
    requires p.scheme.None?
    ensures var r, e := Given(v, p), Given(v, p.(scheme := Some("")));
            && (r.None? <==> e.None?)
            && (r.Some? ==> r.value.scheme == v.scheme && e.value == r.value.(scheme := ""))
  {
  }

  function OrEmpty(piece: Option<string>): string {
    if piece.Some? then piece.value else ""
  }

  /** Parsed from scratch, the parts are the pieces; a piece that is missing is empty, and a port
      without digits is 0. So the parts put together make the text again, up to marks with nothing
      behind them and the way the port was written. */
  lemma PartsMakeText(s: string) returns (p: Pieces)
    ensures Split(p) && Whole(p) == s
    ensures ParseOnto(EMPTY, s).None? <==>
              && p.authority.Some? && PortNumber(p.authority.value.port).Some?
              && PortNumber(p.authority.value.port).value > 2147483647
    ensures ParseOnto(EMPTY, s).Some? ==>
              var u := ParseOnto(EMPTY, s).value;
              && u.scheme == OrEmpty(p.scheme) && u.path == p.path
              && u.query == OrEmpty(p.query) && u.fragment == OrEmpty(p.fragment)
              && (if p.authority.None? then u.userinfo == "" && u.host == "" && u.port == 0
                  else var a := p.authority.value;
                       && u.userinfo == OrEmpty(a.userinfo) && u.host == a.host
                       && u.port == if PortNumber(a.port).Some? then PortNumber(a.port).value else 0)
  {
    hide Split, Whole, ParseOnto, Digits, Number, Joined;
    p := ParseExact(EMPTY, s);
    if p.authority.Some? && Joined(p.authority.value) == "" { EmptyJoined(p.authority.value); }
  }

  lemma EmptyJoined(a: Authority)
    requires Joined(a) == ""
    ensures a == Authority(None, "", None)
  {
  }

  /** Without scheme and authority the text is its path, query and fragment, up to such marks. */
  lemma PlainText(s: string)
    requires NoScheme(s) && !(|s| > 2 && s[..2] == "//")
    ensures ParseOnto(EMPTY, s).Some?
    ensures var u := ParseOnto(EMPTY, s).value;
            && u == EMPTY.(path := u.path, query := u.query, fragment := u.fragment)
            && exists q, f :: s == u.path + (q + f) && (q == QueryText(u) || (q == "?" && u.query == ""))
                              && (f == FragmentText(u) || (f == "#" && u.fragment == ""))
  {
    hide ParseOnto, Split, Before, Joined, NoScheme;
    var p := ApartRest(s);
    assert p.authority.None? by { AuthorityShows(p); }
    ParseFollows(EMPTY, p);
    assert Whole(p) == s;
    var u := Given(EMPTY, p).value;
    MarksOf("?", p.query, u.query);
    MarksOf("#", p.fragment, u.fragment);
    var q, f := Before("?", p.query), Before("#", p.fragment);
    assert s == u.path + (q + f) && (q == QueryText(u) || (q == "?" && u.query == ""))
           && (f == FragmentText(u) || (f == "#" && u.fragment == ""));
  }

  lemma MarksOf(mark: string, piece: Option<string>, part: string)
    requires part == OrEmpty(piece)
    ensures var t := Before(mark, piece); t == (if part != "" then mark + part else "") || (t == mark && part == "")
  {
    if piece.Some? && part == "" { assert mark + "" == mark; }
  }

  lemma AuthorityShows(p: Pieces)
    ensures Split(p) && p.authority.Some? ==> |Rest(p)| > 2 && Rest(p)[..2] == "//"
  {
    if p.authority.Some? { assert Rest(p) == "//" + (Joined(p.authority.value) + Tail(p)); }
  }

  /** A printed text has the pieces it should: a scheme always, an authority if there is a host, and
      every other part if it is not empty. */
  lemma PrintedPieces(u: Parts, p: Pieces)
    requires p.scheme == Some(u.scheme) && p.path == u.path
    requires p.query == (if u.query == "" then None else Some(u.query))
    requires p.fragment == if u.fragment == "" then None else Some(u.fragment)
    requires p.authority == if u.host == "" then None else Some(Printed(u))
    ensures Text(u) == Whole(p)
  {
    hide Decimal;
    assert Tail(p) == TailText(u);
    assert u.host != "" ==> Joined(Printed(u)) == AuthorityText(u);
    assert RestText(u) == Rest(p);
  }

  function Printed(u: Parts): Authority {
    Authority(if u.userinfo == "" then None else Some(u.userinfo), u.host,
              if u.port == 0 then None else Some(Decimal(u.port)))
  }

  // ---------------------------------------------------------------- numbers

  function TenTo(n: nat): nat {
    if n == 0 then 1 else 10 * TenTo(n - 1)
  }

  /** Digits count by their places, the first one most; zeros in front count for nothing. */
  lemma {:induction false} NumberPlaces(c: char, s: string)
    requires Digit(c) && forall i | 0 <= i < |s| :: Digit(s[i])
    ensures forall i | 0 <= i < |[c] + s| :: Digit(([c] + s)[i])
    ensures Number("") == 0 && Number([c] + s) == (c as int - '0' as int) * TenTo(|s|) + Number(s)
    decreases |s|
  {
    var t := [c] + s;
    if s == "" {
      assert t[..0] == "";
    } else {
      var n := |s| - 1;
      assert t[..|t| - 1] == [c] + s[..n];
      NumberPlaces(c, s[..n]);
      PlaceStep(c as int - '0' as int, TenTo(n), Number(s[..n]), s[n] as int - '0' as int);
    }
  }

  lemma PlaceStep(d: int, t: nat, x: nat, e: int)
    ensures (d * t + x) * 10 + e == d * (10 * t) + (x * 10 + e)
  {
  }
}
