/** The URI object: a cursor that moves over the text and overwrites the fields it finds. */
module Uri {
  import opened Wrappers
  import opened UriText

  /** Moves a cursor to the first of the stop characters. */
  method Scan(s: string, from: nat, stops: set<char>) returns (cur: nat)
    requires from <= |s|
    ensures from <= cur <= |s| && cur == from + Cut(s[from..], stops)
  {
    cur := from;
    while cur < |s| && s[cur] !in stops
      invariant from <= cur <= |s| && cur + Cut(s[cur..], stops) == from + Cut(s[from..], stops)
    {
      assert s[cur..][1..] == s[cur + 1..];
      cur := cur + 1;
    }
  }

  method ScanDigits(s: string, from: nat) returns (cur: nat)
    requires from <= |s|
    ensures from <= cur <= |s| && cur == from + Digits(s[from..])
  {
    cur := from;
    while cur < |s| && Digit(s[cur])
      invariant from <= cur <= |s| && cur + Digits(s[cur..]) == from + Digits(s[from..])
    {
      assert s[cur..][1..] == s[cur + 1..];
      cur := cur + 1;
    }
  }

  class Uri {
    var scheme: string
    var userinfo: string
    var host: string
    var port: nat
    var path: string
    var query: string
    var fragment: string

    ghost function Value(): Parts
      reads this
    {
      Parts(scheme, userinfo, host, port, path, query, fragment)
    }

    constructor ()
      ensures Value() == EMPTY
    {
      scheme, userinfo, host, port, path, query, fragment := "", "", "", 0, "", "", "";
    }

    method ParseScheme(s: string) returns (begin: nat)
      modifies this
      ensures begin <= |s| && (Value(), s[begin..]) == TakeScheme(old(Value()), s)
      ensures if begin == 0
              then Value() == old(Value()) && forall i | 0 <= i < |s| && s[i] == ':' :: '/' in s[..i]
              else Value() == old(Value()).(scheme := scheme) && s[..begin] == scheme + ":"
                   && '/' !in scheme && ':' !in scheme
    {
      assert s[0..] == s;
      var cur := Scan(s, 0, {'/', ':'});
      if cur < |s| && s[cur] == ':' {
        scheme := s[..cur];
        return cur + 1;
      }
      return 0;
    }

    /** `ok` is false where the port does not fit and the source raises. */
    method ParseHost(a: string) returns (ok: bool)
      modifies this
      ensures TakeHost(old(Value()), a) == if ok then Some(Value()) else None
    {
      hide Cut, Digits, Number;
      assert a[0..] == a;
      var acur := Scan(a, 0, {':'});
      host := a[..acur];
      if acur < |a| - 1 && a[acur] == ':' {
        var abegin := acur + 1;
        var dend := ScanDigits(a, abegin);
        assert a[acur..][1..] == a[abegin..] && a[abegin..][..dend - abegin] == a[abegin..dend];
        if dend > abegin {
          if Number(a[abegin..dend]) > INT_MAX { return false; }
          port := Number(a[abegin..dend]);
        }
      }
      return true;
    }

    method ParseAuthority(a: string) returns (ok: bool)
      modifies this
      ensures TakeAuthority(old(Value()), a) == if ok then Some(Value()) else None
    {
      hide Cut, TakeHost;
      if a == "" { return true; }
      assert a[0..] == a;
      var acur := Scan(a, 0, {'@'});
      if acur < |a| {
        userinfo := a[..acur];
        ok := ParseHost(a[acur + 1..]);
      } else {
        ok := ParseHost(a);
      }
    }

    method ParsePath(s: string, begin: nat) returns (cur: nat)
      requires begin <= |s|
      modifies this
      ensures cur <= |s| && (Value(), s[cur..]) == TakePath(old(Value()), s[begin..])
    {
      hide Cut;
      cur := Scan(s, begin, {'?', '#'});
      if cur > begin { path := s[begin..cur]; }
      assert s[begin..][..cur - begin] == s[begin..cur] && s[begin..][cur - begin..] == s[cur..];
    }

    method ParseQuery(s: string, begin: nat) returns (cur: nat)
      requires begin <= |s|
      modifies this
      ensures cur <= |s| && (Value(), s[cur..]) == TakeQuery(old(Value()), s[begin..])
    {
      hide Cut;
      if begin < |s| && s[begin] == '?' {
        var from := begin + 1;
        cur := Scan(s, from, {'#'});
        if cur > from { query := s[from..cur]; }
        assert s[begin..][1..] == s[from..];
        assert s[from..][..cur - from] == s[from..cur] && s[from..][cur - from..] == s[cur..];
      } else {
        cur := begin;
      }
    }

    method ParseFragment(s: string, begin: nat)
      requires begin <= |s|
      modifies this
      ensures Value() == TakeFragment(old(Value()), s[begin..])
    {
      if begin < |s| - 1 && s[begin] == '#' {
        assert s[begin..][1..] == s[begin + 1..];
        fragment := s[begin + 1..];
      }
    }

    /** Overwrites the fields that the text has. */
    method Parse(s: string) returns (ok: bool)
      modifies this
      ensures ok <==> ParseOnto(old(Value()), s).Some?
      ensures ok ==> Value() == ParseOnto(old(Value()), s).value
    {
      hide Cut, TakeScheme, TakePath, TakeQuery, TakeFragment, TakeAuthority;
      var begin := ParseScheme(s);
      ghost var rest := s[begin..];
      if begin < |s| - 2 && s[begin] == '/' && s[begin + 1] == '/' {
        begin := begin + 2;
        var cur := Scan(s, begin, {'/', '?', '#'});
        assert rest[2..] == s[begin..] && rest[2..AuthorityEnd(rest)] == s[begin..cur]
               && rest[AuthorityEnd(rest)..] == s[cur..];
        ok := ParseAuthority(s[begin..cur]);
        if !ok { return; }
        begin := cur;
      }
      begin := ParsePath(s, begin);
      begin := ParseQuery(s, begin);
      ParseFragment(s, begin);
      ok := true;
    }

    method AppendAuthority(start: string) returns (s: string)
      ensures s == start + if host != "" then "//" + AuthorityText(Value()) else ""
    {
      hide Decimal;
      s := start;
      if |host| > 0 {
        s := s + "//";
        if |userinfo| > 0 {
          s := s + userinfo;
          s := s + "@";
        }
        s := s + host;
        if port > 0 {
          s := s + ":";
          s := s + Decimal(port);
        }
      }
    }

    method AppendTail(start: string) returns (s: string)
      ensures s == start + path + QueryText(Value()) + FragmentText(Value())
    {
      s := start + path;
      if |query| > 0 {
        assert s + "?" + query == s + QueryText(Value());
        s := s + "?";
        s := s + query;
      }
      assert s == start + path + QueryText(Value());
      if |fragment| > 0 {
        assert s + "#" + fragment == s + FragmentText(Value());
        s := s + "#";
        s := s + fragment;
      }
    }

    method ToString() returns (s: string)
      ensures s == Text(Value())
    {
      s := scheme;
      s := s + ":";
      s := AppendAuthority(s);
      s := AppendTail(s);
      Assembled(Value());
    }
  }

  lemma Assembled(u: Parts)
    ensures var authority := if u.host != "" then "//" + AuthorityText(u) else "";
            Text(u) == u.scheme + ":" + authority + u.path + QueryText(u) + FragmentText(u)
  {
    hide AuthorityText, QueryText, FragmentText;
  }
}
