/** URI references (sections 3 and 5.3 of RFC 3986): their parts, and what printing and parsing do to them. */
module UriText {
  import opened Wrappers

  datatype Parts = Parts(scheme: string, userinfo: string, host: string, port: nat, path: string, query: string,
      fragment: string)

  const EMPTY := Parts("", "", "", 0, "", "", "")
  const INT_MAX := 0x7FFF_FFFF

  // ---------------------------------------------------------------- scanning

  /** Where a scan stops: at the first of the given characters, or at the end. */
  function Cut(s: string, stops: set<char>): (n: nat)
    ensures n <= |s| && (forall i | 0 <= i < n :: s[i] !in stops) && (n < |s| ==> s[n] in stops)
  {
    if s == "" || s[0] in stops then 0 else 1 + Cut(s[1..], stops)
  }

  ghost predicate Free(s: string, stops: set<char>) {
    forall i | 0 <= i < |s| :: s[i] !in stops
  }

  /** A scan passes over text without stop characters. */
  lemma CutAt(a: string, b: string, stops: set<char>)
    requires Free(a, stops) && (b == "" || b[0] in stops)
    ensures Cut(a + b, stops) == |a| && (a + b)[..|a|] == a && (a + b)[|a|..] == b
  {
    assert forall i | 0 <= i < |a| :: (a + b)[i] == a[i];
    if b != "" { assert (a + b)[|a|] == b[0]; }
  }

  lemma CutEarly(a: string, b: string, stops: set<char>)
    requires !Free(a, stops)
    ensures Cut(a + b, stops) < |a|
  {
    var i :| 0 <= i < |a| && a[i] in stops;
    assert (a + b)[i] == a[i];
  }

  // ---------------------------------------------------------------- decimal numbers

  predicate Digit(c: char) { '0' <= c <= '9' }

  function Decimal(n: nat): (r: string)
    ensures r != "" && forall i | 0 <= i < |r| :: Digit(r[i])
  {
    if n < 10 then [(n + '0' as int) as char] else Decimal(n / 10) + [(n % 10 + '0' as int) as char]
  }

  function Number(s: string): nat
    requires forall i | 0 <= i < |s| :: Digit(s[i])
  {
    if s == "" then 0 else
    assert Digit(s[|s| - 1]);
    Number(s[..|s| - 1]) * 10 + (s[|s| - 1] as int - '0' as int)
  }

  lemma {:induction false} NumberBack(n: nat)
    ensures Number(Decimal(n)) == n
  {
    if n >= 10 {
      NumberBack(n / 10);
      var r := Decimal(n);
      assert r[..|r| - 1] == Decimal(n / 10);
    } else {
      assert Decimal(n)[..0] == "";
    }
  }

  /** How many digits stand at the front. */
  function Digits(s: string): (n: nat)
    ensures n <= |s| && (forall i | 0 <= i < n :: Digit(s[i])) && (n < |s| ==> !Digit(s[n]))
  {
    if s == "" || !Digit(s[0]) then 0 else 1 + Digits(s[1..])
  }

  // ---------------------------------------------------------------- printing

  function PortText(u: Parts): string {
    if u.port > 0 then ":" + Decimal(u.port) else ""
  }

  function UserText(u: Parts): string {
    if u.userinfo != "" then u.userinfo + "@" else ""
  }

  function AuthorityText(u: Parts): string {
    UserText(u) + u.host + PortText(u)
  }

  function QueryText(u: Parts): string {
    if u.query != "" then "?" + u.query else ""
  }

  function FragmentText(u: Parts): string {
    if u.fragment != "" then "#" + u.fragment else ""
  }

  /** Everything after the scheme and its colon. */
  function RestText(u: Parts): string {
    (if u.host != "" then "//" + AuthorityText(u) else "") + (u.path + (QueryText(u) + FragmentText(u)))
  }

  function Text(u: Parts): string {
    u.scheme + (":" + RestText(u))
  }

  // ---------------------------------------------------------------- parsing, stage by stage

  /** Each stage takes the text not read yet, overwrites what it finds and leaves the rest alone. */
  function TakeScheme(u: Parts, s: string): (r: (Parts, string)) {
    var n := Cut(s, {'/', ':'});
    if n < |s| && s[n] == ':' then (u.(scheme := s[..n]), s[n + 1..]) else (u, s)
  }

  function TakeUserinfo(u: Parts, a: string): (r: (Parts, string)) {
    var n := Cut(a, {'@'});
    if n < |a| then (u.(userinfo := a[..n]), a[n + 1..]) else (u, a)
  }

  /** None where the port does not fit an int. */
  function TakePort(u: Parts, a: string): (r: Option<Parts>) {
    if |a| > 1 && a[0] == ':' then
      var d := a[1..][..Digits(a[1..])];
      if d == "" then Some(u) else if Number(d) > INT_MAX then None else Some(u.(port := Number(d)))
    else Some(u)
  }

  function TakeHost(u: Parts, a: string): (r: Option<Parts>) {
    var n := Cut(a, {':'});
    TakePort(u.(host := a[..n]), a[n..])
  }

  function TakeAuthority(u: Parts, a: string): (r: Option<Parts>) {
    if a == "" then Some(u) else
    var (u1, a1) := TakeUserinfo(u, a);
    TakeHost(u1, a1)
  }

  predicate HasAuthority(s: string) {
    |s| > 2 && s[0] == '/' && s[1] == '/'
  }

  function AuthorityEnd(s: string): (n: nat)
    requires HasAuthority(s)
    ensures 2 <= n <= |s|
  {
    2 + Cut(s[2..], {'/', '?', '#'})
  }

  function TakePath(u: Parts, s: string): (r: (Parts, string)) {
    var n := Cut(s, {'?', '#'});
    (if n > 0 then u.(path := s[..n]) else u, s[n..])
  }

  function TakeQuery(u: Parts, s: string): (r: (Parts, string)) {
    if s != "" && s[0] == '?' then
      var n := Cut(s[1..], {'#'});
      (if n > 0 then u.(query := s[1..][..n]) else u, s[1..][n..])
    else (u, s)
  }

  function TakeFragment(u: Parts, s: string): (r: Parts) {
    if |s| > 1 && s[0] == '#' then u.(fragment := s[1..]) else u
  }

  function TakeTail(u: Parts, s: string): (r: Parts) {
    var (u1, s1) := TakePath(u, s);
    var (u2, s2) := TakeQuery(u1, s1);
    TakeFragment(u2, s2)
  }

  function TakeRest(u: Parts, s: string): (r: Option<Parts>) {
    if HasAuthority(s) then
      var n := AuthorityEnd(s);
      var a := TakeAuthority(u, s[2..n]);
      if a.None? then None else Some(TakeTail(a.value, s[n..]))
    else Some(TakeTail(u, s))
  }

  /** Parsing onto parts that are there already; None where the port does not fit an int. */
  function ParseOnto(u: Parts, s: string): (r: Option<Parts>) {
    var (u1, s1) := TakeScheme(u, s);
    TakeRest(u1, s1)
  }

  // ---------------------------------------------------------------- when printing and parsing agree

  /** What must hold of the part after the scheme. */
  ghost predicate RestOk(u: Parts) {
    && Free(u.path, {'?', '#'}) && Free(u.query, {'#'})
    && if u.host == "" then
         u.userinfo == "" && u.port == 0 && !HasAuthority(RestText(u))
       else
         && Free(u.userinfo, {'/', '?', '#', '@'}) && Free(u.host, {'/', '?', '#', ':'})
         && (u.userinfo == "" ==> Free(u.host, {'@'}))
         && (u.path == "" || u.path[0] == '/') && u.port <= INT_MAX
  }

  ghost predicate WellFormed(u: Parts) {
    Free(u.scheme, {'/', ':'}) && RestOk(u)
  }
}
