/** What the bytes of a name-value stream say, read off the format alone (section 3.4 of the FastCGI
    Specification). */
module FastCgiFormat {
  import opened Wrappers
  import opened FastCgi

  /** The number some bytes spell, the most significant first. */
  function BigEndian(b: Bytes): nat {
    if b == [] then 0 else BigEndian(b[..|b| - 1]) * 256 + b[|b| - 1]
  }

  lemma BigEndianFour(a: byte, b: byte, c: byte, d: byte)
    ensures BigEndian([a, b, c, d]) == ((a * 256 + b) * 256 + c) * 256 + d
  {
    assert [a, b, c, d][..3] == [a, b, c] && [a, b, c][..2] == [a, b] && [a, b][..1] == [a] && [a][..0] == [];
    assert BigEndian([a]) == a;
    assert BigEndian([a, b]) == a * 256 + b;
    assert BigEndian([a, b, c]) == (a * 256 + b) * 256 + c;
  }

  /** The writer: up to 126 the byte of that value, from there on four bytes, big-endian, of the low 31
      bits with the highest bit set. */
  lemma LengthFormat(n: nat)
    ensures n <= 126 ==> LengthBytes(n) == [n]
    ensures n >= 127 ==> |LengthBytes(n)| == 4 && BigEndian(LengthBytes(n)) == 0x8000_0000 + n % 0x8000_0000
  {
    if n >= 127 {
      var l := LengthBytes(n);
      BigEndianFour(l[0], l[1], l[2], l[3]);
      assert l == [l[0], l[1], l[2], l[3]];
      Digits(n);
    }
  }

  /** The two ways to spell a length: a byte below 128 of that value, or four bytes which with the
      highest bit cleared are that number. */
  predicate Spells(l: Bytes, n: nat) {
    || (|l| == 1 && l[0] < 128 && l[0] == n)
    || (|l| == 4 && l[0] >= 128 && BigEndian(l) == 0x8000_0000 + n)
  }

  /** The reader takes a length exactly where one is spelt. */
  lemma LengthExact(b: Bytes, i: nat, n: nat, j: nat)
    ensures LengthAt(b, i) == Some((n, j)) <==> i <= j <= |b| && Spells(b[i..j], n)
  {
    if i + 4 <= |b| {
      BigEndianFour(b[i], b[i + 1], b[i + 2], b[i + 3]);
      assert b[i..i + 4] == [b[i], b[i + 1], b[i + 2], b[i + 3]];
    }
  }

  /** A parameter: the length of its name, the length of its value, the name, the value. */
  ghost predicate Record(r: Bytes, p: Param) {
    exists l, m :: Spells(l, |p.name|) && Spells(m, |p.value|) && r == l + m + p.name + p.value
  }

  /** One parameter after the other. */
  ghost predicate Records(b: Bytes, ps: seq<Param>)
    decreases |ps|
  {
    if ps == [] then b == []
    else exists k :: 0 <= k <= |b| && Record(b[..k], ps[0]) && Records(b[k..], ps[1..])
  }

  lemma SpeltSome(l: Bytes, n: nat)
    requires Spells(l, n)
    ensures |l| > 0
  {
  }

  lemma TakenRecord(b: Bytes, i: nat, p: Param, j: nat)
    requires ParamAt(b, i) == Some((p, j))
    ensures i <= j <= |b| && Record(b[i..j], p)
  {
    hide LengthAt, Spells;
    var (n, k) := LengthAt(b, i).value;
    var (v, e) := LengthAt(b, k).value;
    LengthExact(b, i, n, k);
    LengthExact(b, k, v, e);
    assert b[i..j] == b[i..k] + b[k..e] + p.name + p.value;
  }

  /** Where a part of a slice stands in the whole. */
  lemma Found(b: Bytes, i: nat, j: nat, u: Bytes, v: Bytes, w: Bytes)
    requires i <= j <= |b| && b[i..j] == u + v + w
    ensures i + |u| + |v| + |w| == j && b[i + |u|..i + |u| + |v|] == v
  {
    assert |b[i..j]| == |u| + |v| + |w|;
    forall k | 0 <= k < |v| ensures b[i + |u| + k] == v[k] {
      assert b[i..j][|u| + k] == v[k];
    }
  }

  lemma RecordTaken(b: Bytes, i: nat, p: Param, j: nat, l: Bytes, m: Bytes)
    requires i <= j <= |b| && Spells(l, |p.name|) && Spells(m, |p.value|) && b[i..j] == l + m + p.name + p.value
    ensures ParamAt(b, i) == Some((p, j))
  {
    hide LengthAt, Spells;
    var k, e := i + |l|, i + |l| + |m|;
    Found(b, i, j, [], l, m + p.name + p.value);
    Found(b, i, j, l, m, p.name + p.value);
    Found(b, i, j, l + m, p.name, p.value);
    Found(b, i, j, l + m + p.name, p.value, []);
    LengthExact(b, i, |p.name|, k);
    LengthExact(b, k, |p.value|, e);
  }

  /** The reader takes a parameter exactly where its record stands. */
  lemma ParamExact(b: Bytes, i: nat, p: Param, j: nat)
    ensures ParamAt(b, i) == Some((p, j)) <==> i <= j <= |b| && Record(b[i..j], p)
  {
    hide ParamAt, Spells;
    if ParamAt(b, i) == Some((p, j)) {
      TakenRecord(b, i, p, j);
    }
    if i <= j <= |b| && Record(b[i..j], p) {
      var l, m :| Spells(l, |p.name|) && Spells(m, |p.value|) && b[i..j] == l + m + p.name + p.value;
      RecordTaken(b, i, p, j, l, m);
    }
  }

  lemma RecordSome(r: Bytes, p: Param)
    requires Record(r, p)
    ensures |r| > 0
  {
    hide Spells;
    var l, m :| Spells(l, |p.name|) && Spells(m, |p.value|) && r == l + m + p.name + p.value;
    SpeltSome(l, |p.name|);
  }

  /** One step of the reader is one step of the format. */
  lemma NextExact(b: Bytes, i: nat, p: Param, rest: seq<Param>, j: nat)
    requires i < |b| && ParamAt(b, i) == Some((p, j)) && i <= j <= |b|
    requires ParamsFrom(b, j) == Some(rest) <==> Records(b[j..], rest)
    ensures ParamsFrom(b, i) == Some([p] + rest) <==> Records(b[i..], [p] + rest)
  {
    hide ParamAt, ParamsFrom, Record;
    RestDecides(b, i, p, rest, j);
    ParamExact(b, i, p, j);
    var c, ps := b[i..], [p] + rest;
    assert ps[1..] == rest;
    assert c[..j - i] == b[i..j] && c[j - i..] == b[j..];
    if Records(c, ps) {
      var k :| 0 <= k <= |c| && Record(c[..k], ps[0]) && Records(c[k..], ps[1..]);
      assert c[..k] == b[i..i + k];
      ParamExact(b, i, p, i + k);
    }
  }

  lemma StoppedExact(b: Bytes, i: nat, ps: seq<Param>)
    requires i < |b| && ps != [] && (ParamAt(b, i).None? || ParamAt(b, i).value.0 != ps[0])
    ensures !Records(b[i..], ps)
  {
    hide ParamAt, Record;
    var c := b[i..];
    if Records(c, ps) {
      var k :| 0 <= k <= |c| && Record(c[..k], ps[0]) && Records(c[k..], ps[1..]);
      assert c[..k] == b[i..i + k];
      ParamExact(b, i, ps[0], i + k);
    }
  }

  lemma EndExact(b: Bytes, i: nat, ps: seq<Param>)
    requires i == |b| || ps == []
    requires i <= |b|
    ensures ParamsFrom(b, i) == Some(ps) <==> Records(b[i..], ps)
  {
    hide Record, ParamAt;
    if i == |b| && ps != [] && Records(b[i..], ps) {
      var c := b[i..];
      var k :| 0 <= k <= |c| && Record(c[..k], ps[0]) && Records(c[k..], ps[1..]);
      RecordSome(c[..k], ps[0]);
    }
  }

  /** The reader takes a stream for a list of parameters exactly when it is their records in that order,
      and nothing else. */
  lemma {:induction false} StreamExact(b: Bytes, i: nat, ps: seq<Param>)
    requires i <= |b|
    ensures ParamsFrom(b, i) == Some(ps) <==> Records(b[i..], ps)
    decreases |ps|
  {
    hide ParamAt, ParamsFrom, Record, Records;
    if i == |b| || ps == [] {
      EndExact(b, i, ps);
    } else {
      var r := ParamAt(b, i);
      if r.Some? && r.value.0 == ps[0] {
        var j := r.value.1;
        StreamExact(b, j, ps[1..]);
        NextExact(b, i, ps[0], ps[1..], j);
        assert [ps[0]] + ps[1..] == ps;
      } else {
        StoppedExact(b, i, ps);
        FirstDiffers(b, i, ps);
      }
    }
  }

  /** What the writer makes of a list of parameters is their records exactly when no name and no value is
      longer than 2147483647 bytes. */
  lemma WrittenExact(ps: seq<Param>)
    ensures Records(Stream(ps), ps)
       <==> forall p | p in ps :: |p.name| <= 2_147_483_647 && |p.value| <= 2_147_483_647
  {
    hide ParamsFrom, Records, Stream;
    StreamBack([], ps);
    assert [] + Stream(ps) == Stream(ps) == Stream(ps)[0..];
    StreamExact(Stream(ps), 0, ps);
    assert forall p | p in ps :: Short(p) <==> |p.name| <= 2_147_483_647 && |p.value| <= 2_147_483_647;
  }
}
