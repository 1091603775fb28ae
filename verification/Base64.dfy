/** Base64 (section 4 of RFC 4648). Shifts and masks of bytes are written as division and remainder. */
module Base64 {
  type byte = x: nat | x < 256 witness 0

  type Bytes = seq<byte>

  // ---------------------------------------------------------------- alphabet

  function Letter(i: nat): char
    requires i < 64
  {
    if i < 26 then (i + 'A' as int) as char
    else if i < 52 then (i - 26 + 'a' as int) as char
    else if i < 62 then (i - 52 + '0' as int) as char
    else if i == 62 then '+' else '/'
  }

  /** 64 for everything outside the alphabet. */
  function Index(c: char): (i: nat)
    ensures i <= 64
  {
    if 'A' <= c <= 'Z' then c as int - 'A' as int
    else if 'a' <= c <= 'z' then c as int - 'a' as int + 26
    else if '0' <= c <= '9' then c as int - '0' as int + 52
    else if c == '+' then 62 else if c == '/' then 63 else 64
  }

  lemma IndexOfLetter(i: nat)
    requires i < 64
    ensures Index(Letter(i)) == i && Letter(i) != '='
  {
  }

  // ---------------------------------------------------------------- encoding

  function Quad(a: byte, b: byte, c: byte): (r: string)
    ensures |r| == 4
  {
    var (x: nat, y: nat, z: nat) := (a, b, c);
    [Letter(x / 4), Letter(x % 4 * 16 + y / 16), Letter(y % 16 * 4 + z / 64), Letter(z % 64)]
  }

  function Encoded(s: Bytes): (r: string)
    ensures |r| == (|s| + 2) / 3 * 4
  {
    if s == [] then ""
    else if |s| == 1 then Quad(s[0], 0, 0)[..2] + "=="
    else if |s| == 2 then Quad(s[0], s[1], 0)[..3] + "="
    else Quad(s[0], s[1], s[2]) + Encoded(s[3..])
  }

  /** Writes one group of four at the cursor. */
  method PutQuad(buffer: array<char>, out: nat, x: byte, y: byte, z: byte)
    requires out + 4 <= buffer.Length
    modifies buffer
    ensures buffer[..out + 4] == old(buffer[..out]) + Quad(x, y, z)
  {
    hide Letter;
    var (a: nat, b: nat, c: nat) := (x, y, z);
    ghost var before := buffer[..out];
    buffer[out] := Letter(a / 4);
    buffer[out + 1] := Letter(a % 4 * 16 + b / 16);
    buffer[out + 2] := Letter(b % 16 * 4 + c / 64);
    buffer[out + 3] := Letter(c % 64);
    assert buffer[..out + 4] == before + Quad(x, y, z);
  }

  /** Writes the last one or two bytes with their padding. */
  method PutTail(buffer: array<char>, out: nat, rest: Bytes)
    requires 1 <= |rest| <= 2 && out + 4 <= buffer.Length
    modifies buffer
    ensures buffer[..out + 4] == old(buffer[..out]) + Encoded(rest)
  {
    hide Letter;
    ghost var before := buffer[..out];
    var x: nat := rest[0];
    buffer[out] := Letter(x / 4);
    if |rest| == 1 {
      buffer[out + 1] := Letter(x % 4 * 16);
      buffer[out + 2] := '=';
    } else {
      var y: nat := rest[1];
      buffer[out + 1] := Letter(x % 4 * 16 + y / 16);
      buffer[out + 2] := Letter(y % 16 * 4);
    }
    buffer[out + 3] := '=';
    assert buffer[..out + 4] == before + Encoded(rest);
  }

  lemma EncodedStep(s: Bytes, i: nat)
    requires i + 3 <= |s|
    ensures Encoded(s[i..]) == Quad(s[i], s[i + 1], s[i + 2]) + Encoded(s[i + 3..])
  {
    assert s[i..][3..] == s[i + 3..];
  }

  lemma EncodedNothing()
    ensures Encoded([]) == ""
  {
  }

  method Encode(input: Bytes) returns (output: string)
    ensures output == Encoded(input)
  {
    hide Quad, Encoded;
    var inputLength := |input|;
    var buffer := new char[(inputLength + 2) / 3 * 4 + 1];
    var i, out := 0, 0;
    assert buffer[..0] == "" && input[0..] == input;
    while i < inputLength - 2
      invariant 0 <= i <= inputLength && i % 3 == 0 && out == i / 3 * 4
      invariant buffer[..out] + Encoded(input[i..]) == Encoded(input)
    {
      EncodedStep(input, i);
      PutQuad(buffer, out, input[i], input[i + 1], input[i + 2]);
      out := out + 4;
      i := i + 3;
    }
    if i < inputLength {
      PutTail(buffer, out, input[i..]);
      out := out + 4;
    } else {
      assert input[i..] == [];
      EncodedNothing();
    }
    output := buffer[..out];
  }

  // ---------------------------------------------------------------- decoding

  /** How many characters of the alphabet stand at the front. */
  function Run(s: string): (n: nat)
    ensures n <= |s| && (forall i | 0 <= i < n :: Index(s[i]) <= 63) && (n < |s| ==> Index(s[n]) == 64)
  {
    if s == "" || Index(s[0]) > 63 then 0 else 1 + Run(s[1..])
  }

  function First(a: nat, b: nat): byte
    requires a < 64 && b < 64
  {
    a * 4 + b / 16
  }

  function Second(b: nat, c: nat): byte
    requires b < 64 && c < 64
  {
    b % 16 * 16 + c / 4
  }

  function Third(c: nat, d: nat): byte
    requires c < 64 && d < 64
  {
    c % 4 * 64 + d
  }

  ghost predicate Sextets(v: seq<nat>) {
    forall i | 0 <= i < |v| :: v[i] < 64
  }

  /** The bytes of a sequence of sextets: four make three, a last group of two or three makes one or two. */
  function Unpacked(v: seq<nat>): (r: Bytes)
    requires Sextets(v)
  {
    if |v| <= 1 then []
    else if |v| == 2 then [First(v[0], v[1])]
    else if |v| == 3 then [First(v[0], v[1]), Second(v[1], v[2])]
    else [First(v[0], v[1]), Second(v[1], v[2]), Third(v[2], v[3])] + Unpacked(v[4..])
  }

  function Values(s: string): (v: seq<nat>)
    ensures |v| == |s| && forall i | 0 <= i < |s| :: v[i] == Index(s[i])
  {
    seq(|s|, i requires 0 <= i < |s| => Index(s[i]))
  }

  function Decoded(s: string): Bytes {
    Unpacked(Values(s[..Run(s)]))
  }

  function Count(n: nat): nat {
    n / 4 * 3 + (if n % 4 == 0 then 0 else n % 4 - 1)
  }

  lemma {:induction false} UnpackedLength(v: seq<nat>)
    requires Sextets(v)
    ensures |Unpacked(v)| == Count(|v|)
    decreases |v|
  {
    if |v| >= 4 { UnpackedLength(v[4..]); }
  }

  /** C division truncates: an empty run gives (-1 + 3) / 4 = 0. */
  function DecodeLength(s: string): nat {
    (Run(s) + 2) / 4 * 3 + 1
  }

  method DecodedLength(s: string) returns (r: nat)
    ensures r == DecodeLength(s)
  {
    var pos := CountRun(s);
    r := (pos + 2) / 4 * 3 + 1;
  }

  /** The number returned is the number of bytes written, and a buffer of decodeLength is enough. */
  lemma CountFits(s: string)
    ensures |Decoded(s)| == Count(Run(s)) && |Decoded(s)| <= DecodeLength(s)
  {
    UnpackedLength(Values(s[..Run(s)]));
  }

  /** Writes one group of three at the cursor. */
  method PutTriple(output: array<byte>, out: nat, a: nat, b: nat, c: nat, d: nat)
    requires out + 3 <= output.Length && a < 64 && b < 64 && c < 64 && d < 64
    modifies output
    ensures output[..out + 3] == old(output[..out]) + [First(a, b), Second(b, c), Third(c, d)]
    ensures output[out + 3..] == old(output[out + 3..])
  {
    hide First, Second, Third;
    ghost var before := output[..out];
    output[out] := First(a, b);
    output[out + 1] := Second(b, c);
    output[out + 2] := Third(c, d);
    assert output[..out + 3] == before + [First(a, b), Second(b, c), Third(c, d)];
  }

  /** Writes the last group, of at most four characters. */
  method PutLast(output: array<byte>, from: nat, w: seq<nat>) returns (out: nat)
    requires |w| <= 4 && Sextets(w) && from + |Unpacked(w)| <= output.Length
    modifies output
    ensures from <= out == from + |Unpacked(w)| <= output.Length
    ensures output[..out] == old(output[..from]) + Unpacked(w)
    ensures output[out..] == old(output[out..])
  {
    hide First, Second, Third;
    out := from;
    ghost var before := output[..from];
    if |w| > 1 {
      output[out] := First(w[0], w[1]);
      out := out + 1;
      if |w| > 2 {
        output[out] := Second(w[1], w[2]);
        out := out + 1;
        if |w| > 3 {
          output[out] := Third(w[2], w[3]);
          out := out + 1;
        }
      }
    }
    assert |w| == 4 ==> w[4..] == [];
    assert output[..out] == before + Unpacked(w);
  }

  method CountRun(s: string) returns (n: nat)
    ensures n == Run(s)
  {
    hide Index;
    n := 0;
    while n < |s| && Index(s[n]) <= 63
      invariant n <= |s| && Run(s) == n + Run(s[n..])
    {
      n := n + 1;
    }
  }

  /** Writes the bytes to the front of output and returns how many the source counts. */
  method Decode(s: string, output: array<byte>) returns (count: nat)
    requires output.Length >= DecodeLength(s)
    modifies output
    ensures count == |Decoded(s)| <= output.Length
    ensures output[..count] == Decoded(s) && output[count..] == old(output[count..])
  {
    hide Index, First, Second, Third, Unpacked, Count, Run, DecodeLength;
    CountFits(s);
    if s == "" {
      EmptyRun();
      return 0;
    }
    var n := CountRun(s);
    ghost var v := Values(s[..n]);
    UnpackedLength(v);
    var out, input, left := 0, 0, n;
    assert v[0..] == v && output[..0] == [];
    while left > 4
      invariant 0 <= left <= n && input + left == n && input % 4 == 0 && out == input / 4 * 3
      invariant (n > 0 ==> left > 0) && out <= output.Length
      invariant output[..out] + Unpacked(v[input..]) == Unpacked(v)
      invariant output[out..] == old(output[out..])
      decreases left
    {
      LoopFits(n, input);
      UnpackStep(v, input);
      ghost var before := output[..out];
      ghost var three := [First(v[input], v[input + 1]), Second(v[input + 1], v[input + 2]),
          Third(v[input + 2], v[input + 3])];
      assert before + (three + Unpacked(v[input + 4..])) == before + three + Unpacked(v[input + 4..]);
      PutTriple(output, out, Index(s[input]), Index(s[input + 1]), Index(s[input + 2]), Index(s[input + 3]));
      out := out + 3;
      input := input + 4;
      left := left - 4;
    }
    ghost var w := v[input..];
    UnpackedLength(w);
    assert w == Values(s[input..n]);
    LastCount(n, left, out);
    out := PutLast(output, out, Values(s[input..n]));
    count := (n + 3) / 4 * 3 - (4 - left) % 4;
  }

  lemma EmptyRun()
    ensures Decoded("") == []
  {
  }

  lemma LoopFits(n: nat, input: nat)
    requires input + 4 < n && input % 4 == 0
    ensures input / 4 * 3 + 3 <= Count(n)
  {
  }

  lemma UnpackStep(v: seq<nat>, i: nat)
    requires Sextets(v) && i + 4 <= |v|
    ensures Unpacked(v[i..]) == [First(v[i], v[i + 1]), Second(v[i + 1], v[i + 2]),
            Third(v[i + 2], v[i + 3])] + Unpacked(v[i + 4..])
  {
    assert v[i..][4..] == v[i + 4..];
  }

  /** The count the source computes from what is left of the run. */
  lemma LastCount(n: nat, left: nat, out: nat)
    requires left <= 4 && left <= n && (n - left) % 4 == 0 && (n > 0 ==> left > 0) && out == (n - left) / 4 * 3
    ensures (n + 3) / 4 * 3 - (4 - left) % 4 == Count(n) == out + Count(left)
  {
  }

  // ---------------------------------------------------------------- there and back

  lemma QuadBack(a: byte, b: byte, c: byte)
    ensures var q := Quad(a, b, c);
            && (forall i | 0 <= i < 4 :: Index(q[i]) <= 63)
            && First(Index(q[0]), Index(q[1])) == a && Second(Index(q[1]), Index(q[2])) == b
            && Third(Index(q[2]), Index(q[3])) == c
  {
    var (x: nat, y: nat, z: nat) := (a, b, c);
    IndexOfLetter(x / 4);
    IndexOfLetter(x % 4 * 16 + y / 16);
    IndexOfLetter(y % 16 * 4 + z / 64);
    IndexOfLetter(z % 64);
  }

  lemma {:induction false} RunPast(a: string, b: string)
    requires forall i | 0 <= i < |a| :: Index(a[i]) <= 63
    ensures Run(a + b) == |a| + Run(b)
  {
    if a == "" {
      assert a + b == b;
    } else {
      RunPast(a[1..], b);
      assert (a + b)[1..] == a[1..] + b;
    }
  }

  /** Decoding what was encoded gives it back, for every string of bytes. */
  lemma {:induction false} RoundTrip(s: Bytes)
    ensures Decoded(Encoded(s)) == s
    decreases |s|
  {
    hide Quad, Index, First, Second, Third;
    if s == [] {
      assert Encoded(s) == "";
    } else if |s| <= 2 {
      LastGroup(s);
    } else {
      var q := Quad(s[0], s[1], s[2]);
      var t := Encoded(s[3..]);
      QuadBack(s[0], s[1], s[2]);
      RunPast(q, t);
      RoundTrip(s[3..]);
      var v := Values((q + t)[..4 + Run(t)]);
      assert v[4..] == Values(t[..Run(t)]);
      assert s == [s[0], s[1], s[2]] + s[3..];
    }
  }

  lemma PadEnds()
    ensures Run("=") == 0 && Run("==") == 0
  {
  }

  lemma LastGroup(s: Bytes)
    requires 1 <= |s| <= 2
    ensures Decoded(Encoded(s)) == s
  {
    hide Quad, Index, First, Second, Third;
    var b: byte := if |s| == 2 then s[1] else 0;
    var q := Quad(s[0], b, 0);
    QuadBack(s[0], b, 0);
    var n := |s| + 1;
    var pad := if |s| == 2 then "=" else "==";
    assert Encoded(s) == q[..n] + pad;
    RunPast(q[..n], pad);
    PadEnds();
    assert Encoded(s)[..n] == q[..n];
  }
}
