/** FastCGI name-value streams (section 3.4 of the FastCGI Specification), written and read back. */
module FastCgi {
  import opened Wrappers

  type byte = x: nat | x < 256 witness 0

  type Bytes = seq<byte>

  datatype Param = Param(name: Bytes, value: Bytes)

  const TWO_TO_THE_31 := 0x8000_0000

  // ---------------------------------------------------------------- lengths

  /** One byte below 127, else four with the top bit set. */
  function LengthBytes(n: nat): (r: Bytes)
    ensures |r| == if n < 127 then 1 else 4
    ensures r[0] < 128 <==> n < 127
  {
    if n < 127 then [n]
    else [(n / 0x100_0000) % 128 + 128, (n / 0x1_0000) % 256, (n / 0x100) % 256, n % 256]
  }

  /** The four-byte form at i, top bit cleared. */
  function Long(b: Bytes, i: nat): nat
    requires i + 4 <= |b|
  {
    var a: nat, c: nat, d: nat, e: nat := b[i], b[i + 1], b[i + 2], b[i + 3];
    a % 128 * 0x100_0000 + c * 0x1_0000 + d * 0x100 + e
  }

  /** The length at i and where it ends; nothing if the buffer ends first. */
  function LengthAt(b: Bytes, i: nat): (r: Option<(nat, nat)>)
    ensures r.Some? ==> i < r.value.1 <= |b|
  {
    if i >= |b| then None
    else if b[i] < 128 then Some((b[i], i + 1))
    else if i + 4 > |b| then None
    else Some((Long(b, i), i + 4))
  }

  /** Reading back a length keeps its low 31 bits. */
  lemma LengthBack(pre: Bytes, n: nat, post: Bytes)
    ensures LengthAt(pre + LengthBytes(n) + post, |pre|)
         == Some((if n < 127 then n else n % TWO_TO_THE_31, |pre| + |LengthBytes(n)|))
  {
    var b, l := pre + LengthBytes(n) + post, LengthBytes(n);
    assert forall k | 0 <= k < |l| :: b[|pre| + k] == l[k];
    if n >= 127 { Digits(n); }
  }

  lemma Digits(n: nat)
    ensures (n / 0x100_0000) % 128 * 0x100_0000 + (n / 0x1_0000) % 256 * 0x1_0000 + (n / 0x100) % 256 * 0x100 + n % 256
         == n % TWO_TO_THE_31
  {
    var a, b, c := n / 0x100, n / 0x1_0000, n / 0x100_0000;
    assert b == a / 256 && c == b / 256;
    assert n % 0x8000_0000 == n - n / 0x8000_0000 * 0x8000_0000;
    assert n / 0x8000_0000 == c / 128;
  }

  // ---------------------------------------------------------------- streams

  function Encoded(p: Param): Bytes {
    LengthBytes(|p.name|) + LengthBytes(|p.value|) + p.name + p.value
  }

  function Stream(ps: seq<Param>): Bytes {
    if ps == [] then [] else Encoded(ps[0]) + Stream(ps[1..])
  }

  /** The parameter at i and where it ends; nothing if the buffer ends first. */
  function ParamAt(b: Bytes, i: nat): (r: Option<(Param, nat)>)
    ensures r.Some? ==> i < r.value.1 <= |b|
  {
    var n := LengthAt(b, i);
    if n.None? then None else
    var v := LengthAt(b, n.value.1);
    if v.None? then None else
    var j := v.value.1;
    if j + n.value.0 + v.value.0 > |b| then None
    else Some((Param(b[j..j + n.value.0], b[j + n.value.0..j + n.value.0 + v.value.0]), j + n.value.0 + v.value.0))
  }

  /** Everything from i on; nothing if some parameter runs past the end. */
  function ParamsFrom(b: Bytes, i: nat): (r: Option<seq<Param>>)
    decreases |b| - i
  {
    if i >= |b| then Some([]) else
    var p := ParamAt(b, i);
    if p.None? then None else
    var rest := ParamsFrom(b, p.value.1);
    if rest.None? then None else Some([p.value.0] + rest.value)
  }

  predicate Short(p: Param) {
    |p.name| < TWO_TO_THE_31 && |p.value| < TWO_TO_THE_31
  }

  function Low(n: nat): nat {
    if n < 127 then n else n % TWO_TO_THE_31
  }

  /** Where the two lengths of an encoded parameter end and what they read as. */
  lemma HeadBack(pre: Bytes, p: Param, post: Bytes)
    ensures var b := pre + Encoded(p) + post;
            && LengthAt(b, |pre|) == Some((Low(|p.name|), |pre| + |LengthBytes(|p.name|)|))
            && LengthAt(b, |pre| + |LengthBytes(|p.name|)|)
               == Some((Low(|p.value|), |pre| + |LengthBytes(|p.name|)| + |LengthBytes(|p.value|)|))
  {
    var b := pre + Encoded(p) + post;
    var l, m := LengthBytes(|p.name|), LengthBytes(|p.value|);
    assert b == pre + l + (m + p.name + p.value + post);
    LengthBack(pre, |p.name|, m + p.name + p.value + post);
    assert b == (pre + l) + m + (p.name + p.value + post);
    LengthBack(pre + l, |p.value|, p.name + p.value + post);
  }

  /** The two strings stand right after the lengths. */
  lemma BodyBack(pre: Bytes, p: Param, post: Bytes)
    ensures var b := pre + Encoded(p) + post;
            var j := |pre| + |LengthBytes(|p.name|)| + |LengthBytes(|p.value|)|;
            && j + |p.name| + |p.value| == |pre| + |Encoded(p)| <= |b|
            && b[j..j + |p.name|] == p.name && b[j + |p.name|..j + |p.name| + |p.value|] == p.value
  {
    hide LengthBytes;
    var l, m := LengthBytes(|p.name|), LengthBytes(|p.value|);
    var h, b := pre + l + m, pre + Encoded(p) + post;
    assert b == h + p.name + (p.value + post);
    Middle(h, p.name, p.value + post);
    assert b == (h + p.name) + p.value + post;
    Middle(h + p.name, p.value, post);
  }

  lemma Middle(a: Bytes, b: Bytes, c: Bytes)
    ensures (a + b + c)[|a|..|a| + |b|] == b
  {
  }

  /** A parameter comes back exactly when both lengths fit into 31 bits. */
  lemma ParamBack(pre: Bytes, p: Param, post: Bytes)
    ensures ParamAt(pre + Encoded(p) + post, |pre|) == Some((p, |pre| + |Encoded(p)|)) <==> Short(p)
    ensures !Short(p) ==>
              var r := ParamAt(pre + Encoded(p) + post, |pre|); r.None? || r.value.0 != p
  {
    hide Encoded, LengthBytes, LengthAt;
    HeadBack(pre, p, post);
    BodyBack(pre, p, post);
  }

  lemma EncodedSome(p: Param)
    ensures |Encoded(p)| > 0
  {
  }

  /** Past a parameter that came back the rest decides. */
  lemma RestDecides(b: Bytes, i: nat, p: Param, rest: seq<Param>, j: nat)
    requires i < |b| && ParamAt(b, i) == Some((p, j))
    ensures ParamsFrom(b, i) == Some([p] + rest) <==> ParamsFrom(b, j) == Some(rest)
  {
    var r := ParamsFrom(b, j);
    if r.Some? && [p] + r.value == [p] + rest { assert ([p] + r.value)[1..] == r.value && ([p] + rest)[1..] == rest; }
  }

  /** A list of parameters is read back, in order and up to the very end, exactly when every length fits
      into 31 bits. */
  lemma {:induction false} StreamBack(pre: Bytes, ps: seq<Param>)
    ensures ParamsFrom(pre + Stream(ps), |pre|) == Some(ps) <==> forall p | p in ps :: Short(p)
    decreases |ps|
  {
    hide ParamAt, ParamsFrom, Encoded, Stream, Short;
    if ps == [] {
      NothingBack(pre);
    } else {
      var p, rest := ps[0], ps[1..];
      var b := pre + Stream(ps);
      EncodedSome(p);
      StreamSplit(pre, ps);
      ParamBack(pre, p, Stream(rest));
      ShortSplit(ps);
      if Short(p) {
        StreamBack(pre + Encoded(p), rest);
        RestDecides(b, |pre|, p, rest, |pre| + |Encoded(p)|);
      } else {
        FirstDiffers(b, |pre|, ps);
      }
    }
  }

  lemma NothingBack(pre: Bytes)
    ensures ParamsFrom(pre + Stream([]), |pre|) == Some([])
  {
  }

  lemma StreamSplit(pre: Bytes, ps: seq<Param>)
    requires ps != []
    ensures pre + Stream(ps) == pre + Encoded(ps[0]) + Stream(ps[1..])
    ensures [ps[0]] + ps[1..] == ps
  {
    assert pre + (Encoded(ps[0]) + Stream(ps[1..])) == pre + Encoded(ps[0]) + Stream(ps[1..]);
  }

  lemma ShortSplit(ps: seq<Param>)
    requires ps != []
    ensures (forall p | p in ps :: Short(p)) <==> Short(ps[0]) && forall p | p in ps[1..] :: Short(p)
  {
    assert forall p | p in ps :: p == ps[0] || p in ps[1..];
  }

  lemma FirstDiffers(b: Bytes, i: nat, ps: seq<Param>)
    requires i < |b| && ps != [] && (ParamAt(b, i).None? || ParamAt(b, i).value.0 != ps[0])
    ensures ParamsFrom(b, i) != Some(ps)
  {
  }

  class ParamStreamWriter {
    var buffer: Bytes

    constructor ()
      ensures buffer == []
    {
      buffer := [];
    }

    method EncodeLength(length: nat)
      modifies this
      ensures buffer == old(buffer) + LengthBytes(length)
    {
      if length < 127 {
        buffer := buffer + [length];
      } else {
        buffer := buffer + [(length / 0x100_0000) % 128 + 128, (length / 0x1_0000) % 256, (length / 0x100) % 256,
            length % 256];
      }
    }

    method Encode(name: Bytes, value: Bytes)
      modifies this
      ensures buffer == old(buffer) + Encoded(Param(name, value))
    {
      EncodeLength(|name|);
      EncodeLength(|value|);
      buffer := buffer + name;
      buffer := buffer + value;
    }

    /** The value in two parts. */
    method EncodeParts(name: Bytes, v1: Bytes, v2: Bytes)
      modifies this
      ensures buffer == old(buffer) + Encoded(Param(name, v1 + v2))
    {
      EncodeLength(|name|);
      EncodeLength(|v1| + |v2|);
      buffer := buffer + name;
      buffer := buffer + v1;
      buffer := buffer + v2;
    }
  }

  /** Reads a length at pos, in whichever form it has. */
  method ReadLength(buf: Bytes, pos: nat) returns (ok: bool, length: nat, next: nat)
    ensures LengthAt(buf, pos) == if ok then Some((length, next)) else None
  {
    if pos >= |buf| { return false, 0, pos; }
    if buf[pos] < 128 { return true, buf[pos], pos + 1; }
    if pos + 4 > |buf| { return false, 0, pos; }
    return true, Long(buf, pos), pos + 4;
  }

  /** Reports each parameter in turn. `ok` is false where the source would read past the buffer. */
  method ProcessParams(buf: Bytes) returns (ok: bool, params: seq<Param>)
    ensures ParamsFrom(buf, 0) == if ok then Some(params) else None
  {
    hide LengthAt;
    var pos := 0;
    params := [];
    assert forall r: seq<Param> :: [] + r == r && r + [] == r;
    while pos < |buf|
      invariant pos <= |buf|
      invariant var r := ParamsFrom(buf, pos); ParamsFrom(buf, 0) == if r.Some? then Some(params + r.value) else None
      decreases |buf| - pos
    {
      var nameOk, nameLength, i := ReadLength(buf, pos);
      if !nameOk { return false, params; }
      var valueOk, valueLength, j := ReadLength(buf, i);
      if !valueOk { return false, params; }
      if j + nameLength + valueLength > |buf| { return false, params; }
      ghost var r := ParamsFrom(buf, j + nameLength + valueLength);
      var p := Param(buf[j..j + nameLength], buf[j + nameLength..j + nameLength + valueLength]);
      if r.Some? { assert params + ([p] + r.value) == params + [p] + r.value; }
      params := params + [p];
      pos := j + nameLength + valueLength;
    }
    ok := true;
  }
}
