/**
 DER elements with one identifier octet, as golang.org/x/crypto/cryptobyte reads
 them: lengths of X.690 section 8.1.3 in the fewest octets of section 10.1.
 */
module DER {
  import opened Common

  datatype Elem = Elem(tag: Byte, content: Bytes)

  const MAX: int := 0x1_0000_0000
  const SEQUENCE: Byte := 0x30
  const BOOLEAN: Byte := 0x01
  const OCTET_STRING: Byte := 0x04
  const OBJECT_IDENTIFIER: Byte := 0x06
  const CONTEXT_0: Byte := 0xA0   // [0], constructed

  function Unsigned(b: Bytes): nat {
    if b == [] then 0 else 256 * Unsigned(b[..|b| - 1]) + b[|b| - 1]
  }

  lemma UnsignedNext(b: Bytes, i: nat)
    requires i < |b|
    ensures Unsigned(b[..i + 1]) == 256 * Unsigned(b[..i]) + b[i]
  {
    assert b[..i + 1][..i] == b[..i];
  }

  /** The size of the header and of the content, if the octets start an element. */
  function Header(s: Bytes): Option<(nat, nat)> {
    if |s| < 2 || s[0] % 32 == 31 then None
    else if s[1] < 128 then Some((2, s[1]))
    else
      var k := s[1] - 128;
      if k == 0 || k > 4 || |s| < 2 + k then None else
      var n := Unsigned(s[2..2 + k]);
      if n < 128 || s[2] == 0 || 2 + k + n >= MAX then None else Some((2 + k, n))
  }

  /** Reads any element off the front: the element and what follows it. */
  function ReadAny(s: Bytes): (r: Option<(Elem, Bytes)>)
    ensures r.Some? ==> |r.value.0.content| + |r.value.1| + 2 <= |s|
  {
    match Header(s)
    case None => None
    case Some((h, n)) => if |s| < h + n then None else Some((Elem(s[0], s[h..h + n]), s[h + n..]))
  }

  /** Reads an element with this tag. */
  function Read(s: Bytes, tag: Byte): (r: Option<(Bytes, Bytes)>)
    ensures r.Some? ==> |r.value.0| + |r.value.1| + 2 <= |s|
  {
    match ReadAny(s)
    case None => None
    case Some((e, rest)) => if e.tag == tag then Some((e.content, rest)) else None
  }

  /** Skips an element with this tag if one comes next; a broken one fails. */
  function SkipOptional(s: Bytes, tag: Byte): (r: Option<Bytes>)
    ensures r.Some? ==> |r.value| <= |s|
  {
    if s == [] || s[0] != tag then Some(s)
    else match ReadAny(s) case None => None case Some((_, rest)) => Some(rest)
  }

  // ---------------------------------------------------------------- encoding

  /** A number in the fewest octets. */
  function BigEndian(n: nat): (r: Bytes)
    requires n > 0
    ensures |r| > 0 && r[0] != 0 && Unsigned(r) == n
    ensures n < 0x100 ==> |r| == 1
    ensures 0x100 <= n < 0x1_0000 ==> |r| == 2
    ensures 0x1_0000 <= n < 0x100_0000 ==> |r| == 3
    ensures 0x100_0000 <= n < MAX ==> |r| == 4
  {
    if n < 0x100 then [n]
    else
      var r := BigEndian(n / 0x100) + [n % 0x100];
      assert r[..|r| - 1] == BigEndian(n / 0x100);
      r
  }

  function Length(n: nat): Bytes
    requires n < MAX
  {
    if n < 0x80 then [n] else [0x80 + |BigEndian(n)|] + BigEndian(n)
  }

  predicate Fits(e: Elem) {
    e.tag % 32 != 31 && |e.content| + 6 < MAX
  }

  function Encode(e: Elem): (r: Bytes)
    requires |e.content| < MAX
    ensures |r| >= |e.content| + 2
  {
    [e.tag] + Length(|e.content|) + e.content
  }

  lemma Unsigned1(a: Byte)
    ensures Unsigned([a]) == a
  {
    assert [a][..0] == [];
  }

  lemma Unsigned2(a: Byte, b: Byte)
    ensures Unsigned([a, b]) == 0x100 * a + b
  {
    Unsigned1(a);
    assert [a, b][..1] == [a];
  }

  lemma Unsigned3(a: Byte, b: Byte, c: Byte)
    ensures Unsigned([a, b, c]) == 0x1_0000 * a + 0x100 * b + c
  {
    Unsigned2(a, b);
    assert [a, b, c][..2] == [a, b];
  }

  lemma Unsigned4(a: Byte, b: Byte, c: Byte, d: Byte)
    ensures Unsigned([a, b, c, d]) == 0x100_0000 * a + 0x1_0000 * b + 0x100 * c + d
  {
    Unsigned3(a, b, c);
    assert [a, b, c, d][..3] == [a, b, c];
  }

  lemma UnsignedRange(octets: Bytes)
    requires 1 <= |octets| <= 4 && octets[0] != 0
    ensures |octets| == 1 ==> 0 < Unsigned(octets) < 0x100
    ensures |octets| == 2 ==> 0x100 <= Unsigned(octets) < 0x1_0000
    ensures |octets| == 3 ==> 0x1_0000 <= Unsigned(octets) < 0x100_0000
    ensures |octets| == 4 ==> 0x100_0000 <= Unsigned(octets) < MAX
  {
    if |octets| == 1 {
      assert octets == [octets[0]];
      Unsigned1(octets[0]);
    } else if |octets| == 2 {
      assert octets == [octets[0], octets[1]];
      Unsigned2(octets[0], octets[1]);
    } else if |octets| == 3 {
      assert octets == [octets[0], octets[1], octets[2]];
      Unsigned3(octets[0], octets[1], octets[2]);
    } else {
      assert octets == [octets[0], octets[1], octets[2], octets[3]];
      Unsigned4(octets[0], octets[1], octets[2], octets[3]);
    }
  }

  lemma {:induction false} UnsignedInjective(a: Bytes, b: Bytes)
    requires |a| == |b| && Unsigned(a) == Unsigned(b)
    ensures a == b
  {
    if a != [] {
      var k := |a| - 1;
      UnsignedInjective(a[..k], b[..k]);
      assert a == a[..k] + [a[k]] && b == b[..k] + [b[k]];
    }
  }

  /** There is one way to write a length in the fewest octets. */
  lemma LengthUnique(octets: Bytes)
    requires 1 <= |octets| <= 4 && octets[0] != 0 && Unsigned(octets) >= 0x80
    ensures Unsigned(octets) < MAX && Length(Unsigned(octets)) == [0x80 + |octets|] + octets
  {
    UnsignedRange(octets);
    var other := BigEndian(Unsigned(octets));
    UnsignedRange(other);
    UnsignedInjective(octets, other);
  }

  lemma HeaderOfEncoding(e: Elem, rest: Bytes)
    requires Fits(e)
    ensures Header(Encode(e) + rest) == Some((1 + |Length(|e.content|)|, |e.content|))
  {
    var s, n := Encode(e) + rest, |e.content|;
    if n >= 0x80 {
      var octets := BigEndian(n);
      assert s[1] == 0x80 + |octets|;
      assert s[2..2 + |octets|] == octets;
      assert s[2] == octets[0];
    }
  }

  /** What is encoded is read back, whatever follows it. */
  lemma ReadEncoded(e: Elem, rest: Bytes)
    requires Fits(e)
    ensures ReadAny(Encode(e) + rest) == Some((e, rest))
  {
    HeaderOfEncoding(e, rest);
    var s, h := Encode(e) + rest, 1 + |Length(|e.content|)|;
    assert s[h..h + |e.content|] == e.content;
    assert s[h + |e.content|..] == rest;
  }

  /** Only DER is read: the octets consumed are the encoding of the element. */
  lemma ReadIsEncoded(s: Bytes)
    requires ReadAny(s).Some?
    ensures |ReadAny(s).value.0.content| < MAX
    ensures Encode(ReadAny(s).value.0) + ReadAny(s).value.1 == s
  {
    HeaderIsEncoded(s);
    var (h, n) := Header(s).value;
    assert s == s[..h] + s[h..h + n] + s[h + n..];
  }

  lemma HeaderIsEncoded(s: Bytes)
    requires Header(s).Some?
    ensures
      var (h, n) := Header(s).value;
      h <= |s| && n < MAX && s[..h] == [s[0]] + Length(n)
  {
    var (h, n) := Header(s).value;
    if s[1] >= 128 {
      var octets := s[2..h];
      assert octets[0] == s[2];
      LengthUnique(octets);
      assert s[..h] == [s[0]] + ([s[1]] + octets);
    }
  }

  // ---------------------------------------------------------------- lists of elements

  function EncodeAll(es: seq<Elem>): Bytes
    requires forall e :: e in es ==> |e.content| < MAX
  {
    if es == [] then [] else Encode(es[0]) + EncodeAll(es[1..])
  }

  lemma {:induction false} EncodedSize(es: seq<Elem>, e: Elem)
    requires forall x :: x in es ==> |x.content| < MAX
    requires e in es
    ensures |e.content| + 2 <= |EncodeAll(es)|
  {
    if e != es[0] { EncodedSize(es[1..], e); }
  }

  // ---------------------------------------------------------------- the start of a download

  /** Whether a body starts as PEM or as a DER SEQUENCE, and the object's size if it is too large. */
  datatype Start = Object | NotObject | TooLarge(size: int)

  /** checkObjectStart over the six octets it peeks at, or as many as there are. */
  method CheckObjectStart(body: Bytes, max: int) returns (r: Start)
    ensures r == StartOf(if |body| < 6 then body else body[..6], max)
  {
    var head := if |body| < 6 then body else body[..6];
    if |head| >= 5 && head[..5] == DASHES { return Object; }
    if |head| < 2 || head[0] != SEQUENCE { return NotObject; }
    var n: int, size: int := head[1], 2;
    if n >= 0x80 {
      var k := n % 0x80;
      if k == 0 || k > 4 || |head| < 2 + k { return NotObject; }
      n := 0;
      var octets := head[2..2 + k];
      for i := 0 to k
        invariant n == Unsigned(octets[..i])
      {
        UnsignedNext(octets, i);
        n := n * 256 + octets[i];
      }
      assert octets[..k] == octets;
      size := size + k;
    }
    size := size + n;
    return if size > max then TooLarge(size) else Object;
  }

  function StartOf(head: Bytes, max: int): Start {
    if |head| >= 5 && head[..5] == DASHES then Object
    else if |head| < 2 || head[0] != SEQUENCE then NotObject
    else if head[1] < 0x80 then (if 2 + head[1] > max then TooLarge(2 + head[1]) else Object)
    else
      var k := head[1] % 0x80;
      if k == 0 || k > 4 || |head| < 2 + k then NotObject else
      var size := 2 + k + Unsigned(head[2..2 + k]);
      if size > max then TooLarge(size) else Object
  }

  /** A download that starts with a DER SEQUENCE is let through exactly when the SEQUENCE fits the limit. */
  lemma StartOfEncoded(content: Bytes, rest: Bytes, max: int)
    requires |content| + 6 < MAX
    ensures
      var body := Encode(Elem(SEQUENCE, content)) + rest;
      var size := |Encode(Elem(SEQUENCE, content))|;
      StartOf(if |body| < 6 then body else body[..6], max) == if size > max then TooLarge(size) else Object
  {
    var e := Elem(SEQUENCE, content);
    var body := Encode(e) + rest;
    HeaderOfEncoding(e, rest);
    StartOfHeader(body, max);
  }

  /** What starts as PEM is let through; what starts neither as PEM nor as a SEQUENCE is not an object. */
  lemma StartOfOthers(head: Bytes, max: int)
    ensures DASHES <= head ==> StartOf(head, max) == Object
    ensures !(DASHES <= head) && (|head| < 2 || head[0] != 0x30) ==> StartOf(head, max) == NotObject
  {
  }

  /** The six octets hold the whole header of a SEQUENCE. */
  lemma StartOfHeader(body: Bytes, max: int)
    requires Header(body).Some? && |body| >= Header(body).value.0 && body[0] == SEQUENCE
    ensures
      var (h, n) := Header(body).value;
      StartOf(if |body| < 6 then body else body[..6], max) == if h + n > max then TooLarge(h + n) else Object
  {
    var head := if |body| < 6 then body else body[..6];
    assert head[0] == SEQUENCE && head[1] == body[1];
    if body[1] >= 128 {
      var k := body[1] - 128;
      assert head[2..2 + k] == body[2..2 + k];
    }
  }
}
