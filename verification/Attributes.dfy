/** Attribute lists as values, their padded encoding, and the walk as its inverse. */
module Attributes {
  import opened Bytes
  import opened Netlink

  datatype Attr = Attr(typ: u16, payload: seq<byte>)

  /** The whole attribute must fit the 16-bit length field. */
  predicate Fits(a: Attr) {
    RTATTR_LEN + |a.payload| < 0x1_0000
  }

  predicate AllFit(l: seq<Attr>) {
    l == [] || (Fits(l[0]) && AllFit(l[1..]))
  }

  /** Padded encoding of one attribute. */
  function EncodeAttr(a: Attr): (s: seq<byte>)
    requires Fits(a)
    ensures |s| == Align(RTATTR_LEN + |a.payload|)
  {
    var len := RTATTR_LEN + |a.payload|;
    Le16(len) + Le16(a.typ) + a.payload + Zeros(Align(len) - len)
  }

  function EncodeAttrs(l: seq<Attr>): (s: seq<byte>)
    requires AllFit(l)
    ensures |s| % 4 == 0
  {
    if l == [] then [] else EncodeAttr(l[0]) + EncodeAttrs(l[1..])
  }

  function AttrAt(m: seq<byte>, i: nat): Attr
    requires i + RTATTR_LEN <= |m|
    requires RTATTR_LEN <= AttrLen(m, i)
    requires i + AttrLen(m, i) <= |m|
  {
    Attr(AttrType(m, i), m[i + RTATTR_LEN..i + AttrLen(m, i)])
  }

  /** The attributes that the walk visits, as values. */
  function ParseAttrs(m: seq<byte>, i: nat, n: int): (l: seq<Attr>)
    requires 0 <= n ==> i + n <= |m|
    decreases n
  {
    if !RtaOk(m, i, n) then [] else
      var step := Align(AttrLen(m, i));
      [AttrAt(m, i)] + ParseAttrs(m, i + step, n - step)
  }

  /** Payload of the last attribute of type `t` in a list. */
  function LastPayload(l: seq<Attr>, t: u16): Option<seq<byte>> {
    if l == [] then None else
      var rest := LastPayload(l[1..], t);
      if rest.Some? then rest else if l[0].typ == t then Some(l[0].payload) else None
  }

  lemma EncodedHeader(m: seq<byte>, i: nat, a: Attr)
    requires Fits(a)
    requires Holds(m, i, EncodeAttr(a))
    ensures AttrLen(m, i) == RTATTR_LEN + |a.payload|
    ensures i + AttrLen(m, i) <= |m|
    ensures AttrAt(m, i) == a
  {
    var len := RTATTR_LEN + |a.payload|;
    var pad := Zeros(Align(len) - len);
    HoldsSplit(m, i, Le16(len) + Le16(a.typ) + a.payload, pad);
    HoldsSplit(m, i, Le16(len) + Le16(a.typ), a.payload);
    HoldsSplit(m, i, Le16(len), Le16(a.typ));
    LoadStore16(m, i, len);
    LoadStore16(m, i + 2, a.typ);
    HoldsSlice(m, i + 4, a.payload);
  }

  lemma EncodeUnfold(l: seq<Attr>)
    requires AllFit(l)
    ensures l == [] ==> EncodeAttrs(l) == []
    ensures l != [] ==> Fits(l[0]) && AllFit(l[1..])
    ensures l != [] ==> EncodeAttrs(l) == EncodeAttr(l[0]) + EncodeAttrs(l[1..])
  {
  }

  lemma EncodeThree(a: Attr, b: Attr, c: Attr)
    requires Fits(a) && Fits(b) && Fits(c)
    ensures AllFit([a, b, c])
    ensures EncodeAttrs([a, b, c]) == EncodeAttr(a) + EncodeAttr(b) + EncodeAttr(c)
  {
    assert [a, b, c][1..] == [b, c] && [b, c][1..] == [c] && [c][1..] == [];
    EncodeUnfold([]);
    EncodeUnfold([c]);
    EncodeUnfold([b, c]);
    EncodeUnfold([a, b, c]);
  }

  lemma ParseNothing(m: seq<byte>, i: nat)
    requires Holds(m, i, [])
    ensures ParseAttrs(m, i, 0) == []
  {
  }

  lemma ParseCons(m: seq<byte>, i: nat, a: Attr, n: nat)
    requires Fits(a)
    requires Holds(m, i, EncodeAttr(a))
    requires i + |EncodeAttr(a)| + n <= |m|
    ensures ParseAttrs(m, i, |EncodeAttr(a)| + n) == [a] + ParseAttrs(m, i + |EncodeAttr(a)|, n)
  {
    EncodedHeader(m, i, a);
    var step := Align(AttrLen(m, i));
    assert step == |EncodeAttr(a)| && step + n - step == n;
  }

  /** Round trip: walking the padded encoding, wherever it lies in memory, gives the list back. */
  lemma {:induction false} AttrRoundTrip(m: seq<byte>, i: nat, l: seq<Attr>)
    requires AllFit(l)
    requires Holds(m, i, EncodeAttrs(l))
    ensures ParseAttrs(m, i, |EncodeAttrs(l)|) == l
    decreases |l|
  {
    hide *;
    EncodeUnfold(l);
    if l == [] {
      ParseNothing(m, i);
    } else {
      var head, tail := EncodeAttr(l[0]), EncodeAttrs(l[1..]);
      HoldsSplit(m, i, head, tail);
      AttrRoundTrip(m, i + |head|, l[1..]);
      ParseCons(m, i, l[0], |tail|);
      assert l == [l[0]] + l[1..];
    }
  }

  /** The address found by the walk holds the payload of the last such attribute of the list. */
  lemma {:induction false} LastAttrIsLastPayload(m: seq<byte>, i: nat, n: int, t: u16)
    requires 0 <= n ==> i + n <= |m|
    ensures LastPayload(ParseAttrs(m, i, n), t) ==
            match LastAttr(m, i, n, t)
            case None => None
            case Some(p) => Some(AttrAt(m, p).payload)
    decreases n
  {
    if RtaOk(m, i, n) {
      var step := Align(AttrLen(m, i));
      LastAttrIsLastPayload(m, i + step, n - step, t);
      assert ParseAttrs(m, i, n)[1..] == ParseAttrs(m, i + step, n - step);
    }
  }
}
