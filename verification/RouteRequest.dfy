/** `form_request`: a route request built in place, with lengths that are kept rolling.

    The request structure is one buffer: message header at 0, rtmsg at 16, attributes from 28 on. */
module RouteRequest {
  import opened Bytes
  import opened Netlink
  import opened Attributes
  import opened Messages

  const REQUEST_SIZE := NLMSG_HDRLEN + RTMSG_LEN + BUFLEN
  /** NLM_F_REQUEST | NLM_F_ACK | NLM_F_REPLACE | NLM_F_CREATE | NLM_F_ROOT */
  const REQUEST_FLAGS: u16 := 0x505
  const RTPROT_STATIC := 4
  const RT_SCOPE_UNIVERSE := 0
  const RTN_UNICAST := 1
  const WLAN0: u32 := 3

  datatype RouteOp = Add(dest: u32, nextHop: u32) | Delete(dest: u32, nextHop: u32)

  function Action(op: RouteOp): u16 {
    if op.Add? then RTM_NEWROUTE else RTM_DELROUTE
  }

  function RtMsg(): (s: seq<byte>)
    ensures |s| == RTMSG_LEN
  {
    [AF_INET, 32, 0, 0, RT_TABLE_MAIN, RTPROT_STATIC, RT_SCOPE_UNIVERSE, RTN_UNICAST, 0, 0, 0, 0]
  }

  function RouteAttrs(op: RouteOp): (l: seq<Attr>)
    ensures AllFit(l)
    ensures |EncodeAttrs(l)| == 24
  {
    EncodeThree(Dst(op), Oif(), Gateway(op));
    [Dst(op), Oif(), Gateway(op)]
  }

  /** The request as a value: the padded encoder applied to one message with three attributes. */
  function RequestMessage(op: RouteOp): (msg: Message)
    ensures Sized(msg) && |msg.body| == RTMSG_LEN + 24
  {
    Message(Action(op), REQUEST_FLAGS, 0, 0, RtMsg() + EncodeAttrs(RouteAttrs(op)))
  }

  function RequestBytes(op: RouteOp): (s: seq<byte>) {
    EncodeMsg(RequestMessage(op))
  }

  method Store16(a: array<byte>, i: nat, v: u16)
    requires i + 2 <= a.Length
    modifies a
    ensures Holds(a[..], i, Le16(v))
    ensures forall k :: 0 <= k < a.Length && !(i <= k < i + 2) ==> a[k] == old(a[k])
  {
    a[i], a[i + 1] := v % 0x100, v / 0x100;
  }

  method Store32(a: array<byte>, i: nat, v: u32)
    requires i + 4 <= a.Length
    modifies a
    ensures Holds(a[..], i, Le32(v))
    ensures forall k :: 0 <= k < a.Length && !(i <= k < i + 4) ==> a[k] == old(a[k])
  {
    a[i], a[i + 1] := v % 0x100, v / 0x100 % 0x100;
    a[i + 2], a[i + 3] := v / 0x1_0000 % 0x100, v / 0x100_0000;
  }

  /** One attribute in place: its header, then its four payload bytes. */
  method PutAttr(req: array<byte>, rta: nat, typ: u16, v: u32) returns (rtaLen: u16)
    requires rta + 8 <= req.Length
    modifies req
    ensures rtaLen == 8
    ensures Holds(req[..], rta, EncodeAttr(Attr(typ, Le32(v))))
    ensures forall k :: 0 <= k < req.Length && !(rta <= k < rta + 8) ==> req[k] == old(req[k])
  {
    Store16(req, rta + 2, typ);
    rtaLen := RTATTR_LEN + 4;
    Store16(req, rta, rtaLen);
    Store32(req, rta + RTATTR_LEN, v);
    var m := req[..];
    assert Holds(m, rta, Le16(rtaLen));
    assert Holds(m, rta + 2, Le16(typ));
    HoldsJoin(m, rta, Le16(rtaLen), Le16(typ));
    HoldsJoin(m, rta, Le16(rtaLen) + Le16(typ), Le32(v));
    var bytes := Le16(rtaLen) + Le16(typ) + Le32(v);
    assert EncodeAttr(Attr(typ, Le32(v))) == bytes + Zeros(0) == bytes;
  }

  function Dst(op: RouteOp): Attr { Attr(RTA_DST, Le32(op.dest)) }

  function Oif(): Attr { Attr(RTA_OIF, Le32(WLAN0)) }

  function Gateway(op: RouteOp): Attr { Attr(RTA_GATEWAY, Le32(op.nextHop)) }

  /** Everything behind the length field and before the attributes. */
  function FixedPart(op: RouteOp): (s: seq<byte>)
    ensures |s| == 24
  {
    Le16(Action(op)) + Le16(REQUEST_FLAGS) + Le32(0) + Le32(0) + RtMsg()
  }

  lemma RequestLayout(op: RouteOp)
    ensures RequestBytes(op) ==
            Le32(52) + (FixedPart(op) + EncodeAttr(Dst(op)) + EncodeAttr(Oif()) + EncodeAttr(Gateway(op)))
    ensures |RequestBytes(op)| == 52
  {
    var msg := RequestMessage(op);
    var a1, a2, a3 := EncodeAttr(Dst(op)), EncodeAttr(Oif()), EncodeAttr(Gateway(op));
    EncodeThree(Dst(op), Oif(), Gateway(op));
    PadFree(msg);
    var fields := Le16(Action(op)) + Le16(REQUEST_FLAGS) + Le32(0) + Le32(0);
    assert Header(msg) == Le32(52) + fields;
    Regroup(Le32(52), fields, RtMsg(), a1, a2, a3);
  }

  lemma PadFree(msg: Message)
    requires Sized(msg) && |msg.body| % 4 == 0
    ensures EncodeMsg(msg) == Header(msg) + msg.body
  {
  }

  lemma Regroup(a: seq<byte>, b: seq<byte>, c: seq<byte>, d: seq<byte>, e: seq<byte>, f: seq<byte>)
    ensures (a + b) + (c + (d + e + f)) == a + (b + c + d + e + f)
  {
  }

  /** The bytes of a request as they go over the socket: message header, rtmsg, and the attributes RTA_DST, RTA_OIF and
      RTA_GATEWAY; section 3.1.1 of RFC 3549. */
  lemma RequestLiteral(op: RouteOp)
    ensures RequestBytes(op) ==
            [52, 0, 0, 0, if op.Add? then 24 else 25, 0, 5, 5, 0, 0, 0, 0, 0, 0, 0, 0]
            + [2, 32, 0, 0, 254, 4, 0, 1, 0, 0, 0, 0]
            + ([8, 0, 1, 0] + Le32(op.dest)) + [8, 0, 4, 0, 3, 0, 0, 0] + ([8, 0, 5, 0] + Le32(op.nextHop))
  {
    hide Le32, EncodeAttr, FixedPart;
    RequestLayout(op);
    WordLiteral(op.dest, 1);
    WordLiteral(3, 4);
    WordLiteral(op.nextHop, 5);
    Three();
    HeaderLiteral(op);
    Regroup4(Le32(52), FixedPart(op), EncodeAttr(Dst(op)), EncodeAttr(Oif()), EncodeAttr(Gateway(op)));
    assert [8, 0, 4, 0] + [3, 0, 0, 0] == [8, 0, 4, 0, 3, 0, 0, 0];
  }

  lemma Three()
    ensures Le32(3) == [3, 0, 0, 0]
  {
  }

  lemma Regroup4(a: seq<byte>, b: seq<byte>, c: seq<byte>, d: seq<byte>, e: seq<byte>)
    ensures a + (b + c + d + e) == a + b + c + d + e
  {
  }

  lemma WordLiteral(v: u32, typ: byte)
    ensures EncodeAttr(Attr(typ, Le32(v))) == [8, 0, typ, 0] + Le32(v)
  {
    hide Le32;
    assert EncodeAttr(Attr(typ, Le32(v))) == Le16(8) + Le16(typ) + Le32(v) + Zeros(0);
  }

  lemma HeaderLiteral(op: RouteOp)
    ensures Le32(52) + FixedPart(op) ==
            [52, 0, 0, 0, if op.Add? then 24 else 25, 0, 5, 5, 0, 0, 0, 0, 0, 0, 0, 0]
            + [2, 32, 0, 0, 254, 4, 0, 1, 0, 0, 0, 0]
  {
    assert Le16(24) == [24, 0] && Le16(25) == [25, 0] && Le16(0x505) == [5, 5];
    assert Le32(52) == [52, 0, 0, 0] && Le32(0) == [0, 0, 0, 0];
  }

  lemma FixedPartHeld(m: seq<byte>, op: RouteOp)
    requires Holds(m, 4, Le16(Action(op))) && Holds(m, 6, Le16(REQUEST_FLAGS))
    requires Holds(m, 8, Le32(0)) && Holds(m, 12, Le32(0)) && Holds(m, 16, RtMsg())
    ensures Holds(m, 4, FixedPart(op))
  {
    HoldsJoin(m, 4, Le16(Action(op)), Le16(REQUEST_FLAGS));
    HoldsJoin(m, 4, Le16(Action(op)) + Le16(REQUEST_FLAGS), Le32(0));
    HoldsJoin(m, 4, Le16(Action(op)) + Le16(REQUEST_FLAGS) + Le32(0), Le32(0));
    HoldsJoin(m, 4, Le16(Action(op)) + Le16(REQUEST_FLAGS) + Le32(0) + Le32(0), RtMsg());
  }

  method SetRtMsg(req: array<byte>)
    requires req.Length == REQUEST_SIZE
    requires forall k :: 16 <= k < 28 ==> req[k] == 0
    modifies req
    ensures Holds(req[..], 16, RtMsg())
    ensures forall k :: 0 <= k < req.Length && !(16 <= k < 28) ==> req[k] == old(req[k])
  {
    req[16], req[20], req[21] := AF_INET, RT_TABLE_MAIN, RTPROT_STATIC;
    req[22], req[23], req[17] := RT_SCOPE_UNIVERSE, RTN_UNICAST, 32;
  }

  /** Zeroes the buffer and fills in both fixed headers, all but the length field. */
  method SetHeaders(req: array<byte>, op: RouteOp)
    requires req.Length == REQUEST_SIZE
    modifies req
    ensures Holds(req[..], 4, FixedPart(op))
  {
    forall k | 0 <= k < req.Length {
      req[k] := 0;
    }
    Store16(req, 6, REQUEST_FLAGS);
    Store16(req, 4, Action(op));
    SetRtMsg(req);
    FixedPartHeld(req[..], op);
  }

  /** Appends one attribute at `rta` and brings nlmsg_len up to date. */
  method AddAttr(req: array<byte>, rta: nat, rtLen: nat, typ: u16, v: u32, ghost before: seq<byte>)
    returns (rta': nat, rtLen': nat)
    requires rta == 4 + |before| && rta + 8 <= req.Length && rtLen < 0x1_0000
    requires Holds(req[..], 4, before)
    modifies req
    ensures rta' == rta + 8 && rtLen' == rtLen + 8
    ensures Holds(req[..], 0, Le32(NLMSG_HDRLEN + rtLen'))
    ensures Holds(req[..], 4, before + EncodeAttr(Attr(typ, Le32(v))))
  {
    var rtaLen := PutAttr(req, rta, typ, v);
    rtLen' := rtLen + rtaLen;
    ghost var m := req[..];
    Store32(req, 0, NLMSG_HDRLEN + rtLen');
    rta' := rta + rtaLen;
    var attr := EncodeAttr(Attr(typ, Le32(v)));
    assert Holds(req[..], rta, attr) by {
      assert forall k :: 0 <= k < |attr| ==> m[rta + k] == attr[k];
    }
    HoldsJoin(req[..], 4, before, attr);
  }

  /** `form_request`: what it hands to sendmsg is the buffer up to the final nlmsg_len. */
  method FormRequest(req: array<byte>, op: RouteOp) returns (sent: seq<byte>)
    requires req.Length == REQUEST_SIZE
    modifies req
    ensures sent == RequestBytes(op)
    ensures sent == [52, 0, 0, 0, if op.Add? then 24 else 25, 0, 5, 5, 0, 0, 0, 0, 0, 0, 0, 0]
                    + [2, 32, 0, 0, 254, 4, 0, 1, 0, 0, 0, 0]
                    + ([8, 0, 1, 0] + Le32(op.dest)) + [8, 0, 4, 0, 3, 0, 0, 0] + ([8, 0, 5, 0] + Le32(op.nextHop))
    ensures |sent| == MsgLen(req[..], 0) && sent == req[..|sent|]
  {
    SetHeaders(req, op);
    var rta, rtLen := NLMSG_HDRLEN + RTMSG_LEN, RTMSG_LEN;
    ghost var part := FixedPart(op);
    rta, rtLen := AddAttr(req, rta, rtLen, RTA_DST, op.dest, part);
    part := part + EncodeAttr(Dst(op));
    rta, rtLen := AddAttr(req, rta, rtLen, RTA_OIF, WLAN0, part);
    part := part + EncodeAttr(Oif());
    rta, rtLen := AddAttr(req, rta, rtLen, RTA_GATEWAY, op.nextHop, part);
    part := part + EncodeAttr(Gateway(op));
    RequestLayout(op);
    RequestLiteral(op);
    HoldsJoin(req[..], 0, Le32(52), part);
    HoldsSlice(req[..], 0, RequestBytes(op));
    LoadStore32(req[..], 0, 52);
    sent := req[..NLMSG_HDRLEN + rtLen];
  }
}
