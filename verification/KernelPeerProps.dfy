/** The kernel's end of the socket understands the requests that the library builds, and answers them. */
module KernelPeerProps {
  import opened Bytes
  import opened Netlink
  import opened Attributes
  import opened Messages
  import opened RouteRequest
  import opened RouteCodec
  import opened KernelPeer

  /** The kernel decodes exactly the operation that `form_request` was asked for. */
  lemma UnderstandsRequests(op: RouteOp)
    ensures 52 == |RequestBytes(op)|
    ensures Understand(RequestBytes(op)) == Some(op)
    ensures MsgType(RequestBytes(op), 0) == Action(op)
    ensures WantsAck(RequestBytes(op)) && IsRequest(RequestBytes(op))
  {
    hide LastAttr, EncodeMsg, EncodeAttrs, U16, U32, ParseAttrs, LastPayload, Le32, Header, Holds, RequestWord,
      RouteAttrs;
    var req, e := RequestBytes(op), RequestEntry(op);
    RequestLayout(op);
    HoldsItself(req);
    EntryFields(req, 0, e);
    EncodedMsg(req, 0, RequestMessage(op));
    HoldsAt(req, NLMSG_HDRLEN, RequestMessage(op).body, 0);
    RequestPayloads(op);
    RequestWordIs(req, e, RTA_DST, op.dest);
    RequestWordIs(req, e, RTA_GATEWAY, op.nextHop);
  }

  lemma RequestWordIs(req: seq<byte>, e: Entry, t: u16, v: u32)
    requires NlmsgOk(req, 0, |req|)
    requires MsgLen(req, 0) >= NLMSG_HDRLEN + RTMSG_LEN
    requires e.attrs == ParseAttrs(req, NLMSG_HDRLEN + RTMSG_LEN, MsgLen(req, 0) - NLMSG_HDRLEN - RTMSG_LEN)
    requires LastPayload(e.attrs, t) == Some(Le32(v))
    ensures RequestWord(req, t) == Some(v)
  {
    hide ParseAttrs, LastPayload, LastAttr, Le32;
    LastAttrIsLastPayload(req, NLMSG_HDRLEN + RTMSG_LEN, MsgLen(req, 0) - NLMSG_HDRLEN - RTMSG_LEN, t);
    var p := LastAttr(req, NLMSG_HDRLEN + RTMSG_LEN, MsgLen(req, 0) - NLMSG_HDRLEN - RTMSG_LEN, t);
    var payload := AttrAt(req, p.value).payload;
    SameWord(req, p.value + RTATTR_LEN, payload, 4, 0);
    LoadStore32(payload, 0, v);
  }

  /** What an update does to one entry. */
  lemma UpdateAt(routes: map<u32, u32>, op: RouteOp, d: u32)
    ensures var after := Update(routes, op);
            && (d != op.dest ==> (d in after <==> d in routes) && (d in routes ==> after[d] == routes[d]))
            && (d == op.dest && op.Add? ==> d in after && after[d] == op.nextHop)
            && (d == op.dest && op.Delete? ==> d !in after)
  {
  }

  lemma RequestSizes(op: RouteOp)
    ensures |RequestBytes(op)| == 52
  {
    RequestLayout(op);
  }

  /** The ACK that answers a route request. */
  function AckBytes(err: u32, op: RouteOp): seq<byte> {
    RequestSizes(op);
    EncodeMsg(Ack(err, RequestBytes(op)))
  }

  /** The kernel's answer to the bytes of a route request. */
  lemma RouteDelivered(k: Kernel, op: RouteOp, env: Env)
    ensures |RequestBytes(op)| == 52
    ensures var err := Verdict(k.routes, Some(op), env.refuse);
            Deliver(k, RequestBytes(op), env) ==
            Kernel(if err == 0 then Update(k.routes, op) else k.routes, k.replies + [AckBytes(err, op)])
  {
    hide EncodeMsg, RequestBytes, Understand, MsgType, Ack, Verdict, WantsAck, IsRequest, WantsDump;
    UnderstandsRequests(op);
  }
}
