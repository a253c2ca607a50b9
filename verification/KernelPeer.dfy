/** The kernel's end of the netlink socket: it decodes request bytes, keeps the routes and queues replies. */
module KernelPeer {
  import opened Bytes
  import opened Netlink
  import opened Messages
  import opened RouteRequest

  /** Host routes, from /32 destination to gateway, and the datagrams waiting to be received. */
  datatype Kernel = Kernel(routes: map<u32, u32>, replies: seq<seq<byte>>)

  /** What the kernel decides for itself: an error it refuses a route request with (0 for none),
      and the datagrams it answers an address dump with. */
  datatype Env = Env(refuse: u32, dump: seq<seq<byte>>)

  /** -EINVAL and -ESRCH in the error field of an ACK. */
  const INVALID: u32 := U32_MOD - 22
  const NO_SUCH_ROUTE: u32 := U32_MOD - 3

  /** The word of the last attribute of type `t` in a request, if it is a whole word. */
  function RequestWord(req: seq<byte>, t: u16): Option<u32>
    requires NlmsgOk(req, 0, |req|)
  {
    var p := LastAttr(req, NLMSG_HDRLEN + RTMSG_LEN, MsgLen(req, 0) - NLMSG_HDRLEN - RTMSG_LEN, t);
    if p.Some? && RTATTR_LEN + 4 <= AttrLen(req, p.value) then Some(U32(req, p.value + RTATTR_LEN)) else None
  }

  /** The host route operation that a request spells out in its bytes. */
  function Understand(req: seq<byte>): Option<RouteOp> {
    if !NlmsgOk(req, 0, |req|) || MsgLen(req, 0) < NLMSG_HDRLEN + RTMSG_LEN then None else
      var dest, gateway := RequestWord(req, RTA_DST), RequestWord(req, RTA_GATEWAY);
      if req[16] != AF_INET || req[17] != 32 || req[20] != RT_TABLE_MAIN || dest.None? || gateway.None? then None
      else if MsgType(req, 0) == RTM_NEWROUTE then Some(Add(dest.value, gateway.value))
      else if MsgType(req, 0) == RTM_DELROUTE then Some(Delete(dest.value, gateway.value))
      else None
  }

  /** Create or replace on add; delete on exact destination and gateway only. */
  predicate Matches(routes: map<u32, u32>, op: RouteOp) {
    op.Add? || (op.dest in routes && routes[op.dest] == op.nextHop)
  }

  function Update(routes: map<u32, u32>, op: RouteOp): map<u32, u32> {
    if op.Add? then routes[op.dest := op.nextHop] else routes - {op.dest}
  }

  function Verdict(routes: map<u32, u32>, op: Option<RouteOp>, refuse: u32): u32 {
    if op.None? then INVALID
    else if refuse != 0 then refuse
    else if !Matches(routes, op.value) then NO_SUCH_ROUTE
    else 0
  }

  /** The ACK message: the error word, then the header of the request, or all of it after an error. */
  function Ack(err: u32, req: seq<byte>): (msg: Message)
    requires NLMSG_HDRLEN <= |req| <= REQUEST_SIZE
    ensures Sized(msg)
  {
    Message(NLMSG_ERROR, 0, U32(req, 8), U32(req, 12),
            Le32(err) + if err == 0 then req[..NLMSG_HDRLEN] else req)
  }

  /** NLM_F_REQUEST, without which the kernel does nothing. */
  predicate IsRequest(req: seq<byte>)
    requires NLMSG_HDRLEN <= |req|
  {
    U16(req, 6) % 2 == 1
  }

  /** NLM_F_ROOT in the flags of a request, and the IPv4 family behind its header. */
  predicate WantsDump(req: seq<byte>)
    requires NLMSG_HDRLEN <= |req|
  {
    U16(req, 6) / 0x100 % 2 == 1 && NLMSG_HDRLEN < |req| && req[NLMSG_HDRLEN] == AF_INET
  }

  /** NLM_F_ACK in the flags of a request. */
  predicate WantsAck(req: seq<byte>)
    requires NLMSG_HDRLEN <= |req|
  {
    U16(req, 6) / 4 % 2 == 1
  }

  /** sendmsg: the kernel handles the request at once. It answers a request that it accepts only if asked to. */
  function Deliver(k: Kernel, req: seq<byte>, env: Env): (r: Kernel)
    requires NLMSG_HDRLEN <= |req| <= REQUEST_SIZE
    ensures k.replies <= r.replies
  {
    if IsRequest(req) && MsgType(req, 0) == RTM_GETADDR && WantsDump(req) then k.(replies := k.replies + env.dump) else
      var op := if IsRequest(req) then Understand(req) else None;
      var err := Verdict(k.routes, op, env.refuse);
      Kernel(if err == 0 then Update(k.routes, op.value) else k.routes,
             k.replies + if err != 0 || WantsAck(req) then [EncodeMsg(Ack(err, req))] else [])
  }
}
