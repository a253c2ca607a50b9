/** src/api_route.c: adding and deleting host routes by request and ACK. */
module RouteApi {
  import opened Bytes
  import opened Netlink
  import opened RouteRequest
  import opened KernelPeer
  import opened KernelPeerProps
  import opened Shared

  /** `parse_nl_route_msg`: the type of the first message, or 0 if `len`, a size_t, does not hold a whole one. */
  function ReplyType(m: seq<byte>, len: nat): u16
    requires NLMSG_HDRLEN <= |m|
  {
    if NLMSG_HDRLEN <= len && NLMSG_HDRLEN <= MsgLen(m, 0) <= len then MsgType(m, 0) else 0
  }

  /** Does the reply raise the error flag? */
  predicate ReplyFails(m: seq<byte>, len: nat)
    requires NLMSG_HDRLEN + 4 <= |m|
  {
    ReplyType(m, len) == NLMSG_ERROR && U32(m, NLMSG_HDRLEN) != 0
  }

  datatype Api = Api(kernel: Kernel, fErr: int)

  function Result(s: Api): int {
    if s.fErr == 0 then 0 else -1
  }

  /** Which of the two system calls fail. */
  datatype Faults = Faults(send: bool, recv: bool)

  /** One call of AddUnicastRoutingEntry or DeleteEntry, with what its stack buffer held before. */
  datatype Call = Call(op: RouteOp, env: Env, faults: Faults, mem: seq<byte>)

  predicate ValidCall(c: Call) {
    |c.mem| == STACK_BUF
  }

  /** After a failed send there is nothing to receive: unless the queue holds a reply to somebody else, or receiving
      fails as well, the call waits for ever. */
  predicate Returns(s: Api, c: Call) {
    c.faults.send && !c.faults.recv ==> s.kernel.replies != []
  }

  /** The effect of one call, byte by byte: send the request, receive whatever comes first, look at it. For a call
      that does not return it is the state in which the call waits. */
  function CallEffect(s: Api, c: Call): Api
    requires ValidCall(c)
  {
    RequestLayout(c.op);
    var k := if c.faults.send then s.kernel else Deliver(s.kernel, RequestBytes(c.op), c.env);
    var fErr := if c.faults.send || c.faults.recv then 1 else s.fErr;
    if c.faults.recv || k.replies == [] then Api(k, fErr) else
      var m := Overlay(c.mem, k.replies[0]);
      Api(k.(replies := k.replies[1..]), if ReplyFails(m, |Delivered(k.replies[0])|) then 1 else fErr)
  }

  function State(g: Globals): Api
    reads g
  {
    Api(g.kernel, g.fErr)
  }

  method ParseNlRouteMsg(buf: array<byte>, len: nat) returns (typ: u16)
    requires NLMSG_HDRLEN <= buf.Length
    ensures typ == ReplyType(buf[..], len)
  {
    if !(NLMSG_HDRLEN <= len && NLMSG_HDRLEN <= MsgLen(buf[..], 0) <= len) {
      return 0;
    }
    return MsgType(buf[..], 0);
  }

  /** The common course of both calls; `buf` is the uninitialised buffer on their stack. */
  method Transact(g: Globals, op: RouteOp, env: Env, faults: Faults, buf: array<byte>)
    requires buf.Length == STACK_BUF
    requires Returns(State(g), Call(op, env, faults, buf[..]))
    modifies g`kernel, g`fErr, buf
    ensures State(g) == CallEffect(old(State(g)), Call(op, env, faults, old(buf[..])))
  {
    hide Deliver, RequestBytes, MsgType, U32, Overlay, Delivered;
    RequestLayout(op);
    var req := new byte[REQUEST_SIZE];
    var sent := FormRequest(req, op);
    var len := g.SendMsg(sent, env, faults.send);
    g.Check(len);
    DeliverQueues(old(g.kernel), op, env);
    len := g.GetMsg(buf, faults.recv);
    g.Check(len);
    var typ := ParseNlRouteMsg(buf, len % SIZE_MOD);
    if typ == NLMSG_ERROR {
      var error := U32(buf[..], NLMSG_HDRLEN);
      if error != 0 {
        g.fErr := 1;
      }
    }
  }

  lemma DeliverQueues(k: Kernel, op: RouteOp, env: Env)
    ensures |RequestBytes(op)| == 52
    ensures Deliver(k, RequestBytes(op), env).replies != []
  {
    hide Deliver, RequestBytes, AckBytes, Verdict;
    RouteDelivered(k, op, env);
  }

  method AddUnicastRoutingEntry(g: Globals, dest: u32, nextHop: u32, env: Env, faults: Faults, buf: array<byte>)
    returns (r: int)
    requires buf.Length == STACK_BUF
    requires Returns(State(g), Call(Add(dest, nextHop), env, faults, buf[..]))
    modifies g`kernel, g`fErr, buf
    ensures State(g) == CallEffect(old(State(g)), Call(Add(dest, nextHop), env, faults, old(buf[..])))
    ensures r == Result(State(g))
  {
    Transact(g, Add(dest, nextHop), env, faults, buf);
    r := if g.fErr == 0 then 0 else -1;
  }

  method DeleteEntry(g: Globals, dest: u32, nextHop: u32, env: Env, faults: Faults, buf: array<byte>)
    returns (r: int)
    requires buf.Length == STACK_BUF
    requires Returns(State(g), Call(Delete(dest, nextHop), env, faults, buf[..]))
    modifies g`kernel, g`fErr, buf
    ensures State(g) == CallEffect(old(State(g)), Call(Delete(dest, nextHop), env, faults, old(buf[..])))
    ensures r == Result(State(g))
  {
    Transact(g, Delete(dest, nextHop), env, faults, buf);
    r := if g.fErr == 0 then 0 else -1;
  }
}
