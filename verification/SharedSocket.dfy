/** Any number of threads sharing one netlink socket, one mutex, one error flag and one pointer.

    The steps are those of AddUnicastRoutingEntry, DeleteEntry and GetInterfaceIP between which other threads
    may run: lock, send, receive and parse one datagram, unlock, and return; and sending a message, which only looks
    at the error flag. The flag (and, for a lookup, the pointer `addr` and the word behind it) is read by the last
    step, after the mutex has been given up. No sequence number is ever set, so nothing but the mutex keeps the
    replies of different calls apart. */
module SharedSocket {
  import opened Bytes
  import opened Netlink
  import opened Messages
  import opened RouteRequest
  import opened KernelPeer
  import opened KernelPeerProps
  import opened Shared
  import opened RouteApi
  import opened AddressDump
  import opened AddressDumpProps

  type Tid = nat

  datatype Op = Route(op: RouteOp) | Lookup(q: Query)

  /** Where a thread stands; calls are numbered in the order in which they get the mutex. The receive buffer `mem`
      lives until the call returns. */
  datatype Pc =
    | Idle
    | Locked(op: Op, call: nat)
    | Waiting(op: Op, call: nat, mem: seq<byte>)
    | Parsed(op: Op, call: nat, mem: seq<byte>)
    | Leaving(op: Op, call: nat, mem: seq<byte>)

  /** A route request that the kernel has handled. */
  datatype Handled = Handled(call: nat, op: RouteOp, accepted: bool)

  /** A dump request that the kernel has answered, with what the buffer of the caller held at that time. */
  datatype Dump = Dump(mem: seq<byte>, ds: seq<Datagram>)

  /** `addr`: a place in the buffer of one call. */
  datatype Spot = Spot(t: Tid, call: nat, offset: nat)

  /** What a call returns: 0, -1, or a word; None when the buffer that `addr` points into is gone. */
  datatype Value = Success | Failure | Address(word: Option<u32>)

  datatype Return = Return(call: nat, op: Op, value: Value)

  /** The fields from `tags` on only record; no step looks at them. `tags` says which call has caused each queued
      reply, `finders` which lookups have found an address, `failed` which route calls could not receive, and `broken`
      that a send or a receive has failed or a lookup has raised the flag. */
  datatype State = State(
    lock: Option<Tid>,
    pcs: map<Tid, Pc>,
    routes: map<u32, u32>,
    replies: seq<seq<byte>>,
    fErr: int,
    addr: Option<Spot>,
    next: nat,
    tags: seq<nat>,
    history: seq<Handled>,
    dumps: map<nat, Dump>,
    finders: set<nat>,
    failed: set<nat>,
    broken: bool,
    results: seq<Return>,
    posts: seq<int>)

  datatype Step =
    | Lock(t: Tid, op: Op)
    | Send(t: Tid, refuse: u32, ds: seq<Datagram>, mem: seq<byte>)
    | SendFails(t: Tid, mem: seq<byte>)
    | Receive(t: Tid)
    | ReceiveFails(t: Tid)
    | Unlock(t: Tid)
    | Leave(t: Tid)
    | Post(t: Tid, accepted: int)

  function PcOf(s: State, t: Tid): Pc {
    if t in s.pcs then s.pcs[t] else Idle
  }

  function Init(routes: map<u32, u32>): State {
    State(None, map[], routes, [], 0, None, 0, [], [], map[], {}, {}, false, [], [])
  }

  predicate Enabled(s: State, a: Step) {
    var pc := PcOf(s, a.t);
    match a
    case Lock(_, op) => s.lock == None && pc.Idle?
    case Send(_, _, ds, mem) => pc.Locked? && |mem| == STACK_BUF && (pc.op.Lookup? ==> ValidDump(ds))
    case SendFails(_, mem) => pc.Locked? && |mem| == STACK_BUF
    case Receive(_) => pc.Waiting? && |pc.mem| == STACK_BUF && s.replies != []
    case ReceiveFails(_) => pc.Waiting? && pc.op.Route?
    case Unlock(_) => pc.Parsed?
    case Leave(_) => pc.Leaving?
    case Post(_, _) => pc.Idle?
  }

  function Repeat(n: nat, v: nat): (r: seq<nat>)
    ensures |r| == n && forall k :: 0 <= k < n ==> r[k] == v
  {
    if n == 0 then [] else [v] + Repeat(n - 1, v)
  }

  function Move(s: State, t: Tid, pc: Pc): State {
    s.(pcs := s.pcs[t := pc])
  }

  lemma LookupSize()
    ensures |EncodeMsg(GetAddrRequest())| == 24
  {
  }

  /** sendmsg: the kernel handles the bytes of the request at once. */
  function AfterSend(s: State, t: Tid, refuse: u32, ds: seq<Datagram>, mem: seq<byte>): State
    requires Enabled(s, Send(t, refuse, ds, mem))
  {
    var pc := PcOf(s, t);
    RequestSizes(if pc.op.Route? then pc.op.op else Add(0, 0));
    LookupSize();
    var req := if pc.op.Route? then RequestBytes(pc.op.op) else EncodeMsg(GetAddrRequest());
    var env := Env(refuse, if pc.op.Route? then [] else DumpBytes(ds));
    var k := Deliver(Kernel(s.routes, s.replies), req, env);
    var accepted := pc.op.Route? && Verdict(s.routes, Understand(req), refuse) == 0;
    Move(s, t, Waiting(pc.op, pc.call, mem)).(
      routes := k.routes,
      replies := k.replies,
      tags := s.tags + Repeat(|k.replies| - |s.replies|, pc.call),
      history := if pc.op.Route? then s.history + [Handled(pc.call, pc.op.op, accepted)] else s.history,
      dumps := if pc.op.Lookup? then s.dumps[pc.call := Dump(mem, ds)] else s.dumps)
  }

  /** One datagram received on top of the buffer, and parsed. */
  function AfterReceive(s: State, t: Tid): State
    requires Enabled(s, Receive(t))
  {
    var pc := PcOf(s, t);
    var m, n := Overlay(pc.mem, s.replies[0]), |Delivered(s.replies[0])|;
    var rest := s.(replies := s.replies[1..], tags := if s.tags == [] then [] else s.tags[1..]);
    match pc.op
    case Route(_) =>
      Move(rest, t, Parsed(pc.op, pc.call, m)).(fErr := if ReplyFails(m, n) then 1 else s.fErr)
    case Lookup(q) =>
      var found := Scan(m, 0, n, q, Found(None, s.fErr));
      Move(rest, t, if Last(Ret(m, 0, n)) then Parsed(pc.op, pc.call, m) else Waiting(pc.op, pc.call, m)).(
        fErr := found.fErr,
        broken := s.broken || found.fErr != s.fErr,
        addr := if found.addr.Some? then Some(Spot(t, pc.call, found.addr.value)) else s.addr,
        finders := if found.addr.Some? then s.finders + {pc.call} else s.finders)
  }

  predicate HasBuffer(pc: Pc) {
    pc.Waiting? || pc.Parsed? || pc.Leaving?
  }

  /** The word behind `addr` at this moment. */
  function Pointed(s: State): Option<u32> {
    match s.addr
    case None => None
    case Some(Spot(u, call, offset)) =>
      var pc := PcOf(s, u);
      if HasBuffer(pc) && pc.call == call && offset + 4 <= |pc.mem| then Some(U32(pc.mem, offset)) else None
  }

  function ValueOf(s: State, op: Op): Value {
    if s.fErr != 0 then Failure else if op.Route? then Success else Address(Pointed(s))
  }

  /** recvmsg fails in a route call: `check` raises the flag, and what the parser then makes of the old contents of the
      buffer can only raise it again. Whatever is queued stays queued. */
  function AfterFailure(s: State, t: Tid): State
    requires Enabled(s, ReceiveFails(t))
  {
    var pc := PcOf(s, t);
    Move(s, t, Parsed(pc.op, pc.call, pc.mem)).(fErr := 1, broken := true, failed := s.failed + {pc.call})
  }

  function Do(s: State, a: Step): State
    requires Enabled(s, a)
  {
    var pc := PcOf(s, a.t);
    match a
    case Lock(t, op) => Move(s, t, Locked(op, s.next)).(lock := Some(t), next := s.next + 1)
    case Send(t, refuse, ds, mem) => AfterSend(s, t, refuse, ds, mem)
    case SendFails(t, mem) => Move(s, t, Waiting(pc.op, pc.call, mem)).(fErr := 1, broken := true)
    case Receive(t) => AfterReceive(s, t)
    case ReceiveFails(t) => AfterFailure(s, t)
    case Unlock(t) => Move(s, t, Leaving(pc.op, pc.call, pc.mem)).(lock := None)
    case Leave(t) => Move(s, t, Idle).(results := s.results + [Return(pc.call, pc.op, ValueOf(s, pc.op))])
    case Post(_, accepted) => s.(posts := s.posts + [if accepted < 0 || s.fErr != 0 then -1 else 0])
  }

  /** The states that the steps lead through from `s` on. */
  predicate IsRun(s: State, steps: seq<Step>)
    decreases |steps|
  {
    steps == [] || (Enabled(s, steps[0]) && IsRun(Do(s, steps[0]), steps[1..]))
  }

  function EndOf(s: State, steps: seq<Step>): State
    requires IsRun(s, steps)
    decreases |steps|
  {
    if steps == [] then s else EndOf(Do(s, steps[0]), steps[1..])
  }

  /** A state that some run of the threads reaches from an idle socket with these routes. */
  ghost predicate Reachable(s: State, routes: map<u32, u32>) {
    exists steps :: IsRun(Init(routes), steps) && EndOf(Init(routes), steps) == s
  }

  lemma LookupDelivered(k: Kernel, env: Env)
    ensures |EncodeMsg(GetAddrRequest())| == 24
    ensures Deliver(k, EncodeMsg(GetAddrRequest()), env) == k.(replies := k.replies + env.dump)
  {
    hide EncodeMsg, Understand, MsgType, Verdict;
    var req := EncodeMsg(GetAddrRequest());
    EncodedMsg(req, 0, GetAddrRequest());
    GetAddrLiteral();
  }

  /** What sending a route request does, whatever is queued. */
  lemma RouteSent(s: State, t: Tid, refuse: u32, ds: seq<Datagram>, mem: seq<byte>)
    requires Enabled(s, Send(t, refuse, ds, mem)) && PcOf(s, t).op.Route?
    ensures var pc := PcOf(s, t);
            var err := Verdict(s.routes, Some(pc.op.op), refuse);
            AfterSend(s, t, refuse, ds, mem) ==
            Move(s, t, Waiting(pc.op, pc.call, mem)).(
              routes := if err == 0 then Update(s.routes, pc.op.op) else s.routes,
              replies := s.replies + [AckBytes(err, pc.op.op)],
              tags := s.tags + [pc.call],
              history := s.history + [Handled(pc.call, pc.op.op, err == 0)])
  {
    hide Deliver, RequestBytes, EncodeMsg, Understand, AckBytes, Verdict, Update, DumpBytes, ValidDump;
    var pc := PcOf(s, t);
    RouteDelivered(Kernel(s.routes, s.replies), pc.op.op, Env(refuse, []));
    UnderstandsRequests(pc.op.op);
    assert Repeat(1, pc.call) == [pc.call];
  }

  lemma LookupSent(s: State, t: Tid, refuse: u32, ds: seq<Datagram>, mem: seq<byte>)
    requires Enabled(s, Send(t, refuse, ds, mem)) && PcOf(s, t).op.Lookup?
    ensures var pc := PcOf(s, t);
            AfterSend(s, t, refuse, ds, mem) ==
            Move(s, t, Waiting(pc.op, pc.call, mem)).(
              replies := s.replies + DumpBytes(ds),
              tags := s.tags + Repeat(|DumpBytes(ds)|, pc.call),
              dumps := s.dumps[pc.call := Dump(mem, ds)])
  {
    hide Deliver, RequestBytes, EncodeMsg, Understand, Verdict, Repeat, DumpBytes, ValidDump;
    var pc := PcOf(s, t);
    LookupDelivered(Kernel(s.routes, s.replies), Env(refuse, DumpBytes(ds)));
  }
}
