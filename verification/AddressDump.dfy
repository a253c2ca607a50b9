/** src/api_if.c: asking for an interface address and picking it out of a dump of datagrams
    that are all received into the same buffer. */
module AddressDump {
  import opened Bytes
  import opened Netlink
  import opened Counters
  import opened Messages
  import opened RouteRequest
  import opened KernelPeer
  import opened Shared

  /** NLM_F_REQUEST | NLM_F_ROOT */
  const DUMP_FLAGS: u16 := 0x101

  /** Interface index and kind of address: 0 asks for IFA_ADDRESS, anything else for IFA_BROADCAST. */
  datatype Query = Query(index: u32, typ: byte)

  /** The globals that parsing updates. */
  datatype Found = Found(addr: Option<nat>, fErr: int)

  function Wanted(typ: byte): u16 {
    if typ == 0 then IFA_ADDRESS else IFA_BROADCAST
  }

  /** What one RTM_NEWADDR message at `i` does. */
  function IfaEffect(m: seq<byte>, i: nat, q: Query, st: Found): Found
    requires i + NLMSG_HDRLEN + IFADDRMSG_LEN <= |m|
    requires i + MsgLen(m, i) <= |m|
  {
    if U32(m, i + 20) == q.index then
      var p := LastAttr(m, i + 24, MsgLen(m, i) - 24, Wanted(q.typ));
      if p.Some? then st.(addr := Some(p.value + RTATTR_LEN)) else st
    else if q.index == 0 then st.(fErr := -1)
    else st
  }

  /** What is left of a datagram when the walk stands at `i`; the last message may lack up to 3 bytes of padding. */
  predicate Region(m: seq<byte>, i: nat, n: int) {
    -3 <= n && i + n + SLACK <= |m|
  }

  /** `for_each_nlmsg` ends here. */
  predicate Halts(m: seq<byte>, i: nat, n: int)
    requires Region(m, i, n)
  {
    !NlmsgOk(m, i, n) || MsgType(m, i) == NLMSG_DONE
  }

  /** NLMSG_NEXT. */
  function NextStep(m: seq<byte>, i: nat, n: int): (step: nat)
    requires Region(m, i, n) && NlmsgOk(m, i, n)
    ensures step == Align(MsgLen(m, i)) && NLMSG_HDRLEN <= step <= n + 3
  {
    hide U16, U32;
    Align(MsgLen(m, i))
  }

  /** What one message that is neither DONE nor an error does. */
  function MsgEffect(m: seq<byte>, i: nat, n: int, q: Query, st: Found): Found
    requires Region(m, i, n) && NlmsgOk(m, i, n)
  {
    if MsgType(m, i) == RTM_NEWADDR then IfaEffect(m, i, q, st) else st
  }

  /** The globals after the walk over the messages of one datagram. */
  function Scan(m: seq<byte>, i: nat, n: int, q: Query, st: Found): Found
    requires Region(m, i, n)
    decreases n + 3
  {
    hide U16, U32, LastAttr, IfaEffect, Align;
    if Halts(m, i, n) then st
    else if MsgType(m, i) == NLMSG_ERROR then st.(fErr := -1)
    else
      var step := NextStep(m, i, n);
      Scan(m, i + step, n - step, q, MsgEffect(m, i, n, q, st))
  }

  /** What `parse_nl_if_msg` returns: the type in the slot where the walk ends. */
  function Ret(m: seq<byte>, i: nat, n: int): u32
    requires Region(m, i, n)
    decreases n + 3
  {
    hide U16, U32, Align;
    if Halts(m, i, n) then MsgType(m, i)
    else if MsgType(m, i) == NLMSG_ERROR then MINUS_ONE
    else Ret(m, i + NextStep(m, i, n), n - NextStep(m, i, n))
  }

  /** An address message holds its fixed part, and no attribute of it is padded past its end. */
  predicate AddressFits(m: seq<byte>, i: nat)
    requires i + NLMSG_HDRLEN <= |m| && i + MsgLen(m, i) <= |m|
  {
    24 <= MsgLen(m, i) && !Overhangs(AttrRecord, m, i + 24, MsgLen(m, i) - 24)
  }

  /** None of the unsigned counters wraps on this walk: no message that it meets is padded past the end, nor is an
      attribute of an address message. */
  predicate Sound(m: seq<byte>, i: nat, n: int)
    requires Region(m, i, n)
    decreases n + 3
  {
    hide U16, U32, Align, Overhangs;
    Halts(m, i, n) || MsgType(m, i) == NLMSG_ERROR ||
    (NextStep(m, i, n) <= n && (MsgType(m, i) == RTM_NEWADDR ==> AddressFits(m, i))
     && Sound(m, i + NextStep(m, i, n), n - NextStep(m, i, n)))
  }

  /** The request that `get_ip` sends. */
  function GetAddrRequest(): (msg: Message)
    ensures Sized(msg)
  {
    Message(RTM_GETADDR, DUMP_FLAGS, 0, 0, [AF_INET, 0, 0, 0, 0, 0, 0, 0])
  }

  /** Its bytes as they go over the socket. */
  lemma GetAddrLiteral()
    ensures EncodeMsg(GetAddrRequest()) ==
            [24, 0, 0, 0, 22, 0, 1, 1, 0, 0, 0, 0, 0, 0, 0, 0, 2, 0, 0, 0, 0, 0, 0, 0]
  {
    PadFree(GetAddrRequest());
    assert Le32(24) == [24, 0, 0, 0] && Le16(22) == [22, 0] && Le16(0x101) == [1, 1] && Le32(0) == [0, 0, 0, 0];
  }

  lemma GetAddrLayout(m: seq<byte>)
    requires Holds(m, 0, Le32(24)) && Holds(m, 4, Le16(RTM_GETADDR)) && Holds(m, 6, Le16(DUMP_FLAGS))
    requires Holds(m, 8, Le32(0)) && Holds(m, 12, Le32(0)) && Holds(m, 16, GetAddrRequest().body)
    ensures |EncodeMsg(GetAddrRequest())| == 24
    ensures Holds(m, 0, EncodeMsg(GetAddrRequest()))
    ensures MsgType(EncodeMsg(GetAddrRequest()), 0) == RTM_GETADDR
    ensures IsRequest(EncodeMsg(GetAddrRequest())) && WantsDump(EncodeMsg(GetAddrRequest()))
  {
    var msg := GetAddrRequest();
    HoldsJoin(m, 0, Le32(24), Le16(RTM_GETADDR));
    HoldsJoin(m, 0, Le32(24) + Le16(RTM_GETADDR), Le16(DUMP_FLAGS));
    HoldsJoin(m, 0, Le32(24) + Le16(RTM_GETADDR) + Le16(DUMP_FLAGS), Le32(0));
    HoldsJoin(m, 0, Le32(24) + Le16(RTM_GETADDR) + Le16(DUMP_FLAGS) + Le32(0), Le32(0));
    HoldsJoin(m, 0, Header(msg), msg.body);
    PadFree(msg);
    GetAddrLiteral();
    EncodedMsg(EncodeMsg(msg), 0, msg);
  }

  /** `get_ip`: a dump request built in a zeroed buffer. */
  method GetIp(g: Globals, env: Env, fails: bool) returns (r: int)
    modifies g`kernel
    ensures r == if fails then -1 else 0
    ensures g.kernel == old(g.kernel).(replies := Asked(old(g.kernel).replies, env, fails))
  {
    hide EncodeMsg, Le16, U16, U32, IsRequest, WantsDump;
    var buf := new byte[BUFLEN](k => 0);
    Store16(buf, 4, RTM_GETADDR);
    Store16(buf, 6, DUMP_FLAGS);
    Store32(buf, 0, NLMSG_HDRLEN + IFADDRMSG_LEN);
    buf[16] := AF_INET;
    GetAddrLayout(buf[..]);
    HoldsSlice(buf[..], 0, EncodeMsg(GetAddrRequest()));
    var sent := buf[..24];
    r := g.SendMsg(sent, env, fails);
  }

  /** What is queued once the dump has been asked for. */
  function Asked(replies: seq<seq<byte>>, env: Env, fails: bool): seq<seq<byte>> {
    if fails then replies else replies + env.dump
  }

  /** The payload address of the attribute at `p`, or else `other`. */
  function Payload(p: Option<nat>, other: Option<nat>): Option<nat> {
    if p.Some? then Some(p.value + RTATTR_LEN) else other
  }

  lemma IfaEffectIs(m: seq<byte>, ifa: nat, length: nat, q: Query, st: Found)
    requires NLMSG_HDRLEN <= ifa && ifa + IFADDRMSG_LEN + length <= |m|
    requires MsgLen(m, ifa - NLMSG_HDRLEN) == NLMSG_HDRLEN + IFADDRMSG_LEN + length
    ensures IfaEffect(m, ifa - NLMSG_HDRLEN, q, st) ==
            if U32(m, ifa + 4) == q.index then
              st.(addr := Payload(LastAttr(m, ifa + IFADDRMSG_LEN, length, Wanted(q.typ)), st.addr))
            else if q.index == 0 then st.(fErr := -1) else st
  {
    hide LastAttr, U32;
  }

  /** The globals stand for `st`, its address being one in the buffer of `frame`; as long as none has been found
      there, `addr` is what it was before. */
  predicate Stands(g: Globals, st: Found, frame: nat, before: Option<Pointer>)
    reads g
  {
    g.fErr == st.fErr && g.addr == if st.addr.Some? then Some(Pointer(frame, st.addr.value)) else before
  }

  /** `parse_ifa_msg`: the loop keeps its remaining length in a size_t. `buf` is the buffer of `frame`. */
  method ParseIfaMsg(g: Globals, buf: array<byte>, frame: nat, ifa: nat, length: nat, typ: byte,
                     ghost st: Found, ghost before: Option<Pointer>)
    requires NLMSG_HDRLEN <= ifa && ifa + IFADDRMSG_LEN + length <= buf.Length
    requires MsgLen(buf[..], ifa - NLMSG_HDRLEN) == NLMSG_HDRLEN + IFADDRMSG_LEN + length
    requires !Overhangs(AttrRecord, buf[..], ifa + IFADDRMSG_LEN, length)
    requires Stands(g, st, frame, before)
    modifies g`addr, g`fErr
    ensures Stands(g, IfaEffect(buf[..], ifa - NLMSG_HDRLEN, Query(g.interfaceIndex, typ), st), frame, before)
  {
    hide LastAttr, Align, U16, U32, IfaEffect, Overhangs;
    var m := buf[..];
    IfaEffectIs(m, ifa, length, Query(g.interfaceIndex, typ), st);
    if U32(m, ifa + 4) == g.interfaceIndex {
      var rta: nat, len: nat := ifa + IFADDRMSG_LEN, length;
      ghost var found := st.addr;
      while RtaOk(m, rta, len)
        invariant rta + len == ifa + IFADDRMSG_LEN + length
        invariant !Overhangs(AttrRecord, m, rta, len)
        invariant Stands(g, st.(addr := found), frame, before)
        invariant Payload(LastAttr(m, ifa + IFADDRMSG_LEN, length, Wanted(typ)), st.addr)
                  == Payload(LastAttr(m, rta, len, Wanted(typ)), found)
        decreases len
      {
        LastAttrStep(m, rta, len);
        OverhangStep(AttrRecord, m, rta, len);
        var rtaType := AttrType(m, rta);
        if rtaType == IFA_ADDRESS && typ == 0 {
          g.addr := Some(Pointer(frame, rta + RTATTR_LEN));
          found := Some(rta + RTATTR_LEN);
        } else if rtaType == IFA_LOCAL {
        } else if rtaType == IFA_BROADCAST && typ != 0 {
          g.addr := Some(Pointer(frame, rta + RTATTR_LEN));
          found := Some(rta + RTATTR_LEN);
        }
        var step := Align(AttrLen(m, rta));
        rta, len := rta + step, Minus(len, step, SIZE_MOD);
      }
      LastAttrStep(m, rta, len);
    } else if g.interfaceIndex == 0 {
      g.fErr := -1;
    }
  }

  lemma ScanStep(m: seq<byte>, i: nat, n: int, q: Query, st: Found)
    requires Region(m, i, n)
    ensures Halts(m, i, n) ==> Scan(m, i, n, q, st) == st && Ret(m, i, n) == MsgType(m, i)
    ensures !Halts(m, i, n) && MsgType(m, i) == NLMSG_ERROR ==>
              Scan(m, i, n, q, st) == st.(fErr := -1) && Ret(m, i, n) == MINUS_ONE
    ensures !Halts(m, i, n) && MsgType(m, i) != NLMSG_ERROR ==>
              var step := Align(MsgLen(m, i));
              NLMSG_HDRLEN <= step <= n + 3
              && Scan(m, i, n, q, st) ==
                 Scan(m, i + step, n - step, q, if MsgType(m, i) == RTM_NEWADDR then IfaEffect(m, i, q, st) else st)
              && Ret(m, i, n) == Ret(m, i + step, n - step)
              && (Sound(m, i, n) <==>
                  step <= n && (MsgType(m, i) == RTM_NEWADDR ==> AddressFits(m, i)) && Sound(m, i + step, n - step))
    ensures Halts(m, i, n) || MsgType(m, i) == NLMSG_ERROR ==> Sound(m, i, n)
  {
    hide IfaEffect, U16, U32, Align, Overhangs;
  }

  /** `parse_nl_if_msg` on a datagram of `length` bytes in the buffer of `frame`. */
  method ParseNlIfMsg(g: Globals, buf: array<byte>, frame: nat, length: nat, typ: byte,
                      ghost st: Found, ghost before: Option<Pointer>)
    returns (ret: u32)
    requires buf.Length == STACK_BUF && length <= BUFLEN
    requires Sound(buf[..], 0, length)
    requires Stands(g, st, frame, before)
    modifies g`addr, g`fErr
    ensures ret == Ret(buf[..], 0, length)
    ensures Stands(g, Scan(buf[..], 0, length, Query(g.interfaceIndex, typ), st), frame, before)
  {
    hide Scan, Ret, Sound, IfaEffect, Align, U16, U32, Overhangs;
    var m := buf[..];
    ghost var q := Query(g.interfaceIndex, typ);
    ghost var now := st;
    var nl: nat, len: nat := 0, length;
    while NlmsgOk(m, nl, len % U32_MOD) && MsgType(m, nl) != NLMSG_DONE
      invariant nl + len == length && Sound(m, nl, len)
      invariant Stands(g, now, frame, before)
      invariant Scan(m, 0, length, q, st) == Scan(m, nl, len, q, now)
      invariant Ret(m, 0, length) == Ret(m, nl, len)
      decreases len
    {
      ScanStep(m, nl, len, q, now);
      if MsgType(m, nl) == NLMSG_ERROR {
        g.fErr := -1;
        return MINUS_ONE;
      }
      if MsgType(m, nl) == RTM_NEWADDR {
        ParseIfaMsg(g, buf, frame, nl + NLMSG_HDRLEN,
                    (MsgLen(m, nl) - NLMSG_HDRLEN - IFADDRMSG_LEN) % SIZE_MOD, typ, now, before);
        now := IfaEffect(m, nl, q, now);
      }
      var step := Align(MsgLen(m, nl));
      nl, len := nl + step, Minus(len, step, SIZE_MOD);
    }
    ScanStep(m, nl, len, q, now);
    return MsgType(m, nl);
  }

  predicate Last(ret: u32) {
    ret == NLMSG_DONE || ret == NLMSG_ERROR
  }

  /** The receive loop ends on these datagrams, and no counter wraps on the way. */
  predicate Served(mem: seq<byte>, ds: seq<seq<byte>>)
    requires |mem| == STACK_BUF
    decreases |ds|
  {
    ds != [] &&
    var m, n := Overlay(mem, ds[0]), |Delivered(ds[0])|;
    Sound(m, 0, n) && (Last(Ret(m, 0, n)) || Served(m, ds[1..]))
  }

  datatype Outcome = Outcome(mem: seq<byte>, st: Found, rest: seq<seq<byte>>)

  /** The whole receive loop: the buffer, the globals and what is still queued when it ends. */
  function Drain(mem: seq<byte>, ds: seq<seq<byte>>, q: Query, st: Found): (o: Outcome)
    requires |mem| == STACK_BUF && Served(mem, ds)
    ensures |o.mem| == STACK_BUF
    decreases |ds|
  {
    var m, n := Overlay(mem, ds[0]), |Delivered(ds[0])|;
    var st' := Scan(m, 0, n, q, st);
    if Last(Ret(m, 0, n)) then Outcome(m, st', ds[1..]) else Drain(m, ds[1..], q, st')
  }

  /** `addr` points at the payload of an attribute. */
  predicate InBuffer(st: Found) {
    st.addr.Some? ==> 28 <= st.addr.value <= BUFLEN
  }

  lemma {:induction false} ScanInBuffer(m: seq<byte>, i: nat, n: int, q: Query, st: Found)
    requires Region(m, i, n) && i + n <= BUFLEN
    requires InBuffer(st)
    ensures InBuffer(Scan(m, i, n, q, st))
    decreases n + 3
  {
    hide Scan, Align, LastAttr, U16, U32, Sound, Overhangs;
    ScanStep(m, i, n, q, st);
    if !Halts(m, i, n) && MsgType(m, i) != NLMSG_ERROR {
      var step := Align(MsgLen(m, i));
      ScanInBuffer(m, i + step, n - step, q, if MsgType(m, i) == RTM_NEWADDR then IfaEffect(m, i, q, st) else st);
    }
  }

  lemma {:induction false} DrainInBuffer(mem: seq<byte>, ds: seq<seq<byte>>, q: Query, st: Found)
    requires |mem| == STACK_BUF && Served(mem, ds)
    requires InBuffer(st)
    ensures InBuffer(Drain(mem, ds, q, st).st)
    decreases |ds|
  {
    hide Scan, Ret, Sound, Overlay, Delivered, InBuffer;
    var m, n := Overlay(mem, ds[0]), |Delivered(ds[0])|;
    ScanInBuffer(m, 0, n, q, st);
    if !Last(Ret(m, 0, n)) {
      DrainInBuffer(m, ds[1..], q, Scan(m, 0, n, q, st));
    }
  }

  /** `addr` points into the buffer of an earlier call, if anywhere. */
  predicate Older(g: Globals)
    reads g
  {
    g.addr.Some? ==> g.addr.value.frame < g.frames
  }

  /** Nothing found, and the flag up if the request could not be sent. */
  function Started(fErr: int, fails: bool): Found {
    Found(None, if fails then 1 else fErr)
  }

  /** `GetInterfaceIP`. `iface` is the index of the named interface (None for a null name, Some(0) for an
      unknown one); `buf` is the uninitialised buffer on the stack. The result is None when the code follows a
      null pointer, or one into the buffer of an earlier call, whose stack frame is gone. */
  method GetInterfaceIP(g: Globals, iface: Option<u32>, typ: byte, env: Env, fails: bool, buf: array<byte>)
    returns (r: Option<u32>)
    requires buf.Length == STACK_BUF && Older(g)
    requires Served(buf[..], Asked(g.kernel.replies, env, fails))
    modifies g, buf
    ensures Older(g) && g.frames == old(g.frames) + 1
    ensures g.interfaceIndex == if iface.Some? then iface.value else old(g.interfaceIndex)
    ensures var q := Query(g.interfaceIndex, typ);
            var st := Started(old(g.fErr), fails);
            var o := Drain(old(buf[..]), Asked(old(g.kernel.replies), env, fails), q, st);
            && g.kernel == old(g.kernel).(replies := o.rest)
            && buf[..] == o.mem
            && Stands(g, o.st, old(g.frames), old(g.addr))
            && (o.st.addr.Some? ==> o.st.addr.value + 4 <= STACK_BUF)
            && r == if g.fErr != 0 then Some(MINUS_ONE)
                    else if o.st.addr.Some? then Some(U32(o.mem, o.st.addr.value)) else None
  {
    hide Scan, Ret, Sound, Overlay, Delivered, U16, U32;
    if iface.Some? {
      g.interfaceIndex := iface.value;
    }
    var frame := g.frames;
    g.frames := frame + 1;
    var len := GetIp(g, env, fails);
    g.Check(len);
    ghost var q, before := Query(g.interfaceIndex, typ), g.addr;
    ghost var st := Found(None, g.fErr);
    ghost var o := Drain(buf[..], g.kernel.replies, q, st);
    DrainInBuffer(buf[..], g.kernel.replies, q, st);
    ghost var routes := g.kernel.routes;
    var more := true;
    while more
      invariant g.interfaceIndex == q.index && g.kernel.routes == routes && g.frames == frame + 1
      invariant Stands(g, st, frame, before)
      invariant more ==> Served(buf[..], g.kernel.replies) && Drain(buf[..], g.kernel.replies, q, st) == o
      invariant !more ==> o == Outcome(buf[..], st, g.kernel.replies)
      decreases more, |g.kernel.replies|
    {
      len := g.GetMsg(buf, false);
      g.Check(len);
      var ret := ParseNlIfMsg(g, buf, frame, len, typ, st, before);
      st := Scan(buf[..], 0, len, q, st);
      more := !(ret == NLMSG_DONE || ret == NLMSG_ERROR);
    }
    if g.fErr != 0 {
      return Some(MINUS_ONE);
    }
    if g.addr.Some? && g.addr.value.frame == frame {
      return Some(U32(buf[..], g.addr.value.offset));
    }
    return None;
  }
}
