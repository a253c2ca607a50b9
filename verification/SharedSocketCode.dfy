/** The steps on the shared socket are the code: run one after the other by one thread, they do what the calls do. */
module SharedSocketCode {
  import opened Bytes
  import opened Netlink
  import opened RouteRequest
  import opened KernelPeer
  import opened KernelPeerProps
  import opened Shared
  import opened RouteApi
  import opened AddressDump
  import opened AddressDumpProps
  import opened SharedSocket
  import opened SharedSocketProps
  import opened SharedSocketRuns

  /** The part of the state that the route calls work on. */
  function ApiOf(s: State): Api {
    Api(Kernel(s.routes, s.replies), s.fErr)
  }

  /** The step that a system call takes, failing or not. */
  function SendStep(t: Tid, c: Call): Step {
    if c.faults.send then SendFails(t, c.mem) else Send(t, c.env.refuse, [], c.mem)
  }

  function ReceiveStep(t: Tid, c: Call): Step {
    if c.faults.recv then ReceiveFails(t) else Receive(t)
  }

  /** After the send of a call. */
  function Sent(s: Api, c: Call): Api {
    RequestSizes(c.op);
    Api(if c.faults.send then s.kernel else Deliver(s.kernel, RequestBytes(c.op), c.env),
        if c.faults.send then 1 else s.fErr)
  }

  lemma SendIs(s: State, t: Tid, c: Call)
    requires PcOf(s, t).Locked? && PcOf(s, t).op == Route(c.op) && ValidCall(c)
    ensures Enabled(s, SendStep(t, c))
    ensures var s', pc := Do(s, SendStep(t, c)), PcOf(s, t);
            && ApiOf(s') == Sent(ApiOf(s), c) && s'.lock == s.lock && s'.results == s.results
            && s'.pcs == s.pcs[t := Waiting(pc.op, pc.call, c.mem)]
    ensures c.faults.send || Sent(ApiOf(s), c).kernel.replies != []
  {
    hide Deliver, RequestBytes, AckBytes, Verdict, Update, AfterSend, Repeat, DumpBytes, ValidDump, Pointed;
    RouteDelivered(Kernel(s.routes, s.replies), c.op, c.env);
    if !c.faults.send {
      RouteSent(s, t, c.env.refuse, [], c.mem);
    }
  }

  lemma ReceiveIs(s: State, t: Tid, c: Call, before: Api)
    requires PcOf(s, t).Waiting? && PcOf(s, t).op == Route(c.op) && PcOf(s, t).mem == c.mem && ValidCall(c)
    requires ApiOf(s) == Sent(before, c) && (c.faults.recv || s.replies != [])
    ensures Enabled(s, ReceiveStep(t, c))
    ensures var s', pc := Do(s, ReceiveStep(t, c)), PcOf(s, t);
            && ApiOf(s') == CallEffect(before, c) && s'.lock == s.lock && s'.results == s.results
            && PcOf(s', t).Parsed? && s'.pcs == s.pcs[t := Parsed(pc.op, pc.call, PcOf(s', t).mem)]
  {
    hide Deliver, RequestBytes, Overlay, Delivered, ReplyFails, Pointed;
  }

  lemma LeaveIs(s: State, t: Tid)
    requires PcOf(s, t).Parsed? && PcOf(s, t).op.Route?
    ensures var steps := [Unlock(t), Leave(t)];
            && IsRun(s, steps)
            && var s', pc := EndOf(s, steps), PcOf(s, t);
               && ApiOf(s') == ApiOf(s) && s'.lock == None && PcOf(s', t).Idle?
               && s'.results == s.results + [Return(pc.call, pc.op, if s.fErr == 0 then Success else Failure)]
  {
    hide Pointed, AfterSend, AfterReceive;
    var s1 := Do(s, Unlock(t));
    OneStep(s1, Leave(t));
    RunCons(s, Unlock(t), [Leave(t)]);
  }

  /** For every call of AddUnicastRoutingEntry or DeleteEntry that returns, whatever is queued and whichever system
      calls fail: lock, send, receive, unlock and return is a run, and it leaves routes, replies, flag and result as
      the call does. */
  lemma RouteCallIsRun(s: State, t: Tid, c: Call)
    requires s.lock == None && PcOf(s, t).Idle? && ValidCall(c) && Returns(ApiOf(s), c)
    ensures var steps := [Lock(t, Route(c.op)), SendStep(t, c), ReceiveStep(t, c), Unlock(t), Leave(t)];
            && IsRun(s, steps)
            && var s' := EndOf(s, steps);
               && ApiOf(s') == CallEffect(ApiOf(s), c) && s'.lock == None && PcOf(s', t).Idle?
               && s'.results == s.results + [Return(s.next, Route(c.op), if s'.fErr == 0 then Success else Failure)]
  {
    hide Sent, CallEffect, SendStep, ReceiveStep, AfterSend, AfterReceive, AfterFailure, Pointed, IsRun, EndOf;
    var a, b, r := Lock(t, Route(c.op)), SendStep(t, c), ReceiveStep(t, c);
    var s1 := Do(s, a);
    SendIs(s1, t, c);
    var s2 := Do(s1, b);
    QueuedOrFailed(ApiOf(s), c);
    ReceiveIs(s2, t, c, ApiOf(s));
    var s3 := Do(s2, r);
    LeaveIs(s3, t);
    assert [r] + [Unlock(t), Leave(t)] == [r, Unlock(t), Leave(t)];
    assert [b] + [r, Unlock(t), Leave(t)] == [b, r, Unlock(t), Leave(t)];
    assert [a] + [b, r, Unlock(t), Leave(t)] == [a, b, r, Unlock(t), Leave(t)];
    RunCons(s2, r, [Unlock(t), Leave(t)]);
    RunCons(s1, b, [r, Unlock(t), Leave(t)]);
    RunCons(s, a, [b, r, Unlock(t), Leave(t)]);
  }

  lemma QueuedOrFailed(s: Api, c: Call)
    requires Returns(s, c)
    ensures c.faults.send && !c.faults.recv ==> Sent(s, c).kernel.replies != []
  {
    hide Deliver, RequestBytes;
  }

  /** What a scan finds does not depend on what has been found before, and neither does the flag. */
  lemma {:induction false} ScanApart(m: seq<byte>, i: nat, n: int, q: Query, st: Found, none: Found)
    requires Region(m, i, n) && none.fErr == st.fErr
    ensures var found, bare := Scan(m, i, n, q, st), Scan(m, i, n, q, none.(addr := None));
            found == Found(OrElse(bare.addr, st.addr), bare.fErr)
    decreases n + 3
  {
    hide Scan, Align, LastAttr, U16, U32, Sound, AddressFits;
    ScanStep(m, i, n, q, st);
    ScanStep(m, i, n, q, none.(addr := None));
    if !Halts(m, i, n) && MsgType(m, i) != NLMSG_ERROR {
      var step := Align(MsgLen(m, i));
      if MsgType(m, i) == RTM_NEWADDR {
        var st', bare' := IfaEffect(m, i, q, st), IfaEffect(m, i, q, none.(addr := None));
        ScanApart(m, i + step, n - step, q, st', bare');
        ScanApart(m, i + step, n - step, q, bare', bare');
      } else {
        ScanApart(m, i + step, n - step, q, st, none);
      }
    }
  }

  /** What `addr` is after a lookup that has found `found`. */
  function AddrAfter(before: Option<Spot>, t: Tid, call: nat, found: Option<nat>): Option<Spot> {
    if found.Some? then Some(Spot(t, call, found.value)) else before
  }

  /** `s'` is `s` after the receive loop has ended as `o` says and the mutex has been given up. */
  ghost predicate Drained(s: State, s': State, t: Tid, op: Op, call: nat, addr: Option<Spot>, o: Outcome) {
    && s'.lock == None && s'.replies == o.rest && s'.fErr == o.st.fErr && s'.routes == s.routes
    && s'.addr == AddrAfter(addr, t, call, o.st.addr)
    && s'.results == s.results && s'.pcs == s.pcs[t := Leaving(op, call, o.mem)]
  }

  lemma {:induction false} LoopIsRun(s: State, t: Tid, addr: Option<Spot>, found: Option<nat>)
    returns (steps: seq<Step>)
    requires PcOf(s, t).Waiting? && PcOf(s, t).op.Lookup? && |PcOf(s, t).mem| == STACK_BUF
    requires Served(PcOf(s, t).mem, s.replies)
    requires s.addr == AddrAfter(addr, t, PcOf(s, t).call, found)
    ensures IsRun(s, steps)
    ensures var pc := PcOf(s, t);
            Drained(s, EndOf(s, steps), t, pc.op, pc.call, addr,
                    Drain(pc.mem, s.replies, pc.op.q, Found(found, s.fErr)))
    decreases |s.replies|
  {
    hide Overlay, Delivered, Ret, Scan, Sound, IsRun, EndOf;
    var pc := PcOf(s, t);
    var m, n := Overlay(pc.mem, s.replies[0]), |Delivered(s.replies[0])|;
    var st := Found(found, s.fErr);
    ScanApart(m, 0, n, pc.op.q, st, st);
    var s1 := Do(s, Receive(t));
    OneStep(s, Receive(t));
    var found' := Scan(m, 0, n, pc.op.q, st).addr;
    assert s1.addr == AddrAfter(addr, t, pc.call, found');
    if Last(Ret(m, 0, n)) {
      OneStep(s1, Unlock(t));
      RunJoin(s, [Receive(t)], [Unlock(t)]);
      steps := [Receive(t)] + [Unlock(t)];
    } else {
      var rest := LoopIsRun(s1, t, addr, found');
      RunJoin(s, [Receive(t)], rest);
      steps := [Receive(t)] + rest;
      assert s1.pcs[t := PcOf(EndOf(s, steps), t)] == s.pcs[t := PcOf(EndOf(s, steps), t)];
    }
  }

  /** For every call of GetInterfaceIP on whose replies the loop ends, whatever is queued and whether its send fails
      or not: there is a run of one thread that leaves the queue, the flag and the result as the call does. Where the
      call follows an older pointer, so does the run. */
  lemma LookupIsRun(s: State, t: Tid, q: Query, ds: seq<Datagram>, mem: seq<byte>, fails: bool)
    returns (steps: seq<Step>)
    requires s.lock == None && PcOf(s, t).Idle? && |mem| == STACK_BUF && ValidDump(ds)
    requires Served(mem, Asked(s.replies, Env(0, DumpBytes(ds)), fails))
    ensures IsRun(s, steps)
    ensures var o := Drain(mem, Asked(s.replies, Env(0, DumpBytes(ds)), fails), q,
                           Started(s.fErr, fails));
            var s' := EndOf(s, steps);
            && s'.lock == None && PcOf(s', t).Idle? && s'.routes == s.routes
            && s'.replies == o.rest && s'.fErr == o.st.fErr && s'.addr == AddrAfter(s.addr, t, s.next, o.st.addr)
            && |s'.results| == |s.results| + 1 && s'.results[..|s.results|] == s.results
            && s'.results[|s.results|].call == s.next && s'.results[|s.results|].op == Lookup(q)
            && (o.st.fErr != 0 ==> s'.results[|s.results|].value == Failure)
            && (o.st.fErr == 0 && o.st.addr.Some? ==>
                  o.st.addr.value + 4 <= |o.mem|
                  && s'.results[|s.results|].value == Address(Some(U32(o.mem, o.st.addr.value))))
  {
    hide AfterSend, AfterReceive, DumpBytes, ValidDump, Repeat, Served, Drain, U32, IsRun, EndOf;
    var a := Lock(t, Lookup(q));
    var b := if fails then SendFails(t, mem) else Send(t, 0, ds, mem);
    var s1 := Do(s, a);
    if !fails {
      LookupSent(s1, t, 0, ds, mem);
    }
    var s2 := Do(s1, b);
    OneStep(s, a);
    OneStep(s1, b);
    RunJoin(s, [a], [b]);
    NotYet(s2, t);
    var loop := LoopIsRun(s2, t, s.addr, None);
    RunJoin(s, [a] + [b], loop);
    var s3 := EndOf(s2, loop);
    DrainInBuffer(mem, s2.replies, q, Found(None, s2.fErr));
    OneStep(s3, Leave(t));
    RunJoin(s, [a] + [b] + loop, [Leave(t)]);
    steps := [a] + [b] + loop + [Leave(t)];
  }

  lemma NotYet(s: State, t: Tid)
    requires PcOf(s, t).Waiting?
    ensures s.addr == AddrAfter(s.addr, t, PcOf(s, t).call, None)
  {
  }
}
