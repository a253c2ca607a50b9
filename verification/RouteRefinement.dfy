/** Runs of route calls refine updates of a map from destination to next hop. */
module RouteRefinement {
  import opened Bytes
  import opened Netlink
  import opened Messages
  import opened RouteRequest
  import opened KernelPeer
  import opened KernelPeerProps
  import opened Shared
  import opened RouteApi

  predicate ValidCalls(calls: seq<Call>) {
    forall k :: 0 <= k < |calls| ==> ValidCall(calls[k])
  }

  /** The state after a run of calls, byte by byte. A call that does not return keeps the mutex, and no call follows it;
      here the run goes on from the state in which it waits, with the flag up. */
  function Run(s: Api, calls: seq<Call>): Api
    requires ValidCalls(calls)
  {
    if calls == [] then s else CallEffect(Run(s, calls[..|calls| - 1]), calls[|calls| - 1])
  }

  /** Each call of the run returns. */
  predicate AllReturn(s: Api, calls: seq<Call>)
    requires ValidCalls(calls)
  {
    calls == [] || (AllReturn(s, calls[..|calls| - 1]) && Returns(Run(s, calls[..|calls| - 1]), calls[|calls| - 1]))
  }

  /** The kernel gets the request of a call, and accepts it on these routes. */
  predicate Accepted(routes: map<u32, u32>, c: Call) {
    !c.faults.send && c.env.refuse == 0 && Matches(routes, c.op)
  }

  /** ... and its ACK can be received. */
  predicate Succeeds(routes: map<u32, u32>, c: Call) {
    Accepted(routes, c) && !c.faults.recv
  }

  /** The updates of the accepted calls, in order. */
  function FoldAccepted(routes: map<u32, u32>, calls: seq<Call>): map<u32, u32> {
    if calls == [] then routes else
      var before := FoldAccepted(routes, calls[..|calls| - 1]);
      var c := calls[|calls| - 1];
      if Accepted(before, c) then Update(before, c.op) else before
  }

  /** The updates of all calls, in order. */
  function FoldAll(routes: map<u32, u32>, calls: seq<Call>): map<u32, u32> {
    if calls == [] then routes else Update(FoldAll(routes, calls[..|calls| - 1]), calls[|calls| - 1].op)
  }

  /** Each call succeeds on the routes that the calls before it have left. */
  predicate AllSucceed(routes: map<u32, u32>, calls: seq<Call>) {
    calls == [] ||
    (AllSucceed(routes, calls[..|calls| - 1])
     && Succeeds(FoldAccepted(routes, calls[..|calls| - 1]), calls[|calls| - 1]))
  }

  predicate NoFaults(calls: seq<Call>) {
    forall k :: 0 <= k < |calls| ==> !calls[k].faults.send && !calls[k].faults.recv
  }

  /** The ACK that the kernel queues is read back as the verdict it was made from. */
  lemma AckRoundTrip(mem: seq<byte>, err: u32, op: RouteOp)
    requires |mem| == STACK_BUF
    ensures |RequestBytes(op)| == 52
    ensures var d := EncodeMsg(Ack(err, RequestBytes(op)));
            var m := Overlay(mem, d);
            Delivered(d) == d && ReplyType(m, |d|) == NLMSG_ERROR && U32(m, NLMSG_HDRLEN) == err
  {
    hide EncodeMsg, Header, U16, U32, Le32, RequestBytes;
    RequestLayout(op);
    var ack := Ack(err, RequestBytes(op));
    var d := EncodeMsg(ack);
    var m := Overlay(mem, d);
    EncodedMsg(m, 0, ack);
    HoldsSplit(m, NLMSG_HDRLEN, Le32(err), ack.body[4..]);
    assert ack.body == Le32(err) + ack.body[4..];
    LoadStore32(m, NLMSG_HDRLEN, err);
  }

  /** One call, whatever is queued: the routes change as asked iff the kernel accepts, and a raised flag stays up. */
  lemma CallUpdates(s: Api, c: Call)
    requires ValidCall(c)
    ensures CallEffect(s, c).kernel.routes ==
            if Accepted(s.kernel.routes, c) then Update(s.kernel.routes, c.op) else s.kernel.routes
    ensures s.fErr != 0 ==> CallEffect(s, c).fErr != 0
  {
    hide Deliver, RequestBytes, Overlay, Delivered, ReplyFails, AckBytes, Update, Matches;
    RouteDelivered(s.kernel, c.op, c.env);
  }

  /** One call with nothing queued: the map changes as asked iff the kernel accepts, the flag goes up iff the call
      does not succeed, and something stays queued iff the ACK of a request that was sent cannot be received. */
  lemma CallRefines(s: Api, c: Call)
    requires ValidCall(c)
    requires s.kernel.replies == []
    ensures CallEffect(s, c).kernel.routes ==
            if Accepted(s.kernel.routes, c) then Update(s.kernel.routes, c.op) else s.kernel.routes
    ensures CallEffect(s, c).fErr == if Succeeds(s.kernel.routes, c) then s.fErr else 1
    ensures CallEffect(s, c).kernel.replies != [] <==> !c.faults.send && c.faults.recv
  {
    hide EncodeMsg, U16, U32, Le32, RequestBytes, Overlay, Delivered, MsgType, Deliver, Ack, Update, Matches, ReplyType;
    RouteDelivered(s.kernel, c.op, c.env);
    var err := Verdict(s.kernel.routes, Some(c.op), c.env.refuse);
    AckRoundTrip(c.mem, err, c.op);
  }

  /** End-to-end refinement, for any run of add and delete calls on an idle socket. The kernel's routes
      are always the accepted updates; the last call returns 0 iff every call of the run succeeded,
      and then every call has returned and the routes are the updates of all calls. */
  lemma {:induction false} RunRefines(s: Api, calls: seq<Call>)
    requires ValidCalls(calls)
    requires s.kernel.replies == [] && s.fErr == 0
    ensures Run(s, calls).kernel.routes == FoldAccepted(s.kernel.routes, calls)
    ensures Result(Run(s, calls)) == 0 <==> AllSucceed(s.kernel.routes, calls)
    ensures Result(Run(s, calls)) == 0 ==>
              AllReturn(s, calls) && Run(s, calls).kernel.routes == FoldAll(s.kernel.routes, calls)
    ensures Result(Run(s, calls)) == 0 || NoFaults(calls) ==> Run(s, calls).kernel.replies == []
    decreases |calls|
  {
    if calls != [] {
      hide CallEffect, Accepted, Update;
      var init, last := calls[..|calls| - 1], calls[|calls| - 1];
      RunRefines(s, init);
      CallUpdates(Run(s, init), last);
      if Run(s, init).kernel.replies == [] {
        CallRefines(Run(s, init), last);
      }
    }
  }

  /** What one call does to the routes, whatever is queued. Only the entry of its own destination can change: an add
      that the kernel gets and does not refuse sets it, a delete takes it away if it holds just that next hop. In all
      other cases the routes stay as they are. */
  lemma CallLaw(s: Api, c: Call)
    requires ValidCall(c)
    ensures var before, after, d := s.kernel.routes, CallEffect(s, c).kernel.routes, c.op.dest;
            var handled := !c.faults.send && c.env.refuse == 0;
            var stored := d in before && before[d] == c.op.nextHop;
            && (forall e :: e != d ==> (e in after <==> e in before) && (e in before ==> after[e] == before[e]))
            && (c.op.Add? && handled ==> d in after && after[d] == c.op.nextHop)
            && (c.op.Delete? && handled && stored ==> d !in after)
            && (!handled || (c.op.Delete? && !stored) ==> after == before)
  {
    hide CallEffect, Update;
    CallUpdates(s, c);
    forall e
      ensures var before, after := s.kernel.routes, CallEffect(s, c).kernel.routes;
              e != c.op.dest ==> (e in after <==> e in before) && (e in before ==> after[e] == before[e])
    {
      UpdateAt(s.kernel.routes, c.op, e);
    }
    UpdateAt(s.kernel.routes, c.op, c.op.dest);
  }

  /** ... and what it returns with nothing queued and no earlier failure: 0 iff both system calls and the request
      succeed; a delete of what is not stored returns -1. */
  lemma CallResult(s: Api, c: Call)
    requires ValidCall(c) && s.kernel.replies == [] && s.fErr == 0
    ensures var routes, d := s.kernel.routes, c.op.dest;
            Result(CallEffect(s, c)) ==
              if !c.faults.send && !c.faults.recv && c.env.refuse == 0
                 && (c.op.Add? || (d in routes && routes[d] == c.op.nextHop)) then 0 else -1
  {
    hide CallEffect;
    CallRefines(s, c);
  }

  /** A call judges whatever reply is queued first, its own or not: the flag goes up iff that is a whole message of
      type 2 with a non-zero word at 16. A truncated one passes. */
  lemma ReplyJudged(s: Api, c: Call)
    requires ValidCall(c) && s.kernel.replies != [] && !c.faults.recv && s.fErr == 0
    ensures var d := Delivered(s.kernel.replies[0]);
            var m := Overlay(c.mem, s.kernel.replies[0]);
            && Result(CallEffect(s, c)) ==
               (if c.faults.send || (16 <= |d| && 16 <= U32(m, 0) <= |d| && U16(m, 4) == 2 && U32(m, 16) != 0)
                then -1 else 0)
            && (!c.faults.send ==> |CallEffect(s, c).kernel.replies| == |s.kernel.replies|)
  {
    hide Deliver, RequestBytes, Overlay, Delivered, AckBytes, Update, Matches, U16, U32;
    RouteDelivered(s.kernel, c.op, c.env);
  }

  /** No call after the `k`-th names the destination that it names. */
  predicate LastOn(calls: seq<Call>, d: u32, k: int) {
    0 <= k < |calls| && calls[k].op.dest == d && forall j :: k < j < |calls| ==> calls[j].op.dest != d
  }

  /** The operation of the last call on `d`. */
  function LastOp(calls: seq<Call>, d: u32): Option<RouteOp> {
    if calls == [] then None
    else if calls[|calls| - 1].op.dest == d then Some(calls[|calls| - 1].op)
    else LastOp(calls[..|calls| - 1], d)
  }

  lemma {:induction false} LastOpOn(calls: seq<Call>, d: u32, k: int)
    ensures LastOn(calls, d, k) ==> LastOp(calls, d) == Some(calls[k].op)
    ensures (forall j :: 0 <= j < |calls| ==> calls[j].op.dest != d) ==> LastOp(calls, d) == None
    decreases |calls|
  {
    if calls != [] && calls[|calls| - 1].op.dest != d {
      var init := calls[..|calls| - 1];
      LastOpOn(init, d, k);
      if LastOn(calls, d, k) {
        assert LastOn(init, d, k);
      }
    }
  }

  /** What is stored for `d` after `op`, if there is one, and before otherwise. */
  predicate Stored(before: map<u32, u32>, after: map<u32, u32>, op: Option<RouteOp>, d: u32) {
    match op
    case None => (d in after <==> d in before) && (d in before ==> after[d] == before[d])
    case Some(op) => (d in after <==> op.Add?) && (op.Add? ==> after[d] == op.nextHop)
  }

  lemma {:induction false} RunStores(s: Api, calls: seq<Call>, d: u32)
    requires ValidCalls(calls) && s.kernel.replies == [] && s.fErr == 0
    requires Result(Run(s, calls)) == 0
    ensures Stored(s.kernel.routes, Run(s, calls).kernel.routes, LastOp(calls, d), d)
    decreases |calls|
  {
    hide CallEffect, FoldAccepted, FoldAll, AllSucceed, AllReturn;
    if calls != [] {
      var init, last := calls[..|calls| - 1], calls[|calls| - 1];
      SuccessVouchesForAll(s, calls, |init|);
      RunRefines(s, init);
      RunStores(s, init, d);
      LastCall(Run(s, init), last, d);
    }
  }

  /** A run that ends with 0 leaves a map that anybody can read off the calls: a destination has a route iff the last
      call on it was an add, and then to its next hop; destinations that no call names keep theirs. */
  lemma RunLaw(s: Api, calls: seq<Call>, d: u32)
    requires ValidCalls(calls) && s.kernel.replies == [] && s.fErr == 0
    requires Result(Run(s, calls)) == 0
    ensures var routes := Run(s, calls).kernel.routes;
            && (forall k :: LastOn(calls, d, k) ==>
                  (d in routes <==> calls[k].op.Add?) && (calls[k].op.Add? ==> routes[d] == calls[k].op.nextHop))
            && ((forall k :: 0 <= k < |calls| ==> calls[k].op.dest != d) ==>
                  (d in routes <==> d in s.kernel.routes) && (d in routes ==> routes[d] == s.kernel.routes[d]))
  {
    hide Run, LastOp, LastOn;
    RunStores(s, calls, d);
    forall k
      ensures LastOn(calls, d, k) ==> 0 <= k < |calls| && LastOp(calls, d) == Some(calls[k].op)
    {
      LastOpOn(calls, d, k);
      LastInside(calls, d, k);
    }
    LastOpOn(calls, d, 0);
  }

  lemma LastInside(calls: seq<Call>, d: u32, k: int)
    ensures LastOn(calls, d, k) ==> 0 <= k < |calls|
  {
  }

  /** A call that succeeds, on one entry. */
  lemma LastCall(s: Api, c: Call, d: u32)
    requires ValidCall(c) && s.kernel.replies == [] && s.fErr == 0 && Result(CallEffect(s, c)) == 0
    ensures var before, after := s.kernel.routes, CallEffect(s, c).kernel.routes;
            && (d != c.op.dest ==> (d in after <==> d in before) && (d in before ==> after[d] == before[d]))
            && (d == c.op.dest ==> (d in after <==> c.op.Add?) && (c.op.Add? ==> after[d] == c.op.nextHop))
  {
    hide CallEffect, Accepted, Succeeds, Update;
    CallLaw(s, c);
    CallResult(s, c);
  }

  /** A result of 0 vouches for the whole run before it: the flag never goes down again. */
  lemma {:induction false} SuccessVouchesForAll(s: Api, calls: seq<Call>, k: nat)
    requires ValidCalls(calls)
    requires s.kernel.replies == [] && s.fErr == 0
    requires k <= |calls|
    requires Result(Run(s, calls)) == 0
    ensures Result(Run(s, calls[..k])) == 0
    ensures Run(s, calls[..k]).kernel.routes == FoldAll(s.kernel.routes, calls[..k])
    decreases |calls| - k
  {
    hide FoldAccepted, CallEffect, Accepted, Update;
    RunRefines(s, calls);
    if k == |calls| {
      assert calls[..k] == calls;
    } else {
      SuccessVouchesForAll(s, calls, k + 1);
      RunRefines(s, calls[..k + 1]);
      RunRefines(s, calls[..k]);
      assert calls[..k + 1][..k] == calls[..k];
    }
  }
}
