/** Runs of the threads on the shared socket in which calls return what they should not. */
module SharedSocketRuns {
  import opened Bytes
  import opened Netlink
  import opened Messages
  import opened RouteRequest
  import opened KernelPeer
  import opened KernelPeerProps
  import opened Shared
  import opened RouteApi
  import opened AddressDump
  import opened AddressDumpProps
  import opened SharedSocket
  import opened SharedSocketInv
  import opened SharedSocketProps

  /** `s'` is `s` after the thread has received its dump from its own buffer `mem` on and given up the mutex. */
  ghost predicate LookedUp(s: State, s': State, t: Tid, op: Op, call: nat, mem: seq<byte>, ds: seq<Datagram>)
    requires op.Lookup? && |mem| == STACK_BUF && ValidDump(ds)
  {
    && s'.lock == None && s'.fErr == s.fErr && s'.next == s.next && s'.history == s.history
    && s'.routes == s.routes && s'.results == s.results && s'.dumps == s.dumps
    && |s'.tags| == |s'.replies| < |s.replies| == |ds| && s'.replies == DumpBytes(ds)[|ds| - |s'.replies|..]
    && (s'.replies == [] <==> SlotsQuiet(mem, ds))
    && PcOf(s', t).Leaving? && s'.pcs == s.pcs[t := Leaving(op, call, PcOf(s', t).mem)]
    && (SlotsQuiet(mem, ds) ==>
          && PcOf(s', t).mem == MemAfter(mem, DumpBytes(ds))
          && s'.addr == match DumpPlace(ds, op.q) case None => s.addr case Some(o) => Some(Spot(t, call, o)))
  }

  /** One datagram of the dump. */
  lemma OneDatagram(s: State, t: Tid, ds: seq<Datagram>)
    requires Enabled(s, Receive(t)) && PcOf(s, t).op.Lookup? && PcOf(s, t).op.q.index != 0
    requires ValidDump(ds) && s.replies == DumpBytes(ds) && |s.tags| == |s.replies|
    ensures var s1, pc := Do(s, Receive(t)), PcOf(s, t);
            var m, place := Overlay(pc.mem, s.replies[0]), Place(ds[0].items, 0, pc.op.q);
            && s1 == s.(pcs := s1.pcs, replies := s1.replies, tags := s1.tags, addr := s1.addr, finders := s1.finders,
                        broken := s1.broken)
            && s1.replies == DumpBytes(ds)[1..] && |s1.tags| == |s1.replies| == |ds| - 1
            && s1.addr == (match place case None => s.addr case Some(o) => Some(Spot(t, pc.call, o)))
            && s1.pcs == s.pcs[t := PcOf(s1, t)]
            && if PcOf(s1, t).Parsed? then
                 && PcOf(s1, t) == Parsed(pc.op, pc.call, m) && (|ds| == 1 <==> SlotsQuiet(pc.mem, ds))
                 && (|ds| == 1 ==> MemAfter(pc.mem, DumpBytes(ds)) == m && DumpPlace(ds, pc.op.q) == place)
               else
                 && PcOf(s1, t) == Waiting(pc.op, pc.call, m) && |ds| > 1 && s1.replies == DumpBytes(ds[1..])
                 && (SlotsQuiet(pc.mem, ds) <==> SlotsQuiet(m, ds[1..]))
                 && MemAfter(pc.mem, DumpBytes(ds)) == MemAfter(m, DumpBytes(ds[1..]))
                 && DumpPlace(ds, pc.op.q) == OrElse(DumpPlace(ds[1..], pc.op.q), place)
  {
    hide Overlay, Delivered, Ret, Scan, DatagramBytes, DumpBytes, MemAfter, DumpPlace, SlotsQuiet, Place, ValidDatagram;
    var pc := PcOf(s, t);
    LookupReceives(pc.mem, ds, pc.op.q, s.fErr);
    FirstFlag(pc.mem, ds, pc.op.q, s.fErr);
  }

  /** The datagrams of a dump are received and parsed one after the other. */
  lemma {:induction false} DumpRun(s: State, t: Tid, ds: seq<Datagram>) returns (steps: seq<Step>)
    requires PcOf(s, t).Waiting? && PcOf(s, t).op.Lookup? && |PcOf(s, t).mem| == STACK_BUF
    requires ValidDump(ds) && s.replies == DumpBytes(ds) && |s.tags| == |s.replies|
    requires PcOf(s, t).op.q.index != 0
    ensures IsRun(s, steps)
    ensures LookedUp(s, EndOf(s, steps), t, PcOf(s, t).op, PcOf(s, t).call, PcOf(s, t).mem, ds)
    decreases |ds|
  {
    hide Overlay, DumpBytes, MemAfter, DumpPlace, SlotsQuiet, Place, ValidDatagram, AfterReceive, AfterSend, Pointed,
      IsRun, EndOf;
    OneDatagram(s, t, ds);
    var s1 := Do(s, Receive(t));
    OneStep(s, Receive(t));
    if PcOf(s1, t).Parsed? {
      OneStep(s1, Unlock(t));
      RunJoin(s, [Receive(t)], [Unlock(t)]);
      steps := [Receive(t)] + [Unlock(t)];
    } else {
      var rest := DumpRun(s1, t, ds[1..]);
      RunJoin(s, [Receive(t)], rest);
      steps := [Receive(t)] + rest;
      var s' := EndOf(s, steps);
      assert DumpBytes(ds)[1..][|ds| - 1 - |s'.replies|..] == DumpBytes(ds)[|ds| - |s'.replies|..];
      assert s1.pcs[t := PcOf(s', t)] == s.pcs[t := PcOf(s', t)];
    }
  }

  lemma FirstFlag(mem: seq<byte>, ds: seq<Datagram>, q: Query, fErr: int)
    requires |mem| == STACK_BUF && ValidDump(ds) && q.index != 0
    ensures DumpBytes(ds)[0] == DatagramBytes(ds[0])
    ensures var m, n := Overlay(mem, DatagramBytes(ds[0])), |Delivered(DatagramBytes(ds[0]))|;
            Scan(m, 0, n, q, Found(None, fErr)).fErr == fErr
  {
    hide Overlay, Delivered, Ret, Scan, DatagramBytes, MemAfter, DumpPlace, SlotsQuiet, Place, Flag, Match, Sound;
    var st' := DatagramScan(mem, ds[0], q, Found(None, fErr));
    FlagStays(ds[0].items, q, fErr);
  }

  /** A whole lookup of a known interface, from an idle socket to the unlock. */
  lemma LookupRun(s: State, t: Tid, q: Query, ds: seq<Datagram>, mem: seq<byte>) returns (steps: seq<Step>)
    requires s.lock == None && s.replies == [] && s.tags == [] && PcOf(s, t).Idle?
    requires |mem| == STACK_BUF && ValidDump(ds) && q.index != 0
    ensures IsRun(s, steps)
    ensures var s', op := EndOf(s, steps), Lookup(q);
            && s'.lock == None && s'.fErr == s.fErr && s'.next == s.next + 1 && s'.history == s.history
            && s'.results == s.results && s'.dumps == s.dumps[s.next := Dump(mem, ds)]
            && |s'.tags| == |s'.replies| < |ds|
            && s'.replies == DumpBytes(ds)[|ds| - |s'.replies|..]
            && (s'.replies == [] <==> SlotsQuiet(mem, ds))
            && PcOf(s', t).Leaving? && s'.pcs == s.pcs[t := Leaving(op, s.next, PcOf(s', t).mem)]
            && (SlotsQuiet(mem, ds) ==>
                  && PcOf(s', t).mem == MemAfter(mem, DumpBytes(ds))
                  && s'.addr == match DumpPlace(ds, q) case None => s.addr case Some(o) => Some(Spot(t, s.next, o)))
  {
    hide AfterSend, AfterReceive, DumpBytes, ValidDump, Repeat, MemAfter, DumpPlace, SlotsQuiet, Pointed;
    var a, b := Lock(t, Lookup(q)), Send(t, 0, ds, mem);
    var s1 := Do(s, a);
    LookupSent(s1, t, 0, ds, mem);
    var s2 := Do(s1, b);
    assert [] + DumpBytes(ds) == DumpBytes(ds);
    OneStep(s, a);
    OneStep(s1, b);
    RunJoin(s, [a], [b]);
    var rest := DumpRun(s2, t, ds);
    RunJoin(s, [a] + [b], rest);
    steps := [a] + [b] + rest;
    var s' := EndOf(s, steps);
    assert s2.pcs[t := PcOf(s', t)] == s.pcs[t := PcOf(s', t)];
  }

  /** A datagram of a dump does not look like a failure to a route call. */
  lemma DumpIsNoFailure(mem: seq<byte>, d: Datagram)
    requires |mem| == STACK_BUF && ValidDatagram(d)
    ensures !ReplyFails(Overlay(mem, DatagramBytes(d)), |Delivered(DatagramBytes(d))|)
  {
    hide Overlay, Delivered, Scan, DatagramBytes, Flag, Match, Place, Sound, U16, U32;
    var q := Query(1, 0);
    var m, n := Overlay(mem, DatagramBytes(d)), |DatagramBytes(d)|;
    var st' := DatagramScan(mem, d, q, Found(None, 0));
    ScanStep(m, 0, n, q, Found(None, 0));
  }

  lemma {:induction false} DumpElement(ds: seq<Datagram>, k: nat)
    requires ValidDump(ds) && k < |ds|
    ensures ValidDatagram(ds[k]) && DumpBytes(ds)[k] == DatagramBytes(ds[k])
    decreases k
  {
    hide ValidDatagram, DatagramBytes;
    if k > 0 {
      DumpElement(ds[1..], k - 1);
    }
  }

  /** A call that finds another call's reply takes it for its own: after any lookup with a noisy dump, on any stack, a
      route request that the kernel refuses returns 0. */
  lemma ForeignReplyMisleads(routes: map<u32, u32>, q: Query, ds: seq<Datagram>, mem: seq<byte>,
                             op: RouteOp, refuse: u32)
    returns (steps: seq<Step>)
    requires |mem| == STACK_BUF && ValidDump(ds) && !SlotsQuiet(mem, ds) && q.index != 0 && refuse != 0
    ensures IsRun(Init(routes), steps)
    ensures EndOf(Init(routes), steps).history == [Handled(1, op, false)]
    ensures EndOf(Init(routes), steps).results == [Return(1, Route(op), Success)]
  {
    hide AfterSend, DumpBytes, ValidDump, Repeat, MemAfter, DumpPlace, SlotsQuiet, Pointed, AckBytes, Overlay,
      Delivered, DatagramBytes, ReplyFails, Matches, Update;
    var first := LookupRun(Init(routes), 0, q, ds, mem);
    var s := EndOf(Init(routes), first);
    var k := |ds| - |s.replies|;
    DumpElement(ds, k);
    assert s.replies[0] == DatagramBytes(ds[k]);
    var a, b, c := Lock(1, Route(op)), Send(1, refuse, [], mem), Receive(1);
    var s1 := Do(s, a);
    RouteSent(s1, 1, refuse, [], mem);
    var s2 := Do(s1, b);
    DumpIsNoFailure(mem, ds[k]);
    assert s2.replies[0] == s.replies[0];
    var s3 := Do(s2, c);
    var s4 := Do(s3, Unlock(1));
    OneStep(s4, Leave(1));
    RunCons(s3, Unlock(1), [Leave(1)]);
    RunCons(s2, c, [Unlock(1), Leave(1)]);
    RunCons(s1, b, [c, Unlock(1), Leave(1)]);
    RunCons(s, a, [b, c, Unlock(1), Leave(1)]);
    RunJoin(Init(routes), first, [a, b, c, Unlock(1), Leave(1)]);
    steps := first + [a, b, c, Unlock(1), Leave(1)];
  }

  lemma RunCons(s: State, a: Step, rest: seq<Step>)
    requires Enabled(s, a) && IsRun(Do(s, a), rest)
    ensures IsRun(s, [a] + rest) && EndOf(s, [a] + rest) == EndOf(Do(s, a), rest)
  {
    hide Do, Enabled;
    assert ([a] + rest)[1..] == rest;
  }

  /** There is such a dump for every stack. */
  lemma RefusedButZero(routes: map<u32, u32>, mem: seq<byte>, op: RouteOp, refuse: u32) returns (steps: seq<Step>)
    requires |mem| == STACK_BUF && refuse != 0
    ensures IsRun(Init(routes), steps)
    ensures EndOf(Init(routes), steps).history == [Handled(1, op, false)]
    ensures EndOf(Init(routes), steps).results == [Return(1, Route(op), Success)]
  {
    hide ValidDump, SlotsQuiet, IsRun, EndOf;
    NoisyDumpIsNoisy(mem);
    steps := ForeignReplyMisleads(routes, Query(1, 0), NoisyDump(), mem, op, refuse);
  }

  /** An ACK that could not be received stays behind: the kernel has added the route, nobody has looked anything up, and
      with the mutex free the ACK is still queued. */
  lemma LostAck(routes: map<u32, u32>, dest: u32, nextHop: u32, mem: seq<byte>) returns (steps: seq<Step>)
    requires |mem| == STACK_BUF
    ensures IsRun(Init(routes), steps)
    ensures var s := EndOf(Init(routes), steps);
            && s.lock == None && s.dumps == map[] && s.routes == routes[dest := nextHop]
            && s.history == [Handled(0, Add(dest, nextHop), true)] && s.replies == [AckBytes(0, Add(dest, nextHop))]
            && !TidySoFar(s)
  {
    hide AfterSend, DumpBytes, ValidDump, Repeat, Pointed, AckBytes;
    var op := Add(dest, nextHop);
    var a, b := Lock(0, Route(op)), Send(0, 0, [], mem);
    var s1 := Do(Init(routes), a);
    RouteSent(s1, 0, 0, [], mem);
    var s2 := Do(s1, b);
    OneStep(Do(s2, ReceiveFails(0)), Unlock(0));
    RunCons(s2, ReceiveFails(0), [Unlock(0)]);
    RunCons(s1, b, [ReceiveFails(0), Unlock(0)]);
    RunCons(Init(routes), a, [b, ReceiveFails(0), Unlock(0)]);
    steps := [a] + [b, ReceiveFails(0), Unlock(0)];
    var s := EndOf(Init(routes), steps);
    assert s.history[0].call in s.failed && !HoldsMutex(s, 0);
  }

  /** Lookups are not kept apart once they have given up the mutex: whatever their dumps, if a second one runs before
      the first one returns, the first one returns the answer of the second. */
  lemma PointerTakenAway(routes: map<u32, u32>, q: Query, ds: seq<Datagram>, mem: seq<byte>,
                         q2: Query, ds2: seq<Datagram>, mem2: seq<byte>)
    returns (steps: seq<Step>)
    requires |mem| == STACK_BUF && ValidDump(ds) && SlotsQuiet(mem, ds) && q.index != 0
    requires |mem2| == STACK_BUF && ValidDump(ds2) && SlotsQuiet(mem2, ds2) && q2.index != 0
    requires DumpMatch(ds2, q2).Some? && Word4(DumpMatch(ds2, q2))
    ensures IsRun(Init(routes), steps) && DumpPlace(ds2, q2).Some?
    ensures EndOf(Init(routes), steps).dumps == map[0 := Dump(mem, ds), 1 := Dump(mem2, ds2)]
    ensures EndOf(Init(routes), steps).results == [Return(0, Lookup(q), Address(Some(Answer(ds2, q2))))]
  {
    hide AfterSend, AfterReceive, DumpBytes, ValidDump, MemAfter, DumpPlace, SlotsQuiet, Answer, DumpMatch, U32, Later,
      LastReaching;
    var first := LookupRun(Init(routes), 0, q, ds, mem);
    var s1 := EndOf(Init(routes), first);
    var second := LookupRun(s1, 1, q2, ds2, mem2);
    var s2 := EndOf(s1, second);
    AnswerRead(mem2, ds2, q2);
    assert PcOf(s2, 1).mem == MemAfter(mem2, DumpBytes(ds2));
    assert s2.addr == Some(Spot(1, 1, DumpPlace(ds2, q2).value));
    OneStep(s2, Leave(0));
    RunJoin(Init(routes), first, second);
    RunJoin(Init(routes), first + second, [Leave(0)]);
    steps := first + second + [Leave(0)];
  }

  /** A dump in one datagram, with one address. */
  function OneAddress(index: byte, address: u32): seq<Datagram> {
    [Datagram([AddressItem(index, address)], Some(DONE_MESSAGE))]
  }

  lemma OneAddressIs(mem: seq<byte>, index: byte, address: u32)
    requires |mem| == STACK_BUF
    ensures var ds, q := OneAddress(index, address), Query(index, 0);
            && ValidDump(ds) && SlotsQuiet(mem, ds)
            && DumpMatch(ds, q) == Some(Le32(address)) && DumpPlace(ds, q).Some? && Answer(ds, q) == address
  {
    hide EncodeMsg, U32, Le32, ItemMatch, ItemPlace, ItemMsg, ValidItem, Match, Place, ValidItems, DatagramBytes,
      EncodeItems, AddressItem, DumpBytes, SlotsQuiet, Holds, Later;
    var it, ds, q := AddressItem(index, address), OneAddress(index, address), Query(index, 0);
    DoneSized();
    AddressItemIs(index, address, 0, q);
    SingleItem(it, Some(DONE_MESSAGE), q);
    SlotsQuietStep(mem, ds);
    DumpStep(ds, q);
    LoadStore32(Le32(address), 0, address) by {
      HoldsItself(Le32(address));
    }
  }

  /** So the lookup of interface 1, whose dump holds nothing but `x`, can return the address `y` of interface 2. */
  lemma WrongInterface(routes: map<u32, u32>, mem: seq<byte>, x: u32, y: u32) returns (steps: seq<Step>)
    requires |mem| == STACK_BUF
    ensures IsRun(Init(routes), steps)
    ensures EndOf(Init(routes), steps).dumps == map[0 := Dump(mem, OneAddress(1, x)), 1 := Dump(mem, OneAddress(2, y))]
    ensures EndOf(Init(routes), steps).results == [Return(0, Lookup(Query(1, 0)), Address(Some(y)))]
  {
    hide ValidDump, SlotsQuiet, IsRun, EndOf, Answer, DumpMatch, DumpPlace, OneAddress;
    OneAddressIs(mem, 1, x);
    OneAddressIs(mem, 2, y);
    steps := PointerTakenAway(routes, Query(1, 0), OneAddress(1, x), mem, Query(2, 0), OneAddress(2, y), mem);
  }
}
