/** What holds over all runs of the threads on the shared socket, and what goes wrong in some of them. */
module SharedSocketProps {
  import opened Bytes
  import opened KernelPeer
  import opened KernelPeerProps
  import opened Shared
  import opened RouteRequest
  import opened RouteApi
  import opened RouteRefinement
  import opened AddressDump
  import opened AddressDumpProps
  import opened SharedSocket
  import opened SharedSocketInv

  /** At each point of the run where the mutex is free, nothing is queued. */
  ghost predicate DrainedAlong(s: State, steps: seq<Step>)
    requires IsRun(s, steps)
    decreases |steps|
  {
    (s.lock == None ==> s.replies == []) && (steps != [] ==> DrainedAlong(Do(s, steps[0]), steps[1..]))
  }

  lemma {:induction false} UntidyForGood(s: State, steps: seq<Step>, routes: map<u32, u32>)
    requires Base(s, routes) && IsRun(s, steps) && !TidySoFar(s)
    ensures !TidySoFar(EndOf(s, steps))
    decreases |steps|
  {
    hide Base, Do, Enabled, TidySoFar;
    if steps != [] {
      BaseKeeps(s, steps[0], routes);
      if TidySoFar(Do(s, steps[0])) {
        TidyBefore(s, steps[0], routes);
        assert false;
      }
      UntidyForGood(Do(s, steps[0]), steps[1..], routes);
    }
  }

  /** Only giving up the mutex leaves something behind. */
  lemma OthersStayTidy(s: State, a: Step, routes: map<u32, u32>)
    requires Base(s, routes) && TidySoFar(s) && Enabled(s, a) && !a.Unlock?
    ensures TidySoFar(Do(s, a))
  {
    hide Recorded, Quiet, AfterSend, AfterReceive, PointerRight, Pointed;
    var s' := Do(s, a);
    assert Critical(PcOf(s, a.t)) <==> s.lock == Some(a.t);
    if a.Send? {
      SendTouches(s, a);
    }
    if a.Receive? {
      Received(s, a.t);
    }
    forall c | c in s'.dumps && !HoldsMutex(s', c)
      ensures Quiet(s'.dumps[c])
    {
      assert c in s.dumps && s.dumps[c] == s'.dumps[c] && !HoldsMutex(s, c);
    }
    forall k | 0 <= k < |s'.history| && s'.history[k].call in s'.failed
      ensures HoldsMutex(s', s'.history[k].call)
    {
      if k < |s.history| {
        assert s'.history[k] == s.history[k];
      }
    }
  }

  /** The step that leaves something behind gives up the mutex with something queued. */
  lemma UntidyUnlock(s: State, a: Step, routes: map<u32, u32>)
    requires Inv(s, routes) && TidySoFar(s) && Enabled(s, a) && !TidySoFar(Do(s, a))
    ensures Do(s, a).lock == None && Do(s, a).replies != []
  {
    hide Recorded, FlagRight, Placed, Accounted, Answers, Quiet, AfterSend, AfterReceive, PointerRight, Pointed;
    if a.Unlock? {
      var s', pc := Do(s, a), PcOf(s, a.t);
      assert Critical(pc) && s.lock == Some(a.t);
      if c :| c in s'.dumps && !HoldsMutex(s', c) && !Quiet(s'.dumps[c]) {
        assert c in s.dumps && HoldsMutex(s, c);
      } else {
        var k :| 0 <= k < |s'.history| && s'.history[k].call in s'.failed && !HoldsMutex(s', s'.history[k].call);
        assert HoldsMutex(s, s.history[k].call);
        LastOfHolder(s, routes, k);
      }
      assert LeavesSomething(s, pc);
    } else {
      OthersStayTidy(s, a, routes);
    }
  }

  /** An entry of the call that holds the mutex is the last one. */
  lemma LastOfHolder(s: State, routes: map<u32, u32>, k: nat)
    requires Base(s, routes) && s.lock.Some? && k < |s.history|
    requires Critical(PcOf(s, s.lock.value)) && s.history[k].call == PcOf(s, s.lock.value).call
    ensures k == |s.history| - 1
  {
    hide Effect, Lawful;
    assert s.history[k].call <= s.history[|s.history| - 1].call <= PcOf(s, s.lock.value).call;
  }

  lemma SendTouches(s: State, a: Step)
    requires Enabled(s, a) && a.Send?
    ensures var s', pc := Do(s, a), PcOf(s, a.t);
            && s'.lock == s.lock && s'.pcs == s.pcs[a.t := Waiting(pc.op, pc.call, a.mem)]
            && s'.dumps == (if pc.op.Route? then s.dumps else s.dumps[pc.call := Dump(a.mem, a.ds)])
            && s'.failed == s.failed && s'.next == s.next
            && s.history <= s'.history
            && forall k :: |s.history| <= k < |s'.history| ==> s'.history[k].call == pc.call
  {
    hide Verdict, Update, AckBytes, AfterSend, Repeat, DumpBytes, ValidDump;
    if PcOf(s, a.t).op.Route? {
      RouteSent(s, a.t, a.refuse, a.ds, a.mem);
    } else {
      LookupSent(s, a.t, a.refuse, a.ds, a.mem);
    }
  }

  lemma {:induction false} DrainedIffTidy(s: State, steps: seq<Step>, routes: map<u32, u32>)
    requires Inv(s, routes) && IsRun(s, steps) && TidySoFar(s)
    ensures DrainedAlong(s, steps) <==> TidySoFar(EndOf(s, steps))
    decreases |steps|
  {
    hide Base, Do, Enabled, TidySoFar, FlagRight, Placed, Accounted, Answers;
    if steps != [] {
      var s' := Do(s, steps[0]);
      StepKeeps(s, steps[0], routes);
      if TidySoFar(s') {
        DrainedIffTidy(s', steps[1..], routes);
      } else {
        UntidyUnlock(s, steps[0], routes);
        UntidyForGood(s', steps[1..], routes);
      }
    }
  }

  /** Reply pairing, over every run: nothing is queued at any point where the mutex is free iff no lookup that has given
      up the mutex had a noisy dump, and no route call that has given it up had a request handled whose ACK it then
      failed to receive. */
  lemma PairedIffTidy(steps: seq<Step>, routes: map<u32, u32>)
    requires IsRun(Init(routes), steps)
    ensures DrainedAlong(Init(routes), steps) <==> TidySoFar(EndOf(Init(routes), steps))
  {
    hide Inv, TidySoFar, DrainedAlong;
    InitInv(routes);
    DrainedIffTidy(Init(routes), steps, routes);
  }

  /** In every reachable state at most one thread is in its critical section, and whoever waits with something queued
      can receive. As long as nothing has been left behind, what it receives its own call has caused. */
  lemma RepliesArePaired(s: State, t: Tid, routes: map<u32, u32>)
    requires Reachable(s, routes)
    requires PcOf(s, t).Waiting? && s.replies != []
    ensures s.lock == Some(t) && Enabled(s, Receive(t)) && |s.tags| == |s.replies|
    ensures forall u: Tid :: Critical(PcOf(s, u)) ==> u == t
    ensures TidySoFar(s) ==> s.tags[0] == PcOf(s, t).call
  {
    hide Recorded, FlagRight, Numbered, PointerRight, Accounted, Placed, Answers, Quiet;
    ReachableInv(s, routes);
    assert Critical(PcOf(s, t));
    forall u: Tid | Critical(PcOf(s, u))
      ensures u == t
    {
    }
  }

  /** Once something stays queued with the mutex free, the next call that gets a reply gets one to another call. */
  lemma NextReadsForeign(s: State, t: Tid, op: Op, refuse: u32, ds: seq<Datagram>, mem: seq<byte>,
                         routes: map<u32, u32>)
    requires Reachable(s, routes) && s.lock == None && s.replies != [] && PcOf(s, t).Idle?
    requires |mem| == STACK_BUF && ValidDump(ds)
    ensures var steps := [Lock(t, op), Send(t, refuse, ds, mem)];
            && IsRun(s, steps) && Enabled(EndOf(s, steps), Receive(t)) && EndOf(s, steps).tags != []
            && EndOf(s, steps).tags[0] != PcOf(EndOf(s, steps), t).call
  {
    hide Recorded, Inv, AfterSend, AfterReceive, Repeat, DumpBytes, ValidDump, AckBytes, Update, Verdict, Pointed;
    ReachableInv(s, routes);
    TagsBelow(s, routes);
    var a, b := Lock(t, op), Send(t, refuse, ds, mem);
    var s1 := Do(s, a);
    if op.Route? {
      RouteSent(s1, t, refuse, ds, mem);
    } else {
      LookupSent(s1, t, refuse, ds, mem);
    }
    OneStep(s1, b);
    assert [a, b][1..] == [b];
  }

  lemma TagsBelow(s: State, routes: map<u32, u32>)
    requires Inv(s, routes)
    ensures |s.tags| == |s.replies| && forall k :: 0 <= k < |s.tags| ==> s.tags[k] < s.next
  {
  }

  lemma OneStep(s: State, a: Step)
    requires Enabled(s, a)
    ensures IsRun(s, [a]) && EndOf(s, [a]) == Do(s, a)
  {
    hide Do, Enabled;
    assert [a][1..] == [];
  }

  lemma {:induction false} RunJoin(s: State, a: seq<Step>, b: seq<Step>)
    requires IsRun(s, a) && IsRun(EndOf(s, a), b)
    ensures IsRun(s, a + b) && EndOf(s, a + b) == EndOf(EndOf(s, a), b)
    decreases |a|
  {
    hide Do, Enabled;
    if a == [] {
      assert a + b == b;
    } else {
      assert (a + b)[1..] == a[1..] + b;
      RunJoin(Do(s, a[0]), a[1..], b);
    }
  }

  /** The receive loop of a call ends on what is queued. */
  predicate CanFinish(op: Op, mem: seq<byte>, replies: seq<seq<byte>>)
    requires |mem| == STACK_BUF
    decreases |replies|
  {
    replies != [] &&
    (op.Lookup? ==>
       var m := Overlay(mem, replies[0]);
       Last(Ret(m, 0, |Delivered(replies[0])|)) || CanFinish(op, m, replies[1..]))
  }

  lemma {:induction false} Finish(s: State, t: Tid, routes: map<u32, u32>) returns (steps: seq<Step>)
    requires Base(s, routes) && PcOf(s, t).Waiting? && |PcOf(s, t).mem| == STACK_BUF
    requires CanFinish(PcOf(s, t).op, PcOf(s, t).mem, s.replies)
    ensures IsRun(s, steps) && EndOf(s, steps).lock == None && ReceiveFails(t) !in steps
    decreases |s.replies|
  {
    hide Base, Overlay, Delivered, Ret, Scan, ReplyFails;
    var s1 := Do(s, Receive(t));
    if PcOf(s1, t).Parsed? {
      OneStep(s1, Unlock(t));
      OneStep(s, Receive(t));
      RunJoin(s, [Receive(t)], [Unlock(t)]);
      steps := [Receive(t)] + [Unlock(t)];
    } else {
      BaseKeeps(s, Receive(t), routes);
      var rest := Finish(s1, t, routes);
      OneStep(s, Receive(t));
      RunJoin(s, [Receive(t)], rest);
      steps := [Receive(t)] + rest;
    }
  }

  /** The mutex is held by a call that waits, and whose receive loop cannot end on what is queued. */
  ghost predicate Stalled(s: State, t: Tid, routes: map<u32, u32>) {
    Base(s, routes) && PcOf(s, t).Waiting? && |PcOf(s, t).mem| == STACK_BUF
    && !CanFinish(PcOf(s, t).op, PcOf(s, t).mem, s.replies)
  }

  lemma StalledStep(s: State, t: Tid, a: Step, routes: map<u32, u32>)
    requires Stalled(s, t, routes) && Enabled(s, a)
    ensures s.lock == Some(t) && !a.Lock?
    ensures a != ReceiveFails(t) ==> Stalled(Do(s, a), t, routes)
    ensures a != ReceiveFails(t) ==> Do(s, a).history == s.history && PcOf(Do(s, a), t).op == PcOf(s, t).op
    ensures PcOf(s, t).op.Lookup? ==> a != ReceiveFails(t)
  {
    hide Recorded, Numbered, Distinct, PointerRight, Overlay, Delivered, Ret, Scan, AfterSend, Pointed, ReplyFails;
    assert Critical(PcOf(s, t)) && s.lock == Some(t);
    assert Critical(PcOf(s, a.t)) <==> s.lock == Some(a.t);
    BaseKeeps(s, a, routes);
  }

  lemma {:induction false} Stuck(s: State, t: Tid, steps: seq<Step>, routes: map<u32, u32>)
    requires Stalled(s, t, routes) && IsRun(s, steps)
    requires PcOf(s, t).op.Lookup? || ReceiveFails(t) !in steps
    ensures EndOf(s, steps).lock == Some(t) && PcOf(EndOf(s, steps), t).Waiting?
    ensures EndOf(s, steps).history == s.history && ReceiveFails(t) !in steps
    decreases |steps|
  {
    hide Base, CanFinish, Enabled, Do;
    if steps == [] {
      HeldByWaiting(s, t, routes);
    } else {
      StalledStep(s, t, steps[0], routes);
      assert steps == [steps[0]] + steps[1..];
      Stuck(Do(s, steps[0]), t, steps[1..], routes);
    }
  }

  lemma HeldByWaiting(s: State, t: Tid, routes: map<u32, u32>)
    requires Base(s, routes) && PcOf(s, t).Waiting?
    ensures s.lock == Some(t)
  {
    hide Recorded, Numbered, Distinct, PointerRight;
    assert Critical(PcOf(s, t));
  }

  /** Some run from this state gives up the mutex. */
  ghost predicate CanBeFreed(s: State) {
    exists steps :: IsRun(s, steps) && EndOf(s, steps).lock == None
  }

  /** Some run does so without a failing receive of this thread. */
  ghost predicate FreedByReplies(s: State, t: Tid) {
    exists steps :: IsRun(s, steps) && EndOf(s, steps).lock == None && ReceiveFails(t) !in steps
  }

  /** A waiting call can give up the mutex iff it is a route call, whose receive may fail, or the receive loop ends on
      what is queued. Without such a failure the latter is needed; and as long as nothing has been left behind, it is
      the same as that something is queued. */
  lemma FreedIff(s: State, t: Tid, routes: map<u32, u32>)
    requires Reachable(s, routes) && PcOf(s, t).Waiting?
    ensures |PcOf(s, t).mem| == STACK_BUF
    ensures CanBeFreed(s) <==> PcOf(s, t).op.Route? || CanFinish(PcOf(s, t).op, PcOf(s, t).mem, s.replies)
    ensures FreedByReplies(s, t) <==> CanFinish(PcOf(s, t).op, PcOf(s, t).mem, s.replies)
    ensures TidySoFar(s) ==> (CanFinish(PcOf(s, t).op, PcOf(s, t).mem, s.replies) <==> s.replies != [])
  {
    hide Base, Overlay, Delivered, Ret, Clean, TidySoFar, IsRun, EndOf, CanFinish, Enabled, Do;
    ReachableInv(s, routes);
    var pc := PcOf(s, t);
    BufferHere(s, t, routes);
    if CanFinish(pc.op, pc.mem, s.replies) {
      var steps := Finish(s, t, routes);
    } else if steps :| IsRun(s, steps) && EndOf(s, steps).lock == None && ReceiveFails(t) !in steps {
      Stuck(s, t, steps, routes);
      assert false;
    }
    if pc.op.Route? {
      var steps := GiveUp(s, t);
    } else if !CanFinish(pc.op, pc.mem, s.replies) {
      if steps :| IsRun(s, steps) && EndOf(s, steps).lock == None {
        Stuck(s, t, steps, routes);
        assert false;
      }
    }
    if TidySoFar(s) {
      OwnRepliesSuffice(s, t, routes);
    }
  }

  /** A route call whose receive fails goes on to the unlock. */
  lemma GiveUp(s: State, t: Tid) returns (steps: seq<Step>)
    requires Enabled(s, ReceiveFails(t))
    ensures IsRun(s, steps) && EndOf(s, steps).lock == None && EndOf(s, steps).replies == s.replies
  {
    var s1 := Do(s, ReceiveFails(t));
    OneStep(s1, Unlock(t));
    OneStep(s, ReceiveFails(t));
    RunJoin(s, [ReceiveFails(t)], [Unlock(t)]);
    steps := [ReceiveFails(t)] + [Unlock(t)];
  }

  lemma BufferHere(s: State, t: Tid, routes: map<u32, u32>)
    requires Base(s, routes) && HasBuffer(PcOf(s, t))
    ensures |PcOf(s, t).mem| == STACK_BUF
  {
  }

  lemma OwnRepliesSuffice(s: State, t: Tid, routes: map<u32, u32>)
    requires Base(s, routes) && Clean(s) && PcOf(s, t).Waiting? && |PcOf(s, t).mem| == STACK_BUF
    ensures CanFinish(PcOf(s, t).op, PcOf(s, t).mem, s.replies) <==> s.replies != []
  {
    hide Recorded, FlagRight, Numbered, PointerRight, Accounted, Placed, Quiet, Overlay, Delivered, Ret, AckBytes,
      DumpBytes, ValidDump, MemAfter, DumpPlace, SlotsQuiet;
    var pc := PcOf(s, t);
    assert Critical(pc);
    if s.replies != [] && pc.op.Lookup? {
      assert Answers(s, pc);
      DumpFinishes(pc.mem, s.dumps[pc.call].ds[|s.dumps[pc.call].ds| - |s.replies|..], pc.op);
    }
  }

  lemma {:induction false} DumpFinishes(mem: seq<byte>, ds: seq<Datagram>, op: Op)
    requires |mem| == STACK_BUF && ValidDump(ds) && op.Lookup?
    ensures CanFinish(op, mem, DumpBytes(ds))
    decreases |ds|
  {
    hide Overlay, Delivered, Ret, Scan, DatagramBytes, DumpBytes, MemAfter, DumpPlace, SlotsQuiet, Place;
    LookupReceives(mem, ds, op.q, 0);
    if |ds| > 1 {
      DumpFinishes(Overlay(mem, DumpBytes(ds)[0]), ds[1..], op);
    }
  }

  /** A failed send: from the state that it leads to, every run that gives up the mutex has a failing receive of the
      same call in it; for a lookup there is no such run. */
  lemma FailedSendBlocks(s: State, t: Tid, mem: seq<byte>, routes: map<u32, u32>)
    requires Reachable(s, routes) && TidySoFar(s) && Enabled(s, SendFails(t, mem))
    ensures !FreedByReplies(Do(s, SendFails(t, mem)), t)
    ensures CanBeFreed(Do(s, SendFails(t, mem))) <==> PcOf(s, t).op.Route?
  {
    hide Recorded, FlagRight, Numbered, PointerRight, Accounted, Placed, Quiet, Answers, Distinct, Latest,
      LeavesSomething, AfterFailure;
    ReachableInv(s, routes);
    assert Critical(PcOf(s, t));
    var s' := Do(s, SendFails(t, mem));
    BaseKeeps(s, SendFails(t, mem), routes);
    if steps :| IsRun(s', steps) && EndOf(s', steps).lock == None && ReceiveFails(t) !in steps {
      Stuck(s', t, steps, routes);
      assert false;
    }
    if PcOf(s, t).op.Route? {
      var steps := GiveUp(s', t);
    } else if steps :| IsRun(s', steps) && EndOf(s', steps).lock == None {
      Stuck(s', t, steps, routes);
      assert false;
    }
  }

  /** The updates of all entries of a history. */
  function Updates(routes: map<u32, u32>, h: seq<Handled>): map<u32, u32> {
    if h == [] then routes else Update(Updates(routes, h[..|h| - 1]), h[|h| - 1].op)
  }

  lemma {:induction false} AcceptedUpdates(routes: map<u32, u32>, h: seq<Handled>, n: nat)
    requires n <= |h| && AllAcceptedUpTo(h, n)
    ensures Effect(routes, h[..n]) == Updates(routes, h[..n])
    decreases n
  {
    if n > 0 {
      AcceptedUpdates(routes, h, n - 1);
      assert h[..n][..n - 1] == h[..n - 1];
    }
  }

  /** What a return value of 0 vouches for, as long as nothing has been left behind. When AddUnicastRoutingEntry
      or DeleteEntry is about to return 0, its request and every request settled so far has been accepted, and the
      kernel's routes at the point where its own request was handled are the updates of all requests up to it,
      in the order in which the mutex was taken. */
  lemma ZeroVouches(s: State, t: Tid, routes: map<u32, u32>) returns (k: nat)
    requires Reachable(s, routes) && TidySoFar(s)
    requires PcOf(s, t).Leaving? && PcOf(s, t).op.Route? && s.fErr == 0
    ensures k < |s.history| && s.history[k] == Handled(PcOf(s, t).call, PcOf(s, t).op.op, true)
    ensures forall j :: 0 <= j <= k ==> s.history[j].accepted
    ensures forall j :: k < j < |s.history| ==> PcOf(s, t).call < s.history[j].call
    ensures Effect(routes, s.history[..k + 1]) == Updates(routes, s.history[..k + 1])
  {
    hide Paired, Numbered, PointerRight, Effect, Lawful, Updates, Placed, TidySoFar, Distinct;
    ReachableInv(s, routes);
    var pc := PcOf(s, t);
    assert Accounted(s, pc);
    k :| 0 <= k < Settled(s) && k < |s.history| && s.history[k].call == pc.call && s.history[k].op == pc.op.op;
    AcceptedUpdates(routes, s.history, k + 1);
  }

  /** The kernel's routes are the accepted requests in order, each accepted on routes that it matches. As long as
      nothing has been left behind, the flag is down iff nothing settled has failed, and with the mutex free
      the routes are then the updates of all requests. */
  lemma RoutesAreUpdates(s: State, routes: map<u32, u32>)
    requires Reachable(s, routes)
    ensures s.routes == Effect(routes, s.history) && Lawful(routes, s.history)
    ensures TidySoFar(s) ==> (s.fErr == 0 <==> (!s.broken && AllAcceptedUpTo(s.history, Settled(s))))
    ensures TidySoFar(s) && s.fErr == 0 && s.lock == None ==> s.routes == Updates(routes, s.history)
  {
    hide Paired, Numbered, PointerRight, Effect, Lawful, Updates, Accounted, Placed, TidySoFar, Distinct;
    ReachableInv(s, routes);
    if TidySoFar(s) && s.fErr == 0 && s.lock == None {
      AcceptedUpdates(routes, s.history, |s.history|);
      assert s.history[..|s.history|] == s.history;
    }
  }

  /** The `k`-th entry is the last accepted one on `d`. */
  predicate LastAccepted(h: seq<Handled>, d: u32, k: int) {
    0 <= k < |h| && h[k].accepted && h[k].op.dest == d
    && forall j :: k < j < |h| ==> !h[j].accepted || h[j].op.dest != d
  }

  /** The last accepted request on `d`. */
  function LastAcceptedOp(h: seq<Handled>, d: u32): Option<RouteOp> {
    if h == [] then None
    else if h[|h| - 1].accepted && h[|h| - 1].op.dest == d then Some(h[|h| - 1].op)
    else LastAcceptedOp(h[..|h| - 1], d)
  }

  lemma {:induction false} LastAcceptedIs(h: seq<Handled>, d: u32, k: int)
    ensures LastAccepted(h, d, k) ==> 0 <= k < |h| && LastAcceptedOp(h, d) == Some(h[k].op)
    ensures (forall j :: 0 <= j < |h| && h[j].accepted ==> h[j].op.dest != d) ==> LastAcceptedOp(h, d) == None
    decreases |h|
  {
    if h != [] && !(h[|h| - 1].accepted && h[|h| - 1].op.dest == d) {
      var init := h[..|h| - 1];
      LastAcceptedIs(init, d, k);
      if LastAccepted(h, d, k) {
        assert LastAccepted(init, d, k);
      }
    }
  }

  lemma {:induction false} EffectLaw(routes: map<u32, u32>, h: seq<Handled>, d: u32)
    ensures Stored(routes, Effect(routes, h), LastAcceptedOp(h, d), d)
    decreases |h|
  {
    hide Update;
    if h != [] {
      var init := h[..|h| - 1];
      EffectLaw(routes, init, d);
      UpdateAt(Effect(routes, init), h[|h| - 1].op, d);
    }
  }

  /** In every reachable state, whatever has been left behind: a destination has a route iff the last accepted request
      on it was an add, and then to its next hop; if there is none, it has the route that it started with. */
  lemma RoutesLaw(s: State, routes: map<u32, u32>, d: u32)
    requires Reachable(s, routes)
    ensures forall k :: LastAccepted(s.history, d, k) ==>
              (d in s.routes <==> s.history[k].op.Add?)
              && (s.history[k].op.Add? ==> s.routes[d] == s.history[k].op.nextHop)
    ensures (forall k :: 0 <= k < |s.history| && s.history[k].accepted ==> s.history[k].op.dest != d) ==>
              (d in s.routes <==> d in routes) && (d in s.routes ==> s.routes[d] == routes[d])
  {
    hide Effect, Reachable, TidySoFar, Lawful, Updates, LastAccepted, LastAcceptedOp;
    RoutesAreUpdates(s, routes);
    EffectLaw(routes, s.history, d);
    forall k
      ensures LastAccepted(s.history, d, k) ==>
                0 <= k < |s.history| && LastAcceptedOp(s.history, d) == Some(s.history[k].op)
    {
      LastAcceptedIs(s.history, d, k);
    }
    LastAcceptedIs(s.history, d, 0);
  }

  /** A message that is sent with result 0 says as much as a route call that returns 0. */
  lemma PostVouches(s: State, t: Tid, accepted: int, routes: map<u32, u32>)
    requires Reachable(s, routes) && Enabled(s, Post(t, accepted))
    ensures var s' := Do(s, Post(t, accepted));
            && s'.posts == s.posts + [s'.posts[|s.posts|]] && s' == s.(posts := s'.posts)
            && (s'.posts[|s.posts|] == 0 <==> 0 <= accepted && s.fErr == 0)
            && (TidySoFar(s) && s'.posts[|s.posts|] == 0 ==>
                  !s.broken && AllAcceptedUpTo(s.history, Settled(s))
                  && (s.lock == None ==> s.routes == Updates(routes, s.history)))
  {
    hide Reachable, TidySoFar, Updates, AllAcceptedUpTo;
    RoutesAreUpdates(s, routes);
  }

  lemma StepKeepsError(s: State, a: Step)
    requires Enabled(s, a)
    requires s.fErr != 0
    ensures Do(s, a).fErr != 0
  {
    hide Deliver, Overlay, Delivered, Ret, ReplyFails, Pointed;
    if a.Receive? && PcOf(s, a.t).op.Lookup? {
      var pc := PcOf(s, a.t);
      ScanKeepsError(Overlay(pc.mem, s.replies[0]), 0, |Delivered(s.replies[0])|, pc.op.q, Found(None, s.fErr));
    }
  }

  lemma StepResults(s: State, a: Step)
    requires Enabled(s, a)
    ensures Do(s, a).results == s.results ||
            Do(s, a).results == s.results + [Return(PcOf(s, a.t).call, PcOf(s, a.t).op, ValueOf(s, PcOf(s, a.t).op))]
    ensures Do(s, a).posts == s.posts || (s.fErr != 0 ==> Do(s, a).posts == s.posts + [-1])
  {
    hide Deliver, Overlay, Delivered, Ret, ReplyFails, Scan, Pointed;
  }

  /** The error flag never goes down: whatever the threads do after a failure, from then on every call of
      AddUnicastRoutingEntry, DeleteEntry and GetInterfaceIP, and every send, returns -1. */
  lemma {:induction false} FlagIsSticky(s: State, steps: seq<Step>)
    requires IsRun(s, steps)
    requires s.fErr != 0
    ensures EndOf(s, steps).fErr != 0
    ensures s.results <= EndOf(s, steps).results && s.posts <= EndOf(s, steps).posts
    ensures forall k :: |s.results| <= k < |EndOf(s, steps).results| ==> EndOf(s, steps).results[k].value == Failure
    ensures forall k :: |s.posts| <= k < |EndOf(s, steps).posts| ==> EndOf(s, steps).posts[k] == -1
    decreases |steps|
  {
    hide Do, Enabled;
    if steps != [] {
      StepKeepsError(s, steps[0]);
      StepResults(s, steps[0]);
      FlagIsSticky(Do(s, steps[0]), steps[1..]);
    }
  }

  /** What lookups return. `u` is the latest lookup that has found an address; it has parsed all of its dump and has not
      returned yet. Then every lookup `t` that returns with the flag down returns the answer of the dump of `u`. With
      `t == u`, a lookup that no later one has overtaken returns the answer of its own dump. */
  lemma LookupReturns(s: State, t: Tid, u: Tid, routes: map<u32, u32>)
    requires Reachable(s, routes) && TidySoFar(s) && s.fErr == 0
    requires PcOf(s, t).Leaving? && PcOf(s, t).op.Lookup?
    requires PcOf(s, u).Leaving? || (PcOf(s, u).Parsed? && s.replies == [])
    requires PcOf(s, u).op.Lookup? && forall c :: c in s.finders ==> c <= PcOf(s, u).call
    ensures PcOf(s, u).call in s.dumps && ValidDump(s.dumps[PcOf(s, u).call].ds)
    ensures var ds, q := s.dumps[PcOf(s, u).call].ds, PcOf(s, u).op.q;
            DumpMatch(ds, q).Some? && Word4(DumpMatch(ds, q)) ==>
              && DumpPlace(ds, q).Some?
              && Do(s, Leave(t)).results ==
                 s.results + [Return(PcOf(s, t).call, PcOf(s, t).op, Address(Some(Answer(ds, q))))]
  {
    hide Recorded, Paired, FlagRight, Numbered, Accounted, SlotsQuiet, DumpMatch, DumpPlace, DumpBytes, MemAfter,
      Answer, U32, LastReaching, Later, Effect, Lawful, Quiet, Mutex, Distinct;
    ReachableInv(s, routes);
    var pc := PcOf(s, u);
    assert Placed(s, pc);
    QuietHere(s, u);
    var d := s.dumps[pc.call];
    if DumpMatch(d.ds, pc.op.q).Some? && Word4(DumpMatch(d.ds, pc.op.q)) {
      AnswerRead(d.mem, d.ds, pc.op.q);
      assert Local(s, pc.call) == DumpPlace(d.ds, pc.op.q);
    }
  }

  /** A dump that has been taken in without leaving anything behind was quiet. */
  lemma QuietHere(s: State, t: Tid)
    requires Mutex(s) && Distinct(s) && TidySoFar(s) && Paired(s)
    requires PcOf(s, t).Leaving? || (PcOf(s, t).Parsed? && s.replies == [])
    requires PcOf(s, t).op.Lookup? && PcOf(s, t).call in s.dumps
    ensures Quiet(s.dumps[PcOf(s, t).call])
    ensures ValidDump(s.dumps[PcOf(s, t).call].ds) && |s.dumps[PcOf(s, t).call].mem| == STACK_BUF
  {
    hide Answers, SlotsQuiet, ValidDump;
    assert Critical(PcOf(s, t)) <==> s.lock == Some(t);
    if PcOf(s, t).Leaving? {
      assert !HoldsMutex(s, PcOf(s, t).call);
    } else {
      assert !LeavesSomething(s, PcOf(s, t));
    }
  }

  /** Where no buffer that `addr` could point into is left, a lookup that returns reads a word that the model does not
      know: `addr` is null, or the call that it belongs to has returned. */
  lemma PointerGone(s: State, t: Tid)
    requires PcOf(s, t).Leaving? && PcOf(s, t).op.Lookup? && s.fErr == 0
    requires s.addr.Some? ==>
               forall u: Tid :: PcOf(s, u).Idle? || PcOf(s, u).Locked? || PcOf(s, u).call != s.addr.value.call
    ensures Do(s, Leave(t)).results == s.results + [Return(PcOf(s, t).call, PcOf(s, t).op, Address(None))]
  {
  }

  /** `addr` is read after the mutex has been given up: then it still is a lookup's own iff no lookup that took the
      mutex after it has found an address by that time. */
  lemma PointerIsOwn(s: State, t: Tid, routes: map<u32, u32>)
    requires Reachable(s, routes)
    requires PcOf(s, t).Leaving? && PcOf(s, t).call in s.finders
    ensures Local(s, PcOf(s, t).call).Some? <==> forall c :: c in s.finders ==> c <= PcOf(s, t).call
  {
    hide Clean, Numbered, Recorded, TidySoFar;
    ReachableInv(s, routes);
  }
}
