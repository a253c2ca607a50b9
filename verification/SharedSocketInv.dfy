/** What every step of the threads on the shared socket keeps. */
module SharedSocketInv {
  import opened Bytes
  import opened Netlink
  import opened Messages
  import opened RouteRequest
  import opened KernelPeer
  import opened KernelPeerProps
  import opened Shared
  import opened RouteApi
  import opened RouteRefinement
  import opened AddressDump
  import opened AddressDumpProps
  import opened SharedSocket

  predicate Critical(pc: Pc) {
    pc.Locked? || pc.Waiting? || pc.Parsed?
  }

  /** The holder of the mutex, and nobody else, is in its critical section. */
  ghost predicate Mutex(s: State) {
    forall t: Tid :: Critical(PcOf(s, t)) <==> s.lock == Some(t)
  }

  predicate HoldsMutex(s: State, call: nat) {
    s.lock.Some? && !PcOf(s, s.lock.value).Idle? && PcOf(s, s.lock.value).call == call
  }

  /** The slots behind the datagrams of a dump were quiet for the buffer that they were received into. */
  predicate Quiet(d: Dump) {
    |d.mem| == STACK_BUF && ValidDump(d.ds) && SlotsQuiet(d.mem, d.ds)
  }

  /** No lookup that has given up the mutex had a noisy dump, and no route call that has given it up failed to receive
      the ACK of a request that the kernel had handled. */
  ghost predicate TidySoFar(s: State) {
    && (forall c :: c in s.dumps && !HoldsMutex(s, c) ==> Quiet(s.dumps[c]))
    && (forall k :: 0 <= k < |s.history| && s.history[k].call in s.failed ==> HoldsMutex(s, s.history[k].call))
  }

  /** The kernel's routes after the accepted entries of a history. */
  function Effect(routes: map<u32, u32>, h: seq<Handled>): map<u32, u32> {
    if h == [] then routes else
      var before := Effect(routes, h[..|h| - 1]);
      if h[|h| - 1].accepted then Update(before, h[|h| - 1].op) else before
  }

  /** An entry is accepted only on routes that it matches. */
  predicate Lawful(routes: map<u32, u32>, h: seq<Handled>) {
    h == [] ||
    (Lawful(routes, h[..|h| - 1])
     && (h[|h| - 1].accepted ==> Matches(Effect(routes, h[..|h| - 1]), h[|h| - 1].op)))
  }

  predicate Ascending(h: seq<Handled>) {
    forall j, k :: 0 <= j < k < |h| ==> h[j].call < h[k].call
  }

  ghost predicate Recorded(s: State, routes: map<u32, u32>) {
    s.routes == Effect(routes, s.history) && Lawful(routes, s.history) && Ascending(s.history)
  }

  /** Call numbers follow the order in which the mutex was taken. */
  ghost predicate Numbered(s: State) {
    && (forall t: Tid :: !PcOf(s, t).Idle? ==> PcOf(s, t).call < s.next)
    && (forall k :: 0 <= k < |s.history| ==> s.history[k].call < s.next)
    && (forall k :: 0 <= k < |s.tags| ==> s.tags[k] < s.next)
    && (forall c :: c in s.finders ==> c < s.next)
    && (forall c :: c in s.dumps ==> c < s.next)
    && (forall c :: c in s.failed ==> c < s.next)
    && (forall t: Tid :: !PcOf(s, t).Idle? && PcOf(s, t).call in s.dumps ==> PcOf(s, t).op.Lookup?)
    && (forall t: Tid :: !PcOf(s, t).Idle? && PcOf(s, t).call in s.failed ==> PcOf(s, t).op.Route?)
    && (s.lock.Some? ==>
          var pc := PcOf(s, s.lock.value);
          && (Critical(pc) ==> forall c :: c in s.finders ==> c <= pc.call)
          && (Critical(pc) ==> forall k :: 0 <= k < |s.history| ==> s.history[k].call <= pc.call)
          && (pc.Locked? || pc.Waiting? ==> pc.call !in s.failed)
          && (pc.Locked? ==> pc.call !in s.finders && forall k :: 0 <= k < |s.history| ==> s.history[k].call < pc.call))
  }

  ghost predicate Distinct(s: State) {
    forall t: Tid, u: Tid :: !PcOf(s, t).Idle? && !PcOf(s, u).Idle? && PcOf(s, t).call == PcOf(s, u).call ==> t == u
  }

  ghost predicate Buffers(s: State) {
    |s.tags| == |s.replies| && forall t: Tid :: HasBuffer(PcOf(s, t)) ==> |PcOf(s, t).mem| == STACK_BUF
  }

  /** `addr` belongs to the latest lookup that has found an address. */
  ghost predicate PointerRight(s: State) {
    match s.addr
    case None => s.finders == {}
    case Some(a) =>
      && a.call in s.finders && (forall c :: c in s.finders ==> c <= a.call)
      && forall t: Tid :: !PcOf(s, t).Idle? && PcOf(s, t).call == a.call ==> t == a.t
  }

  /** What holds whatever the dumps are like. */
  ghost predicate Base(s: State, routes: map<u32, u32>) {
    Mutex(s) && Recorded(s, routes) && Numbered(s) && Distinct(s) && Buffers(s) && PointerRight(s)
  }

  /** What the call has found so far. */
  function Local(s: State, call: nat): Option<nat> {
    if s.addr.Some? && s.addr.value.call == call then Some(s.addr.value.offset) else None
  }

  /** The datagrams `rest` are still to come of the dump `d`. */
  ghost predicate StillToCome(d: Dump, rest: seq<Datagram>, mem: seq<byte>, q: Query, found: Option<nat>) {
    && |d.mem| == STACK_BUF == |mem| && ValidDump(d.ds) && ValidDump(rest)
    && (SlotsQuiet(d.mem, d.ds) <==> SlotsQuiet(mem, rest))
    && MemAfter(mem, DumpBytes(rest)) == MemAfter(d.mem, DumpBytes(d.ds))
    && OrElse(DumpPlace(rest, q), found) == DumpPlace(d.ds, q)
  }

  /** The queued replies answer the request that the call of `pc` has sent. */
  ghost predicate Answers(s: State, pc: Pc)
    requires pc.Waiting?
  {
    match pc.op
    case Route(op) =>
      s.history != [] && s.history[|s.history| - 1].call == pc.call && s.history[|s.history| - 1].op == op
      && exists err :: s.replies == [AckBytes(err, op)] && (err == 0 <==> s.history[|s.history| - 1].accepted)
    case Lookup(q) =>
      && pc.call in s.dumps
      && var d := s.dumps[pc.call];
         |s.replies| <= |d.ds| &&
         var rest := d.ds[|d.ds| - |s.replies|..];
         StillToCome(d, rest, pc.mem, q, Local(s, pc.call)) && s.replies == DumpBytes(rest)
  }

  /** The last request that the kernel has handled is that of this call. */
  predicate Latest(s: State, call: nat) {
    s.history != [] && s.history[|s.history| - 1].call == call
  }

  /** After its call has parsed what it has received, something stays queued iff the dump was noisy, or the ACK could
      not be received. */
  predicate LeavesSomething(s: State, pc: Pc) {
    pc.Parsed? &&
    if pc.op.Lookup? then pc.call in s.dumps && !Quiet(s.dumps[pc.call]) else pc.call in s.failed && Latest(s, pc.call)
  }

  ghost predicate Paired(s: State) {
    match s.lock
    case None => s.replies == []
    case Some(t) =>
      var pc := PcOf(s, t);
      && (s.replies != [] ==> forall k :: 0 <= k < |s.tags| ==> !pc.Idle? && s.tags[k] == pc.call)
      && (pc.Locked? ==> s.replies == [])
      && (pc.Waiting? && s.replies != [] ==> Answers(s, pc))
      && (pc.Waiting? && s.replies == [] ==> !Latest(s, pc.call))
      && (pc.Parsed? ==> (s.replies != [] <==> LeavesSomething(s, pc)))
  }

  /** The last entry of the history still waits for its ACK to be parsed. */
  predicate Pending(s: State) {
    s.lock.Some? && PcOf(s, s.lock.value).Waiting? && PcOf(s, s.lock.value).op.Route? && s.replies != []
  }

  function Settled(s: State): int {
    if Pending(s) then |s.history| - 1 else |s.history|
  }

  predicate AllAcceptedUpTo(h: seq<Handled>, n: int) {
    forall k :: 0 <= k < n && k < |h| ==> h[k].accepted
  }

  /** The flag is down iff nothing that has been checked so far has failed. */
  predicate FlagRight(s: State) {
    s.fErr == 0 <==> (!s.broken && AllAcceptedUpTo(s.history, Settled(s)))
  }

  /** Unless something has failed, a route call whose reply has been parsed stands in the settled part of the
      history. */
  ghost predicate Accounted(s: State, pc: Pc) {
    (pc.Parsed? || pc.Leaving?) && pc.op.Route? && !s.broken ==>
      exists k :: 0 <= k < Settled(s) && k < |s.history| && s.history[k].call == pc.call && s.history[k].op == pc.op.op
  }

  /** A lookup that has parsed a quiet dump holds the datagrams of that dump laid over each other; it is a finder iff
      the dump has a match, and if `addr` is its own, it points at the place of the last match. */
  ghost predicate Placed(s: State, pc: Pc) {
    (pc.Parsed? || pc.Leaving?) && pc.op.Lookup? ==>
      && pc.call in s.dumps
      && var d := s.dumps[pc.call];
         Quiet(d) ==>
           && pc.mem == MemAfter(d.mem, DumpBytes(d.ds))
           && (DumpPlace(d.ds, pc.op.q).Some? <==> pc.call in s.finders)
           && (Local(s, pc.call).Some? ==> Local(s, pc.call) == DumpPlace(d.ds, pc.op.q))
  }

  /** What holds as long as nothing has been left behind. */
  ghost predicate Clean(s: State) {
    && Paired(s) && FlagRight(s)
    && (forall t: Tid :: Accounted(s, PcOf(s, t)))
    && (forall t: Tid :: Placed(s, PcOf(s, t)))
  }

  ghost predicate Inv(s: State, routes: map<u32, u32>) {
    Base(s, routes) && (TidySoFar(s) ==> Clean(s))
  }

  lemma InitInv(routes: map<u32, u32>)
    ensures Inv(Init(routes), routes) && TidySoFar(Init(routes))
  {
  }

  lemma EffectStep(routes: map<u32, u32>, h: seq<Handled>, e: Handled)
    ensures Effect(routes, h + [e]) == if e.accepted then Update(Effect(routes, h), e.op) else Effect(routes, h)
    ensures Lawful(routes, h + [e]) <==> Lawful(routes, h) && (e.accepted ==> Matches(Effect(routes, h), e.op))
  {
    assert (h + [e])[..|h|] == h;
  }

  lemma VerdictMatches(routes: map<u32, u32>, op: RouteOp, refuse: u32)
    ensures Verdict(routes, Some(op), refuse) == 0 ==> Matches(routes, op)
  {
  }

  /** The parts that receiving does not look into. */
  lemma Received(s: State, t: Tid)
    requires Enabled(s, Receive(t))
    ensures var s', pc := AfterReceive(s, t), PcOf(s, t);
            var m := Overlay(pc.mem, s.replies[0]);
            && s' == s.(pcs := s'.pcs, replies := s.replies[1..], tags := if s.tags == [] then [] else s.tags[1..],
                        fErr := s'.fErr, addr := s'.addr, finders := s'.finders, broken := s'.broken)
            && (s.broken ==> s'.broken)
            && (PcOf(s', t) == Parsed(pc.op, pc.call, m) || PcOf(s', t) == Waiting(pc.op, pc.call, m))
            && s'.pcs == s.pcs[t := PcOf(s', t)]
            && ((s'.addr == s.addr && s'.finders == s.finders)
                || (s'.addr.Some? && s'.addr.value == Spot(t, pc.call, s'.addr.value.offset)
                    && s'.finders == s.finders + {pc.call}))
  {
    hide Overlay, Scan, Ret, ReplyFails, Delivered;
  }

  lemma LockBase(s: State, t: Tid, op: Op, routes: map<u32, u32>)
    requires Base(s, routes) && Enabled(s, Lock(t, op))
    ensures Base(Do(s, Lock(t, op)), routes)
  {
    hide Effect, Lawful, AfterSend, AfterReceive, Pointed, Ascending;
    var s' := Do(s, Lock(t, op));
    forall u: Tid
      ensures Critical(PcOf(s', u)) <==> s'.lock == Some(u)
    {
      assert Critical(PcOf(s, u)) <==> s.lock == Some(u);
    }
  }

  lemma RecordedStill(s: State, s': State, routes: map<u32, u32>)
    requires s'.routes == s.routes && s'.history == s.history
    ensures Recorded(s', routes) <==> Recorded(s, routes)
  {
  }

  lemma SendFailsBase(s: State, t: Tid, mem: seq<byte>, routes: map<u32, u32>)
    requires Base(s, routes) && Enabled(s, SendFails(t, mem))
    ensures Base(Do(s, SendFails(t, mem)), routes)
  {
    hide Recorded, Pointed;
    var s' := Do(s, SendFails(t, mem));
    RecordedStill(s, s', routes);
    assert Critical(PcOf(s, t)) <==> s.lock == Some(t);
    forall u: Tid
      ensures Critical(PcOf(s', u)) <==> s'.lock == Some(u)
    {
      assert Critical(PcOf(s, u)) <==> s.lock == Some(u);
    }
  }

  lemma ReceiveFailsBase(s: State, t: Tid, routes: map<u32, u32>)
    requires Base(s, routes) && Enabled(s, ReceiveFails(t))
    ensures Base(Do(s, ReceiveFails(t)), routes)
  {
    hide Recorded, Pointed;
    var s' := Do(s, ReceiveFails(t));
    RecordedStill(s, s', routes);
    assert Critical(PcOf(s, t)) <==> s.lock == Some(t);
    forall u: Tid
      ensures Critical(PcOf(s', u)) <==> s'.lock == Some(u)
    {
      assert Critical(PcOf(s, u)) <==> s.lock == Some(u);
    }
  }

  lemma UnlockBase(s: State, t: Tid, routes: map<u32, u32>)
    requires Base(s, routes) && Enabled(s, Unlock(t))
    ensures Base(Do(s, Unlock(t)), routes)
  {
    hide Recorded, Pointed;
    var s' := Do(s, Unlock(t));
    RecordedStill(s, s', routes);
    assert Critical(PcOf(s, t)) <==> s.lock == Some(t);
    forall u: Tid
      ensures Critical(PcOf(s', u)) <==> s'.lock == Some(u)
    {
      assert Critical(PcOf(s, u)) <==> s.lock == Some(u);
    }
  }

  lemma LeaveBase(s: State, t: Tid, routes: map<u32, u32>)
    requires Base(s, routes) && Enabled(s, Leave(t))
    ensures Base(Do(s, Leave(t)), routes)
  {
    hide Recorded, Pointed;
    var s' := Do(s, Leave(t));
    RecordedStill(s, s', routes);
    assert Critical(PcOf(s, t)) <==> s.lock == Some(t);
    forall u: Tid
      ensures Critical(PcOf(s', u)) <==> s'.lock == Some(u)
    {
      assert Critical(PcOf(s, u)) <==> s.lock == Some(u);
    }
  }

  lemma PostBase(s: State, t: Tid, accepted: int, routes: map<u32, u32>)
    requires Base(s, routes) && Enabled(s, Post(t, accepted))
    ensures Base(Do(s, Post(t, accepted)), routes)
  {
    hide Recorded, Pointed;
    var s' := Do(s, Post(t, accepted));
    RecordedStill(s, s', routes);
    assert Critical(PcOf(s, t)) <==> s.lock == Some(t);
    forall u: Tid
      ensures Critical(PcOf(s', u)) <==> s'.lock == Some(u)
    {
      assert Critical(PcOf(s, u)) <==> s.lock == Some(u);
    }
  }

  lemma SendRouteBase(s: State, a: Step, routes: map<u32, u32>)
    requires Base(s, routes) && Enabled(s, a) && a.Send? && PcOf(s, a.t).op.Route?
    ensures Base(Do(s, a), routes)
  {
    hide Effect, Lawful, AfterSend, Update, AckBytes, Verdict, Matches, DumpBytes, ValidDump;
    var s', pc := AfterSend(s, a.t, a.refuse, a.ds, a.mem), PcOf(s, a.t);
    assert Critical(pc) <==> s.lock == Some(a.t);
    RouteSent(s, a.t, a.refuse, a.ds, a.mem);
    var err := Verdict(s.routes, Some(pc.op.op), a.refuse);
    VerdictMatches(s.routes, pc.op.op, a.refuse);
    EffectStep(routes, s.history, Handled(pc.call, pc.op.op, err == 0));
    forall u: Tid
      ensures Critical(PcOf(s', u)) <==> s'.lock == Some(u)
    {
      assert Critical(PcOf(s, u)) <==> s.lock == Some(u);
    }
  }

  lemma SendLookupBase(s: State, a: Step, routes: map<u32, u32>)
    requires Base(s, routes) && Enabled(s, a) && a.Send? && PcOf(s, a.t).op.Lookup?
    ensures Base(Do(s, a), routes)
  {
    hide Effect, Lawful, AfterSend, DumpBytes, ValidDump, Repeat, Ascending;
    var s', pc := AfterSend(s, a.t, a.refuse, a.ds, a.mem), PcOf(s, a.t);
    assert Critical(pc) <==> s.lock == Some(a.t);
    LookupSent(s, a.t, a.refuse, a.ds, a.mem);
    forall u: Tid
      ensures Critical(PcOf(s', u)) <==> s'.lock == Some(u)
    {
      assert Critical(PcOf(s, u)) <==> s.lock == Some(u);
    }
  }

  lemma ReceiveBase(s: State, a: Step, routes: map<u32, u32>)
    requires Base(s, routes) && Enabled(s, a) && a.Receive?
    ensures Base(Do(s, a), routes)
  {
    hide Effect, Lawful, AfterReceive, Overlay;
    var s', pc := AfterReceive(s, a.t), PcOf(s, a.t);
    assert Critical(pc) <==> s.lock == Some(a.t);
    Received(s, a.t);
    forall u: Tid
      ensures Critical(PcOf(s', u)) <==> s'.lock == Some(u)
      ensures !PcOf(s', u).Idle? ==> PcOf(s', u).call < s'.next
      ensures HasBuffer(PcOf(s', u)) ==> |PcOf(s', u).mem| == STACK_BUF
    {
      assert Critical(PcOf(s, u)) <==> s.lock == Some(u);
    }
  }

  lemma BaseKeeps(s: State, a: Step, routes: map<u32, u32>)
    requires Base(s, routes) && Enabled(s, a)
    ensures Base(Do(s, a), routes)
  {
    hide Base, Enabled, Do;
    if a.Send? {
      Sending(s, a);
      if PcOf(s, a.t).op.Route? {
        SendRouteBase(s, a, routes);
      } else {
        SendLookupBase(s, a, routes);
      }
    } else if a.Receive? {
      ReceiveBase(s, a, routes);
    } else if a.Lock? {
      LockBase(s, a.t, a.op, routes);
    } else if a.SendFails? {
      SendFailsBase(s, a.t, a.mem, routes);
    } else if a.ReceiveFails? {
      ReceiveFailsBase(s, a.t, routes);
    } else if a.Unlock? {
      UnlockBase(s, a.t, routes);
    } else if a.Leave? {
      LeaveBase(s, a.t, routes);
    } else {
      PostBase(s, a.t, a.accepted, routes);
    }
  }

  /** What has been left behind stays left behind. */
  lemma TidyBefore(s: State, a: Step, routes: map<u32, u32>)
    requires Base(s, routes) && Enabled(s, a)
    requires TidySoFar(Do(s, a))
    ensures TidySoFar(s)
  {
    hide Effect, Lawful, Update, AckBytes, Verdict, Matches, DumpBytes, ValidDump, Overlay, AfterSend, AfterReceive,
      Repeat, Quiet, Pointed;
    var s', pc := Do(s, a), PcOf(s, a.t);
    assert Critical(pc) <==> s.lock == Some(a.t);
    if a.Send? {
      if pc.op.Route? {
        RouteSent(s, a.t, a.refuse, a.ds, a.mem);
      } else {
        LookupSent(s, a.t, a.refuse, a.ds, a.mem);
      }
    }
    if a.Receive? {
      Received(s, a.t);
    }
    forall c | c in s.dumps && !HoldsMutex(s, c)
      ensures Quiet(s.dumps[c])
    {
      assert c in s'.dumps && s'.dumps[c] == s.dumps[c] && !HoldsMutex(s', c);
    }
    forall k | 0 <= k < |s.history| && s.history[k].call in s.failed
      ensures HoldsMutex(s, s.history[k].call)
    {
      assert s'.history[k] == s.history[k] && s.history[k].call in s'.failed;
    }
  }

  /** From `pc` to `pc'` nothing comes about that `Accounted` and `Placed` speak of. */
  predicate Follows(pc: Pc, pc': Pc) {
    pc' == pc || !(pc'.Parsed? || pc'.Leaving?) || (pc.Parsed? && pc' == Leaving(pc.op, pc.call, pc.mem))
  }

  lemma AccountedStill(s: State, s': State, pc: Pc, pc': Pc)
    requires Accounted(s, pc) && Follows(pc, pc')
    requires s.history <= s'.history && Settled(s) <= Settled(s') && (s.broken ==> s'.broken)
    ensures Accounted(s', pc')
  {
  }

  lemma PlacedStill(s: State, s': State, pc: Pc, pc': Pc)
    requires Placed(s, pc) && Follows(pc, pc')
    requires s'.dumps == s.dumps && s'.addr == s.addr && s'.finders == s.finders
    ensures Placed(s', pc')
  {
    hide Quiet, MemAfter, DumpBytes, DumpPlace;
  }

  lemma AnswersStill(s: State, s': State, pc: Pc)
    requires pc.Waiting? && Answers(s, pc)
    requires s'.history == s.history && s'.replies == s.replies && s'.dumps == s.dumps && s'.addr == s.addr
    ensures Answers(s', pc)
  {
    hide StillToCome, AckBytes, DumpBytes, ValidDump;
  }

  lemma PlainClean(s: State, a: Step, routes: map<u32, u32>)
    requires Base(s, routes) && Clean(s) && Enabled(s, a)
    requires !a.Send? && !a.Receive? && !a.ReceiveFails? && TidySoFar(Do(s, a))
    ensures Clean(Do(s, a))
  {
    hide Effect, Lawful, AfterSend, AfterReceive, Pointed, Answers, Quiet, Placed, Accounted;
    var s', pc := Do(s, a), PcOf(s, a.t);
    assert Critical(pc) <==> s.lock == Some(a.t);
    PcMoves(s, a);
    forall u: Tid
      ensures Accounted(s', PcOf(s', u)) && Placed(s', PcOf(s', u))
    {
      assert Accounted(s, PcOf(s, u)) && Placed(s, PcOf(s, u));
      AccountedStill(s, s', PcOf(s, u), PcOf(s', u));
      PlacedStill(s, s', PcOf(s, u), PcOf(s', u));
    }
    if s.lock.Some? && PcOf(s, s.lock.value).Waiting? && s.replies != [] {
      AnswersStill(s, s', PcOf(s, s.lock.value));
    }
  }

  lemma PcMoves(s: State, a: Step)
    requires Enabled(s, a) && !a.Send? && !a.Receive? && !a.ReceiveFails?
    ensures forall u: Tid :: Follows(PcOf(s, u), PcOf(Do(s, a), u))
  {
    hide AfterSend, AfterReceive, Pointed;
  }

  lemma SendRouteClean(s: State, a: Step, routes: map<u32, u32>)
    requires Base(s, routes) && Clean(s) && Enabled(s, a)
    requires a.Send? && PcOf(s, a.t).op.Route?
    ensures Clean(Do(s, a))
  {
    hide Effect, Lawful, AfterSend, Quiet, Placed, Accounted, AckBytes, Verdict, Update, DumpBytes, ValidDump;
    var s', pc := AfterSend(s, a.t, a.refuse, a.ds, a.mem), PcOf(s, a.t);
    assert Critical(pc) && s.lock == Some(a.t);
    RouteSent(s, a.t, a.refuse, a.ds, a.mem);
    var err := Verdict(s.routes, Some(pc.op.op), a.refuse);
    var e := Handled(pc.call, pc.op.op, err == 0);
    assert s.tags == [] && s'.replies == [AckBytes(err, pc.op.op)] && s'.history == s.history + [e];
    assert Answers(s', PcOf(s', a.t));
    AcceptedPrefix(s.history, e);
    forall u: Tid
      ensures Accounted(s', PcOf(s', u)) && Placed(s', PcOf(s', u))
    {
      assert Accounted(s, PcOf(s, u)) && Placed(s, PcOf(s, u));
      AccountedStill(s, s', PcOf(s, u), PcOf(s', u));
      PlacedStill(s, s', PcOf(s, u), PcOf(s', u));
    }
  }

  lemma AcceptedPrefix(h: seq<Handled>, e: Handled)
    ensures AllAcceptedUpTo(h + [e], |h|) <==> AllAcceptedUpTo(h, |h|)
  {
    assert forall k :: 0 <= k < |h| ==> (h + [e])[k] == h[k];
  }

  lemma PlacedGrows(s: State, s': State, pc: Pc, pc': Pc, call: nat)
    requires Placed(s, pc) && Follows(pc, pc')
    requires !pc.Idle? && pc.call == call ==> !(pc'.Parsed? || pc'.Leaving?)
    requires forall c :: c in s.dumps && c != call ==> c in s'.dumps && s'.dumps[c] == s.dumps[c]
    requires s'.addr == s.addr && s'.finders == s.finders
    ensures Placed(s', pc')
  {
    hide Quiet, MemAfter, DumpBytes, DumpPlace;
  }

  lemma SendLookupClean(s: State, a: Step, routes: map<u32, u32>)
    requires Base(s, routes) && Clean(s) && Enabled(s, a)
    requires a.Send? && PcOf(s, a.t).op.Lookup?
    ensures Clean(Do(s, a))
  {
    hide Effect, Lawful, AfterSend, Quiet, Placed, Accounted, DumpBytes, ValidDump, Repeat, StillToCome;
    var s', pc := AfterSend(s, a.t, a.refuse, a.ds, a.mem), PcOf(s, a.t);
    assert Critical(pc) && s.lock == Some(a.t);
    LookupSent(s, a.t, a.refuse, a.ds, a.mem);
    assert s.tags == [] && s'.replies == DumpBytes(a.ds);
    StartsWhole(s, a.mem, a.ds, pc.op.q, pc.call);
    assert a.ds[0..] == a.ds;
    assert Answers(s', PcOf(s', a.t));
    assert Settled(s') == Settled(s);
    forall u: Tid
      ensures Accounted(s', PcOf(s', u)) && Placed(s', PcOf(s', u))
    {
      assert Accounted(s, PcOf(s, u)) && Placed(s, PcOf(s, u));
      AccountedStill(s, s', PcOf(s, u), PcOf(s', u));
      PlacedGrows(s, s', PcOf(s, u), PcOf(s', u), pc.call);
    }
  }

  lemma StartsWhole(s: State, mem: seq<byte>, ds: seq<Datagram>, q: Query, call: nat)
    requires PointerRight(s) && call !in s.finders
    requires |mem| == STACK_BUF && ValidDump(ds)
    ensures StillToCome(Dump(mem, ds), ds, mem, q, Local(s, call))
  {
    hide SlotsQuiet, MemAfter, DumpPlace, DumpBytes, ValidDatagram;
  }

  lemma RouteReceived(s: State, t: Tid, err: u32)
    requires Enabled(s, Receive(t)) && PcOf(s, t).op.Route? && |s.tags| == |s.replies|
    requires s.replies == [AckBytes(err, PcOf(s, t).op.op)]
    ensures var pc := PcOf(s, t);
            AfterReceive(s, t) ==
            Move(s, t, Parsed(pc.op, pc.call, Overlay(pc.mem, s.replies[0]))).(
              replies := [], tags := [], fErr := if err != 0 then 1 else s.fErr)
  {
    hide AckBytes, Overlay, Delivered, ReplyFails;
    AckParsed(PcOf(s, t).mem, err, PcOf(s, t).op.op);
    assert s.replies[1..] == [] && s.tags[1..] == [];
  }

  lemma AckParsed(mem: seq<byte>, err: u32, op: RouteOp)
    requires |mem| == STACK_BUF
    ensures var d := AckBytes(err, op);
            ReplyFails(Overlay(mem, d), |Delivered(d)|) <==> err != 0
  {
    hide EncodeMsg, Overlay, U32, RequestBytes, ReplyType, Ack;
    AckRoundTrip(mem, err, op);
  }

  lemma ReceiveRouteClean(s: State, a: Step, routes: map<u32, u32>)
    requires Base(s, routes) && Clean(s) && Enabled(s, a)
    requires a.Receive? && PcOf(s, a.t).op.Route?
    ensures Clean(Do(s, a))
  {
    hide Effect, Lawful, AfterReceive, Quiet, Placed, AckBytes, Overlay;
    var s', pc := AfterReceive(s, a.t), PcOf(s, a.t);
    assert Critical(pc) && s.lock == Some(a.t) && Answers(s, pc);
    var op, last := pc.op.op, |s.history| - 1;
    var err :| s.replies == [AckBytes(err, op)] && (err == 0 <==> s.history[last].accepted);
    RouteReceived(s, a.t, err);
    assert s'.replies == [] && s'.tags == [] && Settled(s') == last + 1 && Settled(s) == last;
    assert AllAcceptedUpTo(s.history, last + 1) <==> AllAcceptedUpTo(s.history, last) && s.history[last].accepted;
    forall u: Tid
      ensures Accounted(s', PcOf(s', u)) && Placed(s', PcOf(s', u))
    {
      assert Accounted(s, PcOf(s, u)) && Placed(s, PcOf(s, u));
      if u == a.t {
        assert s'.history[last].call == pc.call;
        RoutePlaced(s', PcOf(s', u));
      } else {
        AccountedStill(s, s', PcOf(s, u), PcOf(s', u));
        PlacedStill(s, s', PcOf(s, u), PcOf(s', u));
      }
    }
  }

  lemma RoutePlaced(s: State, pc: Pc)
    requires !pc.Idle? && pc.op.Route?
    ensures Placed(s, pc)
  {
  }

  /** One datagram of a dump, received and parsed. */
  lemma LookupReceives(mem: seq<byte>, ds: seq<Datagram>, q: Query, fErr: int)
    requires |mem| == STACK_BUF && ValidDump(ds)
    ensures DumpBytes(ds)[0] == DatagramBytes(ds[0])
    ensures var bs := DumpBytes(ds);
            var m, n := Overlay(mem, bs[0]), |Delivered(bs[0])|;
            && Scan(m, 0, n, q, Found(None, fErr)).addr == Place(ds[0].items, 0, q)
            && (fErr != 0 ==> Scan(m, 0, n, q, Found(None, fErr)).fErr != 0)
            && MemAfter(mem, bs) == MemAfter(m, bs[1..])
            && (if |ds| == 1 then
                  Last(Ret(m, 0, n)) && bs[1..] == [] && SlotsQuiet(mem, ds) && MemAfter(mem, bs) == m
                  && DumpPlace(ds, q) == OrElse(None, Place(ds[0].items, 0, q))
                else
                  && bs[1..] == DumpBytes(ds[1..])
                  && (SlotsQuiet(mem, ds) <==> !Last(Ret(m, 0, n)) && SlotsQuiet(m, ds[1..]))
                  && DumpPlace(ds, q) == OrElse(DumpPlace(ds[1..], q), Place(ds[0].items, 0, q)))
  {
    hide Scan, Ret, Sound, Overlay, Delivered, DatagramBytes, SlotsQuiet, MsgType, DumpBytes, Match, Flag, Place,
      DumpPlace, MemAfter, DumpMatch, Later;
    SlotsQuietStep(mem, ds);
    DumpStep(ds, q);
    var st' := DatagramScan(mem, ds[0], q, Found(None, fErr));
    MemStep(mem, DumpBytes(ds));
    var m := Overlay(mem, DatagramBytes(ds[0]));
    MemStep(m, []);
    if fErr != 0 {
      ScanKeepsError(m, 0, |DatagramBytes(ds[0])|, q, Found(None, fErr));
    }
  }

  lemma {:induction false} ScanKeepsError(m: seq<byte>, i: nat, n: int, q: Query, st: Found)
    requires Region(m, i, n)
    requires st.fErr != 0
    ensures Scan(m, i, n, q, st).fErr != 0
    decreases n + 3
  {
    hide Scan, Align, LastAttr, U16, U32, Sound, AddressFits;
    ScanStep(m, i, n, q, st);
    if !Halts(m, i, n) && MsgType(m, i) != NLMSG_ERROR {
      var step := Align(MsgLen(m, i));
      ScanKeepsError(m, i + step, n - step, q, if MsgType(m, i) == RTM_NEWADDR then IfaEffect(m, i, q, st) else st);
    }
  }

  /** The dump of the holder after one more datagram. */
  lemma DumpReceived(d: Dump, rest: seq<Datagram>, mem: seq<byte>, q: Query, found: Option<nat>, fErr: int)
    requires StillToCome(d, rest, mem, q, found)
    ensures DumpBytes(rest)[0] == DatagramBytes(rest[0])
    ensures var bs := DumpBytes(rest);
            var m, n := Overlay(mem, bs[0]), |Delivered(bs[0])|;
            var found' := OrElse(Scan(m, 0, n, q, Found(None, fErr)).addr, found);
            (fErr != 0 ==> Scan(m, 0, n, q, Found(None, fErr)).fErr != 0) &&
            if Last(Ret(m, 0, n)) then
              && (Quiet(d) <==> bs[1..] == [])
              && (Quiet(d) ==> m == MemAfter(d.mem, DumpBytes(d.ds)) && found' == DumpPlace(d.ds, q))
            else
              |rest| > 1 && bs[1..] == DumpBytes(rest[1..]) && StillToCome(d, rest[1..], m, q, found')
  {
    hide Scan, Ret, Sound, Overlay, Delivered, DatagramBytes, SlotsQuiet, MsgType, DumpBytes, Place, DumpPlace,
      MemAfter, ValidDatagram;
    LookupReceives(mem, rest, q, fErr);
  }

  lemma ReceiveLookupClean(s: State, a: Step, routes: map<u32, u32>)
    requires Base(s, routes) && Clean(s) && Enabled(s, a)
    requires a.Receive? && PcOf(s, a.t).op.Lookup?
    ensures Clean(Do(s, a))
  {
    hide Effect, Lawful, Quiet, Overlay, Delivered, Scan, Ret, DumpBytes, ValidDump, DumpPlace, MemAfter, StillToCome,
      DatagramBytes, Accounted;
    var s', pc := AfterReceive(s, a.t), PcOf(s, a.t);
    assert Critical(pc) && s.lock == Some(a.t) && Answers(s, pc);
    var d := s.dumps[pc.call];
    var rest := d.ds[|d.ds| - |s.replies|..];
    DumpReceived(d, rest, pc.mem, pc.op.q, Local(s, pc.call), s.fErr);
    assert rest[1..] == d.ds[|d.ds| - |s'.replies|..];
    assert Settled(s') == Settled(s);
    forall u: Tid
      ensures Accounted(s', PcOf(s', u)) && Placed(s', PcOf(s', u))
    {
      assert Accounted(s, PcOf(s, u)) && Placed(s, PcOf(s, u));
      if u == a.t {
        LookupAccounted(s', PcOf(s', u));
      } else {
        AccountedStill(s, s', PcOf(s, u), PcOf(s', u));
      }
    }
  }

  lemma LookupAccounted(s: State, pc: Pc)
    requires !pc.Idle? && pc.op.Lookup?
    ensures Accounted(s, pc)
  {
  }

  lemma FailureClean(s: State, a: Step, routes: map<u32, u32>)
    requires Base(s, routes) && Clean(s) && Enabled(s, a) && a.ReceiveFails?
    ensures Clean(Do(s, a))
  {
    hide Effect, Lawful, Quiet, Placed, Accounted, AckBytes;
    var s', pc := Do(s, a), PcOf(s, a.t);
    assert Critical(pc) && s.lock == Some(a.t);
    forall u: Tid
      ensures Accounted(s', PcOf(s', u)) && Placed(s', PcOf(s', u))
    {
      assert Placed(s, PcOf(s, u));
      BrokenAccounted(s', PcOf(s', u));
      if u == a.t {
        RoutePlaced(s', PcOf(s', u));
      } else {
        PlacedStill(s, s', PcOf(s, u), PcOf(s', u));
      }
    }
  }

  lemma BrokenAccounted(s: State, pc: Pc)
    requires s.broken
    ensures Accounted(s, pc)
  {
  }

  lemma StepKeeps(s: State, a: Step, routes: map<u32, u32>)
    requires Inv(s, routes) && Enabled(s, a)
    ensures Inv(Do(s, a), routes)
  {
    hide Base, Clean, Do, TidySoFar, Enabled;
    BaseKeeps(s, a, routes);
    if TidySoFar(Do(s, a)) {
      TidyBefore(s, a, routes);
      if a.ReceiveFails? {
        FailureClean(s, a, routes);
      } else if !a.Send? && !a.Receive? {
        PlainClean(s, a, routes);
      } else {
        Sending(s, a);
        if a.Send? && PcOf(s, a.t).op.Route? {
          SendRouteClean(s, a, routes);
        } else if a.Send? {
          SendLookupClean(s, a, routes);
        } else if PcOf(s, a.t).op.Route? {
          ReceiveRouteClean(s, a, routes);
        } else {
          ReceiveLookupClean(s, a, routes);
        }
      }
    }
  }

  lemma Sending(s: State, a: Step)
    requires Enabled(s, a) && (a.Send? || a.Receive?)
    ensures !PcOf(s, a.t).Idle?
  {
  }

  lemma {:induction false} RunKeeps(s: State, steps: seq<Step>, routes: map<u32, u32>)
    requires Inv(s, routes) && IsRun(s, steps)
    ensures Inv(EndOf(s, steps), routes)
    decreases |steps|
  {
    hide Inv, Do, Enabled;
    if steps != [] {
      StepKeeps(s, steps[0], routes);
      RunKeeps(Do(s, steps[0]), steps[1..], routes);
    }
  }

  lemma ReachableInv(s: State, routes: map<u32, u32>)
    requires Reachable(s, routes)
    ensures Inv(s, routes)
  {
    hide Inv;
    var steps :| IsRun(Init(routes), steps) && EndOf(Init(routes), steps) == s;
    InitInv(routes);
    RunKeeps(Init(routes), steps, routes);
  }
}
