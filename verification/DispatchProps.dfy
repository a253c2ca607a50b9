/** What holds in every state that registrations, arrivals and queue threads can reach, however interleaved. */
module DispatchProps {
  import opened Bytes
  import opened PacketFilter
  import opened QueueApi
  import opened Dispatch

  lemma {:induction false} ShownAre(node: Node, q: QueueId, ps: seq<Packet>, p: Packet)
    ensures multiset(Shown(node, q, ps))[p] == if Reaches(node, q, p.raw) then multiset(ps)[p] else 0
    decreases |ps|
  {
    hide Reaches;
    if ps != [] {
      var last := |ps| - 1;
      ShownAre(node, q, ps[..last], p);
      assert ps == ps[..last] + [ps[last]];
    }
  }

  lemma {:induction false} VerdictAt(node: Node, q: QueueId, ps: seq<Packet>, answers: seq<byte>, k: nat)
    requires |answers| == |ps| && k < |ps|
    ensures Verdicts(node, q, ps, answers)[k] == VerdictOn(node, q, ps[k], answers[k])
    decreases |ps|
  {
    var last := |ps| - 1;
    if k < last {
      VerdictAt(node, q, ps[..last], answers[..last], k);
    }
  }

  /** At each point of the run the chains keep control packets out of the data queues. */
  ghost predicate SeparatesAlong(node: Node, s: State, steps: seq<Step>)
    requires IsRun(node, s, steps)
    decreases |steps|
  {
    Separates(s.chains) && (steps != [] ==> SeparatesAlong(node, Do(node, s, steps[0]), steps[1..]))
  }

  /** A flush falls between the two rule commands of a registration; `open` and `cut` say whether one is half done, and
      whether a flush has come since, when these steps start. */
  predicate FlushInside(steps: seq<Step>, open: bool, cut: bool) {
    steps != [] &&
    match steps[0]
    case Begin(_) => FlushInside(steps[1..], true, false)
    case Initialize => FlushInside(steps[1..], open, open)
    case Finish(_, _) => cut || FlushInside(steps[1..], false, false)
    case _ => FlushInside(steps[1..], open, cut)
  }

  predicate SameRules(s: State, s': State) {
    && s'.chains == s.chains && s'.pending == s.pending && s'.done == s.done && s'.held == s.held
    && s'.cut == s.cut && s'.torn == s.torn && s'.mixed == s.mixed
  }

  lemma QueueAlone()
    ensures forall s: State, q: QueueId, v: QueueState :: SameRules(s, WithQueue(s, q, v))
  {
  }

  lemma ArriveAlone(s: State, hook: Hook, p: Packet)
    ensures SameRules(s, AfterArrive(s, hook, p))
  {
    hide Fate, WithQueue, QueueOf;
    QueueAlone();
  }

  lemma ServeAlone(node: Node, s: State, q: QueueId, answer: byte)
    requires QueueOf(s, q).waiting != []
    ensures SameRules(s, AfterServe(node, s, q, answer))
  {
    hide VerdictOn, Reaches, WithQueue, QueueOf;
    QueueAlone();
  }

  lemma StopAlone(s: State, q: QueueId)
    ensures SameRules(s, AfterStop(s, q))
  {
    hide WithQueue, QueueOf, Stopped;
    QueueAlone();
  }

  lemma CrashAlone(s: State)
    ensures SameRules(s, AfterCrash(s))
  {
    hide AfterStop;
    var s0 := s.(crashed := true, started := multiset{});
    var s1 := AfterStop(s0, InControl);
    var s2 := AfterStop(s1, Outgoing);
    StopAlone(s0, InControl);
    StopAlone(s1, Outgoing);
    StopAlone(s2, Forwarded);
    StopAlone(AfterStop(s2, Forwarded), InData);
  }

  /** Steps other than rule commands leave the rules alone. */
  lemma RulesAlone(node: Node, s: State, a: Step)
    requires Enabled(node, s, a) && !a.Begin? && !a.Finish? && !a.Initialize?
    ensures SameRules(s, Do(node, s, a))
  {
    hide AfterArrive, AfterServe, AfterCrash, AfterStop, WithQueue, QueueOf, Reaches;
    if a.Arrive? {
      ArriveAlone(s, a.hook, a.p);
    } else if a.Serve? {
      ServeAlone(node, s, a.q, a.answer);
    } else if a.Stop? {
      StopAlone(s, a.q);
    } else if a.Crash? {
      CrashAlone(s);
    } else {
      QueueAlone();
    }
  }

  lemma {:induction false} MixedIff(node: Node, s: State, steps: seq<Step>)
    requires IsRun(node, s, steps) && (s.cut ==> s.pending.Some?)
    ensures EndOf(node, s, steps).mixed <==> s.mixed || FlushInside(steps, s.pending.Some?, s.cut)
    decreases |steps|
  {
    hide AfterArrive, AfterServe, AfterStop, AfterCrash, Execute, QueueOf, WithQueue, Outcome, Succeeds;
    if steps != [] {
      var a := steps[0];
      if !a.Begin? && !a.Finish? && !a.Initialize? {
        RulesAlone(node, s, a);
      }
      MixedIff(node, Do(node, s, a), steps[1..]);
    }
  }

  lemma WholeSeparates(s: State)
    requires ChainsRight(s) && !s.mixed
    ensures Separates(s.chains)
  {
    hide FirstMatch, IsControl, InRange, ChainsOf;
    forall hook, raw | IsControl(raw)
      ensures var t := FirstMatch(ChainOf(s.chains, hook), raw);
              t.Some? && t.value.Queue? ==> t.value.q == InControl
    {
      HistoryIrrelevant(s.done, if s.cut then None else s.pending, hook, raw);
    }
  }

  lemma {:induction false} SeparatesIffPure(node: Node, s: State, steps: seq<Step>)
    requires Inv(node, s) && !s.mixed && IsRun(node, s, steps)
    ensures SeparatesAlong(node, s, steps) <==> !EndOf(node, s, steps).mixed
    decreases |steps|
  {
    hide Separates, Enabled, Do, ChainsRight, QueuesRight;
    WholeHere(node, s);
    if steps != [] {
      var s' := Do(node, s, steps[0]);
      StepKeeps(node, s, steps[0]);
      if s'.mixed {
        FirstTear(node, s, steps[0]);
        MixedStays(node, s', steps[1..]);
      } else {
        SeparatesIffPure(node, s', steps[1..]);
      }
    }
  }

  lemma WholeHere(node: Node, s: State)
    requires Inv(node, s) && !s.mixed
    ensures Separates(s.chains) && (s.cut ==> s.pending.Some?)
  {
    WholeSeparates(s);
  }

  /** The chains right after a torn registration let control packets into a data queue. */
  lemma FirstTear(node: Node, s: State, a: Step)
    requires Inv(node, s) && !s.mixed && Enabled(node, s, a) && Do(node, s, a).mixed
    ensures !Separates(Do(node, s, a).chains)
  {
    hide Separates, QueuesRight, Waiting, Outcome, Succeeds;
    if !a.Begin? && !a.Finish? && !a.Initialize? {
      RulesAlone(node, s, a);
    }
    FlushHarmlessIffNothingPending(s.chains, s.pending);
  }

  lemma {:induction false} MixedStays(node: Node, s: State, steps: seq<Step>)
    requires IsRun(node, s, steps) && s.mixed
    ensures EndOf(node, s, steps).mixed
    decreases |steps|
  {
    hide AfterArrive, AfterServe, AfterStop, AfterCrash, Execute, QueueOf, WithQueue, Outcome, Succeeds;
    if steps != [] {
      var a := steps[0];
      if !a.Begin? && !a.Finish? && !a.Initialize? {
        RulesAlone(node, s, a);
      }
      MixedStays(node, Do(node, s, a), steps[1..]);
    }
  }

  /** In every run: the chains keep control packets out of the data queues at each point iff no flush falls between the
      two rule commands of a registration. */
  lemma SeparatesIffWhole(node: Node, steps: seq<Step>)
    requires IsRun(node, Init(), steps)
    ensures SeparatesAlong(node, Init(), steps) <==> !FlushInside(steps, false, false)
    ensures EndOf(node, Init(), steps).mixed <==> FlushInside(steps, false, false)
  {
    hide Inv, SeparatesAlong, FlushInside, IsRun, EndOf;
    InitInv(node);
    SeparatesIffPure(node, Init(), steps);
    MixedIff(node, Init(), steps);
  }

  /** Separation of control and data, in every interleaving without such a flush: the control callback is shown UDP
      port 269 packets and nothing else, the other callbacks are never shown one. */
  lemma Separation(node: Node, s: State, q: QueueId, p: Packet)
    requires Reachable(node, s) && !s.mixed
    requires p in QueueOf(s, q).shown
    ensures q == InControl <==> IsControl(p.raw)
  {
    hide Verdicts, IsControl, Shown, Reaches, ChainsRight, Waiting;
    ReachableInv(node, s);
    var v := QueueOf(s, q);
    QueueHere(node, s, q);
    var served := v.arrived[..|v.verdicts|];
    ShownAre(node, q, served, p);
    assert p in multiset(served);
    assert p in served;
  }

  /** One verdict for each packet that has left a queue, with its own id and in order of arrival, accepting it iff
      the callback was run and answered so; all others still wait, in order and within the bound. */
  lemma SingleVerdict(node: Node, s: State, q: QueueId, k: nat)
    requires Reachable(node, s)
    requires k < |QueueOf(s, q).arrived|
    ensures var v := QueueOf(s, q);
            && |v.waiting| <= QUEUE_LEN && |v.verdicts| + |v.waiting| == |v.arrived|
            && if k < |v.verdicts| then
                 k < |v.answers| && v.verdicts[k] ==
                   Verdict(v.arrived[k].id, Reaches(node, q, v.arrived[k].raw) && v.answers[k] != 0)
               else v.waiting[k - |v.verdicts|] == v.arrived[k]
  {
    hide IsControl, Reaches, Shown, Verdicts;
    ReachableInv(node, s);
    var v := QueueOf(s, q);
    QueueHere(node, s, q);
    var n := |v.verdicts|;
    if k < n {
      VerdictAt(node, q, v.arrived[..n], v.answers, k);
    }
  }

  /** The callback runs exactly once for each packet that has left a queue, and not at all for own broadcasts
      on the three queues that withhold them. */
  lemma CallbackOnce(node: Node, s: State, q: QueueId, p: Packet)
    requires Reachable(node, s)
    ensures var v := QueueOf(s, q);
            |v.verdicts| <= |v.arrived| &&
            multiset(v.shown)[p] ==
              if q == Forwarded || !IsOwn(node, p.raw) then multiset(v.arrived[..|v.verdicts|])[p] else 0
    ensures IsOwn(node, p.raw) <==>
              20 <= |p.raw| && U32(p.raw, 12) == node.localIp && U32(p.raw, 16) == node.broadcastIp
  {
    hide IsControl, Shown, Verdicts, U32;
    ReachableInv(node, s);
    var v := QueueOf(s, q);
    QueueHere(node, s, q);
    ShownAre(node, q, v.arrived[..|v.verdicts|], p);
  }

  /** Conservation: every packet that has arrived has been accepted once, or dropped once, or is waiting. */
  lemma Conservation(node: Node, s: State)
    requires Reachable(node, s)
    ensures s.arrivals == s.accepted + s.dropped + Waiting(s)
  {
    hide QueuesRight, Waiting, ChainsRight;
    ReachableInv(node, s);
  }

  /** Unless they are torn, a hook treats packets by the decision table of its registrations since the last flush. */
  lemma Classification(node: Node, s: State, hook: Hook, raw: seq<byte>)
    requires Reachable(node, s) && !s.torn
    ensures var begun := !s.cut && s.pending == Some(RegistrationOf(hook));
            var d := Decision(hook, begun, RegistrationOf(hook) in s.done, raw);
            Fate(s, hook, raw) == if d.Some? then d.value else Accept
  {
    hide QueuesRight, Waiting, Decision;
    ReachableInv(node, s);
    HistoryIrrelevant(s.done, if s.cut then None else s.pending, hook, raw);
  }

  /** An own broadcast to port 269 is never shown to any callback, in any run without a flush inside a registration.
      Once all three registrations are complete it leaves without being queued, its echo goes to the control queue and
      is dropped there whatever the callback would say, and it is not forwarded. */
  lemma OwnBroadcast(node: Node, s: State, p: Packet, answer: byte)
    requires Reachable(node, s) && !s.mixed
    requires IsOwn(node, p.raw) && IsControl(p.raw)
    ensures forall q: QueueId :: p !in QueueOf(s, q).shown
    ensures Incoming in s.done && OutgoingReg in s.done && ForwardReg in s.done ==>
              && Fate(s, Output, p.raw) == Accept
              && Fate(s, Input, p.raw) == Queue(InControl)
              && Fate(s, Forward, p.raw) == Drop
              && VerdictOn(node, InControl, p, answer) == Verdict(p.id, false)
  {
    hide IsControl, IsOwn, QueueOf, Fate, FirstMatch, Inv, IsRun, EndOf;
    NotTorn(node, s);
    forall q: QueueId
      ensures p !in QueueOf(s, q).shown
    {
      if p in QueueOf(s, q).shown {
        Separation(node, s, q, p);
        CallbackOnce(node, s, q, p);
        assert false;
      }
    }
    Classification(node, s, Output, p.raw);
    Classification(node, s, Input, p.raw);
    Classification(node, s, Forward, p.raw);
  }

  lemma NotTorn(node: Node, s: State)
    requires Reachable(node, s) && !s.mixed
    ensures !s.torn
  {
    hide QueuesRight, Waiting, ChainsOf;
    ReachableInv(node, s);
  }

  /** A registration that fails keeps the mutex: no registration ever begins after it. */
  lemma {:induction false} FailedRegistrationBlocks(node: Node, s: State, steps: seq<Step>)
    requires IsRun(node, s, steps) && s.held && s.pending == None
    ensures forall k :: 0 <= k < |steps| ==> !steps[k].Begin? && !steps[k].Finish?
    ensures EndOf(node, s, steps).held && EndOf(node, s, steps).pending == None
    decreases |steps|
  {
    hide AfterArrive, AfterServe, AfterStop, AfterCrash, Execute, QueueOf, WithQueue, Outcome, Succeeds;
    if steps != [] {
      var a := steps[0];
      if !a.Initialize? {
        RulesAlone(node, s, a);
      }
      FailedRegistrationBlocks(node, Do(node, s, a), steps[1..]);
    }
  }

  lemma RunCons(node: Node, s: State, a: Step, rest: seq<Step>)
    requires Enabled(node, s, a) && IsRun(node, Do(node, s, a), rest)
    ensures IsRun(node, s, [a] + rest) && EndOf(node, s, [a] + rest) == EndOf(node, Do(node, s, a), rest)
  {
    hide Do, Enabled;
    assert ([a] + rest)[1..] == rest;
  }

  lemma RunTwo(node: Node, s: State, a: Step, b: Step)
    requires Enabled(node, s, a) && Enabled(node, Do(node, s, a), b)
    ensures IsRun(node, s, [a, b]) && EndOf(node, s, [a, b]) == Do(node, Do(node, s, a), b)
  {
    hide Do, Enabled;
    RunCons(node, Do(node, s, a), b, []);
    RunCons(node, s, a, [b]);
  }

  /** Three steps that register a callback for incoming data, with a flush in between, and then bind its queue. */
  lemma TornSetup(node: Node) returns (s: State)
    ensures var steps := [Begin(Incoming), Initialize, Finish({InData}, multiset{InData}), Bind(InData)];
            && IsRun(node, Init(), steps) && EndOf(node, Init(), steps) == s
            && FlushInside(steps, false, false)
    ensures s.chains.input == [Rule(DstRange, Queue(InData))] && s.callbacks == {InData}
    ensures s.queues.inData == EMPTY.(bound := true) && !s.crashed
  {
    var a, b, c, d := Begin(Incoming), Initialize, Finish({InData}, multiset{InData}), Bind(InData);
    assert multiset({InData}) == multiset{InData};
    var s1 := Do(node, Init(), a);
    var s2 := Do(node, s1, b);
    var s3 := Do(node, s2, c);
    s := Do(node, s3, d);
    RunCons(node, s3, d, []);
    RunCons(node, s2, c, [d]);
    RunCons(node, s1, b, [c, d]);
    RunCons(node, Init(), a, [b, c, d]);
    assert [a, b, c, d][1..] == [b, c, d] && [b, c, d][1..] == [c, d];
  }

  /** A flush inside a registration hands a UDP port 269 packet to the callback for data. */
  lemma FlushMisdelivers(node: Node, answer: byte) returns (steps: seq<Step>)
    requires !IsOwn(node, SAMPLE)
    ensures IsRun(node, Init(), steps)
    ensures IsControl(SAMPLE) && EndOf(node, Init(), steps).queues.inData.shown == [Packet(0, SAMPLE)]
  {
    hide IsControl, InRange, IsOwn, Execute, Outcome, Succeeds, AfterInitialize, AfterFinish, AfterStop, VerdictOn,
      Verdicts, FlushInside, IsRun, EndOf;
    SampleIsControl();
    var p := Packet(0, SAMPLE);
    var setup := [Begin(Incoming), Initialize, Finish({InData}, multiset{InData}), Bind(InData)];
    var s := TornSetup(node);
    var e, f := Arrive(Input, p), Serve(InData, answer);
    assert Fate(s, Input, SAMPLE) == Queue(InData);
    var s1 := Do(node, s, e);
    RunTwo(node, s, e, f);
    RunJoin(node, Init(), setup, [e, f]);
    steps := setup + [e, f];
  }

  lemma {:induction false} RunJoin(node: Node, s: State, a: seq<Step>, b: seq<Step>)
    requires IsRun(node, s, a) && IsRun(node, EndOf(node, s, a), b)
    ensures IsRun(node, s, a + b) && EndOf(node, s, a + b) == EndOf(node, EndOf(node, s, a), b)
    decreases |a|
  {
    hide Do, Enabled;
    if a == [] {
      assert a + b == b;
    } else {
      assert (a + b)[1..] == a[1..] + b;
      RunJoin(node, Do(node, s, a[0]), a[1..], b);
    }
  }

  /** The callback of `q` has been made null since it was set last. */
  predicate Nulled(steps: seq<Step>, q: QueueId) {
    steps != [] &&
    var init, last := steps[..|steps| - 1], steps[|steps| - 1];
    last.Initialize? || (!(last.Finish? && q in last.callbacks) && Nulled(init, q))
  }

  /** A thread has set up queue `q` and has not ended since. */
  predicate IsServed(steps: seq<Step>, q: QueueId) {
    steps != [] &&
    var init, last := steps[..|steps| - 1], steps[|steps| - 1];
    last == Bind(q) || (last != Stop(q) && !last.Crash? && IsServed(init, q))
  }

  /** A queue is being served whose callback has been made null by an InitializeQueue and not been set again. */
  ghost predicate Exposed(steps: seq<Step>) {
    exists q :: IsServed(steps, q) && Nulled(steps, q)
  }

  /** At each point of the run every bound queue has a callback. */
  ghost predicate ServableAlong(node: Node, s: State, steps: seq<Step>)
    requires IsRun(node, s, steps)
    decreases |steps|
  {
    (forall q: QueueId :: QueueOf(s, q).bound ==> q in s.callbacks)
    && (steps != [] ==> ServableAlong(node, Do(node, s, steps[0]), steps[1..]))
  }

  /** What the steps so far say about one queue in state `s`. */
  predicate Tells(past: seq<Step>, s: State, q: QueueId) {
    && (QueueOf(s, q).bound <==> IsServed(past, q))
    && (q in s.callbacks ==> !Nulled(past, q))
    && (IsServed(past, q) || q in s.started ==> q in s.callbacks || Nulled(past, q))
  }

  lemma LastStep(past: seq<Step>, a: Step, q: QueueId)
    ensures Nulled(past + [a], q) <==> a.Initialize? || (!(a.Finish? && q in a.callbacks) && Nulled(past, q))
    ensures IsServed(past + [a], q) <==> a == Bind(q) || (a != Stop(q) && !a.Crash? && IsServed(past, q))
  {
    assert (past + [a])[..|past|] == past;
  }

  /** What `Tells` looks at, when one queue changes. */
  lemma QueueTouches(s: State, q: QueueId, v: QueueState, u: QueueId)
    ensures QueueOf(WithQueue(s, q, v), u) == if u == q then v else QueueOf(s, u)
    ensures WithQueue(s, q, v).callbacks == s.callbacks && WithQueue(s, q, v).started == s.started
  {
  }

  predicate SameBound(s: State, s': State, q: QueueId) {
    (QueueOf(s', q).bound <==> QueueOf(s, q).bound) && s'.callbacks == s.callbacks && s'.started == s.started
  }

  lemma QueuesAlone(s: State, s': State, q: QueueId)
    requires s'.queues == s.queues
    ensures QueueOf(s', q) == QueueOf(s, q)
  {
  }

  lemma CountTouches(s: State, p: Packet, q: QueueId)
    ensures SameBound(s, s.(arrivals := s.arrivals + multiset{p}, accepted := s.accepted + multiset{p}), q)
    ensures SameBound(s, s.(arrivals := s.arrivals + multiset{p}, dropped := s.dropped + multiset{p}), q)
  {
  }

  lemma PacketTouches(s: State, u: QueueId, p: Packet, q: QueueId)
    ensures var v := QueueOf(s, u);
            SameBound(s, WithQueue(s.(arrivals := s.arrivals + multiset{p}), u,
                                   v.(waiting := v.waiting + [p], arrived := v.arrived + [p])), q)
  {
    hide WithQueue, QueueOf;
    var s1, v := s.(arrivals := s.arrivals + multiset{p}), QueueOf(s, u);
    QueuesAlone(s, s1, q);
    QueueTouches(s1, u, v.(waiting := v.waiting + [p], arrived := v.arrived + [p]), q);
  }

  lemma ArriveTouches(s: State, hook: Hook, p: Packet, q: QueueId)
    ensures SameBound(s, AfterArrive(s, hook, p), q)
  {
    hide Fate, WithQueue, QueueOf, SameBound;
    CountTouches(s, p, q);
    match Fate(s, hook, p.raw) {
      case Queue(u) => PacketTouches(s, u, p, q);
      case _ =>
    }
  }

  lemma ServeTouches(node: Node, s: State, u: QueueId, answer: byte, q: QueueId)
    requires QueueOf(s, u).waiting != []
    ensures SameBound(s, AfterServe(node, s, u, answer), q)
  {
    hide VerdictOn, Reaches, WithQueue, QueueOf;
    var v := Served(node, u, QueueOf(s, u), answer);
    QueueTouches(s, u, v, q);
    QueuesAlone(WithQueue(s, u, v), AfterServe(node, s, u, answer), q);
  }

  lemma StopTouches(s: State, u: QueueId, q: QueueId)
    ensures var s' := AfterStop(s, u);
            && (QueueOf(s', q).bound <==> q != u && QueueOf(s, q).bound)
            && s'.callbacks == s.callbacks && s'.started == s.started
  {
    hide WithQueue, QueueOf;
    var s1 := s.(dropped := s.dropped + multiset(QueueOf(s, u).waiting));
    QueuesAlone(s, s1, q);
    QueueTouches(s1, u, Stopped(QueueOf(s, u)), q);
  }

  lemma CrashTouches(s: State, q: QueueId)
    ensures var s' := AfterCrash(s);
            !QueueOf(s', q).bound && s'.callbacks == s.callbacks && s'.started == multiset{}
  {
    hide AfterStop, QueueOf;
    var s0 := s.(crashed := true, started := multiset{});
    var s1 := AfterStop(s0, InControl);
    var s2 := AfterStop(s1, Outgoing);
    StopTouches(s0, InControl, q);
    StopTouches(s1, Outgoing, q);
    StopTouches(s2, Forwarded, q);
    StopTouches(AfterStop(s2, Forwarded), InData, q);
  }

  /** What a step does to the fields that `Tells` looks at. */
  lemma StepTouches(node: Node, s: State, a: Step, q: QueueId)
    requires Enabled(node, s, a)
    ensures var s' := Do(node, s, a);
            && (QueueOf(s', q).bound <==>
                a == Bind(q) || (a != Stop(q) && !a.Crash? && QueueOf(s, q).bound))
            && s'.callbacks ==
               (if a.Initialize? then {} else if a.Finish? then s.callbacks + a.callbacks else s.callbacks)
            && (q in s'.started ==> q in s.started || (a.Finish? && q in a.callbacks))
            && (a == Bind(q) ==> q in s.started)
  {
    hide AfterArrive, AfterServe, AfterStop, AfterCrash, WithQueue, QueueOf, Execute, Reaches;
    match a {
      case Arrive(hook, p) => ArriveTouches(s, hook, p, q);
      case Serve(u, answer) => ServeTouches(node, s, u, answer, q);
      case Stop(u) => StopTouches(s, u, q);
      case Crash(_) => CrashTouches(s, q);
      case Bind(u) =>
        var s1 := s.(started := s.started - multiset{u});
        QueuesAlone(s, s1, q);
        QueueTouches(s1, u, QueueOf(s, u).(bound := true), q);
      case _ => QueuesAlone(s, Do(node, s, a), q);
    }
  }

  lemma StepTells(node: Node, past: seq<Step>, s: State, a: Step, q: QueueId)
    requires Enabled(node, s, a) && Tells(past, s, q)
    ensures Tells(past + [a], Do(node, s, a), q)
  {
    hide Enabled, Do, Nulled, Served, QueueOf;
    LastStep(past, a, q);
    StepTouches(node, s, a, q);
  }

  lemma ServableHere(past: seq<Step>, s: State)
    requires forall q: QueueId :: Tells(past, s, q)
    ensures (forall q: QueueId :: QueueOf(s, q).bound ==> q in s.callbacks) <==> !Exposed(past)
  {
    hide Nulled, IsServed, QueueOf;
    forall q: QueueId
      ensures QueueOf(s, q).bound && q !in s.callbacks <==> IsServed(past, q) && Nulled(past, q)
    {
      assert Tells(past, s, q);
    }
  }

  lemma {:induction false} ServableFrom(node: Node, past: seq<Step>, s: State, steps: seq<Step>)
    requires IsRun(node, s, steps) && forall q: QueueId :: Tells(past, s, q)
    ensures ServableAlong(node, s, steps) <==> forall n :: 0 <= n <= |steps| ==> !Exposed(past + steps[..n])
    decreases |steps|
  {
    hide Enabled, Do, Tells, Exposed, QueueOf;
    assert past + steps[..0] == past;
    ServableHere(past, s);
    if steps != [] {
      var s', past' := Do(node, s, steps[0]), past + [steps[0]];
      forall q: QueueId
        ensures Tells(past', s', q)
      {
        StepTells(node, past, s, steps[0], q);
      }
      ServableFrom(node, past', s', steps[1..]);
      forall n | 0 < n <= |steps|
        ensures past + steps[..n] == past' + steps[1..][..n - 1]
      {
        assert steps[..n] == [steps[0]] + steps[1..][..n - 1];
      }
      forall m | 0 <= m <= |steps| - 1
        ensures past + steps[..m + 1] == past' + steps[1..][..m]
      {
      }
    }
  }

  /** Over every run: all queues that are bound can be served at each point iff at no point a queue is being served
      whose callback an InitializeQueue has made null after the last registration that set it. */
  lemma ServableIff(node: Node, steps: seq<Step>)
    requires IsRun(node, Init(), steps)
    ensures ServableAlong(node, Init(), steps) <==> forall n :: 0 <= n <= |steps| ==> !Exposed(steps[..n])
  {
    hide IsRun, Exposed;
    NothingTells();
    ServableFrom(node, [], Init(), steps);
    assert forall n :: 0 <= n <= |steps| ==> [] + steps[..n] == steps[..n];
  }

  lemma NothingTells()
    ensures forall q: QueueId :: Tells([], Init(), q)
  {
  }

  lemma {:induction false} RunTells(node: Node, past: seq<Step>, s: State, steps: seq<Step>, q: QueueId)
    requires IsRun(node, s, steps) && Tells(past, s, q)
    ensures Tells(past + steps, EndOf(node, s, steps), q)
    decreases |steps|
  {
    hide Enabled, Do, Tells;
    if steps == [] {
      assert past + steps == past;
    } else {
      StepTells(node, past, s, steps[0], q);
      RunTells(node, past + [steps[0]], Do(node, s, steps[0]), steps[1..], q);
      assert past + [steps[0]] + steps[1..] == past + steps;
    }
  }

  /** The program can end on the first packet of a queue iff that packet is to be shown to the callback, which an
      InitializeQueue has made null while the queue was being served. In all other cases it can be served. */
  lemma CrashIff(node: Node, steps: seq<Step>, q: QueueId, answer: byte)
    requires IsRun(node, Init(), steps)
    ensures var s := EndOf(node, Init(), steps);
            && (Enabled(node, s, Crash(q)) <==> Due(node, s, q) && !s.crashed && Nulled(steps, q))
            && (Enabled(node, s, Serve(q, answer)) <==>
                IsServed(steps, q) && !s.crashed && QueueOf(s, q).waiting != []
                && (Due(node, s, q) ==> !Nulled(steps, q)))
  {
    hide IsRun, EndOf, Nulled, Served, Reaches;
    NothingTells();
    RunTells(node, [], Init(), steps, q);
    assert [] + steps == steps;
  }

  /** A callback for control packets is registered, and its thread sets up the queue. */
  lemma ControlSetup(node: Node) returns (s: State)
    ensures var steps := [Begin(Incoming), Finish({InControl}, multiset{InControl}), Bind(InControl)];
            && IsRun(node, Init(), steps) && EndOf(node, Init(), steps) == s
    ensures s == Init().(chains := s.chains, callbacks := {InControl}, done := [Incoming],
                         queues := Queues(EMPTY.(bound := true), EMPTY, EMPTY, EMPTY))
    ensures s.chains.input == [Rule(Control, Queue(InControl)), Rule(DstRange, Queue(InData))]
  {
    var a, b, c := Begin(Incoming), Finish({InControl}, multiset{InControl}), Bind(InControl);
    assert multiset({InControl}) == multiset{InControl};
    var s1 := Do(node, Init(), a);
    var s2 := Do(node, s1, b);
    assert s2.started - multiset{InControl} == multiset{};
    s := Do(node, s2, c);
    RunCons(node, s2, c, []);
    RunCons(node, s1, b, [c]);
    RunCons(node, Init(), a, [b, c]);
  }

  /** A control packet arrives. */
  lemma ControlArrives(node: Node, s: State)
    requires s.chains.input != [] && s.chains.input[0] == Rule(Control, Queue(InControl))
    requires s.queues.inControl == EMPTY.(bound := true)
    ensures var p := Packet(0, SAMPLE);
            && Enabled(node, s, Arrive(Input, p))
            && AfterArrive(s, Input, p) == s.(arrivals := s.arrivals + multiset{p},
                 queues := s.queues.(inControl := EMPTY.(bound := true, waiting := [p], arrived := [p])))
  {
    hide IsControl, InRange;
    SampleIsControl();
    assert Fate(s, Input, SAMPLE) == Queue(InControl);
  }

  /** A second InitializeQueue then ends the program: the packet gets no verdict and is dropped. */
  lemma InitializeCrashes(node: Node) returns (steps: seq<Step>)
    requires !IsOwn(node, SAMPLE)
    ensures IsRun(node, Init(), steps)
    ensures var s := EndOf(node, Init(), steps);
            s.crashed && s.queues.inControl.verdicts == [] && s.dropped == multiset{Packet(0, SAMPLE)} && !s.mixed
  {
    hide IsControl, InRange, IsOwn, Execute, Outcome, Succeeds, AfterFinish, AfterArrive, IsRun, EndOf;
    var setup := [Begin(Incoming), Finish({InControl}, multiset{InControl}), Bind(InControl)];
    var a, b, c := Arrive(Input, Packet(0, SAMPLE)), Initialize, Crash(InControl);
    var s := ControlSetup(node);
    ControlArrives(node, s);
    RunTwo(node, Do(node, s, a), b, c);
    RunCons(node, s, a, [b, c]);
    RunJoin(node, Init(), setup, [a] + [b, c]);
    steps := setup + ([a] + [b, c]);
  }

  lemma QueueCounts(s: State, q: QueueId, v: QueueState)
    ensures var s' := WithQueue(s, q, v);
            s'.arrivals == s.arrivals && s'.accepted == s.accepted && s'.dropped == s.dropped
  {
  }

  /** A packet that is sent to queue `u`. */
  lemma QueuedLaw(s: State, hook: Hook, p: Packet, u: QueueId, q: QueueId)
    requires Fate(s, hook, p.raw) == Queue(u)
    ensures var s' := AfterArrive(s, hook, p);
            var v, v' := QueueOf(s, q), QueueOf(s', q);
            var fits := QueueOf(s, u).bound && |QueueOf(s, u).waiting| < 100000;
            && v' == (if fits && u == q then v.(waiting := v.waiting + [p], arrived := v.arrived + [p]) else v)
            && s'.arrivals == s.arrivals + multiset{p} && s'.accepted == s.accepted
            && s'.dropped == if fits then s.dropped else s.dropped + multiset{p}
  {
    hide Fate, WithQueue, QueueOf;
    var v, s1 := QueueOf(s, u), s.(arrivals := s.arrivals + multiset{p});
    QueuesAlone(s, s1, q);
    QueuesAlone(s, s1.(dropped := s.dropped + multiset{p}), q);
    QueueTouches(s1, u, v.(waiting := v.waiting + [p], arrived := v.arrived + [p]), q);
    QueueCounts(s1, u, v.(waiting := v.waiting + [p], arrived := v.arrived + [p]));
  }

  /** What becomes of a packet on a hook: by the first matching rule, or the policy, it passes or is dropped; sent to a
      queue, it waits there behind the others iff a thread has bound the queue and fewer than 100000 wait, and is
      dropped otherwise. Other queues stay as they are. */
  lemma ArrivalLaw(node: Node, s: State, hook: Hook, p: Packet, q: QueueId)
    requires Enabled(node, s, Arrive(hook, p))
    ensures var s' := Do(node, s, Arrive(hook, p));
            var t := FirstMatch(ChainOf(s.chains, hook), p.raw);
            var v, v' := QueueOf(s, q), QueueOf(s', q);
            var here := t == Some(Queue(q)) && v.bound && |v.waiting| < 100000;
            && s'.arrivals == s.arrivals + multiset{p}
            && v' == (if here then v.(waiting := v.waiting + [p], arrived := v.arrived + [p]) else v)
            && (t == None || t == Some(Accept) ==> s'.accepted == s.accepted + multiset{p} && s'.dropped == s.dropped)
            && (t == Some(Drop) ==> s'.accepted == s.accepted && s'.dropped == s.dropped + multiset{p})
            && (t == Some(Queue(q)) ==>
                  s'.accepted == s.accepted && s'.dropped == if here then s.dropped else s.dropped + multiset{p})
  {
    hide FirstMatch, QueueOf, WithQueue;
    match Fate(s, hook, p.raw) {
      case Queue(u) => QueuedLaw(s, hook, p, u, q);
      case _ => QueuesAlone(s, AfterArrive(s, hook, p), q);
    }
  }

  /** What becomes of the first packet of a queue: it gets the verdict, by its own id, and is accepted iff it was
      shown to the callback and the callback answered non-zero; shown it is unless it is from this node to its
      broadcast address, and the queue is not the one of forwarded packets. */
  lemma ServeLaw(node: Node, s: State, q: QueueId, answer: byte)
    requires Enabled(node, s, Serve(q, answer))
    ensures var s' := Do(node, s, Serve(q, answer));
            var v, v' := QueueOf(s, q), QueueOf(s', q);
            var p := v.waiting[0];
            var own := 20 <= |p.raw| && U32(p.raw, 12) == node.localIp && U32(p.raw, 16) == node.broadcastIp;
            var shown := !own || q == Forwarded;
            && v'.waiting == v.waiting[1..] && v'.bound == v.bound && s'.arrivals == s.arrivals
            && v'.verdicts == v.verdicts + [Verdict(p.id, shown && answer != 0)]
            && v'.shown == v.shown + (if shown then [p] else [])
            && (if shown && answer != 0 then s'.accepted == s.accepted + multiset{p} && s'.dropped == s.dropped
                else s'.accepted == s.accepted && s'.dropped == s.dropped + multiset{p})
  {
    hide U32;
  }

  /** The cases of RegisterIncomingCallback: whether the callbacks are given, and whether creating their threads
      fails. */
  datatype Cases = Cases(control: bool, data: bool, controlFails: bool, dataFails: bool)

  /** The callbacks that it sets, as the code goes through its cases, ... */
  function Sets(c: Cases): set<QueueId> {
    if c.control && c.controlFails then {InControl}
    else if c.control && c.data then {InControl, InData}
    else if c.control then {InControl}
    else if c.data then {InData}
    else {}
  }

  /** ... and the threads that it creates. */
  function Creates(c: Cases): multiset<QueueId> {
    if c.control && c.controlFails then multiset{}
    else if c.control && c.data && !c.dataFails then multiset{InControl, InData}
    else if c.control then multiset{InControl}
    else if c.data && !c.dataFails then multiset{InData}
    else multiset{}
  }

  lemma Singletons()
    ensures multiset({InControl}) == multiset{InControl} && multiset({InData}) == multiset{InData}
    ensures multiset({InControl, InData}) == multiset{InControl, InData}
    ensures {InControl, InData} - {InData} == {InControl} && {InData} - {InData} == {}
    ensures multiset{InControl} != multiset{InControl, InData} && multiset{InControl} != multiset{}
    ensures multiset{InData} != multiset{}
  {
    assert multiset{InControl, InData}[InData] == 1 && multiset{InControl}[InData] == 0;
    assert multiset{InControl}[InControl] == 1 && multiset{InData}[InData] == 1;
  }

  lemma CaseOutcome(c: Cases)
    ensures Outcome(Incoming, Sets(c), Creates(c))
    ensures Succeeds(Incoming, Sets(c), Creates(c)) <==>
              !(c.control && c.controlFails) && !(c.data && c.dataFails)
  {
    Singletons();
  }

  lemma OutcomeCase(callbacks: set<QueueId>, threads: multiset<QueueId>) returns (c: Cases)
    requires Outcome(Incoming, callbacks, threads)
    ensures callbacks == Sets(c) && threads == Creates(c)
  {
    Singletons();
    var control, data := InControl in callbacks, InData in callbacks;
    assert callbacks == if control && data then {InControl, InData}
                        else if control then {InControl} else if data then {InData} else {};
    c := Cases(control, data, control && threads == multiset{}, threads != multiset(callbacks));
    if data && c.controlFails {
      c := Cases(control, data, false, true);
    }
  }

  /** The registration step has exactly the outcomes of RegisterIncomingCallback, and succeeds when that returns 0. */
  lemma IncomingOutcomes(callbacks: set<QueueId>, threads: multiset<QueueId>)
    ensures Outcome(Incoming, callbacks, threads) <==> exists c :: callbacks == Sets(c) && threads == Creates(c)
    ensures forall c :: Succeeds(Incoming, Sets(c), Creates(c)) <==>
              !(c.control && c.controlFails) && !(c.data && c.dataFails)
  {
    hide Outcome, Succeeds, Sets, Creates;
    if Outcome(Incoming, callbacks, threads) {
      var c := OutcomeCase(callbacks, threads);
    }
    forall c
      ensures Outcome(Incoming, Sets(c), Creates(c))
      ensures Succeeds(Incoming, Sets(c), Creates(c)) <==>
                !(c.control && c.controlFails) && !(c.data && c.dataFails)
    {
      CaseOutcome(c);
    }
  }

  /** ... and likewise for the other two, each with one callback and one thread. */
  lemma SingleOutcomes(r: Registration, q: QueueId, callbacks: set<QueueId>, threads: multiset<QueueId>)
    requires (r == OutgoingReg && q == Outgoing) || (r == ForwardReg && q == Forwarded)
    ensures Outcome(r, callbacks, threads) <==>
              (callbacks == {} || callbacks == {q})
              && (threads == multiset{} || (callbacks == {q} && threads == multiset{q}))
    ensures Outcome(r, callbacks, threads) ==> (Succeeds(r, callbacks, threads) <==> threads == multiset{q})
  {
    assert multiset({q}) == multiset{q} && multiset{q}[q] == 1;
    if callbacks <= {q} {
      assert callbacks == {} || callbacks == {q};
      if threads <= multiset(callbacks) && threads != multiset{} {
        assert callbacks == {q};
        assert threads[q] == 1;
        assert threads == multiset{q};
      }
    }
  }

  /** A registration that does not succeed keeps the mutex; either way its rule, callbacks and threads stay. */
  lemma FinishLaw(node: Node, s: State, callbacks: set<QueueId>, threads: multiset<QueueId>)
    requires Enabled(node, s, Finish(callbacks, threads))
    ensures var s', r := Do(node, s, Finish(callbacks, threads)), s.pending.value;
            && s'.pending == None && (s'.held <==> !Succeeds(r, callbacks, threads))
            && s'.callbacks == s.callbacks + callbacks && s'.started == s.started + threads
            && var c := s.chains;
               s'.chains == match r
                            case Incoming => c.(input := c.input + [Rule(DstRange, Queue(InData))])
                            case OutgoingReg => c.(output := c.output + [Rule(DstRange, Queue(Outgoing))])
                            case ForwardReg => c.(forward := c.forward + [Rule(Any, Queue(Forwarded))])
  {
    hide Outcome, Succeeds;
  }
}
