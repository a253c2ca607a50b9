/** Registrations, flushes, packet arrivals and four queue threads running side by side.

    The rule chains are the ones that iptables keeps, with its default policy ACCEPT. A queue belongs to at most
    one thread; a packet for a queue that no thread has bound, or that is full, is dropped. */
module Dispatch {
  import opened Bytes
  import opened PacketFilter
  import opened QueueApi

  /** A queue, with the log of what went in, of the verdicts and of the packets shown to the callback. Packets that are
      lost with their queue are taken out of `arrived` again. */
  datatype QueueState = QueueState(
    bound: bool,
    waiting: seq<Packet>,
    arrived: seq<Packet>,
    verdicts: seq<Verdict>,
    answers: seq<byte>,
    shown: seq<Packet>)

  datatype Queues = Queues(inControl: QueueState, outgoing: QueueState, forwarded: QueueState, inData: QueueState)

  /** `held` says that a failed registration has kept the mutex, `started` counts threads that have not set up their
      queue yet, `callbacks` are the callbacks that are not null, and `crashed` says that the program has ended.
      `done` are the registrations completed since the last flush, `cut` says that a flush has removed the first rule
      of the pending registration, `torn` that the chains hold the second rule of such a registration, and `mixed` that
      they have held one at some time. These, and the fields behind them, only record. */
  datatype State = State(
    chains: Chains,
    pending: Option<Registration>,
    held: bool,
    started: multiset<QueueId>,
    callbacks: set<QueueId>,
    crashed: bool,
    queues: Queues,
    done: seq<Registration>,
    cut: bool,
    torn: bool,
    mixed: bool,
    arrivals: multiset<Packet>,
    accepted: multiset<Packet>,
    dropped: multiset<Packet>)

  datatype Step =
    | Begin(r: Registration)
    | Finish(callbacks: set<QueueId>, threads: multiset<QueueId>)
    | Initialize
    | Bind(q: QueueId)
    | Arrive(hook: Hook, p: Packet)
    | Serve(q: QueueId, answer: byte)
    | Stop(q: QueueId)
    | Crash(q: QueueId)

  function QueueOf(s: State, q: QueueId): QueueState {
    match q
    case InControl => s.queues.inControl
    case Outgoing => s.queues.outgoing
    case Forwarded => s.queues.forwarded
    case InData => s.queues.inData
  }

  function WithQueue(s: State, q: QueueId, v: QueueState): State {
    s.(queues :=
         match q
         case InControl => s.queues.(inControl := v)
         case Outgoing => s.queues.(outgoing := v)
         case Forwarded => s.queues.(forwarded := v)
         case InData => s.queues.(inData := v))
  }

  const EMPTY := QueueState(false, [], [], [], [], [])

  /** InitializeQueue has flushed the chains; no thread is running. */
  function Init(): State {
    State(Chains([], [], []), None, false, multiset{}, {}, false, Queues(EMPTY, EMPTY, EMPTY, EMPTY),
          [], false, false, false, multiset{}, multiset{}, multiset{})
  }

  /** The callbacks that a registration may set and the threads that it may create, in the order of the code: creating a
      thread may fail, and a callback may be null. */
  predicate Outcome(r: Registration, callbacks: set<QueueId>, threads: multiset<QueueId>) {
    match r
    case Incoming =>
      callbacks <= {InControl, InData} &&
      (threads == multiset(callbacks) || (InData in callbacks && threads == multiset(callbacks - {InData}))
       || (callbacks == {InControl} && threads == multiset{}))
    case OutgoingReg => callbacks <= {Outgoing} && threads <= multiset(callbacks)
    case ForwardReg => callbacks <= {Forwarded} && threads <= multiset(callbacks)
  }

  /** The registration returns 0 and gives up the mutex. */
  predicate Succeeds(r: Registration, callbacks: set<QueueId>, threads: multiset<QueueId>) {
    threads == multiset(callbacks) && (r.Incoming? || callbacks != {})
  }

  /** The first packet of a queue is to be shown to its callback. */
  predicate Due(node: Node, s: State, q: QueueId) {
    var v := QueueOf(s, q);
    v.bound && v.waiting != [] && Reaches(node, q, v.waiting[0].raw)
  }

  /** Packets keep arriving when the program has ended: its rules stay with iptables. */
  predicate Enabled(node: Node, s: State, a: Step) {
    match a
    case Begin(_) => !s.crashed && s.pending == None && !s.held
    case Finish(callbacks, threads) => !s.crashed && s.pending.Some? && Outcome(s.pending.value, callbacks, threads)
    case Initialize => !s.crashed
    case Bind(q) => !s.crashed && q in s.started
    case Arrive(_, p) => IP_HEADER <= |p.raw| <= 0xFFFF
    case Serve(q, _) =>
      !s.crashed && QueueOf(s, q).bound && QueueOf(s, q).waiting != [] && (Due(node, s, q) ==> q in s.callbacks)
    case Stop(q) => !s.crashed && QueueOf(s, q).bound
    case Crash(q) => !s.crashed && Due(node, s, q) && q !in s.callbacks
  }

  /** A packet on a hook: the target of the first matching rule, or the policy ACCEPT. */
  function Fate(s: State, hook: Hook, raw: seq<byte>): Target {
    var t := FirstMatch(ChainOf(s.chains, hook), raw);
    if t.Some? then t.value else Accept
  }

  function AfterArrive(s: State, hook: Hook, p: Packet): State {
    var s' := s.(arrivals := s.arrivals + multiset{p});
    match Fate(s, hook, p.raw)
    case Accept => s'.(accepted := s.accepted + multiset{p})
    case Drop => s'.(dropped := s.dropped + multiset{p})
    case Queue(q) =>
      var v := QueueOf(s, q);
      if !v.bound || QUEUE_LEN <= |v.waiting| then s'.(dropped := s.dropped + multiset{p})
      else WithQueue(s', q, v.(waiting := v.waiting + [p], arrived := v.arrived + [p]))
  }

  /** A queue thread takes the first packet and sets its verdict; `answer` is what the callback returns. */
  function Served(node: Node, q: QueueId, v: QueueState, answer: byte): QueueState
    requires v.waiting != []
  {
    var p := v.waiting[0];
    v.(waiting := v.waiting[1..],
       verdicts := v.verdicts + [VerdictOn(node, q, p, answer)],
       answers := v.answers + [answer],
       shown := v.shown + if Reaches(node, q, p.raw) then [p] else [])
  }

  function AfterServe(node: Node, s: State, q: QueueId, answer: byte): State
    requires QueueOf(s, q).waiting != []
  {
    var p := QueueOf(s, q).waiting[0];
    var s' := WithQueue(s, q, Served(node, q, QueueOf(s, q), answer));
    if VerdictOn(node, q, p, answer).accept then s'.(accepted := s.accepted + multiset{p})
    else s'.(dropped := s.dropped + multiset{p})
  }

  /** InitializeQueue takes no mutex: it may come between the two rule commands of a registration. */
  function AfterInitialize(s: State): State {
    s.(chains := Execute(s.chains, Flush), callbacks := {}, done := [], cut := s.pending.Some?, torn := false)
  }

  function AfterFinish(s: State, callbacks: set<QueueId>, threads: multiset<QueueId>): State
    requires s.pending.Some?
  {
    var r := s.pending.value;
    s.(chains := Execute(s.chains, SecondCommand(r)), pending := None, held := !Succeeds(r, callbacks, threads),
       started := s.started + threads, callbacks := s.callbacks + callbacks,
       done := s.done + [r], cut := false, torn := s.torn || s.cut, mixed := s.mixed || s.cut)
  }

  /** recv has failed, or returned 0: the thread destroys its queue and ends, and what waits there is dropped. */
  function AfterStop(s: State, q: QueueId): State {
    var v := QueueOf(s, q);
    WithQueue(s.(dropped := s.dropped + multiset(v.waiting)), q, Stopped(v))
  }

  function Stopped(v: QueueState): QueueState {
    v.(bound := false, waiting := [],
       arrived := if |v.verdicts| <= |v.arrived| then v.arrived[..|v.verdicts|] else v.arrived)
  }

  /** A handler calls a null callback: the program ends with all its threads, and what waits in the queues is
      dropped. */
  function AfterCrash(s: State): State {
    var s0 := s.(crashed := true, started := multiset{});
    AfterStop(AfterStop(AfterStop(AfterStop(s0, InControl), Outgoing), Forwarded), InData)
  }

  function Do(node: Node, s: State, a: Step): State
    requires Enabled(node, s, a)
  {
    match a
    case Begin(r) => s.(chains := Execute(s.chains, FirstCommand(r)), pending := Some(r))
    case Finish(callbacks, threads) => AfterFinish(s, callbacks, threads)
    case Initialize => AfterInitialize(s)
    case Bind(q) =>
      WithQueue(s.(started := s.started - multiset{q}), q, QueueOf(s, q).(bound := true))
    case Arrive(hook, p) => AfterArrive(s, hook, p)
    case Serve(q, answer) => AfterServe(node, s, q, answer)
    case Stop(q) => AfterStop(s, q)
    case Crash(_) => AfterCrash(s)
  }

  ghost predicate IsRun(node: Node, s: State, steps: seq<Step>)
    decreases |steps|
  {
    steps == [] || (Enabled(node, s, steps[0]) && IsRun(node, Do(node, s, steps[0]), steps[1..]))
  }

  ghost function EndOf(node: Node, s: State, steps: seq<Step>): State
    requires IsRun(node, s, steps)
    decreases |steps|
  {
    if steps == [] then s else EndOf(node, Do(node, s, steps[0]), steps[1..])
  }

  /** A state that some interleaving reaches. */
  ghost predicate Reachable(node: Node, s: State) {
    exists steps :: IsRun(node, Init(), steps) && EndOf(node, Init(), steps) == s
  }

  /** Unless they are torn, the chains are those of the registrations since the last flush. */
  predicate ChainsRight(s: State) {
    && (!s.torn ==> s.chains == ChainsOf(s.done, if s.cut then None else s.pending))
    && (s.cut ==> s.pending.Some? && s.done == [] && !s.torn)
    && (s.torn ==> s.mixed)
  }

  /** What may be in a queue: control packets in the control queue, other packets in the others. */
  predicate Belongs(q: QueueId, raw: seq<byte>) {
    q.InControl? <==> IsControl(raw)
  }

  predicate Sorted(q: QueueId, v: QueueState) {
    forall k :: 0 <= k < |v.arrived| ==> Belongs(q, v.arrived[k].raw)
  }

  /** The logs of one queue: what arrived has either got its verdict, in order, or is still waiting. */
  predicate QueueRight(node: Node, q: QueueId, v: QueueState) {
    var n := |v.verdicts|;
    && |v.answers| == n <= |v.arrived| && v.waiting == v.arrived[n..] && |v.waiting| <= QUEUE_LEN
    && v.verdicts == Verdicts(node, q, v.arrived[..n], v.answers)
    && v.shown == Shown(node, q, v.arrived[..n])
  }

  function Waiting(s: State): multiset<Packet> {
    multiset(s.queues.inControl.waiting) + multiset(s.queues.outgoing.waiting)
    + multiset(s.queues.forwarded.waiting) + multiset(s.queues.inData.waiting)
  }

  ghost predicate QueuesRight(node: Node, s: State) {
    forall q: QueueId :: QueueRight(node, q, QueueOf(s, q)) && (!s.mixed ==> Sorted(q, QueueOf(s, q)))
  }

  ghost predicate Inv(node: Node, s: State) {
    && ChainsRight(s) && QueuesRight(node, s)
    && s.arrivals == s.accepted + s.dropped + Waiting(s)
  }

  lemma InitInv(node: Node)
    ensures Inv(node, Init())
  {
  }

  lemma QueueHere(node: Node, s: State, q: QueueId)
    requires QueuesRight(node, s)
    ensures QueueRight(node, q, QueueOf(s, q)) && (!s.mixed ==> Sorted(q, QueueOf(s, q)))
  {
  }

  /** Changing one queue changes nothing else. */
  lemma OnlyQueue(node: Node, s: State, q: QueueId, v: QueueState)
    requires QueuesRight(node, s) && QueueRight(node, q, v) && (!s.mixed ==> Sorted(q, v))
    ensures var s' := WithQueue(s, q, v);
            && QueuesRight(node, s') && (ChainsRight(s') <==> ChainsRight(s)) && s'.mixed == s.mixed
            && s'.arrivals == s.arrivals && s'.accepted == s.accepted && s'.dropped == s.dropped
  {
    hide QueueRight, Sorted, ChainsOf;
    var s' := WithQueue(s, q, v);
    forall u: QueueId
      ensures QueueOf(s', u) == if u == q then v else QueueOf(s, u)
    {
    }
  }

  /** `Waiting` looks at nothing but the queues. */
  lemma SameWaiting(s: State, s': State)
    requires forall u: QueueId :: QueueOf(s', u) == QueueOf(s, u)
    ensures Waiting(s') == Waiting(s)
  {
    assert QueueOf(s', InControl) == QueueOf(s, InControl) && QueueOf(s', Outgoing) == QueueOf(s, Outgoing);
    assert QueueOf(s', Forwarded) == QueueOf(s, Forwarded) && QueueOf(s', InData) == QueueOf(s, InData);
  }

  lemma RulesKeep(node: Node, s: State, a: Step)
    requires Inv(node, s) && Enabled(node, s, a)
    requires a.Begin? || a.Finish? || a.Initialize?
    ensures Inv(node, Do(node, s, a))
  {
    hide QueueRight, Sorted, Execute, FirstCommand, SecondCommand, Waiting, Outcome, Succeeds, ChainsOf;
    var s' := Do(node, s, a);
    assert forall q: QueueId :: QueueOf(s', q) == QueueOf(s, q);
    SameWaiting(s, s');
    RuleChains(s.chains, s.done);
    if a.Finish? {
      FinishChains(s.done, s.pending.value);
    } else if a.Begin? {
      BeginChains(s.done, a.r);
    }
  }

  lemma RuleChains(c: Chains, done: seq<Registration>)
    ensures Execute(c, Flush) == ChainsOf([], None)
  {
  }

  lemma BeginChains(done: seq<Registration>, r: Registration)
    ensures Execute(ChainsOf(done, None), FirstCommand(r)) == ChainsOf(done, Some(r))
  {
  }

  lemma FinishChains(done: seq<Registration>, r: Registration)
    ensures Execute(ChainsOf(done, Some(r)), SecondCommand(r)) == ChainsOf(done + [r], None)
  {
    assert (done + [r])[..|done|] == done;
  }

  lemma OnlyCounts(node: Node, s: State, s': State)
    requires QueuesRight(node, s)
    requires s' == s.(crashed := s'.crashed, started := s'.started,
                      arrivals := s'.arrivals, accepted := s'.accepted, dropped := s'.dropped)
    ensures forall u: QueueId :: QueueOf(s', u) == QueueOf(s, u)
    ensures Waiting(s') == Waiting(s)
    ensures QueuesRight(node, s') && (ChainsRight(s') <==> ChainsRight(s)) && s'.mixed == s.mixed
  {
    hide QueueRight, Sorted, ChainsOf;
    assert forall u: QueueId :: QueueOf(s', u) == QueueOf(s, u);
  }

  lemma BindKeeps(node: Node, s: State, q: QueueId)
    requires Inv(node, s) && Enabled(node, s, Bind(q))
    ensures Inv(node, Do(node, s, Bind(q)))
  {
    hide ChainsRight, QueuesRight, QueueRight, Sorted, QueueOf, WithQueue, Waiting;
    var s1 := s.(started := s.started - multiset{q});
    var v := QueueOf(s1, q).(bound := true);
    QueueHere(node, s, q);
    OnlyCounts(node, s, s1);
    SameBinding(node, s1, q, v);
    OnlyQueue(node, s1, q, v);
  }

  lemma SameBinding(node: Node, s: State, q: QueueId, v: QueueState)
    requires v == QueueOf(s, q).(bound := true)
    requires QueueRight(node, q, QueueOf(s, q))
    ensures QueueRight(node, q, v) && (Sorted(q, v) <==> Sorted(q, QueueOf(s, q)))
    ensures Waiting(WithQueue(s, q, v)) == Waiting(s)
  {
    hide Verdicts, Shown, Belongs;
  }

  /** A packet goes where it belongs, also between the two commands of a registration. */
  lemma TargetBelongs(node: Node, s: State, hook: Hook, raw: seq<byte>)
    requires ChainsRight(s) && !s.mixed
    ensures Fate(s, hook, raw).Queue? ==> Belongs(Fate(s, hook, raw).q, raw)
  {
    hide IsControl, InRange;
    HistoryIrrelevant(s.done, if s.cut then None else s.pending, hook, raw);
  }

  lemma QueueGrows(node: Node, q: QueueId, v: QueueState, p: Packet)
    requires QueueRight(node, q, v) && |v.waiting| < QUEUE_LEN
    ensures var v' := v.(waiting := v.waiting + [p], arrived := v.arrived + [p]);
            QueueRight(node, q, v') && (Sorted(q, v) && Belongs(q, p.raw) ==> Sorted(q, v'))
  {
    hide Verdicts, Shown, Belongs;
    var v', n := v.(waiting := v.waiting + [p], arrived := v.arrived + [p]), |v.verdicts|;
    assert v'.arrived[..n] == v.arrived[..n];
    assert v'.waiting == v'.arrived[n..];
  }

  lemma PacketQueued(node: Node, s: State, q: QueueId, p: Packet)
    requires Inv(node, s) && |QueueOf(s, q).waiting| < QUEUE_LEN && (!s.mixed ==> Belongs(q, p.raw))
    ensures var v := QueueOf(s, q);
            Inv(node, WithQueue(s.(arrivals := s.arrivals + multiset{p}), q,
                                v.(waiting := v.waiting + [p], arrived := v.arrived + [p])))
  {
    hide ChainsRight, QueuesRight, QueueRight, Sorted, Belongs, QueueOf, WithQueue, Waiting;
    var v, s1 := QueueOf(s, q), s.(arrivals := s.arrivals + multiset{p});
    QueueHere(node, s, q);
    QueueGrows(node, q, v, p);
    OnlyCounts(node, s, s1);
    OnlyQueue(node, s1, q, v.(waiting := v.waiting + [p], arrived := v.arrived + [p]));
    WaitingGrows(s1, q, p);
  }

  lemma PacketCounted(node: Node, s: State, p: Packet)
    requires Inv(node, s)
    ensures Inv(node, s.(arrivals := s.arrivals + multiset{p}, accepted := s.accepted + multiset{p}))
    ensures Inv(node, s.(arrivals := s.arrivals + multiset{p}, dropped := s.dropped + multiset{p}))
  {
    hide ChainsRight, QueuesRight, QueueOf, Waiting;
    OnlyCounts(node, s, s.(arrivals := s.arrivals + multiset{p}, accepted := s.accepted + multiset{p}));
    OnlyCounts(node, s, s.(arrivals := s.arrivals + multiset{p}, dropped := s.dropped + multiset{p}));
  }

  lemma ArriveKeeps(node: Node, s: State, hook: Hook, p: Packet)
    requires Inv(node, s) && Enabled(node, s, Arrive(hook, p))
    ensures Inv(node, Do(node, s, Arrive(hook, p)))
  {
    hide Inv, Belongs, Fate, QueueOf, WithQueue, ChainsRight;
    ChainsHere(node, s);
    if !s.mixed {
      TargetBelongs(node, s, hook, p.raw);
    }
    PacketCounted(node, s, p);
    var t := Fate(s, hook, p.raw);
    if t.Queue? && QueueOf(s, t.q).bound && |QueueOf(s, t.q).waiting| < QUEUE_LEN {
      PacketQueued(node, s, t.q, p);
    }
  }

  lemma ChainsHere(node: Node, s: State)
    requires Inv(node, s)
    ensures ChainsRight(s)
  {
  }

  lemma WaitingGrows(s: State, q: QueueId, p: Packet)
    ensures var v := QueueOf(s, q);
            Waiting(WithQueue(s, q, v.(waiting := v.waiting + [p], arrived := v.arrived + [p]))) ==
            Waiting(s) + multiset{p}
  {
  }

  lemma QueueServed(node: Node, q: QueueId, v: QueueState, answer: byte)
    requires QueueRight(node, q, v) && v.waiting != []
    ensures QueueRight(node, q, Served(node, q, v, answer))
    ensures Sorted(q, Served(node, q, v, answer)) <==> Sorted(q, v)
  {
    hide VerdictOn, Reaches, Belongs;
    var n := |v.verdicts|;
    assert v.arrived[..n + 1][..n] == v.arrived[..n] && v.arrived[..n + 1][n] == v.waiting[0];
    assert (v.answers + [answer])[..n] == v.answers;
  }

  lemma WaitingShrinks(node: Node, s: State, q: QueueId, answer: byte)
    requires QueueOf(s, q).waiting != []
    ensures var v := QueueOf(s, q);
            Waiting(s) == Waiting(WithQueue(s, q, Served(node, q, v, answer))) + multiset{v.waiting[0]}
  {
    hide VerdictOn, Reaches;
    var w := QueueOf(s, q).waiting;
    assert w == [w[0]] + w[1..];
  }

  lemma PacketJudged(node: Node, s: State, p: Packet)
    requires ChainsRight(s) && QueuesRight(node, s)
    requires s.arrivals == s.accepted + s.dropped + (Waiting(s) + multiset{p})
    ensures Inv(node, s.(accepted := s.accepted + multiset{p})) && Inv(node, s.(dropped := s.dropped + multiset{p}))
  {
    hide ChainsRight, QueuesRight, QueueOf, Waiting;
    OnlyCounts(node, s, s.(accepted := s.accepted + multiset{p}));
    OnlyCounts(node, s, s.(dropped := s.dropped + multiset{p}));
  }

  lemma ServeKeeps(node: Node, s: State, q: QueueId, answer: byte)
    requires Inv(node, s) && Enabled(node, s, Serve(q, answer))
    ensures Inv(node, Do(node, s, Serve(q, answer)))
  {
    hide ChainsRight, QueuesRight, QueueRight, Sorted, VerdictOn, Reaches, QueueOf, WithQueue, Waiting, Served;
    var v := QueueOf(s, q);
    QueueHere(node, s, q);
    QueueServed(node, q, v, answer);
    OnlyQueue(node, s, q, Served(node, q, v, answer));
    WaitingShrinks(node, s, q, answer);
    PacketJudged(node, WithQueue(s, q, Served(node, q, v, answer)), v.waiting[0]);
  }

  lemma QueueStopped(node: Node, q: QueueId, v: QueueState)
    requires QueueRight(node, q, v)
    ensures QueueRight(node, q, Stopped(v)) && (Sorted(q, v) ==> Sorted(q, Stopped(v)))
  {
    hide Verdicts, Shown, Belongs;
    var n := |v.verdicts|;
    assert v.arrived[..n][..n] == v.arrived[..n];
  }

  lemma WaitingStopped(s: State, q: QueueId)
    ensures Waiting(s) == Waiting(WithQueue(s, q, Stopped(QueueOf(s, q)))) + multiset(QueueOf(s, q).waiting)
  {
  }

  lemma StopInv(node: Node, s: State, q: QueueId)
    requires Inv(node, s)
    ensures Inv(node, AfterStop(s, q))
  {
    hide ChainsRight, QueuesRight, QueueRight, Sorted, QueueOf, WithQueue, Waiting, Stopped;
    var v := QueueOf(s, q);
    var s1 := s.(dropped := s.dropped + multiset(v.waiting));
    QueueHere(node, s, q);
    QueueStopped(node, q, v);
    OnlyCounts(node, s, s1);
    OnlyQueue(node, s1, q, Stopped(v));
    WaitingStopped(s1, q);
  }

  lemma CrashInv(node: Node, s: State)
    requires Inv(node, s)
    ensures Inv(node, AfterCrash(s))
  {
    hide ChainsRight, QueuesRight, QueueOf, Waiting, AfterStop;
    var s0 := s.(crashed := true, started := multiset{});
    OnlyCounts(node, s, s0);
    var s1 := AfterStop(s0, InControl);
    var s2 := AfterStop(s1, Outgoing);
    StopInv(node, s0, InControl);
    StopInv(node, s1, Outgoing);
    StopInv(node, s2, Forwarded);
    StopInv(node, AfterStop(s2, Forwarded), InData);
  }

  lemma StepKeeps(node: Node, s: State, a: Step)
    requires Inv(node, s) && Enabled(node, s, a)
    ensures Inv(node, Do(node, s, a))
  {
    hide Inv, Enabled, AfterStop, AfterCrash;
    match a
    case Begin(_) => RulesKeep(node, s, a);
    case Finish(_, _) => RulesKeep(node, s, a);
    case Initialize => RulesKeep(node, s, a);
    case Bind(q) => BindKeeps(node, s, q);
    case Arrive(hook, p) => ArriveKeeps(node, s, hook, p);
    case Serve(q, answer) => ServeKeeps(node, s, q, answer);
    case Stop(q) => StopInv(node, s, q);
    case Crash(_) => CrashInv(node, s);
  }

  lemma {:induction false} RunKeeps(node: Node, s: State, steps: seq<Step>)
    requires Inv(node, s) && IsRun(node, s, steps)
    ensures Inv(node, EndOf(node, s, steps))
    decreases |steps|
  {
    hide Inv, Do, Enabled;
    if steps != [] {
      StepKeeps(node, s, steps[0]);
      RunKeeps(node, Do(node, s, steps[0]), steps[1..]);
    }
  }

  lemma ReachableInv(node: Node, s: State)
    requires Reachable(node, s)
    ensures Inv(node, s)
  {
    hide Inv;
    var steps :| IsRun(node, Init(), steps) && EndOf(node, Init(), steps) == s;
    InitInv(node);
    RunKeeps(node, Init(), steps);
  }
}
