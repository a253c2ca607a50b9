/** The whole library: the calls on the netlink socket and the packet queues, side by side in one program.

    They meet in one place, the mutex `lock`: route calls, lookups and registrations all take it, and whoever takes it
    keeps all the others out. */
module Testbed {
  import opened Bytes
  import QueueApi
  import S = SharedSocket
  import SharedSocketInv
  import SharedSocketProps
  import D = Dispatch
  import DispatchProps

  datatype State = State(calls: S.State, queues: D.State)

  datatype Step = Call(a: S.Step) | Filter(b: D.Step)

  function Init(routes: map<u32, u32>): State {
    State(S.Init(routes), D.Init())
  }

  /** A registration has the mutex, or a failed one has kept it. */
  predicate Registering(s: State) {
    s.queues.pending.Some? || s.queues.held
  }

  predicate Enabled(node: QueueApi.Node, s: State, a: Step) {
    match a
    case Call(a) => S.Enabled(s.calls, a) && !s.queues.crashed && (a.Lock? ==> !Registering(s))
    case Filter(b) => D.Enabled(node, s.queues, b) && (b.Begin? ==> s.calls.lock == None)
  }

  function Do(node: QueueApi.Node, s: State, a: Step): State
    requires Enabled(node, s, a)
  {
    match a
    case Call(a) => s.(calls := S.Do(s.calls, a))
    case Filter(b) => s.(queues := D.Do(node, s.queues, b))
  }

  ghost predicate IsRun(node: QueueApi.Node, s: State, steps: seq<Step>)
    decreases |steps|
  {
    steps == [] || (Enabled(node, s, steps[0]) && IsRun(node, Do(node, s, steps[0]), steps[1..]))
  }

  ghost function EndOf(node: QueueApi.Node, s: State, steps: seq<Step>): State
    requires IsRun(node, s, steps)
    decreases |steps|
  {
    if steps == [] then s else EndOf(node, Do(node, s, steps[0]), steps[1..])
  }

  function CallSteps(steps: seq<Step>): seq<S.Step> {
    if steps == [] then []
    else if steps[0].Call? then [steps[0].a] + CallSteps(steps[1..])
    else CallSteps(steps[1..])
  }

  function FilterSteps(steps: seq<Step>): seq<D.Step> {
    if steps == [] then []
    else if steps[0].Filter? then [steps[0].b] + FilterSteps(steps[1..])
    else FilterSteps(steps[1..])
  }

  /** A run of the whole is a run of each part: what holds over all runs of the calls, or of the queues, holds here. */
  lemma {:induction false} Projects(node: QueueApi.Node, s: State, steps: seq<Step>)
    requires IsRun(node, s, steps)
    ensures S.IsRun(s.calls, CallSteps(steps)) && S.EndOf(s.calls, CallSteps(steps)) == EndOf(node, s, steps).calls
    ensures D.IsRun(node, s.queues, FilterSteps(steps))
    ensures D.EndOf(node, s.queues, FilterSteps(steps)) == EndOf(node, s, steps).queues
    decreases |steps|
  {
    hide S.Enabled, S.Do, D.Enabled, D.Do;
    if steps != [] {
      Projects(node, Do(node, s, steps[0]), steps[1..]);
      if steps[0].Call? {
        assert CallSteps(steps)[0] == steps[0].a && CallSteps(steps)[1..] == CallSteps(steps[1..]);
      } else {
        assert FilterSteps(steps)[0] == steps[0].b && FilterSteps(steps)[1..] == FilterSteps(steps[1..]);
      }
    }
  }

  ghost predicate Reachable(node: QueueApi.Node, s: State, routes: map<u32, u32>) {
    exists steps :: IsRun(node, Init(routes), steps) && EndOf(node, Init(routes), steps) == s
  }

  lemma ReachableParts(node: QueueApi.Node, s: State, routes: map<u32, u32>)
    requires Reachable(node, s, routes)
    ensures S.Reachable(s.calls, routes) && D.Reachable(node, s.queues)
  {
    hide S.IsRun, S.EndOf, D.IsRun, D.EndOf, IsRun, EndOf;
    var steps :| IsRun(node, Init(routes), steps) && EndOf(node, Init(routes), steps) == s;
    Projects(node, Init(routes), steps);
  }

  /** What the two sides have in common. */
  predicate Excluded(s: State) {
    (s.calls.lock == None || !Registering(s)) && (s.queues.held ==> s.queues.pending == None)
  }

  /** What a step on the calls may do to the mutex: only `Lock` takes it. */
  lemma CallLock(s: S.State, a: S.Step)
    requires S.Enabled(s, a)
    ensures S.Do(s, a).lock == if a.Lock? then Some(a.t) else if a.Unlock? then None else s.lock
    ensures a.Lock? <==> S.Do(s, a).next != s.next
    ensures !a.Lock? && !a.Send? ==> S.Do(s, a).history == s.history
  {
    hide S.AfterReceive, S.AfterSend, S.Pointed;
    if a.Receive? {
      SharedSocketInv.Received(s, a.t);
    }
    if a.Send? {
      SharedSocketProps.SendTouches(s, a);
    }
  }

  /** ... and on the other side only `Begin`. */
  lemma FilterLock(node: QueueApi.Node, s: D.State, b: D.Step)
    requires D.Enabled(node, s, b)
    ensures var s' := D.Do(node, s, b);
            && (s'.pending.Some? ==> s.pending.Some? || b.Begin?)
            && (s'.held ==> s.held || b.Finish?)
            && (s.held && s.pending == None ==> s'.held && s'.pending == None && !b.Begin? && !b.Finish?)
            && (b.Finish? ==> s.pending.Some? && s'.pending == None)
            && (b.Begin? ==> !s.held)
  {
    hide D.AfterArrive, D.AfterServe, D.AfterStop, D.AfterCrash, D.Outcome, D.Succeeds;
    if !b.Begin? && !b.Finish? && !b.Initialize? {
      DispatchProps.RulesAlone(node, s, b);
    }
  }

  lemma StepExcludes(node: QueueApi.Node, s: State, a: Step)
    requires Excluded(s) && Enabled(node, s, a)
    ensures Excluded(Do(node, s, a))
  {
    hide S.Enabled, S.Do, D.Enabled, D.Do;
    match a
    case Call(a) => CallLock(s.calls, a);
    case Filter(b) => FilterLock(node, s.queues, b);
  }

  lemma {:induction false} RunExcludes(node: QueueApi.Node, s: State, steps: seq<Step>)
    requires Excluded(s) && IsRun(node, s, steps)
    ensures Excluded(EndOf(node, s, steps))
    decreases |steps|
  {
    hide Enabled, Do, Excluded;
    if steps != [] {
      StepExcludes(node, s, steps[0]);
      RunExcludes(node, Do(node, s, steps[0]), steps[1..]);
    }
  }

  lemma ReachableExcluded(node: QueueApi.Node, s: State, routes: map<u32, u32>)
    requires Reachable(node, s, routes)
    ensures Excluded(s)
  {
    hide IsRun, EndOf;
    var steps :| IsRun(node, Init(routes), steps) && EndOf(node, Init(routes), steps) == s;
    RunExcludes(node, Init(routes), steps);
  }

  /** In every reachable state of the whole, a call and a registration never have the mutex at once. */
  lemma OneHolder(node: QueueApi.Node, s: State, routes: map<u32, u32>)
    requires Reachable(node, s, routes)
    ensures s.calls.lock == None || !Registering(s)
  {
    hide Reachable;
    ReachableExcluded(node, s, routes);
  }

  /** Nobody takes the mutex in these steps. */
  predicate NobodyLocks(steps: seq<Step>) {
    forall k :: 0 <= k < |steps| ==>
      match steps[k] case Call(a) => !a.Lock? case Filter(b) => !b.Begin?
  }

  lemma {:induction false} NobodyFrom(node: QueueApi.Node, s: State, steps: seq<Step>, routes: map<u32, u32>)
    requires SharedSocketInv.Base(s.calls, routes) && Excluded(s) && s.queues.held && IsRun(node, s, steps)
    ensures NobodyLocks(steps) && EndOf(node, s, steps).calls.history == s.calls.history
    decreases |steps|
  {
    hide SharedSocketInv.Base, S.Enabled, S.Do, D.Enabled, D.Do;
    if steps != [] {
      StepExcludes(node, s, steps[0]);
      match steps[0] {
        case Call(a) =>
          CallLock(s.calls, a);
          SharedSocketInv.BaseKeeps(s.calls, a, routes);
          NoSender(s.calls, a, routes);
        case Filter(b) => FilterLock(node, s.queues, b);
      }
      NobodyFrom(node, Do(node, s, steps[0]), steps[1..], routes);
      assert steps == [steps[0]] + steps[1..];
    }
  }

  lemma NoSender(s: S.State, a: S.Step, routes: map<u32, u32>)
    requires SharedSocketInv.Base(s, routes) && s.lock == None && S.Enabled(s, a)
    ensures !a.Send?
  {
    hide SharedSocketInv.Recorded, SharedSocketInv.Numbered;
    assert SharedSocketInv.Critical(S.PcOf(s, a.t)) <==> s.lock == Some(a.t);
  }

  /** After a registration that has failed, no registration, route call or lookup ever gets the mutex, in any run, and
      no route request ever reaches the kernel. */
  lemma FailedRegistrationBlocksAll(node: QueueApi.Node, s: State, steps: seq<Step>, routes: map<u32, u32>)
    requires Reachable(node, s, routes) && s.queues.held && IsRun(node, s, steps)
    ensures NobodyLocks(steps) && EndOf(node, s, steps).calls.history == s.calls.history
  {
    hide IsRun, EndOf, SharedSocketInv.Base, SharedSocketInv.Clean, S.Reachable, Reachable, D.Reachable;
    ReachableParts(node, s, routes);
    SharedSocketInv.ReachableInv(s.calls, routes);
    ReachableExcluded(node, s, routes);
    NobodyFrom(node, s, steps, routes);
  }

  /** Nor does anybody while a call waits for replies on which its receive loop cannot end, as after a failed send,
      unless its receive fails. */
  lemma {:induction false} StalledCallBlocksAll(node: QueueApi.Node, s: State, t: nat, steps: seq<Step>,
                                                routes: map<u32, u32>)
    requires SharedSocketProps.Stalled(s.calls, t, routes) && IsRun(node, s, steps)
    requires Call(S.ReceiveFails(t)) !in steps
    ensures NobodyLocks(steps) && EndOf(node, s, steps).calls.lock == Some(t)
    ensures EndOf(node, s, steps).calls.history == s.calls.history
    decreases |steps|
  {
    hide SharedSocketProps.Stalled, S.Enabled, S.Do, D.Enabled, D.Do;
    StalledHolds(s.calls, t, routes);
    if steps != [] {
      assert steps == [steps[0]] + steps[1..];
      match steps[0] {
        case Call(a) =>
          assert a != S.ReceiveFails(t);
          SharedSocketProps.StalledStep(s.calls, t, a, routes);
        case Filter(_) =>
      }
      StalledCallBlocksAll(node, Do(node, s, steps[0]), t, steps[1..], routes);
    }
  }

  lemma StalledHolds(s: S.State, t: nat, routes: map<u32, u32>)
    requires SharedSocketProps.Stalled(s, t, routes)
    ensures s.lock == Some(t)
  {
    hide SharedSocketInv.Base;
    SharedSocketProps.HeldByWaiting(s, t, routes);
  }
}
