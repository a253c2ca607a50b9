/** src/api_queue.c: the iptables rules of the three registrations, as ordered first-match chains. */
module PacketFilter {
  import opened Bytes

  datatype QueueId = InControl | Outgoing | Forwarded | InData

  datatype Target = Accept | Drop | Queue(q: QueueId)

  /** `-p UDP --dport 269`, `-m iprange --dst-range 192.168.1.1-192.168.1.100`, or no condition. */
  datatype Matcher = Control | DstRange | Any

  datatype Rule = Rule(matcher: Matcher, target: Target)

  datatype Hook = Input | Output | Forward

  datatype Chains = Chains(input: seq<Rule>, output: seq<Rule>, forward: seq<Rule>)

  /** `-A`, `-I` and `-F`. */
  datatype Command = Append(hook: Hook, rule: Rule) | Insert(hook: Hook, rule: Rule) | Flush

  datatype Registration = Incoming | OutgoingReg | ForwardReg

  const MANET_PORT: u16 := 269
  const PROTO_UDP := 17
  const RANGE_LOW := 0xC0A8_0101
  const RANGE_HIGH := 0xC0A8_0164

  /** A half-word in network order. */
  function Net16(m: seq<byte>, i: nat): u16
    requires i + 2 <= |m|
  {
    var hi: int, lo: int := m[i], m[i + 1];
    0x100 * hi + lo
  }

  function Net32(m: seq<byte>, i: nat): u32
    requires i + 4 <= |m|
  {
    var hi: int, lo: int := Net16(m, i), Net16(m, i + 2);
    0x1_0000 * hi + lo
  }

  /** An IPv4 packet holds at least its fixed header. */
  const IP_HEADER := 20

  /** A UDP packet (its first fragment) with destination port 269. */
  predicate IsControl(raw: seq<byte>) {
    IP_HEADER <= |raw| && raw[9] == PROTO_UDP && Net16(raw, 6) % 0x2000 == 0 &&
    var h := raw[0] % 16 * 4;
    h + 8 <= |raw| && Net16(raw, h + 2) == MANET_PORT
  }

  predicate InRange(raw: seq<byte>) {
    IP_HEADER <= |raw| && RANGE_LOW <= Net32(raw, 16) <= RANGE_HIGH
  }

  predicate Matches(r: Rule, raw: seq<byte>) {
    match r.matcher
    case Control => IsControl(raw)
    case DstRange => InRange(raw)
    case Any => true
  }

  /** The target of the first matching rule. */
  function FirstMatch(chain: seq<Rule>, raw: seq<byte>): Option<Target> {
    if chain == [] then None
    else if Matches(chain[0], raw) then Some(chain[0].target)
    else FirstMatch(chain[1..], raw)
  }

  function ChainOf(c: Chains, hook: Hook): seq<Rule> {
    match hook
    case Input => c.input
    case Output => c.output
    case Forward => c.forward
  }

  function WithChain(c: Chains, hook: Hook, chain: seq<Rule>): Chains {
    match hook
    case Input => c.(input := chain)
    case Output => c.(output := chain)
    case Forward => c.(forward := chain)
  }

  function Execute(c: Chains, cmd: Command): Chains {
    match cmd
    case Append(hook, rule) => WithChain(c, hook, ChainOf(c, hook) + [rule])
    case Insert(hook, rule) => WithChain(c, hook, [rule] + ChainOf(c, hook))
    case Flush => Chains([], [], [])
  }

  /** The two rule commands of each Register function, in order. */
  function FirstCommand(r: Registration): Command {
    match r
    case Incoming => Append(Input, Rule(Control, Queue(InControl)))
    case OutgoingReg => Insert(Output, Rule(Control, Accept))
    case ForwardReg => Append(Forward, Rule(Control, Drop))
  }

  function SecondCommand(r: Registration): Command {
    match r
    case Incoming => Append(Input, Rule(DstRange, Queue(InData)))
    case OutgoingReg => Append(Output, Rule(DstRange, Queue(Outgoing)))
    case ForwardReg => Append(Forward, Rule(Any, Queue(Forwarded)))
  }

  function Register(c: Chains, r: Registration): Chains {
    Execute(Execute(c, FirstCommand(r)), SecondCommand(r))
  }

  /** The flushed chains after completed registrations. */
  function AfterAll(done: seq<Registration>): Chains {
    if done == [] then Chains([], [], []) else Register(AfterAll(done[..|done| - 1]), done[|done| - 1])
  }

  /** ... and after the first command of one more, where one is under way. */
  function ChainsOf(done: seq<Registration>, pending: Option<Registration>): Chains {
    match pending
    case None => AfterAll(done)
    case Some(r) => Execute(AfterAll(done), FirstCommand(r))
  }

  function RegistrationOf(hook: Hook): Registration {
    match hook
    case Input => Incoming
    case Output => OutgoingReg
    case Forward => ForwardReg
  }

  /** What becomes of UDP port 269 packets on a hook that is registered. */
  function ControlTarget(hook: Hook): Target {
    match hook
    case Input => Queue(InControl)
    case Output => Accept
    case Forward => Drop
  }

  /** Which other packets are queued on a hook that is registered. */
  predicate IsData(hook: Hook, raw: seq<byte>) {
    hook.Forward? || InRange(raw)
  }

  function DataQueue(hook: Hook): QueueId {
    match hook
    case Input => InData
    case Output => Outgoing
    case Forward => Forwarded
  }

  /** The decision table: it asks only whether the registration of the hook has been completed at least once,
      or has at least run its first command. */
  function Decision(hook: Hook, begun: bool, complete: bool, raw: seq<byte>): Option<Target> {
    if IsControl(raw) then
      if begun || complete then Some(ControlTarget(hook)) else None
    else if complete && IsData(hook, raw) then Some(Queue(DataQueue(hook)))
    else None
  }

  function OrRule(a: Option<Target>, r: Rule, raw: seq<byte>): Option<Target> {
    if a.Some? then a else if Matches(r, raw) then Some(r.target) else None
  }

  lemma {:induction false} MatchAppend(chain: seq<Rule>, r: Rule, raw: seq<byte>)
    ensures FirstMatch(chain + [r], raw) == OrRule(FirstMatch(chain, raw), r, raw)
    decreases |chain|
  {
    if chain == [] {
      assert ([r])[1..] == [];
    } else {
      assert (chain + [r])[1..] == chain[1..] + [r];
      MatchAppend(chain[1..], r, raw);
    }
  }

  lemma MatchInsert(chain: seq<Rule>, r: Rule, raw: seq<byte>)
    ensures FirstMatch([r] + chain, raw) == if Matches(r, raw) then Some(r.target) else FirstMatch(chain, raw)
  {
    assert ([r] + chain)[1..] == chain;
  }

  /** One more command on chains that follow the decision table. */
  lemma FirstCommandDecides(c: Chains, r: Registration, hook: Hook, complete: bool, raw: seq<byte>)
    requires FirstMatch(ChainOf(c, hook), raw) == Decision(hook, false, complete, raw)
    ensures FirstMatch(ChainOf(Execute(c, FirstCommand(r)), hook), raw) ==
            Decision(hook, r == RegistrationOf(hook), complete, raw)
  {
    hide IsControl, InRange;
    MatchAppend(c.input, FirstCommand(Incoming).rule, raw);
    MatchInsert(c.output, FirstCommand(OutgoingReg).rule, raw);
    MatchAppend(c.forward, FirstCommand(ForwardReg).rule, raw);
  }

  lemma SecondCommandDecides(c: Chains, r: Registration, hook: Hook, complete: bool, raw: seq<byte>)
    requires FirstMatch(ChainOf(c, hook), raw) == Decision(hook, r == RegistrationOf(hook), complete, raw)
    ensures FirstMatch(ChainOf(Execute(c, SecondCommand(r)), hook), raw) ==
            Decision(hook, false, complete || r == RegistrationOf(hook), raw)
  {
    hide IsControl, InRange;
    MatchAppend(c.input, SecondCommand(Incoming).rule, raw);
    MatchAppend(c.output, SecondCommand(OutgoingReg).rule, raw);
    MatchAppend(c.forward, SecondCommand(ForwardReg).rule, raw);
  }

  /** Registration history is irrelevant: after any sequence of registrations, in any order and with any
      repetition, also while one more is half done, first-match classification is the decision table. */
  lemma {:induction false} HistoryIrrelevant(done: seq<Registration>, pending: Option<Registration>,
                                             hook: Hook, raw: seq<byte>)
    ensures FirstMatch(ChainOf(ChainsOf(done, pending), hook), raw) ==
            Decision(hook, pending == Some(RegistrationOf(hook)), RegistrationOf(hook) in done, raw)
    decreases |done|, pending.Some?
  {
    hide IsControl, InRange;
    if pending.Some? {
      HistoryIrrelevant(done, None, hook, raw);
      FirstCommandDecides(AfterAll(done), pending.value, hook, RegistrationOf(hook) in done, raw);
    } else if done != [] {
      var init, last := done[..|done| - 1], done[|done| - 1];
      HistoryIrrelevant(init, Some(last), hook, raw);
      SecondCommandDecides(ChainsOf(init, Some(last)), last, hook, RegistrationOf(hook) in init, raw);
      assert done == init + [last];
    }
  }

  /** The conditions of the rules on the bytes of a packet: `-p UDP --dport 269` asks for protocol 17, the first
      fragment and the port bytes 1 and 13; `--dst-range` for a destination from 192.168.1.1 to 192.168.1.100. */
  lemma ConditionBytes(raw: seq<byte>)
    ensures IsControl(raw) <==>
              20 <= |raw| && raw[9] == 17 && raw[6] % 32 == 0 && raw[7] == 0 &&
              var h := raw[0] % 16 * 4; h + 8 <= |raw| && raw[h + 2] == 1 && raw[h + 3] == 13
    ensures InRange(raw) <==>
              20 <= |raw| && raw[16] == 192 && raw[17] == 168 && raw[18] == 1 && 1 <= raw[19] <= 100
  {
    if 20 <= |raw| {
      var hi: int, lo: int := raw[6], raw[7];
      assert (0x100 * hi + lo) % 0x2000 == 0x100 * (hi % 32) + lo;
      var a: int, b: int, c: int, d: int := raw[16], raw[17], raw[18], raw[19];
      assert Net32(raw, 16) == 0x1_0000 * (0x100 * a + b) + (0x100 * c + d);
    }
  }

  /** What the rules of a hook do, on the bytes of a packet of at least 20 bytes, when its registration has been
      completed at least once since the last flush, in any order with the others and with any repetition, also while
      one more is half done. */
  lemma RulesOnBytes(done: seq<Registration>, pending: Option<Registration>, raw: seq<byte>)
    requires 20 <= |raw|
    ensures var c := ChainsOf(done, pending);
            var h := raw[0] % 16 * 4;
            var control := raw[9] == 17 && raw[6] % 32 == 0 && raw[7] == 0
                           && h + 8 <= |raw| && raw[h + 2] == 1 && raw[h + 3] == 13;
            var mesh := raw[16] == 192 && raw[17] == 168 && raw[18] == 1 && 1 <= raw[19] <= 100;
            && (Incoming in done ==>
                  FirstMatch(c.input, raw) ==
                  if control then Some(Queue(InControl)) else if mesh then Some(Queue(InData)) else None)
            && (OutgoingReg in done ==>
                  FirstMatch(c.output, raw) ==
                  if control then Some(Accept) else if mesh then Some(Queue(Outgoing)) else None)
            && (ForwardReg in done ==>
                  FirstMatch(c.forward, raw) == if control then Some(Drop) else Some(Queue(Forwarded)))
  {
    hide IsControl, InRange, FirstMatch, ChainsOf;
    ConditionBytes(raw);
    HistoryIrrelevant(done, pending, Input, raw);
    HistoryIrrelevant(done, pending, Output, raw);
    HistoryIrrelevant(done, pending, Forward, raw);
  }

  /** On chains that hold other rules, only the registration of outgoing packets puts its control rule first: control
      packets then leave, whatever stood there before. The other two come behind whatever stood there before. */
  lemma OnOtherRules(c: Chains, raw: seq<byte>)
    requires IsControl(raw)
    ensures FirstMatch(Register(c, OutgoingReg).output, raw) == Some(Accept)
    ensures FirstMatch(Register(c, Incoming).input, raw) ==
            if FirstMatch(c.input, raw).Some? then FirstMatch(c.input, raw) else Some(Queue(InControl))
    ensures FirstMatch(Register(c, ForwardReg).forward, raw) ==
            if FirstMatch(c.forward, raw).Some? then FirstMatch(c.forward, raw) else Some(Drop)
  {
    hide IsControl, InRange;
    MatchInsert(c.output, Rule(Control, Accept), raw);
    MatchAppend([Rule(Control, Accept)] + c.output, Rule(DstRange, Queue(Outgoing)), raw);
    MatchAppend(c.input, Rule(Control, Queue(InControl)), raw);
    MatchAppend(c.input + [Rule(Control, Queue(InControl))], Rule(DstRange, Queue(InData)), raw);
    MatchAppend(c.forward, Rule(Control, Drop), raw);
    MatchAppend(c.forward + [Rule(Control, Drop)], Rule(Any, Queue(Forwarded)), raw);
  }

  /** Keeping data queues free of control packets. */
  ghost predicate Separates(c: Chains) {
    forall hook, raw :: IsControl(raw) ==>
      var t := FirstMatch(ChainOf(c, hook), raw);
      t.Some? && t.value.Queue? ==> t.value.q == InControl
  }

  /** A 28-byte UDP packet to port 269 at 192.168.1.1. */
  const SAMPLE: seq<byte> :=
    [0x45, 0, 0, 28, 0, 0, 0, 0, 64, 17, 0, 0, 192, 168, 1, 2, 192, 168, 1, 1, 0, 1, 1, 13, 0, 8, 0, 0]

  lemma SampleIsControl()
    ensures IsControl(SAMPLE) && InRange(SAMPLE)
  {
  }

  /** A flush (InitializeQueue does not take the mutex) is harmless exactly when no registration stands between
      its two commands: the second command alone would queue control packets as data. */
  lemma FlushHarmlessIffNothingPending(c: Chains, pending: Option<Registration>)
    ensures var flushed := Execute(c, Flush);
            Separates(if pending.None? then flushed else Execute(flushed, SecondCommand(pending.value)))
            <==> pending.None?
  {
    hide IsControl, InRange;
    var flushed := Execute(c, Flush);
    assert Separates(flushed);
    if pending.Some? {
      var c' := Execute(flushed, SecondCommand(pending.value));
      var hook := SecondCommand(pending.value).hook;
      SampleIsControl();
      assert ChainOf(c', hook) == [SecondCommand(pending.value).rule];
      assert FirstMatch(ChainOf(c', hook), SAMPLE) == Some(SecondCommand(pending.value).rule.target);
    }
  }
}
