/** src/api_queue.c: registering callbacks, handling queued packets, and the queue threads. */
module QueueApi {
  import opened Bytes
  import opened PacketFilter

  const IP_UDP_HDR_OFFSET := 28
  const QUEUE_LEN := 100000

  /** The node's own addresses, as the words that the C code compares. */
  datatype Node = Node(localIp: u32, broadcastIp: u32)

  datatype Packet = Packet(id: u32, raw: seq<byte>)

  datatype Verdict = Verdict(id: u32, accept: bool)

  /** What a callback is called with. */
  datatype CallArgs = CallArgs(src: u32, dest: u32, payload: seq<byte>, length: u32)

  /** A user callback, by name; None is the null pointer. */
  type Callback = Option<nat>

  /** From this node to its broadcast address. */
  predicate IsOwn(node: Node, raw: seq<byte>) {
    IP_HEADER <= |raw| && U32(raw, 12) == node.localIp && U32(raw, 16) == node.broadcastIp
  }

  /** All handlers but the one for forwarded packets keep own broadcasts from the callback. */
  predicate Reaches(node: Node, q: QueueId, raw: seq<byte>) {
    q.Forwarded? || !IsOwn(node, raw)
  }

  /** A packet shorter than both headers would give a negative length, which the callback sees as unsigned. */
  function ArgsOf(raw: seq<byte>): CallArgs
    requires IP_HEADER <= |raw| <= 0xFFFF
  {
    CallArgs(U32(raw, 12), U32(raw, 16),
             if IP_UDP_HDR_OFFSET <= |raw| then raw[IP_UDP_HDR_OFFSET..] else [],
             (|raw| - IP_UDP_HDR_OFFSET) % U32_MOD)
  }

  /** The verdict that a handler sets, `answer` being what the callback would return. */
  function VerdictOn(node: Node, q: QueueId, p: Packet, answer: byte): Verdict {
    Verdict(p.id, Reaches(node, q, p.raw) && answer != 0)
  }

  function Verdicts(node: Node, q: QueueId, ps: seq<Packet>, answers: seq<byte>): (r: seq<Verdict>)
    requires |answers| == |ps|
    ensures |r| == |ps|
  {
    if ps == [] then [] else
      var last := |ps| - 1;
      Verdicts(node, q, ps[..last], answers[..last]) + [VerdictOn(node, q, ps[last], answers[last])]
  }

  /** The packets that are handed to the callback. */
  function Shown(node: Node, q: QueueId, ps: seq<Packet>): seq<Packet> {
    if ps == [] then [] else
      var last := |ps| - 1;
      Shown(node, q, ps[..last]) + if Reaches(node, q, ps[last].raw) then [ps[last]] else []
  }

  predicate AllPackets(ps: seq<Packet>) {
    forall k :: 0 <= k < |ps| ==> IP_HEADER <= |ps[k].raw| <= 0xFFFF
  }

  /** One handler: `handle_incoming_control`, `handle_incoming_data`, `handle_outgoing` or, for the queue of
      forwarded packets, `handle_forwarded`, which alone has no check for own broadcasts. `cb` is its callback global;
      calling a null one ends the program, and the packet gets no verdict. */
  method HandlePacket(node: Node, q: QueueId, cb: Callback, id: u32, data: array<byte>, answer: byte)
    returns (call: Option<CallArgs>, verdict: Option<Verdict>)
    requires IP_HEADER <= data.Length <= 0xFFFF
    ensures call == if Reaches(node, q, data[..]) && cb.Some? then Some(ArgsOf(data[..])) else None
    ensures verdict == if Reaches(node, q, data[..]) && cb.None? then None
                       else Some(VerdictOn(node, q, Packet(id, data[..]), answer))
    ensures var own := U32(data[..], 12) == node.localIp && U32(data[..], 16) == node.broadcastIp;
            && (own && q != Forwarded ==> call == None && verdict == Some(Verdict(id, false)))
            && (!(own && q != Forwarded) && cb.Some? ==> verdict == Some(Verdict(id, answer != 0)))
            && (!(own && q != Forwarded) && cb.Some? ==>
                  var payload := if 28 <= data.Length then data[28..] else [];
                  call == Some(CallArgs(U32(data[..], 12), U32(data[..], 16), payload,
                                        (data.Length - 28) % 0x1_0000_0000)))
            && (!(own && q != Forwarded) && cb.None? ==> call == None && verdict == None)
  {
    var length: int := data.Length - IP_UDP_HDR_OFFSET;
    var src := U32(data[..], 12);
    var dest := U32(data[..], 16);
    if !q.Forwarded? {
      if dest == node.broadcastIp && src == node.localIp {
        return None, Some(Verdict(id, false));
      }
    }
    var payload := [];
    if 0 <= length {
      payload := data[IP_UDP_HDR_OFFSET..];
    }
    if cb.None? {
      return None, None;
    }
    call := Some(CallArgs(src, dest, payload, length % U32_MOD));
    var ret: u32 := answer;
    verdict := Some(Verdict(id, ret != 0));
  }

  /** One turn of the receive loop: what recv delivers (None when it fails or returns 0), the callback global at that
      time, and what the callback would answer. */
  datatype Turn = Turn(received: Option<Packet>, callback: Callback, answer: byte)

  /** The program ends in this turn. */
  predicate Crashes(node: Node, q: QueueId, turn: Turn) {
    turn.received.Some? && turn.callback.None? && Reaches(node, q, turn.received.value.raw)
  }

  predicate Goes(node: Node, q: QueueId, turn: Turn) {
    turn.received.Some? && !Crashes(node, q, turn)
  }

  /** The turns up to the first in which recv delivers nothing or the program ends. */
  function Front(node: Node, q: QueueId, turns: seq<Turn>): (n: nat)
    ensures n <= |turns|
    ensures forall k :: 0 <= k < n ==> Goes(node, q, turns[k])
    ensures n < |turns| ==> !Goes(node, q, turns[n])
  {
    if turns == [] || !Goes(node, q, turns[0]) then 0 else 1 + Front(node, q, turns[1..])
  }

  function Packets(turns: seq<Turn>): (ps: seq<Packet>)
    requires forall k :: 0 <= k < |turns| ==> turns[k].received.Some?
    ensures |ps| == |turns| && forall k :: 0 <= k < |ps| ==> Some(ps[k]) == turns[k].received
  {
    if turns == [] then [] else
      Packets(turns[..|turns| - 1]) + [turns[|turns| - 1].received.value]
  }

  function Answers(turns: seq<Turn>): (r: seq<byte>)
    ensures |r| == |turns| && forall k :: 0 <= k < |r| ==> r[k] == turns[k].answer
  {
    if turns == [] then [] else Answers(turns[..|turns| - 1]) + [turns[|turns| - 1].answer]
  }

  /** How the loop stands after these turns. */
  datatype Ending = Blocked | Destroyed | Crashed

  /** The receive loop of a queue thread: one verdict for each packet, carrying its id, in order of arrival;
      the callback runs once for each packet that is not withheld. It ends for good, and destroys the queue, when
      some recv fails or returns 0; and the program ends on a packet that is to go to a null callback. */
  method ThreadLoop(node: Node, q: QueueId, turns: seq<Turn>)
    returns (verdicts: seq<Verdict>, calls: seq<CallArgs>, ending: Ending, ghost shown: seq<Packet>)
    requires forall k :: 0 <= k < |turns| && turns[k].received.Some? ==>
               IP_HEADER <= |turns[k].received.value.raw| <= 0xFFFF
    ensures var front := turns[..Front(node, q, turns)];
            verdicts == Verdicts(node, q, Packets(front), Answers(front))
    ensures var n := Front(node, q, turns);
            ending == if n == |turns| then Blocked else if turns[n].received.None? then Destroyed else Crashed
    ensures shown == Shown(node, q, Packets(turns[..Front(node, q, turns)])) && |calls| == |shown|
    ensures AllPackets(shown)
    ensures forall k :: 0 <= k < |calls| ==> calls[k] == ArgsOf(shown[k].raw)
  {
    hide Reaches, ArgsOf, Front, Packets, Answers, Verdicts, Shown, VerdictOn;
    ghost var n := Front(node, q, turns);
    Nothing(turns);
    verdicts, calls, ending, shown := [], [], Blocked, [];
    var k := 0;
    while k < |turns|
      invariant 0 <= k <= n && ending == Blocked
      invariant verdicts == Verdicts(node, q, Packets(turns[..k]), Answers(turns[..k]))
      invariant shown == Shown(node, q, Packets(turns[..k])) && |calls| == |shown|
      invariant AllPackets(shown)
      invariant forall j :: 0 <= j < |calls| ==> calls[j] == ArgsOf(shown[j].raw)
    {
      if turns[k].received.None? {
        ending := Destroyed;
        return;
      }
      var p := turns[k].received.value;
      var data := new byte[|p.raw|](j requires 0 <= j < |p.raw| => p.raw[j]);
      assert data[..] == p.raw;
      var call, verdict := HandlePacket(node, q, turns[k].callback, p.id, data, turns[k].answer);
      if verdict.None? {
        ending := Crashed;
        return;
      }
      OneMore(node, q, turns, k);
      verdicts := verdicts + [verdict.value];
      if call.Some? {
        calls := calls + [call.value];
        shown := shown + [p];
      }
      k := k + 1;
    }
  }

  lemma Nothing(turns: seq<Turn>)
    ensures Packets(turns[..0]) == [] && Answers(turns[..0]) == []
    ensures forall node, q :: Verdicts(node, q, [], []) == [] && Shown(node, q, []) == []
  {
  }

  lemma OneMore(node: Node, q: QueueId, turns: seq<Turn>, k: nat)
    requires k < |turns| && forall j :: 0 <= j <= k ==> turns[j].received.Some?
    ensures var ps, answers, p := Packets(turns[..k]), Answers(turns[..k]), turns[k].received.value;
            && Verdicts(node, q, Packets(turns[..k + 1]), Answers(turns[..k + 1])) ==
               Verdicts(node, q, ps, answers) + [VerdictOn(node, q, p, turns[k].answer)]
            && Shown(node, q, Packets(turns[..k + 1])) ==
               Shown(node, q, ps) + if Reaches(node, q, p.raw) then [p] else []
  {
    hide VerdictOn, Reaches;
    assert turns[..k + 1][..k] == turns[..k];
    var ps, answers := Packets(turns[..k]), Answers(turns[..k]);
    assert (ps + [turns[k].received.value])[..k] == ps && (answers + [turns[k].answer])[..k] == answers;
  }

  class Registry {
    var input: seq<Rule>
    var output: seq<Rule>
    var forward: seq<Rule>
    var incomingControl: Callback
    var incomingData: Callback
    var outgoing: Callback
    var forwarded: Callback
    /** Queues whose thread has been created, in order of creation. */
    var threads: seq<QueueId>
    var locked: bool

    function Rules(): Chains
      reads this
    {
      Chains(input, output, forward)
    }

    /** system("iptables ..."): one rule command. */
    method System(cmd: Command)
      modifies this`input, this`output, this`forward
      ensures Rules() == Execute(old(Rules()), cmd)
    {
      match cmd
      case Append(hook, rule) =>
        match hook {
          case Input => input := input + [rule];
          case Output => output := output + [rule];
          case Forward => forward := forward + [rule];
        }
      case Insert(hook, rule) =>
        match hook {
          case Input => input := [rule] + input;
          case Output => output := [rule] + output;
          case Forward => forward := [rule] + forward;
        }
      case Flush => input, output, forward := [], [], [];
    }

    /** Where creating a thread fails, -1 is returned, with the rules changed and the mutex kept. */
    method RegisterIncomingCallback(controlCb: Callback, dataCb: Callback, controlFails: bool, dataFails: bool)
      returns (r: u32)
      requires !locked
      modifies this
      ensures Rules() == Register(old(Rules()), Incoming)
      ensures input == old(input) + [Rule(Control, Queue(InControl)), Rule(DstRange, Queue(InData))]
      ensures output == old(output) && forward == old(forward)
      ensures var controlEnds := controlCb.Some? && controlFails;
              var dataRuns := dataCb.Some? && !controlEnds;
              && r == (if controlEnds || (dataRuns && dataFails) then MINUS_ONE else 0)
              && locked == (r != 0)
              && incomingControl == (if controlCb.Some? then controlCb else old(incomingControl))
              && incomingData == (if dataRuns then dataCb else old(incomingData))
              && threads == old(threads) + (if controlCb.Some? && !controlFails then [InControl] else [])
                                         + (if dataRuns && !dataFails then [InData] else [])
      ensures outgoing == old(outgoing) && forwarded == old(forwarded)
    {
      locked := true;
      System(Append(Input, Rule(Control, Queue(InControl))));
      System(Append(Input, Rule(DstRange, Queue(InData))));
      if controlCb.Some? {
        incomingControl := controlCb;
        if controlFails {
          return MINUS_ONE;
        }
        threads := threads + [InControl];
      }
      if dataCb.Some? {
        incomingData := dataCb;
        if dataFails {
          return MINUS_ONE;
        }
        threads := threads + [InData];
      }
      locked := false;
      return 0;
    }

    /** On a null callback, or when creating the thread fails, the rules have been changed all the same, and the mutex
        is not given up. */
    method RegisterOutgoingCallback(cb: Callback, threadFails: bool) returns (r: u32)
      requires !locked
      modifies this
      ensures Rules() == Register(old(Rules()), OutgoingReg)
      ensures output == [Rule(Control, Accept)] + old(output) + [Rule(DstRange, Queue(Outgoing))]
      ensures input == old(input) && forward == old(forward)
      ensures r == (if cb.None? || threadFails then MINUS_ONE else 0) && locked == (r != 0)
      ensures outgoing == if cb.Some? then cb else old(outgoing)
      ensures incomingControl == old(incomingControl) && incomingData == old(incomingData)
      ensures forwarded == old(forwarded)
      ensures threads == old(threads) + if cb.None? || threadFails then [] else [Outgoing]
    {
      locked := true;
      System(Insert(Output, Rule(Control, Accept)));
      System(Append(Output, Rule(DstRange, Queue(Outgoing))));
      if cb.None? {
        return MINUS_ONE;
      }
      outgoing := cb;
      if threadFails {
        return MINUS_ONE;
      }
      threads := threads + [Outgoing];
      locked := false;
      return 0;
    }

    method RegisterForwardCallback(cb: Callback, threadFails: bool) returns (r: u32)
      requires !locked
      modifies this
      ensures Rules() == Register(old(Rules()), ForwardReg)
      ensures forward == old(forward) + [Rule(Control, Drop), Rule(Any, Queue(Forwarded))]
      ensures input == old(input) && output == old(output)
      ensures r == (if cb.None? || threadFails then MINUS_ONE else 0) && locked == (r != 0)
      ensures forwarded == if cb.Some? then cb else old(forwarded)
      ensures incomingControl == old(incomingControl) && incomingData == old(incomingData)
      ensures outgoing == old(outgoing)
      ensures threads == old(threads) + if cb.None? || threadFails then [] else [Forwarded]
    {
      locked := true;
      System(Append(Forward, Rule(Control, Drop)));
      System(Append(Forward, Rule(Any, Queue(Forwarded))));
      if cb.None? {
        return MINUS_ONE;
      }
      forwarded := cb;
      if threadFails {
        return MINUS_ONE;
      }
      threads := threads + [Forwarded];
      locked := false;
      return 0;
    }

    /** Takes no mutex. `shell` is the result of the last system() call. */
    method InitializeQueue(shell: int) returns (r: int)
      modifies this
      ensures Rules() == AfterAll([]) && input == output == forward == []
      ensures incomingControl == incomingData == outgoing == forwarded == None
      ensures threads == old(threads) && locked == old(locked)
      ensures r == if shell < 0 then -1 else 0
    {
      incomingControl, incomingData, outgoing, forwarded := None, None, None, None;
      System(Flush);
      r := if shell < 0 then -1 else 0;
    }
  }
}
