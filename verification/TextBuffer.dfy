/** The static buffer of `ntop` under any number of sending threads.

    Sends take no mutex. inet_ntop writes the text of an address into the buffer character by character, up to its
    terminating NUL, and inet_pton reads it back character by character, up to the first NUL. */
module TextBuffer {
  import opened Bytes
  import opened SendApi

  type Tid = nat

  /** INET6_ADDRSTRLEN */
  const TEXT_LEN := 46
  const NUL := '\0'

  /** Where a thread stands in a send to `asked`: `k` characters have been written, or `text` has been read. */
  datatype Pc = Idle | Printing(asked: u32, k: nat) | Reading(asked: u32, text: string)

  /** A finished send: the address asked for, the one parsed, and whether the thread was left undisturbed, that is,
      no other thread wrote a character of a different address between its first write and its last read. */
  datatype Sent = Sent(t: Tid, asked: u32, got: Option<u32>, undisturbed: bool)

  /** `disturbed` and `sent` only record; no step looks at them. */
  datatype State = State(buf: string, pcs: map<Tid, Pc>, disturbed: set<Tid>, sent: seq<Sent>)

  datatype Step = Begin(t: Tid, address: u32) | Write(t: Tid) | Read(t: Tid)

  function Fill(n: nat): (s: string)
    ensures |s| == n && forall k :: 0 <= k < n ==> s[k] == NUL
  {
    if n == 0 then [] else [NUL] + Fill(n - 1)
  }

  /** Static memory is zeroed. */
  function Init(): State {
    State(Fill(TEXT_LEN), map[], {}, [])
  }

  function PcOf(s: State, t: Tid): Pc {
    if t in s.pcs then s.pcs[t] else Idle
  }

  /** What inet_ntop writes. */
  function Text(address: u32): string {
    Dotted(address) + [NUL]
  }

  predicate Enabled(s: State, a: Step) {
    var pc := PcOf(s, a.t);
    match a
    case Begin(_, _) => pc.Idle?
    case Write(_) => pc.Printing? && pc.k < |Text(pc.asked)| && pc.k < |s.buf|
    case Read(_) => pc.Reading? && |pc.text| < |s.buf|
  }

  function Move(s: State, t: Tid, pc: Pc): State {
    s.(pcs := s.pcs[t := pc])
  }

  /** The other threads that are in a send to another address. */
  function Others(s: State, t: Tid, address: u32): set<Tid> {
    set u | u in s.pcs && u != t && !s.pcs[u].Idle? && s.pcs[u].asked != address
  }

  function AfterWrite(s: State, t: Tid): State
    requires Enabled(s, Write(t))
  {
    var pc := PcOf(s, t);
    var next := if pc.k + 1 == |Text(pc.asked)| then Reading(pc.asked, "") else Printing(pc.asked, pc.k + 1);
    Move(s, t, next).(buf := s.buf[pc.k := Text(pc.asked)[pc.k]], disturbed := s.disturbed + Others(s, t, pc.asked))
  }

  function AfterRead(s: State, t: Tid): State
    requires Enabled(s, Read(t))
  {
    var pc := PcOf(s, t);
    var c := s.buf[|pc.text|];
    if c == NUL then Move(s, t, Idle).(sent := s.sent + [Sent(t, pc.asked, Pton(pc.text), t !in s.disturbed)])
    else Move(s, t, Reading(pc.asked, pc.text + [c]))
  }

  function Do(s: State, a: Step): State
    requires Enabled(s, a)
  {
    match a
    case Begin(t, address) => Move(s, t, Printing(address, 0)).(disturbed := s.disturbed - {t})
    case Write(t) => AfterWrite(s, t)
    case Read(t) => AfterRead(s, t)
  }

  predicate IsRun(s: State, steps: seq<Step>)
    decreases |steps|
  {
    steps == [] || (Enabled(s, steps[0]) && IsRun(Do(s, steps[0]), steps[1..]))
  }

  function EndOf(s: State, steps: seq<Step>): State
    requires IsRun(s, steps)
    decreases |steps|
  {
    if steps == [] then s else EndOf(Do(s, steps[0]), steps[1..])
  }

  ghost predicate Reachable(s: State) {
    exists steps :: IsRun(Init(), steps) && EndOf(Init(), steps) == s
  }

  predicate NoNul(s: string) {
    forall k :: 0 <= k < |s| ==> s[k] != NUL
  }

  lemma DecimalNoNul(b: byte)
    ensures NoNul(Decimal(b))
  {
  }

  lemma DottedNoNul(address: u32)
    ensures NoNul(Dotted(address)) && |Dotted(address)| <= 15
  {
    hide Decimal, Le32;
    var b := Le32(address);
    DecimalNoNul(b[0]);
    DecimalNoNul(b[1]);
    DecimalNoNul(b[2]);
    DecimalNoNul(b[3]);
  }

  predicate Starts(buf: string, s: string) {
    |s| <= |buf| && forall k :: 0 <= k < |s| ==> buf[k] == s[k]
  }

  /** A thread that nobody has disturbed finds its own text in the buffer. */
  predicate Own(s: State, t: Tid) {
    t in s.disturbed ||
    match PcOf(s, t)
    case Idle => true
    case Printing(asked, k) => k < |Text(asked)| && Starts(s.buf, Text(asked)[..k])
    case Reading(asked, text) =>
      Starts(s.buf, Text(asked)) && |text| <= |Dotted(asked)| && text == Dotted(asked)[..|text|]
  }

  /** Nothing but terminators behind the longest address text, so that no read leaves the buffer. */
  predicate Bounded(s: State) {
    && |s.buf| == TEXT_LEN && (forall k :: 15 <= k < TEXT_LEN ==> s.buf[k] == NUL)
    && forall t :: t in s.pcs ==>
         match s.pcs[t]
         case Idle => true
         case Printing(asked, k) => k < |Text(asked)|
         case Reading(_, text) => |text| <= 15
  }

  predicate SentRight(s: State) {
    forall k :: 0 <= k < |s.sent| && s.sent[k].undisturbed ==> s.sent[k].got == Some(s.sent[k].asked)
  }

  ghost predicate Inv(s: State) {
    Bounded(s) && SentRight(s) && forall t: Tid :: Own(s, t)
  }

  lemma TextShape(address: u32)
    ensures |Text(address)| == |Dotted(address)| + 1 <= 16
    ensures forall k :: 0 <= k < |Text(address)| ==> (Text(address)[k] == NUL <==> k == |Dotted(address)|)
    ensures Text(address)[..|Dotted(address)|] == Dotted(address)
  {
    hide Dotted;
    DottedNoNul(address);
  }

  lemma BeginKeeps(s: State, t: Tid, address: u32)
    requires Inv(s) && Enabled(s, Begin(t, address))
    ensures Inv(Do(s, Begin(t, address)))
  {
    hide Dotted;
    var s' := Do(s, Begin(t, address));
    forall u: Tid
      ensures Own(s', u)
    {
      assert Own(s, u);
    }
  }

  lemma WriteKeeps(s: State, t: Tid)
    requires Inv(s) && Enabled(s, Write(t))
    ensures Inv(Do(s, Write(t)))
  {
    hide Text, Dotted, Pton;
    var s', pc := Do(s, Write(t)), PcOf(s, t);
    TextShape(pc.asked);
    forall u: Tid
      ensures Own(s', u)
    {
      assert Own(s, u);
      if PcOf(s, u).Printing? || PcOf(s, u).Reading? {
        TextShape(PcOf(s, u).asked);
      }
      if u == t {
        assert Text(pc.asked)[..pc.k + 1] == Text(pc.asked)[..pc.k] + [Text(pc.asked)[pc.k]];
      }
    }
  }

  lemma ReadKeeps(s: State, t: Tid)
    requires Inv(s) && Enabled(s, Read(t))
    ensures Inv(Do(s, Read(t)))
  {
    hide Text, Dotted, Pton;
    var s', pc := Do(s, Read(t)), PcOf(s, t);
    var c, n := s.buf[|pc.text|], |Dotted(pc.asked)|;
    TextShape(pc.asked);
    AddressRoundTrip(pc.asked);
    assert Own(s, t);
    if t !in s.disturbed {
      assert c == Text(pc.asked)[|pc.text|];
      if c == NUL {
        assert pc.text == Dotted(pc.asked);
      } else {
        assert c == Dotted(pc.asked)[|pc.text|];
      }
    }
    forall u: Tid
      ensures Own(s', u)
    {
      assert Own(s, u);
    }
  }

  lemma {:induction false} RunKeeps(s: State, steps: seq<Step>)
    requires Inv(s) && IsRun(s, steps)
    ensures Inv(EndOf(s, steps))
    decreases |steps|
  {
    hide Inv, Do, Enabled;
    if steps != [] {
      match steps[0]
      case Begin(t, address) => BeginKeeps(s, t, address);
      case Write(t) => WriteKeeps(s, t);
      case Read(t) => ReadKeeps(s, t);
    }
    if steps != [] {
      RunKeeps(Do(s, steps[0]), steps[1..]);
    }
  }

  /** In every run, a send that was left undisturbed goes to the address it was asked for; and whatever the threads
      write, no step leaves the buffer or gets stuck. */
  lemma UndisturbedSend(s: State)
    requires Reachable(s)
    ensures forall k :: 0 <= k < |s.sent| && s.sent[k].undisturbed ==> s.sent[k].got == Some(s.sent[k].asked)
    ensures |s.buf| == 46
    ensures forall t: Tid :: !PcOf(s, t).Idle? ==> Enabled(s, Write(t)) || Enabled(s, Read(t))
  {
    hide Text, Dotted, Pton;
    var steps :| IsRun(Init(), steps) && EndOf(Init(), steps) == s;
    RunKeeps(Init(), steps);
    forall t: Tid | !PcOf(s, t).Idle?
      ensures Enabled(s, Write(t)) || Enabled(s, Read(t))
    {
      TextShape(PcOf(s, t).asked);
    }
  }

  lemma {:induction false} RunJoin(s: State, a: seq<Step>, b: seq<Step>)
    requires IsRun(s, a) && IsRun(EndOf(s, a), b)
    ensures IsRun(s, a + b) && EndOf(s, a + b) == EndOf(EndOf(s, a), b)
    decreases |a|
  {
    hide Do, Enabled;
    if a == [] {
      assert a + b == b;
    } else {
      assert (a + b)[1..] == a[1..] + b;
      RunJoin(Do(s, a[0]), a[1..], b);
    }
  }

  /** No thread begins a send to another address than its own ones. */
  ghost predicate AsksOnly(steps: seq<Step>, addresses: Tid -> set<u32>) {
    forall k :: 0 <= k < |steps| && steps[k].Begin? ==> steps[k].address in addresses(steps[k].t)
  }

  /** No send begins. */
  predicate NoBegin(steps: seq<Step>) {
    forall k :: 0 <= k < |steps| ==> !steps[k].Begin?
  }

  /** The rest of a thread's printing, undisturbed. */
  lemma {:induction false} PrintRest(s: State, t: Tid) returns (steps: seq<Step>)
    requires |s.buf| == TEXT_LEN && PcOf(s, t).Printing?
    requires var pc := PcOf(s, t); pc.k < |Text(pc.asked)| && Starts(s.buf, Text(pc.asked)[..pc.k])
    ensures IsRun(s, steps) && NoBegin(steps)
    ensures var s', asked := EndOf(s, steps), PcOf(s, t).asked;
            && |s'.buf| == TEXT_LEN && Starts(s'.buf, Text(asked)) && s'.sent == s.sent
            && s'.pcs == s.pcs[t := Reading(asked, "")]
            && s'.disturbed == s.disturbed + Others(s, t, asked)
    decreases |Text(PcOf(s, t).asked)| - PcOf(s, t).k
  {
    hide Dotted, Text;
    var pc := PcOf(s, t);
    TextShape(pc.asked);
    var s1 := Do(s, Write(t));
    if pc.k + 1 < |Text(pc.asked)| {
      var rest := PrintRest(s1, t);
      steps := [Write(t)] + rest;
      assert s1.pcs[t := Reading(pc.asked, "")] == s.pcs[t := Reading(pc.asked, "")];
      assert Others(s1, t, pc.asked) == Others(s, t, pc.asked);
    } else {
      steps := [Write(t)];
      assert steps[1..] == [];
    }
  }

  /** The rest of a thread's reading: it parses what the buffer holds up to the first NUL. */
  lemma {:induction false} ReadRest(s: State, t: Tid, w: string) returns (steps: seq<Step>)
    requires Starts(s.buf, w + [NUL]) && NoNul(w) && PcOf(s, t).Reading?
    requires |PcOf(s, t).text| <= |w| && PcOf(s, t).text == w[..|PcOf(s, t).text|]
    ensures IsRun(s, steps) && NoBegin(steps)
    ensures EndOf(s, steps) ==
            Move(s, t, Idle).(sent := s.sent + [Sent(t, PcOf(s, t).asked, Pton(w), t !in s.disturbed)])
    decreases |w| - |PcOf(s, t).text|
  {
    hide Pton;
    var pc := PcOf(s, t);
    var n := |pc.text|;
    assert s.buf[n] == (w + [NUL])[n];
    var s1 := Do(s, Read(t));
    if n < |w| {
      assert pc.text + [s.buf[n]] == w[..n + 1];
      var rest := ReadRest(s1, t, w);
      steps := [Read(t)] + rest;
      assert s1.pcs[t := Idle] == s.pcs[t := Idle];
    } else {
      assert pc.text == w;
      steps := [Read(t)];
      assert steps[1..] == [];
    }
  }

  /** One thread begins a send and prints. */
  lemma Print(s: State, t: Tid, address: u32) returns (steps: seq<Step>)
    requires |s.buf| == TEXT_LEN && PcOf(s, t).Idle?
    ensures IsRun(s, steps) && steps != [] && steps[0] == Begin(t, address) && NoBegin(steps[1..])
    ensures var s' := EndOf(s, steps);
            && |s'.buf| == TEXT_LEN && Starts(s'.buf, Text(address)) && s'.sent == s.sent
            && s'.pcs == s.pcs[t := Reading(address, "")]
            && s'.disturbed == s.disturbed - {t} + Others(s, t, address)
  {
    hide Text;
    var s1 := Do(s, Begin(t, address));
    TextShape(address);
    var rest := PrintRest(s1, t);
    steps := [Begin(t, address)] + rest;
    assert s1.pcs[t := Reading(address, "")] == s.pcs[t := Reading(address, "")];
    assert Others(s1, t, address) == Others(s, t, address);
  }

  /** One thread prints `a`, another prints `b`, and the first one then parses `b`. */
  lemma Crossed(t: Tid, a: u32, u: Tid, b: u32, addresses: Tid -> set<u32>) returns (steps: seq<Step>)
    requires t != u && a in addresses(t) && b in addresses(u)
    ensures IsRun(Init(), steps) && AsksOnly(steps, addresses)
    ensures EndOf(Init(), steps).sent == [Sent(t, a, Some(b), a == b)]
  {
    hide Text, Pton, Dotted, Do, Enabled;
    var first := Print(Init(), t, a);
    var s1 := EndOf(Init(), first);
    var second := Print(s1, u, b);
    var s2 := EndOf(s1, second);
    DottedNoNul(b);
    AddressRoundTrip(b);
    TextIs(b);
    var third := ReadRest(s2, t, Dotted(b));
    RunJoin(Init(), first, second);
    RunJoin(Init(), first + second, third);
    steps := first + second + third;
    assert t in Others(s1, u, b) <==> a != b;
  }

  lemma TextIs(address: u32)
    ensures Text(address) == Dotted(address) + [NUL]
  {
  }

  /** Threads ask for their own addresses only, and nobody has been disturbed. */
  ghost predicate Undisturbed(s: State, addresses: Tid -> set<u32>) {
    && s.disturbed == {}
    && (forall t :: t in s.pcs && !s.pcs[t].Idle? ==> s.pcs[t].asked in addresses(t))
    && (forall k :: 0 <= k < |s.sent| ==> s.sent[k].undisturbed)
  }

  /** Addresses of different threads are equal. */
  ghost predicate Apart(addresses: Tid -> set<u32>) {
    forall t, u, a, b :: t != u && a in addresses(t) && b in addresses(u) ==> a == b
  }

  lemma {:induction false} ApartRun(s: State, steps: seq<Step>, addresses: Tid -> set<u32>)
    requires IsRun(s, steps) && AsksOnly(steps, addresses) && Undisturbed(s, addresses) && Apart(addresses)
    ensures Undisturbed(EndOf(s, steps), addresses)
    decreases |steps|
  {
    hide Text, Pton;
    if steps != [] {
      var s' := Do(s, steps[0]);
      assert steps[0].Begin? ==> steps[0].address in addresses(steps[0].t);
      if steps[0].Write? {
        assert Others(s, steps[0].t, PcOf(s, steps[0].t).asked) == {};
      }
      assert AsksOnly(steps[1..], addresses);
      ApartRun(s', steps[1..], addresses);
    }
  }

  /** Every send of this run has gone to the address it was asked for. */
  predicate AllRight(s: State) {
    forall k :: 0 <= k < |s.sent| ==> s.sent[k].got == Some(s.sent[k].asked)
  }

  /** Sending needs no mutex in a program whose threads send to these addresses iff no two threads have different
      addresses: either only one thread sends, or all send to one address. */
  lemma SafeIffApart(addresses: Tid -> set<u32>)
    ensures (forall steps :: IsRun(Init(), steps) && AsksOnly(steps, addresses) ==> AllRight(EndOf(Init(), steps)))
            <==> Apart(addresses)
  {
    hide Text, Pton, Dotted, Do, Enabled, Inv;
    if t, u, a, b :| t != u && a in addresses(t) && b in addresses(u) && a != b {
      var steps := Crossed(t, a, u, b, addresses);
      assert EndOf(Init(), steps).sent[0] == Sent(t, a, Some(b), false);
    } else {
      forall steps | IsRun(Init(), steps) && AsksOnly(steps, addresses)
        ensures AllRight(EndOf(Init(), steps))
      {
        ApartRun(Init(), steps, addresses);
        UndisturbedSend(EndOf(Init(), steps));
      }
    }
  }

  /** 10.0.0.1, 20.0.0.2 and 20.0.0.1, as words in memory. */
  const ASKED: u32 := 0x0100_000A
  const OTHER: u32 := 0x0200_0014
  const TORN: u32 := 0x0100_0014

  lemma SampleTexts()
    ensures Dotted(ASKED) == "10.0.0.1" && Dotted(OTHER) == "20.0.0.2" && Dotted(TORN) == "20.0.0.1"
  {
    assert Le32(ASKED) == [10, 0, 0, 1] && Le32(OTHER) == [20, 0, 0, 2] && Le32(TORN) == [20, 0, 0, 1];
    assert Decimal(10) == "10" && Decimal(20) == "20" && Decimal(0) == "0" && Decimal(1) == "1" && Decimal(2) == "2";
  }

  /** One thread writes the first character of 20.0.0.2 over 10.0.0.1. */
  lemma OneCharacter(s: State) returns (steps: seq<Step>)
    requires |s.buf| == TEXT_LEN && Starts(s.buf, "10.0.0.1" + [NUL])
    requires s.pcs == map[0 := Reading(ASKED, "")] && s.sent == []
    ensures IsRun(s, steps) && steps == [Begin(1, OTHER), Write(1)]
    ensures var s' := EndOf(s, steps);
            && Starts(s'.buf, "20.0.0.1" + [NUL]) && PcOf(s', 0) == Reading(ASKED, "")
            && s'.sent == [] && 0 in s'.disturbed
  {
    hide Text, Dotted;
    SampleTexts();
    TextIs(OTHER);
    var s1 := Do(s, Begin(1, OTHER));
    var s2 := Do(s1, Write(1));
    steps := [Begin(1, OTHER), Write(1)];
    assert steps[1..] == [Write(1)] && steps[1..][1..] == [];
    assert IsRun(s2, []) && IsRun(s1, [Write(1)]);
    assert EndOf(s1, [Write(1)]) == EndOf(s2, []) == s2;
    assert 0 in Others(s1, 1, OTHER);
  }

  /** A torn text: one thread prints 10.0.0.1, another writes the first character of 20.0.0.2, and the first one
      sends to 20.0.0.1, an address that nobody has asked for. */
  lemma TornSend() returns (steps: seq<Step>)
    ensures IsRun(Init(), steps) && AsksOnly(steps, t => if t == 0 then {ASKED} else {OTHER})
    ensures EndOf(Init(), steps).sent == [Sent(0, ASKED, Some(TORN), false)]
    ensures TORN !in {ASKED, OTHER}
  {
    hide Text, Pton, Dotted, Do, Enabled, IsRun, EndOf;
    SampleTexts();
    TextIs(ASKED);
    AddressRoundTrip(TORN);
    var first := Print(Init(), 0, ASKED);
    var s1 := EndOf(Init(), first);
    var second := OneCharacter(s1);
    var third := ReadRest(EndOf(s1, second), 0, "20.0.0.1");
    RunJoin(Init(), first, second);
    RunJoin(Init(), first + second, third);
    steps := first + second + third;
  }
}
