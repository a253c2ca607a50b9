/** src/api_send.c and `ntop` of src/api.c: sending to an address that goes through a static text buffer. */
module SendApi {
  import opened Bytes
  import opened PacketFilter
  import opened QueueApi
  import opened Shared

  function Digit(d: nat): char
    requires d < 10
  {
    '0' + d as char
  }

  /** A byte in decimal, without leading zeros. */
  function Decimal(b: byte): (s: string)
    ensures 1 <= |s| <= 3
  {
    if b < 10 then [Digit(b)]
    else if b < 100 then [Digit(b / 10), Digit(b % 10)]
    else [Digit(b / 100), Digit(b / 10 % 10), Digit(b % 10)]
  }

  /** inet_ntop for AF_INET (section 6.3 of RFC 3493): the four bytes as they lie in memory. */
  function Dotted(v: u32): (s: string)
    ensures |s| <= 15
  {
    var b := Le32(v);
    Decimal(b[0]) + "." + (Decimal(b[1]) + "." + (Decimal(b[2]) + "." + Decimal(b[3])))
  }

  /** inet_pton for AF_INET, character by character: `done` are the finished octets, `cur` is the octet being
      read, if a digit has been seen. Leading zeros and octets above 255 are refused. */
  function ReadOctets(s: string, done: seq<byte>, cur: Option<byte>): Option<seq<byte>>
    decreases |s|
  {
    if s == [] then
      if |done| == 3 && cur.Some? then Some(done + [cur.value]) else None
    else if '0' <= s[0] <= '9' then
      var d := (s[0] - '0') as int;
      if cur.None? then ReadOctets(s[1..], done, Some(d))
      else if cur.value == 0 || 255 < cur.value * 10 + d then None
      else ReadOctets(s[1..], done, Some(cur.value * 10 + d))
    else if s[0] == '.' && cur.Some? && |done| < 3 then ReadOctets(s[1..], done + [cur.value], None)
    else None
  }

  function Pton(s: string): Option<u32> {
    match ReadOctets(s, [], None)
    case Some(b) => if |b| == 4 then Some(U32(b, 0)) else None
    case None => None
  }

  lemma ReadDigit(s: string, done: seq<byte>, cur: Option<byte>, d: nat)
    requires d < 10
    requires s != [] && s[0] == Digit(d)
    requires cur.Some? ==> cur.value != 0 && cur.value * 10 + d <= 255
    ensures ReadOctets(s, done, cur) == ReadOctets(s[1..], done, Some(if cur.Some? then cur.value * 10 + d else d))
  {
  }

  /** Reading the decimal form of a byte. */
  lemma ReadDecimal(b: byte, rest: string, done: seq<byte>)
    ensures ReadOctets(Decimal(b) + rest, done, None) == ReadOctets(rest, done, Some(b))
  {
    hide ReadOctets, Digit;
    var s := Decimal(b) + rest;
    if b < 10 {
      ReadDigit(s, done, None, b);
      assert s[1..] == rest;
    } else if b < 100 {
      ReadDigit(s, done, None, b / 10);
      ReadDigit(s[1..], done, Some(b / 10), b % 10);
      assert s[1..][1..] == rest;
    } else {
      ReadDigit(s, done, None, b / 100);
      ReadDigit(s[1..], done, Some(b / 100), b / 10 % 10);
      assert b / 100 * 10 + b / 10 % 10 == b / 10;
      ReadDigit(s[1..][1..], done, Some(b / 10), b % 10);
      assert s[1..][1..][1..] == rest;
    }
  }

  lemma ReadDot(rest: string, done: seq<byte>, b: byte)
    requires |done| < 3
    ensures ReadOctets("." + rest, done, Some(b)) == ReadOctets(rest, done + [b], None)
  {
    assert ("." + rest)[1..] == rest;
  }

  /** Address text round trip: for every address, printing and parsing gives it back. */
  lemma AddressRoundTrip(v: u32)
    ensures Pton(Dotted(v)) == Some(v)
  {
    hide ReadOctets, Decimal, Le32;
    var b := Le32(v);
    var s3 := Decimal(b[3]);
    var s2 := Decimal(b[2]) + "." + s3;
    var s1 := Decimal(b[1]) + "." + s2;
    assert Dotted(v) == Decimal(b[0]) + ("." + s1);
    ReadDecimal(b[0], "." + s1, []);
    ReadDot(s1, [], b[0]);
    assert s1 == Decimal(b[1]) + ("." + s2);
    ReadDecimal(b[1], "." + s2, [b[0]]);
    ReadDot(s2, [b[0]], b[1]);
    assert s2 == Decimal(b[2]) + ("." + s3);
    ReadDecimal(b[2], "." + s3, [b[0], b[1]]);
    ReadDot(s3, [b[0], b[1]], b[2]);
    assert s3 == Decimal(b[3]) + [];
    ReadDecimal(b[3], [], [b[0], b[1], b[2]]);
    ReadEnd([b[0], b[1], b[2]], b[3]);
    assert [] + [b[0]] == [b[0]] && [b[0]] + [b[1]] == [b[0], b[1]];
    assert [b[0], b[1]] + [b[2]] == [b[0], b[1], b[2]] && [b[0], b[1], b[2]] + [b[3]] == b;
    LoadStore32(b, 0, v);
  }

  lemma ReadEnd(done: seq<byte>, b: byte)
    requires |done| == 3
    ensures ReadOctets([], done, Some(b)) == Some(done + [b])
  {
  }

  /** The text of the octets from the `k`-th on. */
  function Tail(b: seq<byte>, k: nat): string
    requires |b| == 4 && k < 4
    decreases 4 - k
  {
    Decimal(b[k]) + if k == 3 then "" else "." + Tail(b, k + 1)
  }

  lemma MoreDigits(c: byte, d: nat)
    requires d < 10 && c != 0 && c * 10 + d <= 255
    ensures Decimal(c * 10 + d) == Decimal(c) + [Digit(d)]
  {
    if c < 10 {
      assert (c * 10 + d) / 10 == c && (c * 10 + d) % 10 == d;
    } else {
      assert (c * 10 + d) / 100 == c / 10 && (c * 10 + d) / 10 % 10 == c % 10 && (c * 10 + d) % 10 == d;
    }
  }

  /** What is read is the text of what comes out. */
  lemma {:induction false} OnlyItsText(s: string, done: seq<byte>, cur: Option<byte>)
    requires |done| <= 3 && ReadOctets(s, done, cur).Some?
    ensures var b := ReadOctets(s, done, cur).value;
            && |b| == 4 && b[..|done|] == done
            && (if cur.Some? then Decimal(cur.value) else "") + s == Tail(b, |done|)
    decreases |s|
  {
    hide Decimal;
    var b := ReadOctets(s, done, cur).value;
    if s == [] {
      assert Decimal(cur.value) + s == Decimal(cur.value) == Decimal(cur.value) + "";
    } else if '0' <= s[0] <= '9' {
      var d := (s[0] - '0') as int;
      OneDigit(s[0]);
      if cur.None? {
        OnlyItsText(s[1..], done, Some(d));
        assert s == [s[0]] + s[1..];
      } else {
        MoreDigits(cur.value, d);
        OnlyItsText(s[1..], done, Some(cur.value * 10 + d));
        assert Decimal(cur.value) + s == Decimal(cur.value) + [s[0]] + s[1..];
      }
    } else {
      OnlyItsText(s[1..], done + [cur.value], None);
      assert b[|done|] == (done + [cur.value])[|done|];
      assert b[..|done|] == (done + [cur.value])[..|done|] == done;
      assert "" + s[1..] == s[1..] && s == "." + s[1..];
    }
  }

  lemma OneDigit(c: char)
    requires '0' <= c <= '9'
    ensures var d := (c - '0') as int;
            d < 10 && Decimal(d) == [c] && Digit(d) == c
  {
  }

  /** inet_pton accepts nothing but what inet_ntop prints: no leading zeros, no octet above 255, no missing or extra
      ones. */
  lemma PtonIff(s: string, v: u32)
    ensures Pton(s) == Some(v) <==> s == Dotted(v)
  {
    hide ReadOctets, Decimal, U32, Le32;
    AddressRoundTrip(v);
    if Pton(s) == Some(v) {
      OnlyItsText(s, [], None);
      var b := ReadOctets(s, [], None).value;
      StoreLoad32(b, 0);
      assert b[0..4] == b;
      assert "" + s == s;
      TailIsDotted(b);
    }
  }

  lemma TailIsDotted(b: seq<byte>)
    requires |b| == 4
    ensures Tail(b, 0) == Decimal(b[0]) + "." + (Decimal(b[1]) + "." + (Decimal(b[2]) + "." + Decimal(b[3])))
  {
    hide Decimal;
    assert Tail(b, 3) == Decimal(b[3]) + "" == Decimal(b[3]);
    assert Tail(b, 2) == Decimal(b[2]) + ("." + Tail(b, 3)) == Decimal(b[2]) + "." + Tail(b, 3);
    assert Tail(b, 1) == Decimal(b[1]) + ("." + Tail(b, 2)) == Decimal(b[1]) + "." + Tail(b, 2);
    assert Tail(b, 0) == Decimal(b[0]) + ("." + Tail(b, 1)) == Decimal(b[0]) + "." + Tail(b, 1);
  }

  /** The destination that a message is handed to sendto with; `port` as its two bytes in memory, 1 and 13 for 269. */
  datatype Destination = Destination(address: u32, port: seq<byte>)

  datatype UdpDatagram = UdpDatagram(to: Destination, msg: seq<byte>)

  function Net16Bytes(v: u16): (s: seq<byte>)
    ensures |s| == 2 && Net16(s, 0) == v
  {
    [v / 0x100, v % 0x100]
  }

  class Sender {
    /** The static buffer of `ntop`, shared by all callers. */
    var ip: string
    var node: Node
    /** What has been handed to sendto, in order. */
    var outbox: seq<UdpDatagram>

    method Ntop(v: u32)
      modifies this`ip
      ensures ip == Dotted(v)
    {
      ip := Dotted(v);
    }

    /** `send_sock_msg`; `accepted` is what sendto returns. */
    method SendSockMsg(g: Globals, dest: u32, msg: seq<byte>, typ: int, accepted: int) returns (r: int)
      modifies this`ip, this`outbox
      ensures outbox == old(outbox) +
                [UdpDatagram(Destination(if typ != 0 then node.broadcastIp else dest, [1, 13]), msg)]
      ensures r == if accepted < 0 || g.fErr != 0 then -1 else accepted
    {
      var target := if typ != 0 then node.broadcastIp else dest;
      Ntop(target);
      AddressRoundTrip(target);
      var address := Pton(ip);
      assert Net16Bytes(MANET_PORT) == [1, 13];
      outbox := outbox + [UdpDatagram(Destination(address.value, Net16Bytes(MANET_PORT)), msg)];
      if accepted < 0 || g.fErr != 0 {
        return -1;
      }
      return accepted;
    }

    method SendUnicast(g: Globals, dest: u32, msg: seq<byte>, accepted: int) returns (r: int)
      modifies this`ip, this`outbox
      ensures outbox == old(outbox) + [UdpDatagram(Destination(dest, [1, 13]), msg)]
      ensures r == if accepted < 0 || g.fErr != 0 then -1 else 0
    {
      var n := SendSockMsg(g, dest, msg, 0, accepted);
      r := if n < 0 then -1 else 0;
    }

    method SendBroadcast(g: Globals, msg: seq<byte>, accepted: int) returns (r: int)
      modifies this`ip, this`outbox
      ensures outbox == old(outbox) + [UdpDatagram(Destination(node.broadcastIp, [1, 13]), msg)]
      ensures r == if accepted < 0 || g.fErr != 0 then -1 else 0
    {
      var n := SendSockMsg(g, 0, msg, 1, accepted);
      r := if n < 0 then -1 else 0;
    }
  }

  /** The fields of the headers that nothing here depends on. */
  datatype Headers = Headers(tos: byte, ident: u16, ttl: byte, ipCheck: u16, sourcePort: u16, udpCheck: u16)

  const MAX_MESSAGE := 0xFFFF - IP_UDP_HDR_OFFSET

  /** A datagram on the wire: an IPv4 header without options (section 3.1 of RFC 791), don't-fragment set,
      a UDP header (RFC 768), and the message. Addresses are words as they lie in memory. */
  function Encapsulate(src: u32, d: UdpDatagram, h: Headers): (raw: seq<byte>)
    requires |d.msg| <= MAX_MESSAGE && |d.to.port| == 2
    ensures |raw| == IP_UDP_HDR_OFFSET + |d.msg|
  {
    IpHeader(src, d.to.address, |d.msg|, h)
    + (Net16Bytes(h.sourcePort) + d.to.port + Net16Bytes(8 + |d.msg|) + Net16Bytes(h.udpCheck))
    + d.msg
  }

  function IpHeader(src: u32, dest: u32, length: nat, h: Headers): (s: seq<byte>)
    requires length <= MAX_MESSAGE
    ensures |s| == IP_HEADER
  {
    [0x45, h.tos] + Net16Bytes(IP_UDP_HDR_OFFSET + length) + Net16Bytes(h.ident) + [0x40, 0]
    + [h.ttl, PROTO_UDP] + Net16Bytes(h.ipCheck) + Le32(src) + Le32(dest)
  }

  lemma IpFields(src: u32, dest: u32, length: nat, h: Headers)
    requires length <= MAX_MESSAGE
    ensures var s := IpHeader(src, dest, length, h);
            && s[0] == 0x45 && s[6] == 0x40 && s[7] == 0 && s[9] == PROTO_UDP
            && Holds(s, 12, Le32(src)) && Holds(s, 16, Le32(dest))
  {
    hide Net16, Le32;
  }

  /** Send/receive round trip: the handler's extraction gives back source, destination, message and length, and
      the packet is a control packet. */
  lemma SendReceive(src: u32, dest: u32, msg: seq<byte>, h: Headers)
    requires |msg| <= MAX_MESSAGE
    ensures var raw := Encapsulate(src, UdpDatagram(Destination(dest, Net16Bytes(MANET_PORT)), msg), h);
            && IP_HEADER <= |raw| <= 0xFFFF
            && ArgsOf(raw) == CallArgs(src, dest, msg, |msg|)
            && IsControl(raw)
  {
    hide IpHeader, Le32, U32;
    var d := UdpDatagram(Destination(dest, Net16Bytes(MANET_PORT)), msg);
    var raw, ip := Encapsulate(src, d, h), IpHeader(src, dest, |msg|, h);
    IpFields(src, dest, |msg|, h);
    assert Holds(raw, 0, ip);
    assert Holds(raw, 12, Le32(src)) && Holds(raw, 16, Le32(dest));
    LoadStore32(raw, 12, src);
    LoadStore32(raw, 16, dest);
    assert raw[28..] == msg;
    assert raw[22] == d.to.port[0] && raw[23] == d.to.port[1];
  }

  /** Which sent packets are own broadcasts: just those from the node's address to its broadcast address. */
  lemma OwnIff(node: Node, src: u32, d: UdpDatagram, h: Headers)
    requires |d.msg| <= MAX_MESSAGE && |d.to.port| == 2
    ensures var raw := Encapsulate(src, d, h);
            && IP_HEADER <= |raw| <= 0xFFFF && U32(raw, 12) == src && U32(raw, 16) == d.to.address
            && raw[28..] == d.msg && |raw| == 28 + |d.msg|
            && (IsOwn(node, raw) <==> src == node.localIp && d.to.address == node.broadcastIp)
  {
    hide IpHeader, Le32, U32;
    var raw, ip := Encapsulate(src, d, h), IpHeader(src, d.to.address, |d.msg|, h);
    IpFields(src, d.to.address, |d.msg|, h);
    assert Holds(raw, 0, ip);
    assert Holds(raw, 12, Le32(src)) && Holds(raw, 16, Le32(d.to.address));
    LoadStore32(raw, 12, src);
    LoadStore32(raw, 16, d.to.address);
    assert raw[28..] == d.msg;
  }

  /** A sent packet at the handler of a queue with a callback, whatever the port: unless it is from this node to its
      broadcast address, and not on the queue of forwarded packets, the callback is called with the source, the
      destination, the message and its length, and its answer decides. Otherwise there is no call, and it is dropped. */
  method HandleSent(node: Node, q: QueueId, cb: Callback, id: u32, src: u32, d: UdpDatagram, h: Headers, answer: byte)
    returns (call: Option<CallArgs>, verdict: Option<Verdict>)
    requires |d.msg| <= MAX_MESSAGE && |d.to.port| == 2 && cb.Some?
    ensures var withheld := src == node.localIp && d.to.address == node.broadcastIp && q != Forwarded;
            && (withheld ==> call == None && verdict == Some(Verdict(id, false)))
            && (!withheld ==> call == Some(CallArgs(src, d.to.address, d.msg, |d.msg|))
                              && verdict == Some(Verdict(id, answer != 0)))
  {
    hide U32, Encapsulate;
    var raw := Encapsulate(src, d, h);
    OwnIff(node, src, d, h);
    var data := new byte[|raw|](j requires 0 <= j < |raw| => raw[j]);
    assert data[..] == raw;
    call, verdict := HandlePacket(node, q, cb, id, data, answer);
  }

  /** What SendBroadcast sends is an own broadcast on the control port: with `DispatchProps.OwnBroadcast`, it is
      never shown to a callback of this node. */
  lemma BroadcastIsOwn(node: Node, msg: seq<byte>, h: Headers)
    requires |msg| <= MAX_MESSAGE
    ensures var d := UdpDatagram(Destination(node.broadcastIp, Net16Bytes(MANET_PORT)), msg);
            var raw := Encapsulate(node.localIp, d, h);
            IsOwn(node, raw) && IsControl(raw)
  {
    hide IsControl, U32, Encapsulate;
    SendReceive(node.localIp, node.broadcastIp, msg, h);
  }
}
