/** Route messages as values: what `read_reply` makes of their encoding. */
module RouteCodec {
  import opened Bytes
  import opened Netlink
  import opened Attributes
  import opened Messages
  import opened RouteRequest
  import opened RouteDump

  /** One entry of a route dump: message header, rtmsg and attributes. */
  datatype Entry = Entry(typ: u16, flags: u16, seqno: u32, pid: u32, rt: seq<byte>, attrs: seq<Attr>)

  predicate WordOrNone(p: Option<seq<byte>>) {
    p.Some? ==> 4 <= |p.value|
  }

  predicate ValidEntry(e: Entry) {
    |e.rt| == RTMSG_LEN && AllFit(e.attrs) && NLMSG_HDRLEN + RTMSG_LEN + |EncodeAttrs(e.attrs)| < U32_MOD
    && WordOrNone(LastPayload(e.attrs, RTA_DST)) && WordOrNone(LastPayload(e.attrs, RTA_GATEWAY))
    && WordOrNone(LastPayload(e.attrs, RTA_OIF))
  }

  function ToMessage(e: Entry): (msg: Message)
    requires ValidEntry(e)
    ensures Sized(msg)
  {
    Message(e.typ, e.flags, e.seqno, e.pid, e.rt + EncodeAttrs(e.attrs))
  }

  function PayloadWord(p: Option<seq<byte>>): Option<u32>
    requires WordOrNone(p)
  {
    if p.None? then None else Some(U32(p.value, 0))
  }

  /** The route that an entry stands for, if it is one of the main table. */
  function Meaning(e: Entry): seq<Route>
    requires ValidEntry(e)
  {
    if e.rt[4] != RT_TABLE_MAIN then [] else
      [Route(PayloadWord(LastPayload(e.attrs, RTA_DST)), e.rt[1],
             PayloadWord(LastPayload(e.attrs, RTA_GATEWAY)), PayloadWord(LastPayload(e.attrs, RTA_OIF)))]
  }

  predicate AllValid(l: seq<Entry>) {
    l == [] || (ValidEntry(l[0]) && AllValid(l[1..]))
  }

  function EncodeEntries(l: seq<Entry>): seq<byte>
    requires AllValid(l)
  {
    if l == [] then [] else EncodeMsg(ToMessage(l[0])) + EncodeEntries(l[1..])
  }

  function Meanings(l: seq<Entry>): seq<Route>
    requires AllValid(l)
  {
    if l == [] then [] else Meaning(l[0]) + Meanings(l[1..])
  }

  /** Where the message of an entry lies in memory, its fields and attributes can be read back. */
  lemma EntryFields(m: seq<byte>, i: nat, e: Entry)
    requires ValidEntry(e)
    requires Holds(m, i, EncodeMsg(ToMessage(e)))
    ensures MsgLen(m, i) == NLMSG_HDRLEN + RTMSG_LEN + |EncodeAttrs(e.attrs)|
    ensures MsgLen(m, i) == |EncodeMsg(ToMessage(e))| && MsgLen(m, i) % 4 == 0
    ensures m[i + 17] == e.rt[1] && m[i + 20] == e.rt[4]
    ensures ParseAttrs(m, i + NLMSG_HDRLEN + RTMSG_LEN, MsgLen(m, i) - NLMSG_HDRLEN - RTMSG_LEN) == e.attrs
  {
    hide ParseAttrs, LastPayload, U32, U16, Holds, EncodeMsg, EncodeAttrs;
    EncodedMsg(m, i, ToMessage(e));
    HoldsSplit(m, i + NLMSG_HDRLEN, e.rt, EncodeAttrs(e.attrs));
    HoldsAt(m, i + NLMSG_HDRLEN, e.rt, 1);
    HoldsAt(m, i + NLMSG_HDRLEN, e.rt, 4);
    AttrRoundTrip(m, i + NLMSG_HDRLEN + RTMSG_LEN, e.attrs);
  }

  lemma EntryWord(m: seq<byte>, i: nat, e: Entry, t: u16)
    requires ValidEntry(e)
    requires Holds(m, i, EncodeMsg(ToMessage(e)))
    requires i + MsgLen(m, i) + SLACK <= |m|
    requires WordOrNone(LastPayload(e.attrs, t))
    ensures LastWord(m, i, t) == PayloadWord(LastPayload(e.attrs, t))
  {
    hide ParseAttrs, LastPayload, LastAttr, EncodeMsg, EncodeAttrs, U16, ValidEntry;
    EntryFields(m, i, e);
    var start, length := i + NLMSG_HDRLEN + RTMSG_LEN, MsgLen(m, i) - NLMSG_HDRLEN - RTMSG_LEN;
    LastAttrIsLastPayload(m, start, length, t);
    var p := LastAttr(m, start, length, t);
    if p.Some? {
      var payload := AttrAt(m, p.value).payload;
      SameWord(m, p.value + RTATTR_LEN, payload, |payload|, 0);
    }
  }

  /** Round trip: the reader turns the encoding of a list of entries into the routes they stand for. */
  lemma {:induction false} EntriesRoundTrip(m: seq<byte>, i: nat, l: seq<Entry>)
    requires AllValid(l)
    requires Holds(m, i, EncodeEntries(l))
    requires i + |EncodeEntries(l)| + SLACK <= |m|
    ensures Routes(m, i, |EncodeEntries(l)|) == Meanings(l)
    decreases |l|
  {
    hide Routes, ParseAttrs, LastPayload, LastWord, EncodeMsg, EncodeAttrs, U16, U32, ValidEntry, Holds, RouteAt,
      Meaning, Align;
    HoldsInside(m, i, EncodeEntries(l));
    RoutesStep(m, i, |EncodeEntries(l)|);
    if l != [] {
      var e := l[0];
      var head, tail := EncodeMsg(ToMessage(e)), EncodeEntries(l[1..]);
      HoldsSplit(m, i, head, tail);
      EntryFields(m, i, e);
      EntryIsRoute(m, i, e);
      AlignExact(|head|);
      EntriesRoundTrip(m, i + |head|, l[1..]);
    }
  }

  lemma EntryIsRoute(m: seq<byte>, i: nat, e: Entry)
    requires ValidEntry(e)
    requires Holds(m, i, EncodeMsg(ToMessage(e)))
    requires i + MsgLen(m, i) + SLACK <= |m|
    ensures (if m[i + 20] == RT_TABLE_MAIN then [RouteAt(m, i)] else []) == Meaning(e)
  {
    hide LastWord, EncodeMsg, LastPayload, EncodeAttrs, U16, U32;
    EntryFields(m, i, e);
    EntryWord(m, i, e, RTA_DST);
    EntryWord(m, i, e, RTA_GATEWAY);
    EntryWord(m, i, e, RTA_OIF);
  }

  function RequestEntry(op: RouteOp): (e: Entry)
    ensures ValidEntry(e) && ToMessage(e) == RequestMessage(op)
  {
    RequestPayloads(op);
    Entry(Action(op), REQUEST_FLAGS, 0, 0, RtMsg(), RouteAttrs(op))
  }

  lemma RequestPayloads(op: RouteOp)
    ensures LastPayload(RouteAttrs(op), RTA_DST) == Some(Le32(op.dest))
    ensures LastPayload(RouteAttrs(op), RTA_OIF) == Some(Le32(WLAN0))
    ensures LastPayload(RouteAttrs(op), RTA_GATEWAY) == Some(Le32(op.nextHop))
  {
    var l := RouteAttrs(op);
    assert l[1..] == [Oif(), Gateway(op)] && l[1..][1..] == [Gateway(op)] && l[1..][1..][1..] == [];
    assert LastPayload(l[1..][1..], RTA_DST) == None;
  }

  /** Builder and parser are inverse: reading a request gives back what it was built from. */
  lemma RequestRoundTrip(op: RouteOp)
    ensures Routes(RequestBytes(op) + Zeros(SLACK), 0, |RequestBytes(op)|) ==
            [Route(Some(op.dest), 32, Some(op.nextHop), Some(WLAN0))]
  {
    hide Routes, EncodeMsg, EncodeAttrs, Zeros, ValidEntry;
    var e := RequestEntry(op);
    var m := RequestBytes(op) + Zeros(SLACK);
    assert EncodeEntries([e]) == EncodeMsg(ToMessage(e)) + EncodeEntries([]) == RequestBytes(op);
    assert Holds(m, 0, RequestBytes(op));
    EntriesRoundTrip(m, 0, [e]);
    RequestPayloads(op);
    LoadStore32(Le32(op.dest), 0, op.dest);
    LoadStore32(Le32(op.nextHop), 0, op.nextHop);
    LoadStore32(Le32(WLAN0), 0, WLAN0);
    assert Meanings([e]) == Meaning(e) + Meanings([]) == Meaning(e);
  }
}
