/** Examples/blog_code.c: attributes indexed by type, and the fields that `print_route` picks. */
module IndexTable {
  import opened Bytes
  import opened Netlink
  import opened Attributes
  import opened Messages
  import opened RouteDump
  import opened RouteCodec

  const RTA_SRC: u16 := 2

  /** What `print_route` prints; None stands for a missing word. */
  datatype Printed = Printed(dst: Option<u32>, dstLen: byte, gateway: Option<u32>, oif: Option<u32>, src: Option<u32>)

  /** `parse_rtattr`: `tb[t]` ends up pointing at the last attribute of type `t`, or null. */
  method ParseRtattr(tb: array<Option<nat>>, max: nat, m: seq<byte>, start: nat, length: int)
    requires tb.Length == max + 1
    requires 0 <= length ==> start + length <= |m|
    modifies tb
    ensures forall t: u16 :: t <= max ==> tb[t] == LastAttr(m, start, length, t)
  {
    hide LastAttr, Align, U16;
    forall t | 0 <= t <= max {
      tb[t] := None;
    }
    var rta: nat, len := start, length;
    while RtaOk(m, rta, len)
      invariant 0 <= len ==> rta + len <= |m|
      invariant forall t: u16 :: t <= max ==>
        LastAttr(m, start, length, t) == OrElse(LastAttr(m, rta, len, t), tb[t])
      decreases len
    {
      LastAttrStep(m, rta, len);
      var typ := AttrType(m, rta);
      if typ <= max {
        tb[typ] := Some(rta);
      }
      var step := Align(AttrLen(m, rta));
      rta, len := rta + step, len - step;
    }
    LastAttrStep(m, rta, len);
  }

  /** `rtm_get_table`: the table attribute, where there is one, overrules the header field. */
  method RtmGetTable(m: seq<byte>, rtm: nat, tb: array<Option<nat>>) returns (table: u32)
    requires RTA_TABLE < tb.Length && rtm + RTMSG_LEN <= |m|
    requires tb[RTA_TABLE].Some? ==> tb[RTA_TABLE].value + RTATTR_LEN + 4 <= |m|
    ensures table == match Word(m, tb[RTA_TABLE]) case Some(w) => w case None => m[rtm + 4]
  {
    table := m[rtm + 4];
    if tb[RTA_TABLE].Some? {
      table := U32(m, tb[RTA_TABLE].value + RTATTR_LEN);
    }
  }

  /** The table that the route message at `i` belongs to. */
  function TableOf(m: seq<byte>, i: nat): u32
    requires i + NLMSG_HDRLEN + RTMSG_LEN <= |m|
    requires i + MsgLen(m, i) + SLACK <= |m|
  {
    match LastWord(m, i, RTA_TABLE)
    case Some(w) => w
    case None => m[i + 20]
  }

  /** `print_route` stays silent about these messages. */
  predicate Skipped(m: seq<byte>, i: nat)
    requires i + NLMSG_HDRLEN + RTMSG_LEN <= |m|
    requires i + MsgLen(m, i) + SLACK <= |m|
  {
    || MsgLen(m, i) < NLMSG_HDRLEN + RTMSG_LEN
    || (m[i + 16] != AF_INET && TableOf(m, i) != RT_TABLE_MAIN)
    || (LastWord(m, i, RTA_DST).Some? && m[i + 17] != 24 && m[i + 17] != 16)
  }

  /** On the message of a route entry, by the numbers of the formats: family 2, table 254, and the attributes RTA_DST 1,
      RTA_SRC 2, RTA_OIF 4, RTA_GATEWAY 5 and RTA_TABLE 15. An IPv4 entry is printed iff it has no destination or its
      prefix length is 16 or 24; another one only if it is also in the main table. */
  lemma PrintedEntry(m: seq<byte>, i: nat, e: Entry)
    requires ValidEntry(e) && WordOrNone(LastPayload(e.attrs, 15)) && WordOrNone(LastPayload(e.attrs, 2))
    requires Holds(m, i, EncodeMsg(ToMessage(e)))
    requires i + MsgLen(m, i) + SLACK <= |m|
    ensures var dst, table := LastPayload(e.attrs, 1), LastPayload(e.attrs, 15);
            var inMain := if table.Some? then U32(table.value, 0) == 254 else e.rt[4] == 254;
            i + NLMSG_HDRLEN + RTMSG_LEN <= |m| &&
            (Skipped(m, i) <==> (e.rt[0] != 2 && !inMain) || (dst.Some? && e.rt[1] != 24 && e.rt[1] != 16))
    ensures RouteAt(m, i) == Route(PayloadWord(LastPayload(e.attrs, 1)), e.rt[1],
                                   PayloadWord(LastPayload(e.attrs, 5)), PayloadWord(LastPayload(e.attrs, 4)))
    ensures LastWord(m, i, 2) == PayloadWord(LastPayload(e.attrs, 2))
  {
    hide LastWord, EncodeMsg, LastPayload, EncodeAttrs, U16, U32, Holds, ParseAttrs;
    EntryFields(m, i, e);
    EncodedMsg(m, i, ToMessage(e));
    HoldsSplit(m, i + NLMSG_HDRLEN, e.rt, EncodeAttrs(e.attrs));
    HoldsAt(m, i + NLMSG_HDRLEN, e.rt, 0);
    EntryWord(m, i, e, 1);
    EntryWord(m, i, e, 2);
    EntryWord(m, i, e, 4);
    EntryWord(m, i, e, 5);
    EntryWord(m, i, e, 15);
  }

  /** `print_route` on the message at `i`: where it prints, it prints the fields that
      the overwriting loop of `read_reply` reads from the same bytes. */
  method PrintRoute(m: seq<byte>, i: nat, max: nat) returns (line: Option<Printed>)
    requires RTA_TABLE <= max
    requires i + NLMSG_HDRLEN + RTMSG_LEN <= |m|
    requires i + MsgLen(m, i) + SLACK <= |m|
    ensures line.None? <==> Skipped(m, i)
    ensures line.Some? ==>
              Route(line.value.dst, line.value.dstLen, line.value.gateway, line.value.oif) == RouteAt(m, i)
    ensures line.Some? ==> line.value.src == LastWord(m, i, RTA_SRC)
  {
    hide LastAttr, U16, U32;
    var r := i + NLMSG_HDRLEN;
    var len := MsgLen(m, i) - NLMSG_HDRLEN - RTMSG_LEN;
    if len < 0 {
      return None;
    }
    var tb := new Option<nat>[max + 1];
    ParseRtattr(tb, max, m, r + RTMSG_LEN, len);
    var table := RtmGetTable(m, r, tb);
    if m[r] != AF_INET && table != RT_TABLE_MAIN {
      return None;
    }
    if tb[RTA_DST].Some? && m[r + 1] != 24 && m[r + 1] != 16 {
      return None;
    }
    line := Some(Printed(Word(m, tb[RTA_DST]), m[r + 1], Word(m, tb[RTA_GATEWAY]), Word(m, tb[RTA_OIF]),
                         Word(m, tb[RTA_SRC])));
  }
}
