/** Netlink messages as values and their padded encoding. */
module Messages {
  import opened Bytes
  import opened Netlink

  datatype Message = Message(typ: u16, flags: u16, seqno: u32, pid: u32, body: seq<byte>)

  predicate Sized(msg: Message) {
    NLMSG_HDRLEN + |msg.body| < U32_MOD
  }

  function Header(msg: Message): (s: seq<byte>)
    requires Sized(msg)
    ensures |s| == NLMSG_HDRLEN
  {
    Le32(NLMSG_HDRLEN + |msg.body|) + Le16(msg.typ) + Le16(msg.flags) + Le32(msg.seqno) + Le32(msg.pid)
  }

  function EncodeMsg(msg: Message): (s: seq<byte>)
    requires Sized(msg)
    ensures |s| == Align(NLMSG_HDRLEN + |msg.body|)
  {
    var len := NLMSG_HDRLEN + |msg.body|;
    Header(msg) + msg.body + Zeros(Align(len) - len)
  }

  /** The header fields and the body of an encoded message, wherever it lies in memory. */
  lemma EncodedMsg(m: seq<byte>, i: nat, msg: Message)
    requires Sized(msg)
    requires Holds(m, i, EncodeMsg(msg))
    ensures MsgLen(m, i) == NLMSG_HDRLEN + |msg.body|
    ensures MsgType(m, i) == msg.typ && U16(m, i + 6) == msg.flags
    ensures U32(m, i + 8) == msg.seqno && U32(m, i + 12) == msg.pid
    ensures Holds(m, i, Header(msg))
    ensures Holds(m, i + NLMSG_HDRLEN, msg.body)
  {
    var len := NLMSG_HDRLEN + |msg.body|;
    HoldsSplit(m, i, Header(msg) + msg.body, Zeros(Align(len) - len));
    HoldsSplit(m, i, Header(msg), msg.body);
    HoldsSplit(m, i, Le32(len) + Le16(msg.typ) + Le16(msg.flags) + Le32(msg.seqno), Le32(msg.pid));
    HoldsSplit(m, i, Le32(len) + Le16(msg.typ) + Le16(msg.flags), Le32(msg.seqno));
    HoldsSplit(m, i, Le32(len) + Le16(msg.typ), Le16(msg.flags));
    HoldsSplit(m, i, Le32(len), Le16(msg.typ));
    LoadStore32(m, i, len);
    LoadStore16(m, i + 4, msg.typ);
    LoadStore16(m, i + 6, msg.flags);
    LoadStore32(m, i + 8, msg.seqno);
    LoadStore32(m, i + 12, msg.pid);
  }
}
