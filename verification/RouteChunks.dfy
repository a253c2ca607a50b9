/** How a route dump is cut into datagrams does not change the routes that are read from it. */
module RouteChunks {
  import opened Bytes
  import opened Netlink
  import opened Attributes
  import opened Messages
  import opened RouteRequest
  import opened RouteDump
  import opened RouteCodec

  /** The attribute of type `t` that is read as a word has its word before `end`. */
  predicate WordInside(m: seq<byte>, i: nat, t: u16, end: nat)
    requires i + NLMSG_HDRLEN <= |m|
    requires i + MsgLen(m, i) <= |m|
  {
    var p := LastAttr(m, i + NLMSG_HDRLEN + RTMSG_LEN, MsgLen(m, i) - NLMSG_HDRLEN - RTMSG_LEN, t);
    p.Some? ==> p.value + RTATTR_LEN + 4 <= end
  }

  predicate WordsInside(m: seq<byte>, i: nat, end: nat)
    requires i + NLMSG_HDRLEN <= |m|
    requires i + MsgLen(m, i) <= |m|
  {
    WordInside(m, i, RTA_DST, end) && WordInside(m, i, RTA_GATEWAY, end) && WordInside(m, i, RTA_OIF, end)
  }

  /** The `n` bytes at `i` are whole, aligned route messages, and no word is read from behind them. */
  predicate Whole(m: seq<byte>, i: nat, n: nat)
    requires i + n <= |m|
    decreases n
  {
    n == 0 ||
    (NlmsgOk(m, i, n) && MsgLen(m, i) % 4 == 0 && NLMSG_HDRLEN + RTMSG_LEN <= MsgLen(m, i) && WordsInside(m, i, i + n)
     && Whole(m, i + MsgLen(m, i), n - MsgLen(m, i)))
  }

  /** A datagram with nothing but zeros behind it. */
  function Alone(d: seq<byte>): seq<byte> {
    d + Zeros(SLACK)
  }

  predicate WholeDatagram(d: seq<byte>) {
    Whole(Alone(d), 0, |d|)
  }

  /** The routes that `read_reply` reads from one datagram parsed on its own. */
  function DatagramRoutes(d: seq<byte>): seq<Route> {
    Routes(Alone(d), 0, |d|)
  }

  function FlatRoutes(ds: seq<seq<byte>>): seq<Route> {
    if ds == [] then [] else DatagramRoutes(ds[0]) + FlatRoutes(ds[1..])
  }

  function Shift(p: Option<nat>, i: nat): Option<nat> {
    if p.None? then None else Some(i + p.value)
  }

  /** The attribute walk sees nothing but its own bytes. */
  lemma {:induction false} LastAttrMoves(m: seq<byte>, i: nat, d: seq<byte>, n: nat, o: nat, r: int, t: u16)
    requires HoldsPart(m, i, d, n)
    requires 0 <= r ==> o + r <= n
    ensures LastAttr(m, i + o, r, t) == Shift(LastAttr(d, o, r, t), i)
    decreases r
  {
    hide LastAttr, Align, U16;
    LastAttrStep(m, i + o, r);
    LastAttrStep(d, o, r);
    if RTATTR_LEN <= r {
      SameWord(m, i, d, n, o);
      SameWord(m, i, d, n, o + 2);
      if RtaOk(d, o, r) {
        var step := Align(AttrLen(d, o));
        LastAttrMoves(m, i, d, n, o + step, r - step, t);
      }
    }
  }

  lemma LastWordMoves(m: seq<byte>, i: nat, d: seq<byte>, n: nat, o: nat, t: u16)
    requires HoldsPart(m, i, d, n)
    requires o + NLMSG_HDRLEN <= n && o + MsgLen(d, o) <= n
    requires o + MsgLen(d, o) + SLACK <= |d| && i + o + MsgLen(d, o) + SLACK <= |m|
    requires WordInside(d, o, t, n)
    ensures MsgLen(m, i + o) == MsgLen(d, o)
    ensures LastWord(m, i + o, t) == LastWord(d, o, t)
  {
    hide Align, LastAttr, U16, U32;
    SameWord(m, i, d, n, o);
    var start, length := o + NLMSG_HDRLEN + RTMSG_LEN, MsgLen(d, o) - NLMSG_HDRLEN - RTMSG_LEN;
    LastAttrMoves(m, i, d, n, start, length, t);
    var p := LastAttr(d, start, length, t);
    if p.Some? {
      SameWord(m, i, d, n, p.value + RTATTR_LEN);
    }
  }

  lemma RouteMoves(m: seq<byte>, i: nat, d: seq<byte>, n: nat, o: nat)
    requires HoldsPart(m, i, d, n)
    requires o + NLMSG_HDRLEN + RTMSG_LEN <= n && o + MsgLen(d, o) <= n
    requires o + MsgLen(d, o) + SLACK <= |d| && i + o + MsgLen(d, o) + SLACK <= |m|
    requires WordsInside(d, o, n)
    ensures MsgLen(m, i + o) == MsgLen(d, o)
    ensures RouteAt(m, i + o) == RouteAt(d, o)
    ensures m[i + o + 20] == d[o + 20]
  {
    hide WordInside, LastWord, Align, LastAttr, U16, U32;
    LastWordMoves(m, i, d, n, o, RTA_DST);
    LastWordMoves(m, i, d, n, o, RTA_GATEWAY);
    LastWordMoves(m, i, d, n, o, RTA_OIF);
    assert m[i + (o + 17)] == d[o + 17] && m[i + (o + 20)] == d[o + 20];
  }

  /** Whole messages at the front of a buffer are read as they are read on their own. */
  lemma {:induction false} WholeFront(m: seq<byte>, i: nat, d: seq<byte>, o: nat, r: nat, rest: nat)
    requires HoldsPart(m, i, d, o + r)
    requires o + r + SLACK <= |d| && i + o + r + rest + SLACK <= |m|
    requires Whole(d, o, r)
    ensures Routes(m, i + o, r + rest) == Routes(d, o, r) + Routes(m, i + o + r, rest)
    decreases r
  {
    hide Routes, RouteAt, LastAttr, U16, U32, WordsInside;
    RoutesStep(d, o, r);
    if r > 0 {
      var len := MsgLen(d, o);
      RouteMoves(m, i, d, o + r, o);
      RoutesStep(m, i + o, r + rest);
      WholeFront(m, i, d, o + len, r - len, rest);
      assert Align(len) == len;
    }
  }

  lemma DatagramFront(m: seq<byte>, i: nat, d: seq<byte>, rest: nat)
    requires Holds(m, i, d)
    requires i + |d| + rest + SLACK <= |m|
    requires WholeDatagram(d)
    ensures Routes(m, i, |d| + rest) == DatagramRoutes(d) + Routes(m, i + |d|, rest)
  {
    hide Whole, Routes, Zeros;
    FrontHeld(m, i, d);
    WholeFront(m, i, Alone(d), 0, |d|, rest);
  }

  lemma FrontHeld(m: seq<byte>, i: nat, d: seq<byte>)
    requires Holds(m, i, d)
    ensures HoldsPart(m, i, Alone(d), |d|)
  {
    hide Zeros;
    assert forall k :: 0 <= k < |d| ==> Alone(d)[k] == d[k];
  }

  lemma {:induction false} ChunksFrom(m: seq<byte>, ds: seq<seq<byte>>, k: nat)
    requires k <= |ds|
    requires Holds(m, 0, Concat(ds))
    requires |Concat(ds)| + SLACK <= |m|
    requires forall j :: 0 <= j < |ds| ==> WholeDatagram(ds[j])
    ensures |Concat(ds[..k])| <= |Concat(ds)|
    ensures Routes(m, |Concat(ds[..k])|, |Concat(ds)| - |Concat(ds[..k])|) == FlatRoutes(ds[k..])
    decreases |ds| - k
  {
    hide Routes, WholeDatagram, Holds, DatagramRoutes;
    if k == |ds| {
      assert ds[..k] == ds;
      RoutesStep(m, |Concat(ds)|, 0);
    } else {
      ChunksFrom(m, ds, k + 1);
      ConcatStep(ds, k);
      ConcatHolds(m, ds, k);
      DatagramFront(m, |Concat(ds[..k])|, ds[k], |Concat(ds)| - |Concat(ds[..k + 1])|);
      assert ds[k..][1..] == ds[k + 1..];
    }
  }

  lemma {:induction false} ConcatHolds(m: seq<byte>, ds: seq<seq<byte>>, k: nat)
    requires k < |ds|
    requires Holds(m, 0, Concat(ds))
    ensures Holds(m, |Concat(ds[..k])|, ds[k])
    decreases |ds|
  {
    var last := |ds| - 1;
    ConcatStep(ds, last);
    assert ds[..last + 1] == ds;
    HoldsSplit(m, 0, Concat(ds[..last]), ds[last]);
    if k < last {
      ConcatHolds(m, ds[..last], k);
      assert ds[..last][..k] == ds[..k];
    }
  }

  /** Chunking independence: the routes in the collected buffer are those of the datagrams in turn. */
  lemma ChunkingIndependence(m: seq<byte>, ds: seq<seq<byte>>)
    requires Holds(m, 0, Concat(ds))
    requires |Concat(ds)| + SLACK <= |m|
    requires forall k :: 0 <= k < |ds| ==> WholeDatagram(ds[k])
    ensures Routes(m, 0, |Concat(ds)|) == FlatRoutes(ds)
  {
    ChunksFrom(m, ds, 0);
    assert ds[..0] == [] && ds[0..] == ds;
  }

  const EMPTY_DST := Attr(RTA_DST, [])

  /** A datagram that ends in a destination attribute without a word in it. */
  function ShortDatagram(): (d: seq<byte>)
    ensures |d| == 32
  {
    EncodeUnfold([EMPTY_DST]);
    EncodeUnfold([]);
    EncodeMsg(Message(RTM_NEWROUTE, 0, 0, 0, RtMsg() + EncodeAttrs([EMPTY_DST])))
  }

  /** The word is read from behind the datagram. */
  lemma ShortRoute(m: seq<byte>, n: nat)
    requires Holds(m, 0, ShortDatagram())
    requires 32 <= n && n + SLACK <= |m|
    ensures Routes(m, 0, n) != [] && Routes(m, 0, n)[0].dst == Some(U32(m, 32)) && MsgLen(m, 0) == 32
  {
    hide EncodeMsg, U16, U32, Holds, LastAttr, Routes, Align;
    EncodeUnfold([EMPTY_DST]);
    EncodeUnfold([]);
    var attrs := EncodeAttrs([EMPTY_DST]);
    var msg := Message(RTM_NEWROUTE, 0, 0, 0, RtMsg() + attrs);
    EncodedMsg(m, 0, msg);
    HoldsSplit(m, NLMSG_HDRLEN, RtMsg(), attrs);
    HoldsAt(m, NLMSG_HDRLEN, RtMsg(), 4);
    assert attrs == EncodeAttr(EMPTY_DST) + [] == EncodeAttr(EMPTY_DST);
    EncodedHeader(m, 28, EMPTY_DST);
    RoutesStep(m, 0, n);
    LastAttrStep(m, 28, 4);
    LastAttrStep(m, 32, 0);
    AlignedLengths();
  }

  lemma AlignedLengths()
    ensures Align(4) == 4 && Align(32) == 32
  {
  }

  /** Without that condition it is false: two such datagrams read differently together and one by one. */
  lemma ShortAttributeReadsOn(m: seq<byte>)
    requires m == Concat([ShortDatagram(), ShortDatagram()]) + Zeros(SLACK)
    ensures |Concat([ShortDatagram(), ShortDatagram()])| == 64
    ensures Routes(m, 0, 64) != FlatRoutes([ShortDatagram(), ShortDatagram()])
  {
    hide ShortDatagram, Routes, U32;
    var d := ShortDatagram();
    assert [d, d][..1] == [d];
    assert Concat([d]) == d by {
      ConcatNothing([d]);
      ConcatStep([d], 0);
      assert [d][..1] == [d];
    }
    assert Concat([d, d]) == d + d;
    assert m == d + (d + Zeros(SLACK));
    assert Holds(m, 0, d);
    assert Holds(Alone(d), 0, d);
    ShortRoute(m, 64);
    ShortRoute(Alone(d), 32);
    SameWord(m, 32, d, 4, 0) by {
      assert HoldsPart(m, 32, d, 4);
    }
    SameWord(Alone(d), 0, d, 4, 0) by {
      assert HoldsPart(Alone(d), 0, d, 4);
    }
    ZeroWord(Alone(d), 32) by {
      assert forall k :: 32 <= k < 36 ==> Alone(d)[k] == Zeros(SLACK)[k - 32];
    }
    assert FlatRoutes([d, d]) == DatagramRoutes(d) + FlatRoutes([d, d][1..]);
  }

  lemma ZeroWord(m: seq<byte>, i: nat)
    requires i + 4 <= |m| && forall k :: i <= k < i + 4 ==> m[k] == 0
    ensures U32(m, i) == 0
  {
  }

  /** The `k`-th datagram is the first whose type, the half-word at 4, is 2 (ERROR) or 3 (DONE). */
  predicate FirstOf(ds: seq<seq<byte>>, k: int)
    requires Framed(ds)
  {
    && 0 <= k < |ds| && (U16(ds[k], 4) == 2 || U16(ds[k], 4) == 3)
    && forall j :: 0 <= j < k ==> U16(ds[j], 4) != 2 && U16(ds[j], 4) != 3
  }

  lemma StopIsFirst(ds: seq<seq<byte>>)
    requires Framed(ds)
    ensures forall k :: FirstOf(ds, k) <==> k == FirstStop(ds) < |ds|
    ensures FirstStop(ds) == |ds| <==> forall k :: 0 <= k < |ds| ==> U16(ds[k], 4) != 2 && U16(ds[k], 4) != 3
  {
    hide U16, FirstStop;
    var stop := FirstStop(ds);
    assert forall k :: 0 <= k < |ds| ==> (Stops(ds[k]) <==> U16(ds[k], 4) == 2 || U16(ds[k], 4) == 3);
    forall k | FirstOf(ds, k)
      ensures k == stop
    {
      assert Stops(ds[k]);
    }
  }

  /** Receiving a dump and reading it: the result depends on the datagrams one by one. */
  method ReadDump(reader: Reader, ds: seq<seq<byte>>) returns (r: Reception, routes: seq<Route>)
    requires reader.buf.Length == REPLY_SIZE + SLACK
    requires Framed(ds)
    requires |Concat(ds[..FirstStop(ds)])| + (if FirstStop(ds) < |ds| then 6 else 0) <= REPLY_SIZE
    requires forall k :: 0 <= k < FirstStop(ds) ==> WholeDatagram(ds[k])
    modifies reader, reader.buf
    ensures r.Blocked? <==> forall k :: 0 <= k < |ds| ==> !Stops(ds[k])
    ensures r.Done? <==> exists k :: FirstOf(ds, k) && U16(ds[k], 4) == 3
    ensures r.Failed? <==> exists k :: FirstOf(ds, k) && U16(ds[k], 4) == 2
    ensures r.Blocked? <==> forall k :: 0 <= k < |ds| ==> U16(ds[k], 4) != 2 && U16(ds[k], 4) != 3
    ensures r.Done? <==> FirstStop(ds) < |ds| && FirstType(ds[FirstStop(ds)]) == NLMSG_DONE
    ensures r.Done? ==> routes == FlatRoutes(ds[..FirstStop(ds)])
  {
    hide Concat, WholeDatagram, Routes, FlatRoutes, FirstStop, U16, FirstOf;
    StopIsFirst(ds);
    var consumed;
    r, consumed := reader.RecvReply(ds);
    routes := [];
    if r.Done? {
      ChunkingIndependence(reader.buf[..], ds[..FirstStop(ds)]);
      routes := reader.ReadReply();
    }
  }

  /** An encoded entry has whole words where the reader reads words. */
  lemma EntryWordInside(m: seq<byte>, i: nat, e: Entry, t: u16, end: nat)
    requires ValidEntry(e)
    requires Holds(m, i, EncodeMsg(ToMessage(e)))
    requires i + MsgLen(m, i) <= |m| && i + MsgLen(m, i) <= end
    requires WordOrNone(LastPayload(e.attrs, t))
    ensures WordInside(m, i, t, end)
  {
    hide ParseAttrs, LastPayload, LastAttr, EncodeMsg, EncodeAttrs, U16, U32, ValidEntry;
    EntryFields(m, i, e);
    LastAttrIsLastPayload(m, i + NLMSG_HDRLEN + RTMSG_LEN, MsgLen(m, i) - NLMSG_HDRLEN - RTMSG_LEN, t);
  }

  /** The encoding of any list of valid entries is a whole datagram. */
  lemma {:induction false} EncodedIsWhole(m: seq<byte>, i: nat, l: seq<Entry>)
    requires AllValid(l)
    requires Holds(m, i, EncodeEntries(l))
    ensures i + |EncodeEntries(l)| <= |m| && Whole(m, i, |EncodeEntries(l)|)
    decreases |l|
  {
    hide Holds, EncodeMsg, EncodeAttrs, LastPayload, U16, U32, WordInside;
    HoldsInside(m, i, EncodeEntries(l));
    if l != [] {
      var e := l[0];
      var head, tail := EncodeMsg(ToMessage(e)), EncodeEntries(l[1..]);
      HoldsSplit(m, i, head, tail);
      EntryFields(m, i, e);
      var end := i + |EncodeEntries(l)|;
      EntryWordInside(m, i, e, RTA_DST, end);
      EntryWordInside(m, i, e, RTA_GATEWAY, end);
      EntryWordInside(m, i, e, RTA_OIF, end);
      EncodedIsWhole(m, i + |head|, l[1..]);
    }
  }

  predicate AllListsValid(ls: seq<seq<Entry>>) {
    ls == [] || (AllValid(ls[0]) && AllListsValid(ls[1..]))
  }

  /** A route dump, cut into datagrams. */
  function EncodeLists(ls: seq<seq<Entry>>): (ds: seq<seq<byte>>)
    requires AllListsValid(ls)
    ensures |ds| == |ls|
  {
    if ls == [] then [] else [EncodeEntries(ls[0])] + EncodeLists(ls[1..])
  }

  function Join(ls: seq<seq<Entry>>): seq<Entry> {
    if ls == [] then [] else ls[0] + Join(ls[1..])
  }

  lemma {:induction false} MeaningsJoin(a: seq<Entry>, b: seq<Entry>)
    requires AllValid(a) && AllValid(b)
    ensures AllValid(a + b) && Meanings(a + b) == Meanings(a) + Meanings(b)
    decreases |a|
  {
    hide Meaning, ValidEntry;
    if a == [] {
      assert a + b == b;
    } else {
      assert (a + b)[1..] == a[1..] + b;
      MeaningsJoin(a[1..], b);
    }
  }

  /** For every route dump and every way to cut it into datagrams of whole entries: what is read is the list of
      routes that the entries stand for. */
  lemma {:induction false} EverySplitReadsTheSame(ls: seq<seq<Entry>>)
    requires AllListsValid(ls)
    ensures forall k :: 0 <= k < |ls| ==> WholeDatagram(EncodeLists(ls)[k])
    ensures AllValid(Join(ls)) && FlatRoutes(EncodeLists(ls)) == Meanings(Join(ls))
    decreases |ls|
  {
    hide AllValid, EncodeEntries, Meanings, WholeDatagram, DatagramRoutes;
    if ls == [] {
      NoEntries();
    } else {
      EverySplitReadsTheSame(ls[1..]);
      DatagramMeaning(ls[0]);
      MeaningsJoin(ls[0], Join(ls[1..]));
      assert EncodeLists(ls)[1..] == EncodeLists(ls[1..]);
    }
  }

  lemma NoEntries()
    ensures AllValid([]) && Meanings([]) == []
  {
  }

  lemma DatagramMeaning(l: seq<Entry>)
    requires AllValid(l)
    ensures WholeDatagram(EncodeEntries(l)) && DatagramRoutes(EncodeEntries(l)) == Meanings(l)
  {
    hide Routes, EncodeEntries, Meanings, Whole, Zeros;
    var d := EncodeEntries(l);
    assert Holds(Alone(d), 0, d);
    EncodedIsWhole(Alone(d), 0, l);
    EntriesRoundTrip(Alone(d), 0, l);
  }
}
