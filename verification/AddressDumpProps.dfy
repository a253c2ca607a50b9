/** Address dumps as values, and what the receive loop of `GetInterfaceIP` makes of them. */
module AddressDumpProps {
  import opened Bytes
  import opened Netlink
  import opened Counters
  import opened Attributes
  import opened Messages
  import opened Shared
  import KernelPeer
  import opened AddressDump

  datatype Item =
    | NewAddr(flags: u16, seqno: u32, pid: u32, ifa: seq<byte>, attrs: seq<Attr>)
    | Other(msg: Message)

  /** One datagram of a dump; the last one carries the DONE message. */
  datatype Datagram = Datagram(items: seq<Item>, done: Option<Message>)

  predicate ValidItem(it: Item) {
    match it
    case NewAddr(_, _, _, ifa, attrs) =>
      |ifa| == IFADDRMSG_LEN && AllFit(attrs)
      && NLMSG_HDRLEN + IFADDRMSG_LEN + |EncodeAttrs(attrs)| < U32_MOD
    case Other(msg) => Sized(msg) && msg.typ !in {NLMSG_ERROR, NLMSG_DONE, RTM_NEWADDR}
  }

  predicate ValidItems(l: seq<Item>) {
    l == [] || (ValidItem(l[0]) && ValidItems(l[1..]))
  }

  function ItemMsg(it: Item): (msg: Message)
    requires ValidItem(it)
    ensures Sized(msg) && msg.typ != NLMSG_ERROR && msg.typ != NLMSG_DONE
  {
    match it
    case NewAddr(flags, seqno, pid, ifa, attrs) =>
      Message(RTM_NEWADDR, flags, seqno, pid, ifa + EncodeAttrs(attrs))
    case Other(msg) => msg
  }

  function EncodeItems(l: seq<Item>): (s: seq<byte>)
    requires ValidItems(l)
    ensures |s| % 4 == 0
  {
    hide EncodeMsg, ItemMsg, ValidItem, Align;
    if l == [] then [] else
      var head, tail := EncodeMsg(ItemMsg(l[0])), EncodeItems(l[1..]);
      AlignedSum(|head|, |tail|);
      head + tail
  }

  /** The address in an item, if it belongs to the interface and is of the wanted kind. */
  function ItemMatch(it: Item, q: Query): Option<seq<byte>>
    requires ValidItem(it)
  {
    if it.NewAddr? && U32(it.ifa, 4) == q.index then LastPayload(it.attrs, Wanted(q.typ)) else None
  }

  /** The last matching address of a list of items. */
  function Match(l: seq<Item>, q: Query): Option<seq<byte>>
    requires ValidItems(l)
  {
    if l == [] then None else
      var rest := Match(l[1..], q);
      if rest.Some? then rest else ItemMatch(l[0], q)
  }

  /** Where the payload of the last attribute of type `t` lies, the attributes being encoded from `i` on. */
  function AttrPlace(l: seq<Attr>, i: nat, t: u16): Option<nat>
    requires AllFit(l)
  {
    if l == [] then None else
      OrElse(AttrPlace(l[1..], i + |EncodeAttr(l[0])|, t), if l[0].typ == t then Some(i + RTATTR_LEN) else None)
  }

  /** Where the matching address of an item lies, the item being encoded from `i` on. */
  function ItemPlace(it: Item, i: nat, q: Query): Option<nat>
    requires ValidItem(it)
  {
    if it.NewAddr? && U32(it.ifa, 4) == q.index then AttrPlace(it.attrs, i + 24, Wanted(q.typ)) else None
  }

  /** Where the last matching address of a list of items lies. */
  function Place(l: seq<Item>, i: nat, q: Query): Option<nat>
    requires ValidItems(l)
  {
    if l == [] then None else OrElse(Place(l[1..], i + |EncodeMsg(ItemMsg(l[0]))|, q), ItemPlace(l[0], i, q))
  }

  /** An address message for a real interface shows up a bad interface name. */
  predicate ItemFails(it: Item, q: Query)
    requires ValidItem(it)
  {
    it.NewAddr? && q.index == 0 && U32(it.ifa, 4) != 0
  }

  /** The error flag after a list of items. */
  function Flag(l: seq<Item>, q: Query, fErr: int): int
    requires ValidItems(l)
  {
    if l == [] then fErr else Flag(l[1..], q, if ItemFails(l[0], q) then -1 else fErr)
  }

  /** `b` is `a` after a walk that met `p` as its last match, at `o`: `addr` points at a copy of `p`, if any. */
  predicate Updated(m: seq<byte>, a: Found, b: Found, p: Option<seq<byte>>, o: Option<nat>) {
    && InBuffer(b) && b.addr == OrElse(o, a.addr)
    && (p.Some? <==> o.Some?)
    && (p.Some? ==> o.value % 4 == 0 && Holds(m, o.value, p.value))
  }

  lemma ItemFields(m: seq<byte>, i: nat, it: Item)
    requires ValidItem(it)
    requires Holds(m, i, EncodeMsg(ItemMsg(it)))
    ensures |EncodeMsg(ItemMsg(it))| == Align(MsgLen(m, i))
    ensures NLMSG_HDRLEN <= MsgLen(m, i) <= |EncodeMsg(ItemMsg(it))|
    ensures MsgType(m, i) == ItemMsg(it).typ
    ensures it.NewAddr? ==>
              && MsgLen(m, i) == 24 + |EncodeAttrs(it.attrs)|
              && MsgLen(m, i) % 4 == 0
              && U32(m, i + 20) == U32(it.ifa, 4)
              && Holds(m, i + 24, EncodeAttrs(it.attrs))
  {
    hide EncodeMsg, EncodeAttrs, Holds, U16, U32, Align, AllFit;
    EncodedMsg(m, i, ItemMsg(it));
    if it.NewAddr? {
      AddressFields(m, i + NLMSG_HDRLEN, it.ifa, it.attrs);
    }
  }

  lemma AddressFields(m: seq<byte>, i: nat, ifa: seq<byte>, attrs: seq<Attr>)
    requires |ifa| == IFADDRMSG_LEN && AllFit(attrs)
    requires Holds(m, i, ifa + EncodeAttrs(attrs))
    ensures U32(m, i + 4) == U32(ifa, 4) && Holds(m, i + 8, EncodeAttrs(attrs))
    ensures (24 + |EncodeAttrs(attrs)|) % 4 == 0
  {
    hide EncodeAttrs, Holds, U32, AllFit;
    HoldsSplit(m, i, ifa, EncodeAttrs(attrs));
    HoldsWord(m, i, ifa, 4);
    AlignedSum(24, |EncodeAttrs(attrs)|);
  }

  lemma HoldsWord(m: seq<byte>, i: nat, s: seq<byte>, o: nat)
    requires Holds(m, i, s) && o + 4 <= |s|
    ensures i + |s| <= |m| && U32(m, i + o) == U32(s, o)
  {
    SameWord(m, i, s, |s|, o);
  }

  lemma AttrPlaceStep(l: seq<Attr>, i: nat, t: u16)
    requires AllFit(l)
    ensures l == [] ==> AttrPlace(l, i, t) == None
    ensures l != [] ==> AllFit(l[1..]) && Fits(l[0])
    ensures l != [] ==>
              AttrPlace(l, i, t) == OrElse(AttrPlace(l[1..], i + |EncodeAttr(l[0])|, t),
                                           if l[0].typ == t then Some(i + RTATTR_LEN) else None)
  {
    hide EncodeAttr;
  }

  /** The walk finds the last attribute of a type in its place. */
  lemma {:induction false} AttrFound(m: seq<byte>, i: nat, l: seq<Attr>, t: u16)
    requires AllFit(l) && i % 4 == 0
    requires Holds(m, i, EncodeAttrs(l))
    ensures i + |EncodeAttrs(l)| <= |m|
    ensures Payload(LastAttr(m, i, |EncodeAttrs(l)|, t), None) == AttrPlace(l, i, t)
    ensures AttrPlace(l, i, t).Some? ==> AttrPlace(l, i, t).value % 4 == 0
    decreases |l|
  {
    hide EncodeAttr, EncodeAttrs, Holds, AllFit, Fits, LastAttr, AttrPlace, Align, RtaOk, U16;
    HoldsInside(m, i, EncodeAttrs(l));
    EncodeUnfold(l);
    AttrPlaceStep(l, i, t);
    LastAttrStep(m, i, |EncodeAttrs(l)|);
    if l == [] {
      NoAttr(m, i, t);
    } else {
      var head, tail := EncodeAttr(l[0]), EncodeAttrs(l[1..]);
      HoldsSplit(m, i, head, tail);
      AttrFound(m, i + |head|, l[1..], t);
      FirstAttr(m, i, l[0], |tail|, t);
    }
  }

  lemma NoAttr(m: seq<byte>, i: nat, t: u16)
    requires i <= |m|
    ensures LastAttr(m, i, 0, t) == None && Payload(None, None) == None
  {
  }

  lemma FirstAttr(m: seq<byte>, i: nat, a: Attr, n: nat, t: u16)
    requires Fits(a) && i % 4 == 0
    requires Holds(m, i, EncodeAttr(a))
    requires i + |EncodeAttr(a)| + n <= |m|
    ensures |EncodeAttr(a)| % 4 == 0 && (i + |EncodeAttr(a)|) % 4 == 0 && (i + RTATTR_LEN) % 4 == 0
    ensures Payload(LastAttr(m, i, |EncodeAttr(a)| + n, t), None) ==
            OrElse(Payload(LastAttr(m, i + |EncodeAttr(a)|, n, t), None),
                   if a.typ == t then Some(i + RTATTR_LEN) else None)
  {
    EncodedHeader(m, i, a);
    var step := Align(AttrLen(m, i));
    assert step == |EncodeAttr(a)| && step + n - step == n;
  }

  /** What the scanner does with one encoded item. */
  lemma ItemEffect(m: seq<byte>, i: nat, it: Item, q: Query, st: Found)
    requires ValidItem(it) && InBuffer(st) && i % 4 == 0
    requires Holds(m, i, EncodeMsg(ItemMsg(it)))
    requires i + |EncodeMsg(ItemMsg(it))| <= BUFLEN
    requires it.NewAddr?
    ensures i + MsgLen(m, i) <= |m| && AddressFits(m, i)
    ensures Updated(m, st, IfaEffect(m, i, q, st), ItemMatch(it, q), ItemPlace(it, i, q))
    ensures IfaEffect(m, i, q, st).fErr == if ItemFails(it, q) then -1 else st.fErr
  {
    hide EncodeMsg, EncodeAttrs, Holds, U16, U32, Align, LastAttr, LastPayload, ParseAttrs, AttrPlace, Overhangs;
    ItemFields(m, i, it);
    HoldsInside(m, i, EncodeMsg(ItemMsg(it)));
    var n := MsgLen(m, i) - 24;
    AttrRoundTrip(m, i + 24, it.attrs);
    LastAttrIsLastPayload(m, i + 24, n, Wanted(q.typ));
    AttrFound(m, i + 24, it.attrs, Wanted(q.typ));
    NoOverhang(m, i + 24, n);
    var p := LastAttr(m, i + 24, n, Wanted(q.typ));
    if p.Some? {
      PayloadHeld(m, p.value);
    }
  }

  lemma NoOverhang(m: seq<byte>, i: nat, n: nat)
    requires n % 4 == 0 && n < U32_MOD && i + n <= |m|
    ensures !Overhangs(AttrRecord, m, i, n)
  {
    hide Overhangs, UnsignedWalk, IntegerWalk;
    AlignedNeverWraps(AttrRecord, m, i, n, SIZE_MOD);
    WrapsIffOverhang(AttrRecord, m, i, n, SIZE_MOD);
  }

  lemma PayloadHeld(m: seq<byte>, i: nat)
    requires i + RTATTR_LEN <= |m|
    requires RTATTR_LEN <= AttrLen(m, i)
    requires i + AttrLen(m, i) <= |m|
    ensures Holds(m, i + RTATTR_LEN, AttrAt(m, i).payload)
  {
  }

  /** The scanner over encoded items, whatever `n` bytes come behind them. */
  lemma {:induction false} ItemsScan(m: seq<byte>, i: nat, l: seq<Item>, n: nat, q: Query, st: Found)
    returns (st': Found)
    requires ValidItems(l) && InBuffer(st) && i % 4 == 0
    requires Holds(m, i, EncodeItems(l))
    requires i + |EncodeItems(l)| + n <= BUFLEN && BUFLEN + SLACK <= |m|
    ensures Scan(m, i, |EncodeItems(l)| + n, q, st) == Scan(m, i + |EncodeItems(l)|, n, q, st')
    ensures Ret(m, i, |EncodeItems(l)| + n) == Ret(m, i + |EncodeItems(l)|, n)
    ensures Sound(m, i + |EncodeItems(l)|, n) ==> Sound(m, i, |EncodeItems(l)| + n)
    ensures Updated(m, st, st', Match(l, q), Place(l, i, q)) && st'.fErr == Flag(l, q, st.fErr)
    decreases |l|
  {
    hide Scan, Ret, Sound, EncodeMsg, Holds, U16, U32, Align, IfaEffect, ItemMatch, ItemPlace, ItemFails, ValidItem,
      InBuffer, Overhangs, AddressFits;
    if l == [] {
      return st;
    }
    var it := l[0];
    var head, tail := EncodeMsg(ItemMsg(it)), EncodeItems(l[1..]);
    HoldsSplit(m, i, head, tail);
    ItemFields(m, i, it);
    ScanStep(m, i, |head| + |tail| + n, q, st);
    var mid := st;
    if it.NewAddr? {
      ItemEffect(m, i, it, q, st);
      mid := IfaEffect(m, i, q, st);
    } else {
      OtherEffect(it, i, q);
    }
    st' := ItemsScan(m, i + |head|, l[1..], n, q, mid);
  }

  lemma OtherEffect(it: Item, i: nat, q: Query)
    requires ValidItem(it) && it.Other?
    ensures ItemMatch(it, q) == None && ItemPlace(it, i, q) == None
    ensures !ItemFails(it, q) && ItemMsg(it).typ != RTM_NEWADDR
  {
  }

  predicate ValidDatagram(d: Datagram) {
    ValidItems(d.items) && (d.done.Some? ==> Sized(d.done.value) && d.done.value.typ == NLMSG_DONE)
    && |DatagramBytes(d)| <= BUFLEN
  }

  function DoneBytes(d: Datagram): (s: seq<byte>)
    ensures |s| % 4 == 0
  {
    if d.done.Some? && Sized(d.done.value) then EncodeMsg(d.done.value) else []
  }

  function DatagramBytes(d: Datagram): (s: seq<byte>)
    requires ValidItems(d.items)
    ensures |s| % 4 == 0
  {
    hide EncodeItems, DoneBytes, ValidItems;
    AlignedSum(|EncodeItems(d.items)|, |DoneBytes(d)|);
    EncodeItems(d.items) + DoneBytes(d)
  }

  /** What one datagram, freshly received, does to the globals, and what the parser returns for it. */
  lemma DatagramScan(mem: seq<byte>, d: Datagram, q: Query, st: Found) returns (st': Found)
    requires |mem| == STACK_BUF
    requires ValidDatagram(d) && InBuffer(st)
    ensures Delivered(DatagramBytes(d)) == DatagramBytes(d)
    ensures var m, n := Overlay(mem, DatagramBytes(d)), |DatagramBytes(d)|;
            && Sound(m, 0, n)
            && Scan(m, 0, n, q, st) == st'
            && Ret(m, 0, n) == (if d.done.Some? then NLMSG_DONE else MsgType(m, n))
            && Updated(m, st, st', Match(d.items, q), Place(d.items, 0, q))
            && st'.fErr == Flag(d.items, q, st.fErr)
  {
    hide EncodeMsg, EncodeItems, Holds, U16, U32, Align, Match, Place, Flag, ValidItems, Sound, Scan, Ret;
    var bytes := DatagramBytes(d);
    var m := Overlay(mem, bytes);
    var i, tail := |EncodeItems(d.items)|, DoneBytes(d);
    HoldsSplit(m, 0, EncodeItems(d.items), tail);
    st' := ItemsScan(m, 0, d.items, |tail|, q, st);
    if d.done.Some? {
      EncodedMsg(m, i, d.done.value);
    }
    ScanStep(m, i, |tail|, q, st');
  }

  /** A dump: the last datagram, and no other, carries DONE. */
  predicate ValidDump(ds: seq<Datagram>) {
    ds != [] && ValidDatagram(ds[0]) &&
    if |ds| == 1 then ds[0].done.Some? else ds[0].done.None? && ValidDump(ds[1..])
  }

  function DumpBytes(ds: seq<Datagram>): (r: seq<seq<byte>>)
    requires ValidDump(ds)
    ensures |r| == |ds|
  {
    [DatagramBytes(ds[0])] + if |ds| == 1 then [] else DumpBytes(ds[1..])
  }

  /** Behind each datagram but the last, the header slot does not happen to read as DONE or ERROR.
      What stands there is left over from earlier datagrams or from the stack. */
  predicate SlotsQuiet(mem: seq<byte>, ds: seq<Datagram>)
    requires |mem| == STACK_BUF && ValidDump(ds)
    decreases |ds|
  {
    |ds| == 1 ||
    var m := Overlay(mem, DatagramBytes(ds[0]));
    !Last(MsgType(m, |DatagramBytes(ds[0])|)) && SlotsQuiet(m, ds[1..])
  }

  lemma SlotsQuietStep(mem: seq<byte>, ds: seq<Datagram>)
    requires |mem| == STACK_BUF && ValidDump(ds)
    ensures |ds| == 1 ==> SlotsQuiet(mem, ds) && DumpBytes(ds) == [DatagramBytes(ds[0])]
    ensures |ds| > 1 ==>
              var m := Overlay(mem, DatagramBytes(ds[0]));
              && DumpBytes(ds) == [DatagramBytes(ds[0])] + DumpBytes(ds[1..])
              && (SlotsQuiet(mem, ds) <==>
                  !Last(MsgType(m, |DatagramBytes(ds[0])|)) && SlotsQuiet(m, ds[1..]))
  {
    hide Overlay, DatagramBytes, ValidDatagram, MsgType;
  }

  /** By the numbers: a slot is noisy iff its type is 2 or 3. */
  lemma QuietSlots(mem: seq<byte>, ds: seq<Datagram>)
    requires |mem| == STACK_BUF && ValidDump(ds)
    ensures |ds| == 1 ==> SlotsQuiet(mem, ds)
    ensures |ds| > 1 ==>
              var m, n := Overlay(mem, DatagramBytes(ds[0])), |DatagramBytes(ds[0])|;
              SlotsQuiet(mem, ds) <==> U16(m, n + 4) != 2 && U16(m, n + 4) != 3 && SlotsQuiet(m, ds[1..])
  {
    hide Overlay, DatagramBytes, U16;
    SlotsQuietStep(mem, ds);
  }

  /** An error message in answer to the request (type 2) raises the flag, but does not end the receive loop: the lookup
      goes on waiting, with the mutex. */
  lemma ErrorGoesOn(mem: seq<byte>, msg: Message, q: Query, st: Found)
    requires |mem| == STACK_BUF && Sized(msg) && msg.typ == 2 && |EncodeMsg(msg)| <= BUFLEN
    ensures var d := EncodeMsg(msg);
            var m, n := Overlay(mem, d), |Delivered(d)|;
            && Sound(m, 0, n) && Scan(m, 0, n, q, st).fErr != 0 && !Last(Ret(m, 0, n))
            && !Served(mem, [d])
  {
    hide EncodeMsg, Overlay, U16, U32, Align, Scan, Ret, Sound, Holds;
    var d := EncodeMsg(msg);
    var m := Overlay(mem, d);
    EncodedMsg(m, 0, msg);
    ScanStep(m, 0, |d|, q, st);
    var ds: seq<seq<byte>> := [d];
    assert ds[1..] == [];
  }

  lemma DrainStep(mem: seq<byte>, ds: seq<seq<byte>>, q: Query, st: Found)
    requires |mem| == STACK_BUF
    requires ds != [] && Sound(Overlay(mem, ds[0]), 0, |Delivered(ds[0])|)
    ensures var m, n := Overlay(mem, ds[0]), |Delivered(ds[0])|;
            var st' := Scan(m, 0, n, q, st);
            if Last(Ret(m, 0, n)) then Served(mem, ds) && Drain(mem, ds, q, st) == Outcome(m, st', ds[1..])
            else (Served(m, ds[1..]) ==> Served(mem, ds) && Drain(mem, ds, q, st) == Drain(m, ds[1..], q, st'))
  {
    hide Scan, Ret, Sound, Overlay, Delivered;
  }

  /** The receive loop always ends on a dump, and it takes in exactly the dump iff the slots are quiet. */
  lemma {:induction false} DrainedExactly(mem: seq<byte>, ds: seq<Datagram>, q: Query, st: Found)
    requires |mem| == STACK_BUF && ValidDump(ds)
    requires InBuffer(st)
    ensures Served(mem, DumpBytes(ds))
    ensures Drain(mem, DumpBytes(ds), q, st).rest == [] <==> SlotsQuiet(mem, ds)
    decreases |ds|
  {
    hide Scan, Ret, Sound, Overlay, Delivered, Served, Drain, DatagramBytes, MsgType, InBuffer, SlotsQuiet,
      Match, Flag, DumpBytes;
    var first := DatagramBytes(ds[0]);
    var st' := DatagramScan(mem, ds[0], q, st);
    SlotsQuietStep(mem, ds);
    assert DumpBytes(ds)[0] == first;
    DrainStep(mem, DumpBytes(ds), q, st);
    var m := Overlay(mem, first);
    if |ds| == 1 {
      assert DumpBytes(ds)[1..] == [];
    } else {
      assert DumpBytes(ds)[1..] == DumpBytes(ds[1..]);
      DrainedExactly(m, ds[1..], q, st');
    }
  }

  /** The last matching address of a whole dump. */
  function DumpMatch(ds: seq<Datagram>, q: Query): Option<seq<byte>>
    requires ValidDump(ds)
  {
    var rest := if |ds| == 1 then None else DumpMatch(ds[1..], q);
    if rest.Some? then rest else Match(ds[0].items, q)
  }

  /** Where in its datagram the last matching address of a whole dump lies. */
  function DumpPlace(ds: seq<Datagram>, q: Query): Option<nat>
    requires ValidDump(ds)
  {
    OrElse(if |ds| == 1 then None else DumpPlace(ds[1..], q), Place(ds[0].items, 0, q))
  }

  /** The datagrams behind the one with the last match. */
  function Later(ds: seq<Datagram>, q: Query): seq<seq<byte>>
    requires ValidDump(ds)
  {
    if |ds| > 1 && DumpMatch(ds[1..], q).Some? then Later(ds[1..], q) else DumpBytes(ds)[1..]
  }

  /** The buffer after all these datagrams. */
  function MemAfter(mem: seq<byte>, bs: seq<seq<byte>>): (m: seq<byte>)
    requires |mem| == STACK_BUF
    ensures |m| == STACK_BUF
    decreases |bs|
  {
    if bs == [] then mem else MemAfter(Overlay(mem, bs[0]), bs[1..])
  }

  /** The word at `a` in the last of the datagrams that reaches so far. */
  function LastReaching(bs: seq<seq<byte>>, a: nat): Option<u32>
    decreases |bs|
  {
    if bs == [] then None else
      var rest := LastReaching(bs[1..], a);
      if rest.Some? then rest else if a + 4 <= |bs[0]| then Some(U32(bs[0], a)) else None
  }

  /** What the loop leaves at the last match of a dump: the word there in the last later datagram that reaches it,
      or else the matching address. */
  function Answer(ds: seq<Datagram>, q: Query): u32
    requires ValidDump(ds) && Word4(DumpMatch(ds, q))
    requires DumpMatch(ds, q).Some? && DumpPlace(ds, q).Some?
  {
    var over := LastReaching(Later(ds, q), DumpPlace(ds, q).value);
    if over.Some? then over.value else U32(DumpMatch(ds, q).value, 0)
  }

  predicate Word4(p: Option<seq<byte>>) {
    p.Some? ==> 4 <= |p.value|
  }

  lemma DumpStep(ds: seq<Datagram>, q: Query)
    requires ValidDump(ds)
    ensures DumpMatch(ds, q) ==
            if |ds| > 1 && DumpMatch(ds[1..], q).Some? then DumpMatch(ds[1..], q) else Match(ds[0].items, q)
    ensures DumpPlace(ds, q) == OrElse(if |ds| == 1 then None else DumpPlace(ds[1..], q), Place(ds[0].items, 0, q))
    ensures Later(ds, q) ==
            if |ds| > 1 && DumpMatch(ds[1..], q).Some? then Later(ds[1..], q) else DumpBytes(ds)[1..]
    ensures |ds| > 1 ==> DumpBytes(ds)[1..] == DumpBytes(ds[1..])
    ensures |ds| == 1 ==> DumpBytes(ds)[1..] == []
    ensures DumpBytes(ds)[0] == DatagramBytes(ds[0])
  {
    hide Match, Place, DatagramBytes;
  }

  lemma MemStep(mem: seq<byte>, bs: seq<seq<byte>>)
    requires |mem| == STACK_BUF
    ensures bs == [] ==> MemAfter(mem, bs) == mem
    ensures bs != [] ==> MemAfter(mem, bs) == MemAfter(Overlay(mem, bs[0]), bs[1..])
  {
    hide Overlay;
  }

  /** The receive loop on a whole dump with quiet slots, exactly: nothing stays queued, the buffer holds the datagrams
      laid over each other, and `addr` points to where the last match was laid. */
  lemma {:induction false} DrainIs(mem: seq<byte>, ds: seq<Datagram>, q: Query, st: Found)
    requires |mem| == STACK_BUF && ValidDump(ds) && SlotsQuiet(mem, ds)
    requires InBuffer(st)
    ensures Served(mem, DumpBytes(ds))
    ensures Drain(mem, DumpBytes(ds), q, st) ==
            Outcome(MemAfter(mem, DumpBytes(ds)),
                    Found(OrElse(DumpPlace(ds, q), st.addr), DumpFlag(ds, q, st.fErr)), [])
    ensures DumpPlace(ds, q).Some? <==> DumpMatch(ds, q).Some?
    ensures DumpPlace(ds, q).Some? ==> DumpPlace(ds, q).value % 4 == 0 && 28 <= DumpPlace(ds, q).value <= BUFLEN
    decreases |ds|
  {
    hide Scan, Ret, Sound, Overlay, Delivered, Served, Drain, DatagramBytes, MsgType, SlotsQuiet,
      Match, Place, Flag, DumpBytes, DumpMatch, DumpPlace, Later, MemAfter, U32, ValidItems, Holds;
    var st' := DatagramScan(mem, ds[0], q, st);
    SlotsQuietStep(mem, ds);
    DumpStep(ds, q);
    MemStep(mem, DumpBytes(ds));
    DrainStep(mem, DumpBytes(ds), q, st);
    var m := Overlay(mem, DatagramBytes(ds[0]));
    var none := DatagramScan(mem, ds[0], q, Found(None, 0));
    if |ds| == 1 {
      MemStep(m, []);
    } else {
      DrainIs(m, ds[1..], q, st');
    }
  }

  predicate AllAligned(bs: seq<seq<byte>>) {
    bs == [] || (|bs[0]| % 4 == 0 && |bs[0]| <= BUFLEN && AllAligned(bs[1..]))
  }

  lemma {:induction false} DumpAligned(ds: seq<Datagram>)
    requires ValidDump(ds)
    ensures AllAligned(DumpBytes(ds)) && AllAligned(DumpBytes(ds)[1..])
    decreases |ds|
  {
    hide DatagramBytes, ValidItems, DumpBytes;
    SlotsQuietStep(Zeros(STACK_BUF), ds);
    if |ds| > 1 {
      assert DumpBytes(ds)[1..] == DumpBytes(ds[1..]);
      DumpAligned(ds[1..]);
    } else {
      assert DumpBytes(ds)[1..] == [];
    }
  }

  lemma OverlayWord(mem: seq<byte>, d: seq<byte>, a: nat)
    requires |mem| == STACK_BUF && a % 4 == 0 && a + 4 <= STACK_BUF
    requires |d| % 4 == 0 && |d| <= BUFLEN
    ensures U32(Overlay(mem, d), a) == if a + 4 <= |d| then U32(d, a) else U32(mem, a)
  {
  }

  /** A word of the buffer after later datagrams. */
  lemma {:induction false} WordAfter(mem: seq<byte>, bs: seq<seq<byte>>, a: nat)
    requires |mem| == STACK_BUF && a % 4 == 0 && a + 4 <= STACK_BUF
    requires AllAligned(bs)
    ensures var over := LastReaching(bs, a);
            U32(MemAfter(mem, bs), a) == if over.Some? then over.value else U32(mem, a)
    decreases |bs|
  {
    hide U32, Overlay;
    if bs != [] {
      OverlayWord(mem, bs[0], a);
      WordAfter(Overlay(mem, bs[0]), bs[1..], a);
    }
  }

  /** The word that `addr` designates after a dump with a match. */
  lemma {:induction false} AnswerRead(mem: seq<byte>, ds: seq<Datagram>, q: Query)
    requires |mem| == STACK_BUF && ValidDump(ds)
    requires DumpMatch(ds, q).Some? && Word4(DumpMatch(ds, q))
    ensures DumpPlace(ds, q).Some? && DumpPlace(ds, q).value + 4 <= STACK_BUF
    ensures U32(MemAfter(mem, DumpBytes(ds)), DumpPlace(ds, q).value) == Answer(ds, q)
    decreases |ds|
  {
    hide Overlay, Delivered, DatagramBytes, Match, Place, DumpBytes, DumpMatch, DumpPlace, Later, MemAfter, U32,
      ValidItems, LastReaching, AllAligned, Flag, Scan, Ret, Sound;
    var st' := DatagramScan(mem, ds[0], q, Found(None, 0));
    var m := Overlay(mem, DatagramBytes(ds[0]));
    DumpStep(ds, q);
    MemStep(mem, DumpBytes(ds));
    if |ds| > 1 && DumpMatch(ds[1..], q).Some? {
      AnswerRead(m, ds[1..], q);
    } else {
      if |ds| > 1 {
        NoPlace(m, ds[1..], q);
      }
      var a := Place(ds[0].items, 0, q).value;
      HoldsWord(m, a, DumpMatch(ds, q).value, 0);
      DumpAligned(ds);
      WordAfter(m, DumpBytes(ds)[1..], a);
    }
  }

  lemma {:induction false} NoPlace(mem: seq<byte>, ds: seq<Datagram>, q: Query)
    requires |mem| == STACK_BUF && ValidDump(ds)
    requires DumpMatch(ds, q).None?
    ensures DumpPlace(ds, q).None?
    decreases |ds|
  {
    hide Overlay, Delivered, DatagramBytes, Match, Place, DumpBytes, DumpMatch, DumpPlace, ValidItems, Scan, Ret, Sound,
      Flag, Later;
    DumpStep(ds, q);
    var st' := DatagramScan(mem, ds[0], q, Found(None, 0));
    if |ds| > 1 {
      NoPlace(mem, ds[1..], q);
    }
  }

  /** The error flag after a whole dump. */
  function DumpFlag(ds: seq<Datagram>, q: Query, fErr: int): int
    requires ValidDump(ds)
  {
    var next := Flag(ds[0].items, q, fErr);
    if |ds| == 1 then next else DumpFlag(ds[1..], q, next)
  }

  lemma {:induction false} FlagStays(l: seq<Item>, q: Query, fErr: int)
    requires ValidItems(l)
    requires q.index != 0 || fErr == -1
    ensures Flag(l, q, fErr) == fErr
    decreases |l|
  {
    hide ValidItem, U32;
    if l != [] {
      FlagStays(l[1..], q, fErr);
    }
  }

  /** A known interface never raises the flag, however the dump looks. */
  lemma {:induction false} KnownInterfaceIsSafe(ds: seq<Datagram>, q: Query, fErr: int)
    requires ValidDump(ds)
    requires q.index != 0 || fErr == -1
    ensures DumpFlag(ds, q, fErr) == fErr
    decreases |ds|
  {
    hide Flag, ValidItems, DatagramBytes;
    FlagStays(ds[0].items, q, fErr);
    if |ds| > 1 {
      KnownInterfaceIsSafe(ds[1..], q, fErr);
    }
  }

  /** Some address in the items belongs to a real interface. */
  predicate NamesInterface(l: seq<Item>)
    requires ValidItems(l)
  {
    l != [] && ((l[0].NewAddr? && U32(l[0].ifa, 4) != 0) || NamesInterface(l[1..]))
  }

  predicate DumpNamesInterface(ds: seq<Datagram>)
    requires ValidDump(ds)
  {
    NamesInterface(ds[0].items) || (|ds| > 1 && DumpNamesInterface(ds[1..]))
  }

  /** A bad interface name raises the flag for good iff a real interface has an address. */
  lemma {:induction false} UnknownInterfaceFails(ds: seq<Datagram>, typ: byte, fErr: int)
    requires ValidDump(ds)
    ensures DumpFlag(ds, Query(0, typ), fErr) == if DumpNamesInterface(ds) then -1 else fErr
    decreases |ds|
  {
    hide NamesInterface, Flag, ValidItems, DatagramBytes;
    ItemsFail(ds[0].items, typ, fErr);
    if |ds| > 1 {
      if NamesInterface(ds[0].items) {
        KnownInterfaceIsSafe(ds[1..], Query(0, typ), -1);
      } else {
        UnknownInterfaceFails(ds[1..], typ, fErr);
      }
    }
  }

  lemma {:induction false} ItemsFail(l: seq<Item>, typ: byte, fErr: int)
    requires ValidItems(l)
    ensures Flag(l, Query(0, typ), fErr) == if NamesInterface(l) then -1 else fErr
    decreases |l|
  {
    hide U32;
    if l != [] {
      if l[0].NewAddr? && U32(l[0].ifa, 4) != 0 {
        FlagStays(l[1..], Query(0, typ), -1);
      } else {
        ItemsFail(l[1..], typ, fErr);
      }
    }
  }

  /** For every dump, however it is cut into datagrams, with quiet slots and a match: what `addr` designates at the end
      is the word at the place of the last match in the last later datagram that reaches it, or the match itself. So
      it is the last matching address iff no later datagram reaches it, or the last one to do so repeats it there. */
  lemma FindsLastMatch(mem: seq<byte>, ds: seq<Datagram>, q: Query, fErr: int)
    requires |mem| == STACK_BUF && ValidDump(ds) && SlotsQuiet(mem, ds)
    requires DumpMatch(ds, q).Some? && Word4(DumpMatch(ds, q))
    ensures Served(mem, DumpBytes(ds)) && DumpPlace(ds, q).Some?
    ensures var o := Drain(mem, DumpBytes(ds), q, Found(None, fErr));
            var last, over := U32(DumpMatch(ds, q).value, 0), LastReaching(Later(ds, q), DumpPlace(ds, q).value);
            && o.rest == [] && o.st.addr == DumpPlace(ds, q) && InBuffer(o.st)
            && U32(o.mem, o.st.addr.value) == Answer(ds, q)
            && (U32(o.mem, o.st.addr.value) == last <==> over.None? || over.value == last)
  {
    hide Served, Drain, DumpBytes, DumpMatch, DumpPlace, SlotsQuiet, U32, LastReaching, Later;
    DrainIs(mem, ds, q, Found(None, fErr));
    AnswerRead(mem, ds, q);
  }

  /** The interface that a call is about: the one it names, or the one named last. */
  function Named(g: Globals, iface: Option<u32>): u32
    reads g
  {
    if iface.Some? then iface.value else g.interfaceIndex
  }

  /** The call as a user sees it, on an idle socket. It leaves the socket idle iff the slots of the dump are quiet. Then
      the flag goes up iff the interface is unknown and a real one has an address; with the flag up it returns -1,
      otherwise the answer of the dump, or it follows an older pointer if the dump has no match. */
  method LookUp(g: Globals, iface: Option<u32>, typ: byte, ghost ds: seq<Datagram>, env: KernelPeer.Env,
                buf: array<byte>)
    returns (r: Option<u32>)
    requires buf.Length == STACK_BUF && Older(g)
    requires ValidDump(ds) && Word4(DumpMatch(ds, Query(Named(g, iface), typ)))
    requires g.kernel.replies == [] && env.dump == DumpBytes(ds)
    modifies g, buf
    ensures g.interfaceIndex == old(Named(g, iface))
    ensures g.kernel.replies == [] <==> SlotsQuiet(old(buf[..]), ds)
    ensures SlotsQuiet(old(buf[..]), ds) ==>
              var q := Query(g.interfaceIndex, typ);
              var bad := q.index == 0 && DumpNamesInterface(ds);
              && g.fErr == (if bad then -1 else old(g.fErr))
              && (g.fErr != 0 ==> r == Some(MINUS_ONE))
              && (g.fErr == 0 && DumpMatch(ds, q).Some? ==> DumpPlace(ds, q).Some? && r == Some(Answer(ds, q)))
              && (DumpMatch(ds, q).None? ==> g.addr == old(g.addr) && (g.fErr == 0 ==> r == None))
    ensures g.kernel.routes == old(g.kernel.routes) && Older(g)
  {
    hide Served, Drain, DumpBytes, DumpMatch, DumpPlace, DumpFlag, SlotsQuiet, U32, DumpNamesInterface, Later,
      LastReaching;
    var q := Query(Named(g, iface), typ);
    DrainedExactly(buf[..], ds, q, Found(None, g.fErr));
    ghost var quiet := SlotsQuiet(buf[..], ds);
    if quiet {
      DrainIs(buf[..], ds, q, Found(None, g.fErr));
      if q.index != 0 {
        KnownInterfaceIsSafe(ds, q, g.fErr);
      } else {
        UnknownInterfaceFails(ds, typ, g.fErr);
      }
      if DumpMatch(ds, q).Some? {
        FindsLastMatch(buf[..], ds, q, g.fErr);
      }
    }
    assert g.kernel.replies + env.dump == DumpBytes(ds);
    r := GetInterfaceIP(g, iface, typ, env, false, buf);
  }

  /** An address of an interface, and nothing else. */
  function AddressItem(index: byte, address: u32): (it: Item)
    ensures ValidItem(it) && |EncodeMsg(ItemMsg(it))| == 32
  {
    EncodeUnfold([Attr(IFA_ADDRESS, Le32(address))]);
    EncodeUnfold([]);
    NewAddr(0, 0, 0, [AF_INET, 24, 0, 0, index, 0, 0, 0], [Attr(IFA_ADDRESS, Le32(address))])
  }

  /** The word of the address in the encoding. */
  lemma AddressItemIs(index: byte, address: u32, i: nat, q: Query)
    ensures var it := AddressItem(index, address);
            && (q == Query(index, 0) ==> ItemMatch(it, q) == Some(Le32(address)) && ItemPlace(it, i, q) == Some(i + 28))
            && (q.index != index ==> ItemMatch(it, q) == None && ItemPlace(it, i, q) == None)
            && Holds(EncodeMsg(ItemMsg(it)), 28, Le32(address)) && U32(EncodeMsg(ItemMsg(it)), 28) == address
  {
    hide EncodeMsg, Le32, Le16, U16, Holds;
    var it, a := AddressItem(index, address), Attr(IFA_ADDRESS, Le32(address));
    var m := EncodeMsg(ItemMsg(it));
    OneAttr(a, i + 24);
    EncodeUnfold([a]);
    EncodeUnfold([]);
    assert EncodeAttrs([a]) == EncodeAttr(a) + [] == EncodeAttr(a);
    HoldsItself(m);
    ItemFields(m, 0, it);
    AddressAttr(m, 24, address);
    LoadStore32(m, 28, address);
  }

  lemma OneAttr(a: Attr, i: nat)
    requires Fits(a)
    ensures AllFit([a]) && LastPayload([a], a.typ) == Some(a.payload)
    ensures AttrPlace([a], i, a.typ) == Some(i + RTATTR_LEN)
  {
    hide EncodeAttr;
    assert [a][1..] == [];
    EncodeUnfold([]);
    AttrPlaceStep([a], i, a.typ);
  }

  lemma AddressAttr(m: seq<byte>, i: nat, address: u32)
    requires Holds(m, i, EncodeAttr(Attr(IFA_ADDRESS, Le32(address))))
    ensures Holds(m, i + 4, Le32(address))
  {
    hide Le32, Le16, Holds;
    HoldsSplit(m, i, Le16(8) + Le16(IFA_ADDRESS) + Le32(address), Zeros(0));
    HoldsSplit(m, i, Le16(8) + Le16(IFA_ADDRESS), Le32(address));
  }

  /** A datagram with one item. */
  lemma SingleItem(it: Item, done: Option<Message>, q: Query)
    requires ValidItem(it)
    ensures ValidItems([it]) && EncodeItems([it]) == EncodeMsg(ItemMsg(it))
    ensures DatagramBytes(Datagram([it], done)) == EncodeMsg(ItemMsg(it)) + DoneBytes(Datagram([it], done))
    ensures Match([it], q) == ItemMatch(it, q) && Place([it], 0, q) == ItemPlace(it, 0, q)
  {
    hide ItemMatch, ItemPlace, EncodeMsg, ValidItem, DoneBytes;
    assert [it][1..] == [];
    assert EncodeItems([it]) == EncodeMsg(ItemMsg(it)) + EncodeItems([]);
  }

  const DONE_MESSAGE := Message(NLMSG_DONE, 0, 0, 0, [0, 0, 0, 0])

  /** A dump in two datagrams, one for each interface; the second, of 52 bytes, carries DONE. */
  function TwoInterfaces(x: u32, y: u32): seq<Datagram> {
    [Datagram([AddressItem(1, x)], None), Datagram([AddressItem(2, y)], Some(DONE_MESSAGE))]
  }

  lemma DoneSized()
    ensures Sized(DONE_MESSAGE) && |EncodeMsg(DONE_MESSAGE)| == 20
  {
  }

  /** The lookup of the first interface returns the address of the second. */
  lemma WrongAnswer(mem: seq<byte>, x: u32, y: u32)
    requires |mem| == STACK_BUF
    ensures var ds, q := TwoInterfaces(x, y), Query(1, 0);
            && ValidDump(ds) && (SlotsQuiet(mem, ds) <==> !Last(MsgType(mem, 32)))
            && DumpMatch(ds, q) == Some(Le32(x)) && DumpPlace(ds, q) == Some(28)
            && Answer(ds, q) == y
  {
    hide EncodeMsg, U32, Le32, ItemMatch, ItemPlace, ItemMsg, ValidItem, Match, Place, ValidItems, DatagramBytes,
      EncodeItems, AddressItem, MsgType, DumpBytes, SlotsQuiet, LastReaching, Holds, Overlay, Later;
    var ds, q := TwoInterfaces(x, y), Query(1, 0);
    var a, b := AddressItem(1, x), AddressItem(2, y);
    DoneSized();
    AddressItemIs(1, x, 0, q);
    AddressItemIs(2, y, 0, q);
    SingleItem(a, None, q);
    SingleItem(b, Some(DONE_MESSAGE), q);
    var first, second := DatagramBytes(ds[0]), DatagramBytes(ds[1]);
    assert |first| == 32 && |second| == 52;
    assert ds[1..] == [ds[1]];
    SlotsQuietStep(mem, ds);
    SlotsQuietStep(Overlay(mem, first), ds[1..]);
    SlotAfter(mem, first);
    DumpStep(ds, q);
    DumpStep(ds[1..], q);
    assert DumpBytes(ds)[1..] == [second];
    SameWord(second, 0, EncodeMsg(ItemMsg(b)), 32, 28) by {
      assert HoldsPart(second, 0, EncodeMsg(ItemMsg(b)), 32);
    }
    ReachingOne(second, 28);
  }

  lemma SlotAfter(mem: seq<byte>, d: seq<byte>)
    requires |mem| == STACK_BUF && |d| == 32
    ensures MsgType(Overlay(mem, d), 32) == MsgType(mem, 32)
  {
  }

  lemma ReachingOne(d: seq<byte>, a: nat)
    requires a + 4 <= |d|
    ensures LastReaching([d], a) == Some(U32(d, a))
  {
    hide U32;
    assert [d][1..] == [];
  }

  /** A dump in datagrams of 32, 24 and 20 bytes. The slot behind the second one holds what is left of the address
      3.0.0.5 in the first, and reads DONE. */
  function NoisyDump(): seq<Datagram> {
    [Datagram([AddressItem(1, 0x0500_0003)], None),
     Datagram([NewAddr(0, 0, 0, [AF_INET, 24, 0, 0, 1, 0, 0, 0], [])], None),
     Datagram([], Some(DONE_MESSAGE))]
  }

  /** Its slots are not quiet, whatever the stack holds. */
  lemma NoisyDumpIsNoisy(mem: seq<byte>)
    requires |mem| == STACK_BUF
    ensures ValidDump(NoisyDump()) && !SlotsQuiet(mem, NoisyDump())
  {
    hide EncodeMsg, U32, U16, Le32, ItemMatch, ItemPlace, ItemMsg, ValidItem, Match, Place, ValidItems, DatagramBytes,
      EncodeItems, AddressItem, DumpBytes, SlotsQuiet, Overlay, MsgType;
    var ds, q := NoisyDump(), Query(1, 0);
    var a, b := AddressItem(1, 0x0500_0003), NewAddr(0, 0, 0, [AF_INET, 24, 0, 0, 1, 0, 0, 0], []);
    DoneSized();
    EmptyAddress(b);
    AddressItemIs(1, 0x0500_0003, 0, q);
    SingleItem(a, None, q);
    SingleItem(b, None, q);
    EmptyDatagram();
    assert ds[1..] == [ds[1], ds[2]] && ds[1..][1..] == [ds[2]];
    var first, second := DatagramBytes(ds[0]), DatagramBytes(ds[1]);
    assert |first| == 32 && |second| == 24;
    SlotsQuietStep(mem, ds);
    SlotsQuietStep(Overlay(mem, first), ds[1..]);
    assert first == EncodeMsg(ItemMsg(a));
    SlotReadsDone(mem, first, second);
  }

  lemma EmptyAddress(it: Item)
    requires it == NewAddr(0, 0, 0, [AF_INET, 24, 0, 0, 1, 0, 0, 0], [])
    ensures ValidItem(it) && |EncodeMsg(ItemMsg(it))| == 24
  {
    EncodeUnfold([]);
  }

  lemma EmptyDatagram()
    ensures ValidItems([]) && DatagramBytes(Datagram([], Some(DONE_MESSAGE))) == EncodeMsg(DONE_MESSAGE)
  {
    hide EncodeMsg;
    DoneSized();
  }

  lemma SlotReadsDone(mem: seq<byte>, first: seq<byte>, second: seq<byte>)
    requires |mem| == STACK_BUF && |first| == 32 && |second| == 24
    requires Holds(first, 28, Le32(0x0500_0003))
    ensures MsgType(Overlay(Overlay(mem, first), second), 24) == NLMSG_DONE
  {
    var m := Overlay(Overlay(mem, first), second);
    assert Le32(0x0500_0003)[0] == 3 && Le32(0x0500_0003)[1] == 0;
    HoldsAt(first, 28, Le32(0x0500_0003), 0);
    HoldsAt(first, 28, Le32(0x0500_0003), 1);
    assert m[28] == first[28] && m[29] == first[29];
  }
}
