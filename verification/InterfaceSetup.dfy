/** InitializeIF of src/api_if.c: which of the addresses of an interface end up as the node's own and as its broadcast
    address. */
module InterfaceSetup {
  import opened Bytes
  import opened Netlink
  import opened Attributes
  import opened Messages
  import opened RouteRequest
  import opened Shared
  import KernelPeer
  import opened AddressDump
  import opened AddressDumpProps

  /** The kinds of address, by their numbers: IFA_ADDRESS is 1, IFA_BROADCAST is 4. An item of the interface matches
      by its last attribute of the one or the other; items of other interfaces do not match. */
  lemma MatchKinds(it: Item, q: Query)
    requires ValidItem(it) && it.NewAddr?
    ensures U32(it.ifa, 4) == q.index && q.typ == 0 ==> ItemMatch(it, q) == LastPayload(it.attrs, 1)
    ensures U32(it.ifa, 4) == q.index && q.typ != 0 ==> ItemMatch(it, q) == LastPayload(it.attrs, 4)
    ensures U32(it.ifa, 4) != q.index ==> ItemMatch(it, q) == None
  {
  }

  /** What the kernel says of an interface with a broadcast address: IFA_ADDRESS, IFA_LOCAL and IFA_BROADCAST. */
  function ThreeAddresses(index: u32, a: u32, l: u32, b: u32): (it: Item)
    ensures ValidItem(it) && |EncodeMsg(ItemMsg(it))| == 48
  {
    EncodeThree(Attr(1, Le32(a)), Attr(2, Le32(l)), Attr(4, Le32(b)));
    NewAddr(0, 0, 0, [2, 24, 0, 0] + Le32(index), [Attr(1, Le32(a)), Attr(2, Le32(l)), Attr(4, Le32(b))])
  }

  /** Its bytes as they come over the socket. */
  lemma ThreeAddressesLiteral(index: u32, a: u32, l: u32, b: u32)
    ensures EncodeMsg(ItemMsg(ThreeAddresses(index, a, l, b))) ==
            [48, 0, 0, 0, 20, 0, 0, 0, 0, 0, 0, 0, 0, 0, 0, 0] + ([2, 24, 0, 0] + Le32(index))
            + (([8, 0, 1, 0] + Le32(a)) + ([8, 0, 2, 0] + Le32(l)) + ([8, 0, 4, 0] + Le32(b)))
  {
    EncodeThree(Attr(1, Le32(a)), Attr(2, Le32(l)), Attr(4, Le32(b)));
    WordLiteral(a, 1);
    WordLiteral(l, 2);
    WordLiteral(b, 4);
    var msg := ItemMsg(ThreeAddresses(index, a, l, b));
    PadFree(msg);
    HeaderBytes(msg);
    HeaderLiteral(msg);
  }

  lemma HeaderBytes(msg: Message)
    requires Sized(msg)
    ensures Header(msg) + msg.body == EncodeMsg(msg)[..NLMSG_HDRLEN + |msg.body|]
  {
  }

  lemma HeaderLiteral(msg: Message)
    requires |msg.body| == 32 && msg.typ == 20 && msg.flags == 0 && msg.seqno == 0 && msg.pid == 0
    ensures Header(msg) == [48, 0, 0, 0, 20, 0, 0, 0, 0, 0, 0, 0, 0, 0, 0, 0]
  {
    assert Le32(48) == [48, 0, 0, 0] && Le16(20) == [20, 0] && Le16(0) == [0, 0] && Le32(0) == [0, 0, 0, 0];
  }

  lemma LastOfThree(a: seq<byte>, l: seq<byte>, b: seq<byte>, i: nat, t: u16)
    requires |a| == |l| == |b| == 4 && t in {1, 4}
    ensures var attrs := [Attr(1, a), Attr(2, l), Attr(4, b)];
            && AllFit(attrs)
            && LastPayload(attrs, t) == Some(if t == 1 then a else b)
            && AttrPlace(attrs, i, t) == Some(if t == 1 then i + 4 else i + 20)
  {
    hide AttrPlace;
    var x, y, z := Attr(1, a), Attr(2, l), Attr(4, b);
    assert |EncodeAttr(x)| == 8 && |EncodeAttr(y)| == 8;
    assert [x, y, z][1..] == [y, z] && [y, z][1..] == [z] && [z][1..] == [];
    EncodeThree(x, y, z);
    EncodeUnfold([x, y, z]);
    EncodeUnfold([y, z]);
    assert LastPayload([z], t) == if t == 4 then Some(b) else None;
    assert LastPayload([y, z], t) == LastPayload([z], t);
    AttrPlaceStep([], i + 16 + |EncodeAttr(z)|, t);
    AttrPlaceStep([z], i + 16, t);
    AttrPlaceStep([y, z], i + 8, t);
    AttrPlaceStep([x, y, z], i, t);
  }

  /** Asked for its address, a dump with nothing else gives IFA_ADDRESS; asked with any other type, IFA_BROADCAST; and
      never IFA_LOCAL. */
  lemma ThreeAnswers(index: u32, a: u32, l: u32, b: u32, typ: byte, mem: seq<byte>)
    requires |mem| == STACK_BUF
    ensures var ds, q := [Datagram([ThreeAddresses(index, a, l, b)], Some(DONE_MESSAGE))], Query(index, typ);
            && ValidDump(ds) && SlotsQuiet(mem, ds)
            && DumpMatch(ds, q) == Some(Le32(if typ == 0 then a else b))
            && DumpPlace(ds, q).Some? && Answer(ds, q) == if typ == 0 then a else b
  {
    hide EncodeMsg, U32, Le32, ItemMsg, ValidItem, Match, Place, ValidItems, DatagramBytes, EncodeItems, ThreeAddresses,
      DumpBytes, SlotsQuiet, Holds, Later, LastPayload, AttrPlace, ItemMatch, ItemPlace;
    var it := ThreeAddresses(index, a, l, b);
    var ds, q := [Datagram([it], Some(DONE_MESSAGE))], Query(index, typ);
    DoneSized();
    ThreePlaces(index, a, l, b, typ);
    SingleItem(it, Some(DONE_MESSAGE), q);
    SlotsQuietStep(mem, ds);
    DumpStep(ds, q);
    var v := if typ == 0 then a else b;
    HoldsItself(Le32(v));
    LoadStore32(Le32(v), 0, v);
  }

  lemma ThreePlaces(index: u32, a: u32, l: u32, b: u32, typ: byte)
    ensures var it, q := ThreeAddresses(index, a, l, b), Query(index, typ);
            && ItemMatch(it, q) == Some(Le32(if typ == 0 then a else b))
            && ItemPlace(it, 0, q) == Some(if typ == 0 then 28 else 44)
  {
    hide U32, Le32, EncodeMsg, EncodeAttrs, LastPayload, AttrPlace;
    LastOfThree(Le32(a), Le32(l), Le32(b), 24, if typ == 0 then 1 else 4);
    var ifa := [2, 24, 0, 0] + Le32(index);
    assert Holds(ifa, 4, Le32(index));
    LoadStore32(ifa, 4, index);
    MatchKinds(ThreeAddresses(index, a, l, b), Query(index, typ));
  }

  /** The globals that the rest of the library compares packets with. */
  datatype Own = Own(local: Option<u32>, broadcast: Option<u32>)

  /** `InitializeIF` on an open, idle socket, for any two dumps with quiet slots: the node's address is looked up with
      type 0 and the broadcast address with type 1. The result is None when it turns on a word that the model does not
      know. */
  method InitializeIF(g: Globals, ghost ds: seq<Datagram>, ghost ds2: seq<Datagram>,
                      env: KernelPeer.Env, env2: KernelPeer.Env, buf: array<byte>, buf2: array<byte>)
    returns (own: Own, r: Option<int>)
    requires buf.Length == STACK_BUF == buf2.Length && buf != buf2 && Older(g) && g.kernel.replies == []
    requires ValidDump(ds) && env.dump == DumpBytes(ds) && SlotsQuiet(buf[..], ds)
    requires ValidDump(ds2) && env2.dump == DumpBytes(ds2) && SlotsQuiet(buf2[..], ds2)
    requires Word4(DumpMatch(ds, Query(g.interfaceIndex, 0))) && Word4(DumpMatch(ds2, Query(g.interfaceIndex, 1)))
    modifies g, buf, buf2
    ensures g.kernel == old(g.kernel) && g.interfaceIndex == old(g.interfaceIndex)
    ensures g.fErr == if g.interfaceIndex == 0 && (DumpNamesInterface(ds) || DumpNamesInterface(ds2)) then -1
                      else old(g.fErr)
    ensures var q := Query(g.interfaceIndex, 0);
            g.fErr == 0 && DumpMatch(ds, q).Some? ==> DumpPlace(ds, q).Some? && own.local == Some(Answer(ds, q))
    ensures var q := Query(g.interfaceIndex, 1);
            g.fErr == 0 && DumpMatch(ds2, q).Some? ==> DumpPlace(ds2, q).Some? && own.broadcast == Some(Answer(ds2, q))
    ensures g.fErr != 0 ==> r == Some(-1)
    ensures g.fErr == 0 && own.local.Some? && own.broadcast.Some? ==>
              r == Some(if own.local.value != 0 && own.broadcast.value != 0 then 0 else -1)
    ensures g.fErr == 0 && (own.local.None? || own.broadcast.None?) ==> r == None
  {
    hide DumpBytes, DumpMatch, DumpPlace, SlotsQuiet, Answer, ValidDump, DumpNamesInterface;
    var local := LookUp(g, None, 0, ds, env, buf);
    var broadcast := LookUp(g, None, 1, ds2, env2, buf2);
    own := Own(local, broadcast);
    r := if g.fErr != 0 then Some(-1)
         else if local.None? || broadcast.None? then None
         else if local.value == 0 || broadcast.value == 0 then Some(-1)
         else Some(0);
  }
}
