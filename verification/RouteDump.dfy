/** Examples/blog_code_rt.c: collecting a route dump into one buffer and reading its routes. */
module RouteDump {
  import opened Bytes
  import opened Netlink

  const REPLY_SIZE := 8192

  /** What `read_reply` prints for one message; None stands for an empty string. */
  datatype Route = Route(dst: Option<u32>, dstLen: byte, gateway: Option<u32>, oif: Option<u32>)

  /** The word in the payload of the attribute at `p`. */
  function Word(m: seq<byte>, p: Option<nat>): Option<u32>
    requires p.Some? ==> p.value + RTATTR_LEN + 4 <= |m|
  {
    if p.None? then None else Some(U32(m, p.value + RTATTR_LEN))
  }

  /** The word of the last attribute of type `t` among those of the route message at `i`. */
  function LastWord(m: seq<byte>, i: nat, t: u16): Option<u32>
    requires i + NLMSG_HDRLEN <= |m|
    requires i + MsgLen(m, i) + SLACK <= |m|
  {
    Word(m, LastAttr(m, i + NLMSG_HDRLEN + RTMSG_LEN, MsgLen(m, i) - NLMSG_HDRLEN - RTMSG_LEN, t))
  }

  function RouteAt(m: seq<byte>, i: nat): Route
    requires i + NLMSG_HDRLEN + RTMSG_LEN <= |m|
    requires i + MsgLen(m, i) + SLACK <= |m|
  {
    Route(LastWord(m, i, RTA_DST), m[i + 17], LastWord(m, i, RTA_GATEWAY), LastWord(m, i, RTA_OIF))
  }

  /** The routes of the main table in the messages of one walk. */
  function Routes(m: seq<byte>, i: nat, n: int): (r: seq<Route>)
    requires 0 <= n ==> i + n + SLACK <= |m|
    decreases n
  {
    if !NlmsgOk(m, i, n) then [] else
      var step := Align(MsgLen(m, i));
      (if m[i + 20] == RT_TABLE_MAIN then [RouteAt(m, i)] else []) + Routes(m, i + step, n - step)
  }

  function Concat(ds: seq<seq<byte>>): (s: seq<byte>) {
    if ds == [] then [] else Concat(ds[..|ds| - 1]) + ds[|ds| - 1]
  }

  /** The type field at the start of a datagram. */
  function FirstType(d: seq<byte>): u16
    requires NLMSG_HDRLEN <= |d|
  {
    MsgType(d, 0)
  }

  /** Netlink never delivers less than a header. */
  predicate Framed(ds: seq<seq<byte>>) {
    forall k :: 0 <= k < |ds| ==> NLMSG_HDRLEN <= |ds[k]|
  }

  predicate Stops(d: seq<byte>)
    requires NLMSG_HDRLEN <= |d|
  {
    FirstType(d) == NLMSG_DONE || FirstType(d) == NLMSG_ERROR
  }

  /** The index of the first datagram that starts with DONE or ERROR. */
  function FirstStop(ds: seq<seq<byte>>): (k: nat)
    requires Framed(ds)
    ensures k <= |ds|
    ensures forall j :: 0 <= j < k ==> !Stops(ds[j])
    ensures k < |ds| ==> Stops(ds[k])
  {
    if ds == [] || Stops(ds[0]) then 0 else 1 + FirstStop(ds[1..])
  }

  /** DONE has been received, or ERROR (and the program exits), or the loop waits for more for ever. */
  datatype Reception = Done | Failed | Blocked

  class Reader {
    /** REPLY_SIZE bytes, and the memory behind them. */
    const buf: array<byte>
    var nll: int

    constructor ()
      ensures fresh(buf) && buf.Length == REPLY_SIZE + SLACK && nll == 0
    {
      buf := new byte[REPLY_SIZE + SLACK];
      nll := 0;
    }

    /** recv at address `p`: copies as much of the datagram as there is room for. */
    method Recv(p: nat, room: nat, d: seq<byte>) returns (rtn: nat)
      requires p + room <= buf.Length
      modifies buf
      ensures rtn == if |d| <= room then |d| else room
      ensures HoldsPart(buf[..], p, d, rtn)
      ensures forall k :: 0 <= k < buf.Length && !(p <= k < p + rtn) ==> buf[k] == old(buf[k])
    {
      rtn := if |d| <= room then |d| else room;
      forall k | 0 <= k < rtn {
        buf[p + k] := d[k];
      }
    }

    /** `recv_reply`: datagrams pile up in `buf` until one starts with DONE or ERROR; `ds` are all that ever come. They
        have to leave room for the type field of that one. */
    method RecvReply(ds: seq<seq<byte>>) returns (r: Reception, consumed: nat)
      requires buf.Length == REPLY_SIZE + SLACK
      requires Framed(ds)
      requires |Concat(ds[..FirstStop(ds)])| + (if FirstStop(ds) < |ds| then 6 else 0) <= REPLY_SIZE
      modifies this, buf
      ensures var stop := FirstStop(ds);
              && consumed == (if stop < |ds| then stop + 1 else stop)
              && r == (if stop == |ds| then Blocked
                       else if FirstType(ds[stop]) == NLMSG_DONE then Done else Failed)
              && nll == |Concat(ds[..stop])| <= REPLY_SIZE
              && Holds(buf[..], 0, Concat(ds[..stop]))
    {
      hide FirstStop, Concat, U16;
      ghost var stop := FirstStop(ds);
      forall k | 0 <= k < REPLY_SIZE {
        buf[k] := 0;
      }
      ConcatNothing(ds);
      var p := 0;
      nll := 0;
      consumed := 0;
      while true
        invariant 0 <= consumed <= stop
        invariant p == nll == |Concat(ds[..consumed])|
        invariant Holds(buf[..], 0, Concat(ds[..consumed]))
        decreases stop - consumed
      {
        if consumed == |ds| {
          return Blocked, consumed;
        }
        RoomLeft(ds, consumed, stop);
        var rtn := Recv(p, REPLY_SIZE - nll, ds[consumed]);
        consumed := consumed + 1;
        assert Holds(buf[..], 0, Concat(ds[..consumed - 1]));
        SameType(buf[..], p, ds[consumed - 1], rtn);
        if MsgType(buf[..], p) == NLMSG_DONE {
          return Done, consumed;
        }
        if MsgType(buf[..], p) == NLMSG_ERROR {
          return Failed, consumed;
        }
        ConcatStep(ds, consumed - 1);
        HoldsJoin(buf[..], 0, Concat(ds[..consumed - 1]), ds[consumed - 1]);
        p := p + rtn;
        nll := nll + rtn;
      }
    }

    /** The inner loop of `read_reply`: each matching attribute overwrites what was read before. */
    method ReadAttrs(start: nat, length: int) returns (dst: Option<u32>, gateway: Option<u32>, oif: Option<u32>)
      requires 0 <= length ==> start + length + SLACK <= buf.Length
      ensures dst == Word(buf[..], LastAttr(buf[..], start, length, RTA_DST))
      ensures gateway == Word(buf[..], LastAttr(buf[..], start, length, RTA_GATEWAY))
      ensures oif == Word(buf[..], LastAttr(buf[..], start, length, RTA_OIF))
    {
      hide LastAttr, SoFar, U16, U32, Align;
      var m := buf[..];
      dst, gateway, oif := None, None, None;
      var rtap: nat := start;
      var rtl := length;
      SoFarStart(m, start, length);
      while RtaOk(m, rtap, rtl)
        invariant 0 <= rtl ==> rtap + rtl + SLACK <= |m|
        invariant SoFar(m, start, length, rtap, rtl, RTA_DST, dst)
        invariant SoFar(m, start, length, rtap, rtl, RTA_GATEWAY, gateway)
        invariant SoFar(m, start, length, rtap, rtl, RTA_OIF, oif)
        decreases rtl
      {
        SoFarStep(m, start, length, rtap, rtl, RTA_DST, dst);
        SoFarStep(m, start, length, rtap, rtl, RTA_GATEWAY, gateway);
        SoFarStep(m, start, length, rtap, rtl, RTA_OIF, oif);
        var typ := AttrType(m, rtap);
        if typ == RTA_DST {
          dst := Word(m, Some(rtap));
        } else if typ == RTA_GATEWAY {
          gateway := Word(m, Some(rtap));
        } else if typ == RTA_OIF {
          oif := Word(m, Some(rtap));
        }
        var step := Align(AttrLen(m, rtap));
        rtap, rtl := rtap + step, rtl - step;
      }
      SoFarEnd(m, start, length, rtap, rtl, RTA_DST, dst);
      SoFarEnd(m, start, length, rtap, rtl, RTA_GATEWAY, gateway);
      SoFarEnd(m, start, length, rtap, rtl, RTA_OIF, oif);
    }

    /** `read_reply`: the routes of the main table among the first `nll` bytes of the buffer. */
    method ReadReply() returns (routes: seq<Route>)
      requires 0 <= nll && nll + SLACK <= buf.Length
      modifies this
      ensures routes == Routes(buf[..], 0, old(nll))
    {
      hide Routes, LastAttr, U16, U32, Align;
      var m := buf[..];
      ghost var total := nll;
      routes := [];
      var nlp: nat := 0;
      while NlmsgOk(m, nlp, nll)
        invariant 0 <= nll ==> nlp + nll + SLACK <= |m|
        invariant Routes(m, 0, total) == routes + Routes(m, nlp, nll)
        decreases nll
      {
        RoutesStep(m, nlp, nll);
        var len := MsgLen(m, nlp);
        if m[nlp + 20] == RT_TABLE_MAIN {
          var dst, gateway, oif :=
            ReadAttrs(nlp + NLMSG_HDRLEN + RTMSG_LEN, len - NLMSG_HDRLEN - RTMSG_LEN);
          routes := routes + [Route(dst, m[nlp + 17], gateway, oif)];
        }
        nlp, nll := nlp + Align(len), nll - Align(len);
      }
      RoutesStep(m, nlp, nll);
    }
  }

  /** `w` is what the walk has read of type `t` when it stands at `i` with `n` bytes to go. */
  ghost predicate SoFar(m: seq<byte>, start: nat, length: int, i: nat, n: int, t: u16, w: Option<u32>)
    requires 0 <= length ==> start + length + SLACK <= |m|
    requires 0 <= n ==> i + n + SLACK <= |m|
  {
    var rest := LastAttr(m, i, n, t);
    Word(m, LastAttr(m, start, length, t)) == if rest.Some? then Word(m, rest) else w
  }

  lemma SoFarStart(m: seq<byte>, start: nat, length: int)
    requires 0 <= length ==> start + length + SLACK <= |m|
    ensures forall t :: SoFar(m, start, length, start, length, t, None)
  {
  }

  lemma SoFarEnd(m: seq<byte>, start: nat, length: int, i: nat, n: int, t: u16, w: Option<u32>)
    requires 0 <= length ==> start + length + SLACK <= |m|
    requires 0 <= n ==> i + n + SLACK <= |m|
    requires SoFar(m, start, length, i, n, t, w) && !RtaOk(m, i, n)
    ensures w == Word(m, LastAttr(m, start, length, t))
  {
  }

  lemma SoFarStep(m: seq<byte>, start: nat, length: int, i: nat, n: int, t: u16, w: Option<u32>)
    requires 0 <= length ==> start + length + SLACK <= |m|
    requires 0 <= n ==> i + n + SLACK <= |m|
    requires SoFar(m, start, length, i, n, t, w)
    requires RtaOk(m, i, n)
    ensures var step := Align(AttrLen(m, i));
            SoFar(m, start, length, i + step, n - step, t,
                  if AttrType(m, i) == t then Some(U32(m, i + RTATTR_LEN)) else w)
  {
  }

  lemma RoutesStep(m: seq<byte>, i: nat, n: int)
    requires 0 <= n ==> i + n + SLACK <= |m|
    ensures !NlmsgOk(m, i, n) ==> Routes(m, i, n) == []
    ensures NlmsgOk(m, i, n) ==>
              var step := Align(MsgLen(m, i));
              Routes(m, i, n) ==
              (if m[i + 20] == RT_TABLE_MAIN then [RouteAt(m, i)] else []) + Routes(m, i + step, n - step)
  {
  }

  lemma ConcatStep(ds: seq<seq<byte>>, k: nat)
    requires k < |ds|
    ensures Concat(ds[..k + 1]) == Concat(ds[..k]) + ds[k]
  {
    assert ds[..k + 1][..k] == ds[..k];
  }

  lemma ConcatNothing(ds: seq<seq<byte>>)
    ensures Concat(ds[..0]) == []
  {
  }

  lemma {:induction false} ConcatFits(ds: seq<seq<byte>>, k: nat, stop: nat)
    requires k <= stop <= |ds|
    ensures |Concat(ds[..k])| <= |Concat(ds[..stop])|
    ensures k < stop ==> |Concat(ds[..k])| + |ds[k]| <= |Concat(ds[..stop])|
    decreases stop
  {
    if k < stop {
      ConcatStep(ds, stop - 1);
      ConcatFits(ds, k, stop - 1);
    }
  }

  /** There is room for a datagram before the last one, and for the type field of the last one. */
  lemma RoomLeft(ds: seq<seq<byte>>, k: nat, stop: nat)
    requires k <= stop <= |ds| && k < |ds| && Framed(ds)
    requires |Concat(ds[..stop])| + (if stop < |ds| then 6 else 0) <= REPLY_SIZE
    ensures |Concat(ds[..k])| + 6 <= REPLY_SIZE
    ensures k < stop ==> |Concat(ds[..k])| + |ds[k]| <= REPLY_SIZE
  {
    hide Concat;
    ConcatFits(ds, k, stop);
  }

  lemma SameType(m: seq<byte>, i: nat, d: seq<byte>, n: nat)
    requires HoldsPart(m, i, d, n) && 6 <= n
    requires NLMSG_HDRLEN <= |d|
    ensures MsgType(m, i) == FirstType(d)
  {
    SameWord(m, i, d, n, 4);
  }
}
