/** The message and attribute layout of netlink, and the walks that its macros make over memory.

    Layouts follow section 2.3.2 of RFC 3549 (message header), section 2.3.2.2 (ACK message)
    and section 3.1.1 (network route service); pointers are indices into memory. */
module Netlink {
  import opened Bytes

  const BUFLEN := 4096
  /** Bytes of the caller's stack behind a receive buffer that the readers may look at. */
  const SLACK := 16

  const NLMSG_HDRLEN := 16
  const RTMSG_LEN := 12
  const IFADDRMSG_LEN := 8
  const RTATTR_LEN := 4

  const NLMSG_ERROR: u16 := 2
  const NLMSG_DONE: u16 := 3
  const RTM_NEWADDR: u16 := 20
  const RTM_GETADDR: u16 := 22
  const RTM_NEWROUTE: u16 := 24
  const RTM_DELROUTE: u16 := 25

  const RTA_DST: u16 := 1
  const RTA_OIF: u16 := 4
  const RTA_GATEWAY: u16 := 5
  const RTA_TABLE: u16 := 15
  const IFA_ADDRESS: u16 := 1
  const IFA_LOCAL: u16 := 2
  const IFA_BROADCAST: u16 := 4

  const AF_INET := 2
  const RT_TABLE_MAIN := 254

  /** NLMSG_ALIGN and RTA_ALIGN: round up to a multiple of 4. */
  function Align(n: nat): (r: nat)
    ensures r % 4 == 0
    ensures n <= r < n + 4
  {
    (n + 3) / 4 * 4
  }

  lemma AlignedSum(a: nat, b: nat)
    requires a % 4 == 0 && b % 4 == 0
    ensures (a + b) % 4 == 0
  {
  }

  lemma AlignExact(n: nat)
    requires n % 4 == 0
    ensures Align(n) == n
  {
  }

  function MsgLen(m: seq<byte>, i: nat): u32
    requires i + NLMSG_HDRLEN <= |m|
  {
    U32(m, i)
  }

  function MsgType(m: seq<byte>, i: nat): u16
    requires i + 6 <= |m|
  {
    U16(m, i + 4)
  }

  function AttrLen(m: seq<byte>, i: nat): u16
    requires i + RTATTR_LEN <= |m|
  {
    U16(m, i)
  }

  function AttrType(m: seq<byte>, i: nat): u16
    requires i + RTATTR_LEN <= |m|
  {
    U16(m, i + 2)
  }

  /** NLMSG_OK for a signed remaining length. */
  predicate NlmsgOk(m: seq<byte>, i: nat, n: int)
    requires 0 <= n ==> i + n <= |m|
  {
    n >= NLMSG_HDRLEN && NLMSG_HDRLEN <= MsgLen(m, i) <= n
  }

  /** RTA_OK for a signed remaining length. */
  predicate RtaOk(m: seq<byte>, i: nat, n: int)
    requires 0 <= n ==> i + n <= |m|
  {
    n >= RTATTR_LEN && RTATTR_LEN <= AttrLen(m, i) <= n
  }

  /** Address of the last attribute of type `t` in the walk. */
  function LastAttr(m: seq<byte>, i: nat, n: int, t: u16): (r: Option<nat>)
    requires 0 <= n ==> i + n <= |m|
    ensures r.Some? ==> i <= r.value && r.value + RTATTR_LEN <= i + n
    ensures r.Some? ==> AttrType(m, r.value) == t
    ensures r.Some? ==> RTATTR_LEN <= AttrLen(m, r.value) <= i + n - r.value
    decreases n
  {
    if !RtaOk(m, i, n) then None else
      var step := Align(AttrLen(m, i));
      var rest := LastAttr(m, i + step, n - step, t);
      if rest.Some? then rest else if AttrType(m, i) == t then Some(i) else None
  }

  function OrElse(a: Option<nat>, b: Option<nat>): Option<nat> {
    if a.Some? then a else b
  }

  lemma LastAttrStep(m: seq<byte>, i: nat, n: int)
    requires 0 <= n ==> i + n <= |m|
    ensures !RtaOk(m, i, n) ==> forall t :: LastAttr(m, i, n, t) == None
    ensures RtaOk(m, i, n) ==>
              var step := Align(AttrLen(m, i));
              forall t :: LastAttr(m, i, n, t) ==
                OrElse(LastAttr(m, i + step, n - step, t), if AttrType(m, i) == t then Some(i) else None)
  {
  }
}
