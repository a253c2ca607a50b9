/** src/api.c and head/api.h: the state that the API files share, and receiving into a stack buffer. */
module Shared {
  import opened Bytes
  import opened Netlink
  import opened RouteRequest
  import opened KernelPeer

  /** A receive buffer is BUFLEN bytes of the caller's stack; the SLACK bytes behind it are modelled too,
      because the readers may look at them. Nothing is known of the initial contents. */
  const STACK_BUF := BUFLEN + SLACK

  /** How much of a datagram recvmsg delivers. */
  function Delivered(d: seq<byte>): (s: seq<byte>)
    ensures |s| <= BUFLEN
  {
    if |d| <= BUFLEN then d else d[..BUFLEN]
  }

  /** The buffer after a datagram has been received on top of old contents. */
  function Overlay(mem: seq<byte>, d: seq<byte>): (r: seq<byte>)
    requires |mem| == STACK_BUF
    ensures |r| == STACK_BUF
    ensures Holds(r, 0, Delivered(d))
  {
    Delivered(d) + mem[|Delivered(d)|..]
  }

  /** A place in the receive buffer of one call of GetInterfaceIP. */
  datatype Pointer = Pointer(frame: nat, offset: nat)

  class Globals {
    /** The netlink socket `fd`, seen together with its peer. */
    var kernel: Kernel
    var fErr: int
    /** None is the null pointer. */
    var addr: Option<Pointer>
    /** Number of calls of GetInterfaceIP so far: each has its buffer in a stack frame of its own. */
    var frames: nat
    /** if_nametoindex of `interface_name`; 0 when there is no such interface. */
    var interfaceIndex: u32

    method Check(val: int)
      modifies this`fErr
      ensures fErr == if val < 0 then 1 else old(fErr)
    {
      if val < 0 {
        fErr := 1;
      }
    }

    /** sendmsg; when it fails the kernel has got nothing. */
    method SendMsg(req: seq<byte>, env: Env, fails: bool) returns (r: int)
      requires NLMSG_HDRLEN <= |req| <= REQUEST_SIZE
      modifies this`kernel
      ensures r == if fails then -1 else 0
      ensures kernel == if fails then old(kernel) else Deliver(old(kernel), req, env)
    {
      if fails {
        return -1;
      }
      kernel := Deliver(kernel, req, env);
      r := 0;
    }

    /** `get_msg`: recvmsg blocks while nothing is queued, so when it goes on a datagram is there or it fails. */
    method GetMsg(buf: array<byte>, fails: bool) returns (len: int)
      requires buf.Length == STACK_BUF
      requires fails || kernel.replies != []
      modifies this`kernel, buf
      ensures fails ==> len == -1 && buf[..] == old(buf[..]) && kernel == old(kernel)
      ensures !fails ==>
                && len == |Delivered(old(kernel.replies[0]))|
                && buf[..] == Overlay(old(buf[..]), old(kernel.replies[0]))
                && len == (if |old(kernel.replies[0])| <= 4096 then |old(kernel.replies[0])| else 4096)
                && (forall k :: 0 <= k < len ==> buf[k] == old(kernel.replies[0])[k])
                && (forall k :: len <= k < buf.Length ==> buf[k] == old(buf[k]))
                && kernel == old(kernel).(replies := old(kernel.replies)[1..])
    {
      if fails {
        return -1;
      }
      var d := Delivered(kernel.replies[0]);
      forall k | 0 <= k < |d| {
        buf[k] := d[k];
      }
      len := |d|;
      kernel := kernel.(replies := kernel.replies[1..]);
      assert buf[..] == Overlay(old(buf[..]), old(kernel.replies[0]));
    }
  }
}
