/** The loop macros with an unsigned remaining length: when does `len -= ALIGN(...)` wrap around?

    `for_each_rattr` and `for_each_nlmsg` keep the remaining length in a size_t. Both are walks over records
    that start with their own length, which differ in the width of that field and in the header size. */
module Counters {
  import opened Bytes
  import opened Netlink

  datatype Kind = AttrRecord | MsgRecord

  function HeaderLen(kind: Kind): nat {
    if kind.AttrRecord? then RTATTR_LEN else NLMSG_HDRLEN
  }

  function LenAt(kind: Kind, m: seq<byte>, i: nat): nat
    requires i + HeaderLen(kind) <= |m|
  {
    if kind.AttrRecord? then AttrLen(m, i) else MsgLen(m, i)
  }

  /** The remaining length as the OK macro sees it: `for_each_nlmsg` casts it to 32 bits. */
  function Seen(kind: Kind, n: nat): nat {
    if kind.AttrRecord? then n else n % U32_MOD
  }

  /** The records visited, whether the counter ever wrapped, and whether the walk ran out of memory. */
  datatype Walk = Walk(visited: seq<nat>, wrapped: bool, escaped: bool)

  /** Subtraction in an unsigned type with `w` values. */
  function Minus(n: nat, step: nat, w: nat): (r: nat)
    requires n < w && step <= w
    ensures r < w && (r == n - step || r == n - step + w)
  {
    if step <= n then n - step else n - step + w
  }

  /** The walk with a counter of type size_t, `w` being the number of its values. */
  function UnsignedWalk(kind: Kind, m: seq<byte>, i: nat, n: nat, w: nat): Walk
    requires n < w && U32_MOD <= w && w % 4 == 0
    decreases |m| - i
  {
    if Seen(kind, n) < HeaderLen(kind) then Walk([], false, false)
    else if |m| < i + HeaderLen(kind) then Walk([], false, true)
    else
      var len := LenAt(kind, m, i);
      if len < HeaderLen(kind) || Seen(kind, n) < len then Walk([], false, false) else
        var step := Align(len);
        var rest := UnsignedWalk(kind, m, i + step, Minus(n, step, w), w);
        Walk([i] + rest.visited, n < step || rest.wrapped, rest.escaped)
  }

  /** A counter that has wrapped around by up to 3 bytes lets records of nearly any length pass: up to 2^32 - 1 bytes
      less the missing ones for messages, whose counter is cast to 32 bits, and up to 2^64 - 1 less those for
      attributes. */
  lemma WrappedCounter(n: nat, step: nat)
    requires n < step <= n + 3 && step < U32_MOD
    ensures Seen(MsgRecord, Minus(n, step, SIZE_MOD)) == 0x1_0000_0000 - (step - n)
    ensures Seen(AttrRecord, Minus(n, step, SIZE_MOD)) == 0x1_0000_0000_0000_0000 - (step - n)
  {
    var r := Minus(n, step, SIZE_MOD);
    assert r == 0xFFFF_FFFF * U32_MOD + (U32_MOD - (step - n));
  }

  /** The walk over mathematical integers. */
  function IntegerWalk(kind: Kind, m: seq<byte>, i: nat, n: int): (r: seq<nat>)
    requires 0 <= n ==> i + n <= |m|
    ensures forall k :: 0 <= k < |r| ==> i <= r[k] && r[k] + HeaderLen(kind) <= i + n
    decreases n
  {
    if n < HeaderLen(kind) then [] else
      var len := LenAt(kind, m, i);
      if len < HeaderLen(kind) || n < len then [] else
        [i] + IntegerWalk(kind, m, i + Align(len), n - Align(len))
  }

  /** The last record that the integer walk visits is padded past the end of the region. */
  predicate Overhangs(kind: Kind, m: seq<byte>, i: nat, n: nat)
    requires i + n <= |m|
  {
    var r := IntegerWalk(kind, m, i, n);
    r != [] && i + n < r[|r| - 1] + Align(LenAt(kind, m, r[|r| - 1]))
  }

  /** On a region of aligned length the counter never wraps, whatever the bytes are, and the walk visits
      exactly what the walk over integers visits. */
  lemma {:induction false} AlignedNeverWraps(kind: Kind, m: seq<byte>, i: nat, n: nat, w: nat)
    requires n % 4 == 0 && i + n <= |m|
    requires n < U32_MOD <= w && w % 4 == 0
    ensures UnsignedWalk(kind, m, i, n, w) == Walk(IntegerWalk(kind, m, i, n), false, false)
    decreases n
  {
    hide LenAt, Align, UnsignedWalk, IntegerWalk;
    UnsignedStep(kind, m, i, n, w);
    IntegerStep(kind, m, i, n);
    if HeaderLen(kind) <= n {
      var len := LenAt(kind, m, i);
      if HeaderLen(kind) <= len <= n {
        AlignedNeverWraps(kind, m, i + Align(len), n - Align(len), w);
      }
    }
  }

  lemma UnsignedStep(kind: Kind, m: seq<byte>, i: nat, n: nat, w: nat)
    requires i + n <= |m|
    requires n < U32_MOD <= w && w % 4 == 0
    ensures n < HeaderLen(kind) ==> UnsignedWalk(kind, m, i, n, w) == Walk([], false, false)
    ensures HeaderLen(kind) <= n && !(HeaderLen(kind) <= LenAt(kind, m, i) <= n) ==>
              UnsignedWalk(kind, m, i, n, w) == Walk([], false, false)
    ensures HeaderLen(kind) <= n && HeaderLen(kind) <= LenAt(kind, m, i) <= n ==>
              var step := Align(LenAt(kind, m, i));
              var rest := UnsignedWalk(kind, m, i + step, Minus(n, step, w), w);
              UnsignedWalk(kind, m, i, n, w) == Walk([i] + rest.visited, n < step || rest.wrapped, rest.escaped)
  {
    hide U16, U32;
  }

  lemma IntegerStep(kind: Kind, m: seq<byte>, i: nat, n: nat)
    requires i + n <= |m|
    ensures n < HeaderLen(kind) ==> IntegerWalk(kind, m, i, n) == []
    ensures HeaderLen(kind) <= n && !(HeaderLen(kind) <= LenAt(kind, m, i) <= n) ==> IntegerWalk(kind, m, i, n) == []
    ensures HeaderLen(kind) <= n && HeaderLen(kind) <= LenAt(kind, m, i) <= n ==>
              var step := Align(LenAt(kind, m, i));
              IntegerWalk(kind, m, i, n) == [i] + IntegerWalk(kind, m, i + step, n - step)
              && (n < step ==> IntegerWalk(kind, m, i + step, n - step) == [])
  {
    hide U16, U32;
  }

  lemma OverhangNothing(kind: Kind, m: seq<byte>, i: nat, n: nat)
    requires i + n <= |m|
    requires IntegerWalk(kind, m, i, n) == []
    ensures !Overhangs(kind, m, i, n)
  {
  }

  lemma OverhangStep(kind: Kind, m: seq<byte>, i: nat, n: nat)
    requires i + n <= |m|
    requires HeaderLen(kind) <= n && HeaderLen(kind) <= LenAt(kind, m, i) <= n
    ensures var step := Align(LenAt(kind, m, i));
            Overhangs(kind, m, i, n) <==> (n < step || Overhangs(kind, m, i + step, n - step))
  {
    hide LenAt, Align, IntegerWalk;
    IntegerStep(kind, m, i, n);
    var step := Align(LenAt(kind, m, i));
    var rest := IntegerWalk(kind, m, i + step, n - step);
    assert IntegerWalk(kind, m, i, n) == [i] + rest;
    if rest != [] {
      assert ([i] + rest)[|rest|] == rest[|rest| - 1];
    }
  }

  /** On any region: the counter wraps iff the last record overhangs, and until then both walks agree. */
  lemma {:induction false} WrapsIffOverhang(kind: Kind, m: seq<byte>, i: nat, n: nat, w: nat)
    requires i + n <= |m|
    requires n < U32_MOD <= w && w % 4 == 0
    ensures UnsignedWalk(kind, m, i, n, w).wrapped <==> Overhangs(kind, m, i, n)
    ensures IntegerWalk(kind, m, i, n) <= UnsignedWalk(kind, m, i, n, w).visited
    ensures !Overhangs(kind, m, i, n) ==>
              UnsignedWalk(kind, m, i, n, w) == Walk(IntegerWalk(kind, m, i, n), false, false)
    decreases n
  {
    hide LenAt, Align, Minus, Overhangs, UnsignedWalk, IntegerWalk;
    UnsignedStep(kind, m, i, n, w);
    IntegerStep(kind, m, i, n);
    if IntegerWalk(kind, m, i, n) == [] {
      OverhangNothing(kind, m, i, n);
    }
    if HeaderLen(kind) <= n {
      var len := LenAt(kind, m, i);
      if HeaderLen(kind) <= len <= n {
        var step := Align(len);
        OverhangStep(kind, m, i, n);
        if step <= n {
          WrapsIffOverhang(kind, m, i + step, n - step, w);
        }
      }
    }
  }

  /** A record of `len` bytes, filled with zeros. */
  function Record(kind: Kind, len: nat): (s: seq<byte>)
    requires HeaderLen(kind) <= len < 0x1_0000
    ensures |s| == len
  {
    (if kind.AttrRecord? then Le16(len) else Le32(len)) + Zeros(len - if kind.AttrRecord? then 2 else 4)
  }

  /** Bytes on which the counter wraps: empty records, then one that ends off a multiple of 4. */
  function Offender(kind: Kind, n: nat): (s: seq<byte>)
    requires HeaderLen(kind) <= n && n % 4 != 0
    ensures |s| == n
    decreases n
  {
    var h := HeaderLen(kind);
    if 2 * h <= n then Record(kind, h) + Offender(kind, n - h) else Record(kind, n)
  }

  lemma RecordLen(kind: Kind, m: seq<byte>, i: nat, len: nat)
    requires HeaderLen(kind) <= len < 0x1_0000
    requires Holds(m, i, Record(kind, len))
    ensures i + HeaderLen(kind) <= |m| && LenAt(kind, m, i) == len
  {
    if kind.AttrRecord? {
      HoldsSplit(m, i, Le16(len), Zeros(len - 2));
      LoadStore16(m, i, len);
    } else {
      HoldsSplit(m, i, Le32(len), Zeros(len - 4));
      LoadStore32(m, i, len);
    }
  }

  lemma {:induction false} OffenderOverhangs(kind: Kind, m: seq<byte>, i: nat, n: nat)
    requires HeaderLen(kind) <= n && n % 4 != 0
    requires Holds(m, i, Offender(kind, n))
    ensures i + n <= |m| && Overhangs(kind, m, i, n)
    decreases n
  {
    hide LenAt, Holds, Record, Overhangs;
    HoldsInside(m, i, Offender(kind, n));
    var h := HeaderLen(kind);
    if 2 * h <= n {
      HoldsSplit(m, i, Record(kind, h), Offender(kind, n - h));
      RecordLen(kind, m, i, h);
      OffenderOverhangs(kind, m, i + h, n - h);
      OverhangStep(kind, m, i, n);
    } else {
      RecordLen(kind, m, i, n);
      OverhangStep(kind, m, i, n);
    }
  }

  /** The lengths for which no contents make the counter wrap are exactly the multiples of 4
      and those that do not even hold a header. */
  lemma WrapFreeLengths(kind: Kind, n: nat, w: nat)
    requires n < U32_MOD <= w && w % 4 == 0
    ensures (forall m: seq<byte> :: n <= |m| ==> !UnsignedWalk(kind, m, 0, n, w).wrapped)
            <==> (n % 4 == 0 || n < HeaderLen(kind))
  {
    if n % 4 == 0 {
      forall m: seq<byte> | n <= |m|
        ensures !UnsignedWalk(kind, m, 0, n, w).wrapped
      {
        AlignedNeverWraps(kind, m, 0, n, w);
      }
    } else if HeaderLen(kind) <= n {
      var m := Offender(kind, n);
      OffenderOverhangs(kind, m, 0, n);
      WrapsIffOverhang(kind, m, 0, n, w);
    }
  }
}
