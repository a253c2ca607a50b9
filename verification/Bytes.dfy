/** Memory as bytes, and the little-endian words that the C structures lay out in it. */
module Bytes {

  type byte = x: int | 0 <= x < 0x100
  type u16 = x: int | 0 <= x < 0x1_0000
  type u32 = x: int | 0 <= x < 0x1_0000_0000

  const U32_MOD := 0x1_0000_0000
  /** The number of values of a size_t. */
  const SIZE_MOD := 0x1_0000_0000_0000_0000
  /** -1 converted to uint32_t. */
  const MINUS_ONE: u32 := U32_MOD - 1

  datatype Option<+T> = None | Some(value: T)

  function Le16(v: u16): (s: seq<byte>)
    ensures |s| == 2
  {
    [v % 0x100, v / 0x100]
  }

  function Le32(v: u32): (s: seq<byte>)
    ensures |s| == 4
  {
    [v % 0x100, v / 0x100 % 0x100, v / 0x1_0000 % 0x100, v / 0x100_0000]
  }

  function U16(m: seq<byte>, i: nat): (v: u16)
    requires i + 2 <= |m|
  {
    var lo: int, hi: int := m[i], m[i + 1];
    lo + 0x100 * hi
  }

  function U32(m: seq<byte>, i: nat): (v: u32)
    requires i + 4 <= |m|
  {
    var b0: int, b1: int, b2: int, b3: int := m[i], m[i + 1], m[i + 2], m[i + 3];
    b0 + 0x100 * b1 + 0x1_0000 * b2 + 0x100_0000 * b3
  }

  function Zeros(n: nat): (s: seq<byte>)
    ensures |s| == n
    ensures forall k :: 0 <= k < n ==> s[k] == 0
  {
    if n == 0 then [] else [0] + Zeros(n - 1)
  }

  /** Memory `m` holds the bytes `s` from address `i` on. */
  predicate Holds(m: seq<byte>, i: nat, s: seq<byte>) {
    i + |s| <= |m| && forall k :: 0 <= k < |s| ==> m[i + k] == s[k]
  }

  lemma HoldsSplit(m: seq<byte>, i: nat, a: seq<byte>, b: seq<byte>)
    requires Holds(m, i, a + b)
    ensures Holds(m, i, a)
    ensures Holds(m, i + |a|, b)
  {
    forall k | 0 <= k < |a|
      ensures m[i + k] == a[k]
    {
      assert (a + b)[k] == a[k];
    }
    forall k | 0 <= k < |b|
      ensures m[i + |a| + k] == b[k]
    {
      assert (a + b)[|a| + k] == b[k];
    }
  }

  lemma HoldsJoin(m: seq<byte>, i: nat, a: seq<byte>, b: seq<byte>)
    requires Holds(m, i, a)
    requires Holds(m, i + |a|, b)
    ensures Holds(m, i, a + b)
  {
    forall k | 0 <= k < |a + b|
      ensures m[i + k] == (a + b)[k]
    {
      if |a| <= k {
        assert m[i + |a| + (k - |a|)] == b[k - |a|];
      }
    }
  }

  lemma HoldsAt(m: seq<byte>, i: nat, s: seq<byte>, k: nat)
    requires Holds(m, i, s)
    requires k < |s|
    ensures i + |s| <= |m| && m[i + k] == s[k]
  {
  }

  lemma HoldsInside(m: seq<byte>, i: nat, s: seq<byte>)
    requires Holds(m, i, s)
    ensures i + |s| <= |m|
  {
  }

  lemma HoldsItself(s: seq<byte>)
    ensures Holds(s, 0, s)
  {
  }

  lemma HoldsSlice(m: seq<byte>, i: nat, s: seq<byte>)
    requires Holds(m, i, s)
    ensures m[i..i + |s|] == s
  {
  }

  /** Reading a stored half-word gives back the stored value, wherever it lies. */
  lemma LoadStore16(m: seq<byte>, i: nat, v: u16)
    requires Holds(m, i, Le16(v))
    ensures U16(m, i) == v
  {
    assert m[i + 0] == Le16(v)[0] && m[i + 1] == Le16(v)[1];
  }

  lemma Digits(v: int)
    ensures v == v % 0x100 + 0x100 * (v / 0x100 % 0x100) + 0x1_0000 * (v / 0x1_0000 % 0x100)
                 + 0x100_0000 * (v / 0x100_0000)
  {
    var a, b := v / 0x100, v / 0x1_0000;
    assert a / 0x100 == b && b / 0x100 == v / 0x100_0000;
    assert v == v % 0x100 + 0x100 * a && a == a % 0x100 + 0x100 * b;
    assert b == b % 0x100 + 0x100 * (b / 0x100);
  }

  /** Reading a stored word gives back the stored value, wherever it lies. */
  lemma LoadStore32(m: seq<byte>, i: nat, v: u32)
    requires Holds(m, i, Le32(v))
    ensures U32(m, i) == v
  {
    Digits(v);
    assert m[i + 0] == Le32(v)[0] && m[i + 1] == Le32(v)[1];
    assert m[i + 2] == Le32(v)[2] && m[i + 3] == Le32(v)[3];
  }

  /** Storing a loaded word gives back the bytes it was loaded from. */
  lemma StoreLoad32(m: seq<byte>, i: nat)
    requires i + 4 <= |m|
    ensures Le32(U32(m, i)) == m[i..i + 4]
  {
    var b1: int, b2: int, b3: int := m[i + 1], m[i + 2], m[i + 3];
    var v: int := U32(m, i);
    assert v / 0x100 == b1 + 0x100 * b2 + 0x1_0000 * b3;
    assert v / 0x1_0000 == b2 + 0x100 * b3;
    assert v / 0x100_0000 == b3;
  }

  /** `m` holds the first `n` bytes of `s` from address `i` on. */
  predicate HoldsPart(m: seq<byte>, i: nat, s: seq<byte>, n: nat) {
    i + n <= |m| && n <= |s| && forall k :: 0 <= k < n ==> m[i + k] == s[k]
  }

  /** What a word reads depends only on its own bytes. */
  lemma SameWord(m: seq<byte>, i: nat, s: seq<byte>, n: nat, o: nat)
    requires HoldsPart(m, i, s, n)
    ensures o + 2 <= n ==> U16(m, i + o) == U16(s, o)
    ensures o + 4 <= n ==> U32(m, i + o) == U32(s, o)
  {
    if o + 2 <= n {
      assert m[i + o] == s[o] && m[i + (o + 1)] == s[o + 1];
    }
    if o + 4 <= n {
      assert m[i + (o + 2)] == s[o + 2] && m[i + (o + 3)] == s[o + 3];
    }
  }
}
