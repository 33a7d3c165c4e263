// Byte strings: overwriting in place, concatenation, and fixed-width integers in both byte orders.
module Bytes {
  type Byte = b: int | 0 <= b < 256

  const U32: nat := 0x1_0000_0000

  // A uint32 after wrap-around.
  function Wrap32(x: nat): (r: nat)
    ensures r < U32 && (x < U32 ==> r == x)
  {
    if x < U32 then x else Wrap32(x - U32)
  }

  lemma {:induction false} WrapAdd(x: nat, n: nat)
    ensures Wrap32(Wrap32(x) + n) == Wrap32(x + n)
  {
    if x >= U32 {
      WrapAdd(x - U32, n);
      assert (x + n) - U32 == (x - U32) + n;
    }
  }

  function Zeros(n: nat): (z: seq<Byte>)
    ensures |z| == n && forall i :: 0 <= i < n ==> z[i] == 0
  {
    seq(n, _ => 0)
  }

  // `s` with `d` written over it from offset `off` on.
  function Put(s: seq<Byte>, off: nat, d: seq<Byte>): (r: seq<Byte>)
    requires off + |d| <= |s|
    ensures |r| == |s|
    ensures r[off..off + |d|] == d
  {
    s[..off] + d + s[off + |d|..]
  }

  lemma {:induction false} PutElsewhere(s: seq<Byte>, off: nat, d: seq<Byte>, lo: nat, hi: nat)
    requires off + |d| <= |s| && lo <= hi <= |s|
    requires hi <= off || off + |d| <= lo
    ensures Put(s, off, d)[lo..hi] == s[lo..hi]
  {
    forall i | lo <= i < hi ensures Put(s, off, d)[i] == s[i] {
    }
  }

  lemma {:induction false} PutTwice(s: seq<Byte>, off: nat, a: seq<Byte>, b: seq<Byte>)
    requires off + |a| + |b| <= |s|
    ensures Put(Put(s, off, a), off + |a|, b) == Put(s, off, a + b)
  {
  }

  // ----- layouts: fields at fixed offsets of a zeroed buffer

  datatype Field = Field(off: nat, bytes: seq<Byte>) {
    function End(): nat { off + |bytes| }
  }

  // Fields in ascending order, none overlapping the next, all inside `len` bytes.
  predicate Layout(fs: seq<Field>, len: nat) {
    && (forall k :: 0 <= k < |fs| ==> fs[k].End() <= len)
    && (forall k :: 0 < k < |fs| ==> fs[k - 1].End() <= fs[k].off)
  }

  function Lay(fs: seq<Field>, len: nat): (s: seq<Byte>)
    requires Layout(fs, len)
    ensures |s| == len
  {
    if fs == [] then Zeros(len) else
      var last := fs[|fs| - 1];
      Put(Lay(fs[..|fs| - 1], len), last.off, last.bytes)
  }

  lemma {:induction false} FieldsAscend(fs: seq<Field>, len: nat, i: nat, j: nat)
    requires Layout(fs, len) && i < j < |fs|
    ensures fs[i].End() <= fs[j].off
  {
    if i + 1 < j {
      FieldsAscend(fs, len, i, j - 1);
    }
  }

  // Every field of a layout reads back.
  lemma {:induction false} LaidField(fs: seq<Field>, len: nat, k: nat)
    requires Layout(fs, len) && k < |fs|
    ensures Lay(fs, len)[fs[k].off..fs[k].End()] == fs[k].bytes
  {
    var n := |fs| - 1;
    if k < n {
      LaidField(fs[..n], len, k);
      FieldsAscend(fs, len, k, n);
      PutElsewhere(Lay(fs[..n], len), fs[n].off, fs[n].bytes, fs[k].off, fs[k].End());
    }
  }

  // And what no field covers is zero.
  lemma {:induction false} LaidGap(fs: seq<Field>, len: nat, i: nat)
    requires Layout(fs, len) && i < len && forall k :: 0 <= k < |fs| ==> i < fs[k].off || fs[k].End() <= i
    ensures Lay(fs, len)[i] == 0
  {
    if fs != [] {
      LaidGap(fs[..|fs| - 1], len, i);
    }
  }

  // The contents of a zeroed buffer as the first fields of a layout are written, one at a time.
  ghost predicate Chain(fs: seq<Field>, len: nat, ss: seq<seq<Byte>>) {
    && Layout(fs, len) && 0 < |ss| <= |fs| + 1 && ss[0] == Zeros(len)
    && (forall k :: 0 <= k < |ss| ==> |ss[k]| == len)
    && (forall k :: 0 < k < |ss| ==> ss[k] == Put(ss[k - 1], fs[k - 1].off, fs[k - 1].bytes))
  }

  lemma {:induction false} ChainLays(fs: seq<Field>, len: nat, ss: seq<seq<Byte>>)
    requires Chain(fs, len, ss) && |ss| == |fs| + 1
    ensures ss[|fs|] == Lay(fs, len)
  {
    if fs != [] {
      ChainLays(fs[..|fs| - 1], len, ss[..|fs|]);
    }
  }

  // Concatenation.
  function Flat(parts: seq<seq<Byte>>): seq<Byte> {
    if parts == [] then [] else parts[0] + Flat(parts[1..])
  }

  lemma {:induction false} FlatConcat(a: seq<seq<Byte>>, b: seq<seq<Byte>>)
    ensures Flat(a + b) == Flat(a) + Flat(b)
  {
    if a == [] {
      assert a + b == b;
    } else {
      var h, t, fb := a[0], a[1..], Flat(b);
      assert (a + b)[1..] == t + b && (a + b)[0] == h;
      FlatConcat(t, b);
      assert h + (Flat(t) + fb) == (h + Flat(t)) + fb;
    }
  }

  lemma {:induction false} FlatAppend(a: seq<seq<Byte>>, p: seq<Byte>)
    ensures Flat(a + [p]) == Flat(a) + p
  {
    FlatConcat(a, [p]);
    assert [p][1..] == [];
  }

  // In a concatenation of equal-length blocks, block k starts at k times that length.
  lemma {:induction false} FlatBlock(parts: seq<seq<Byte>>, len: nat, k: nat)
    requires k < |parts| && forall i :: 0 <= i < |parts| ==> |parts[i]| == len
    ensures |Flat(parts)| == |parts| * len
    ensures k * len + len <= |Flat(parts)|
    ensures Flat(parts)[k * len..k * len + len] == parts[k]
  {
    FlatLength(parts, len);
    FlatLength(parts[..k], len);
    assert parts == parts[..k] + [parts[k]] + parts[k + 1..];
    FlatConcat(parts[..k] + [parts[k]], parts[k + 1..]);
    FlatAppend(parts[..k], parts[k]);
  }

  lemma {:induction false} FlatLength(parts: seq<seq<Byte>>, len: nat)
    requires forall i :: 0 <= i < |parts| ==> |parts[i]| == len
    ensures |Flat(parts)| == |parts| * len
  {
    if parts != [] {
      FlatLength(parts[1..], len);
    }
  }

  // ----- fixed-width integers

  function Le16(v: nat): (d: seq<Byte>)
    requires v < 0x1_0000
    ensures |d| == 2
  {
    [v % 256, v / 256]
  }

  function Be16(v: nat): (d: seq<Byte>)
    requires v < 0x1_0000
    ensures |d| == 2
  {
    [v / 256, v % 256]
  }

  function Le32(v: nat): (d: seq<Byte>)
    requires v < U32
    ensures |d| == 4
  {
    Le16(v % 0x1_0000) + Le16(v / 0x1_0000)
  }

  function Be32(v: nat): (d: seq<Byte>)
    requires v < U32
    ensures |d| == 4
  {
    Be16(v / 0x1_0000) + Be16(v % 0x1_0000)
  }

  // Section 7.2.3 and 7.3.3 of ECMA-119: the little-endian copy, then the big-endian copy.
  function Both16(v: nat): (d: seq<Byte>)
    requires v < 0x1_0000
    ensures |d| == 4
  {
    Le16(v) + Be16(v)
  }

  function Both32(v: nat): (d: seq<Byte>)
    requires v < U32
    ensures |d| == 8
  {
    Le32(v) + Be32(v)
  }

  function ReadLe16(s: seq<Byte>): nat
    requires |s| == 2
  {
    var lo: int, hi: int := s[0], s[1];
    lo + 256 * hi
  }

  function ReadBe16(s: seq<Byte>): nat
    requires |s| == 2
  {
    var hi: int, lo: int := s[0], s[1];
    256 * hi + lo
  }

  function ReadLe32(s: seq<Byte>): nat
    requires |s| == 4
  {
    ReadLe16(s[..2]) + 0x1_0000 * ReadLe16(s[2..])
  }

  function ReadBe32(s: seq<Byte>): nat
    requires |s| == 4
  {
    0x1_0000 * ReadBe16(s[..2]) + ReadBe16(s[2..])
  }

  lemma {:induction false} Read32(v: nat)
    requires v < U32
    ensures ReadLe32(Le32(v)) == v == ReadBe32(Be32(v))
  {
    assert Le32(v)[..2] == Le16(v % 0x1_0000) && Le32(v)[2..] == Le16(v / 0x1_0000);
    assert Be32(v)[..2] == Be16(v / 0x1_0000) && Be32(v)[2..] == Be16(v % 0x1_0000);
  }

  // A both-byte-order field, or -1 when its two copies differ.
  function ReadBoth16(s: seq<Byte>): int
    requires |s| == 4
  {
    if ReadLe16(s[..2]) == ReadBe16(s[2..]) then ReadLe16(s[..2]) else -1
  }

  function ReadBoth32(s: seq<Byte>): int
    requires |s| == 8
  {
    if ReadLe32(s[..4]) == ReadBe32(s[4..]) then ReadLe32(s[..4]) else -1
  }

  lemma {:induction false} ReadsBoth16(v: nat)
    requires v < 0x1_0000
    ensures ReadBoth16(Both16(v)) == v
  {
    assert Both16(v)[..2] == Le16(v) && Both16(v)[2..] == Be16(v);
  }

  lemma {:induction false} ReadsBoth32(v: nat)
    requires v < U32
    ensures ReadBoth32(Both32(v)) == v
  {
    Read32(v);
    assert Both32(v)[..4] == Le32(v) && Both32(v)[4..] == Be32(v);
  }
}
