// The writer of `internal/cloudinit/iso9660.go`: buffers filled in place, proved to hold the image.
module IsoWriter {
  import opened Wrappers
  import opened Bytes
  import opened Iso9660
  import opened Iso9660Proofs

  datatype Failure = TooLarge(name: seq<Byte>) | Panic

  datatype Kind = Normal | Self | Parent

  // copy(a[off:], d)
  method PutBytes(a: array<Byte>, off: nat, d: seq<Byte>)
    requires off + |d| <= a.Length
    modifies a
    ensures a[..] == Put(old(a[..]), off, d)
  {
    for i := 0 to |d|
      invariant forall k :: 0 <= k < a.Length ==>
                              a[k] == if off <= k < off + i then d[k - off] else old(a[k])
    {
      a[off + i] := d[i];
    }
  }

  // The steps below write the fields of a layout in turn; `ss` records what the buffer held.
  ghost predicate Next(a: seq<Byte>, fs: seq<Field>, ss: seq<seq<Byte>>, f: Field) {
    Chain(fs, |a|, ss) && |ss| <= |fs| && ss[|ss| - 1] == a && fs[|ss| - 1] == f
  }

  method PutField(a: array<Byte>, ghost fs: seq<Field>, ghost ss: seq<seq<Byte>>, off: nat, d: seq<Byte>)
    returns (ghost ss': seq<seq<Byte>>)
    requires Next(a[..], fs, ss, Field(off, d))
    modifies a
    ensures Chain(fs, a.Length, ss') && ss' == ss + [a[..]]
  {
    PutBytes(a, off, d);
    ss' := ss + [a[..]];
  }

  method PutBothEndian32(a: array<Byte>, ghost fs: seq<Field>, ghost ss: seq<seq<Byte>>, off: nat, v: nat)
    returns (ghost ss': seq<seq<Byte>>)
    requires v < U32 && Next(a[..], fs, ss, Field(off, Both32(v)))
    modifies a
    ensures Chain(fs, a.Length, ss') && ss' == ss + [a[..]]
  {
    PutTwice(a[..], off, Le32(v), Be32(v));
    PutBytes(a, off, Le32(v));
    PutBytes(a, off + 4, Be32(v));
    ss' := ss + [a[..]];
  }

  method PutBothEndian16(a: array<Byte>, ghost fs: seq<Field>, ghost ss: seq<seq<Byte>>, off: nat, v: nat)
    returns (ghost ss': seq<seq<Byte>>)
    requires v < 0x1_0000 && Next(a[..], fs, ss, Field(off, Both16(v)))
    modifies a
    ensures Chain(fs, a.Length, ss') && ss' == ss + [a[..]]
  {
    PutTwice(a[..], off, Le16(v), Be16(v));
    PutBytes(a, off, Le16(v));
    PutBytes(a, off + 2, Be16(v));
    ss' := ss + [a[..]];
  }

  method FillRecord(b: array<Byte>, r: Record)
    requires Writable(r) && b.Length == RecLen(|r.ident|) && b[..] == Zeros(b.Length)
    modifies b
    ensures b[..] == RecordBytes(r)
  {
    ghost var ss := FillPlace(b, r);
    FillName(b, r, ss);
  }

  // The record's length, extent and size.
  method FillPlace(b: array<Byte>, r: Record) returns (ghost ss: seq<seq<Byte>>)
    requires Writable(r) && b.Length == RecLen(|r.ident|) && b[..] == Zeros(b.Length)
    modifies b
    ensures Chain(RecordFields(r), b.Length, ss) && |ss| == 4 && ss[3] == b[..]
  {
    ghost var fs := RecordFields(r);
    ss := [Zeros(b.Length)];
    ss := PutField(b, fs, ss, 0, [b.Length, 0]);
    ss := PutBothEndian32(b, fs, ss, 2, r.extent);
    ss := PutBothEndian32(b, fs, ss, 10, r.length);
  }

  // Its flags, volume and identifier.
  method FillName(b: array<Byte>, r: Record, ghost before: seq<seq<Byte>>)
    requires Writable(r) && b.Length == RecLen(|r.ident|)
    requires Chain(RecordFields(r), b.Length, before) && |before| == 4 && before[3] == b[..]
    modifies b
    ensures b[..] == RecordBytes(r)
  {
    ghost var fs := RecordFields(r);
    ghost var ss := PutField(b, fs, before, 25, [if r.isDir then 2 else 0, 0, 0]);
    ss := PutBothEndian16(b, fs, ss, 28, 1);
    ss := PutField(b, fs, ss, 32, [|r.ident| % 256]);
    ss := PutField(b, fs, ss, 33, if |r.ident| <= b.Length - 33 then r.ident else r.ident[..b.Length - 33]);
    ChainLays(fs, b.Length, ss);
  }

  method BuildDirRecord(name: seq<Byte>, start: nat, length: nat, isDir: bool, kind: Kind, t: Tree)
    returns (b: array<Byte>)
    requires Ascii(name) && start < U32 && length < U32
    ensures fresh(b)
    ensures b[..] == RecordBytes(Record(match kind case Self => [0] case Parent => [1] case Normal => Ident(name, t),
                                        start, length, isDir))
  {
    var ident: seq<Byte>;
    match kind {
      case Self => ident := [0];
      case Parent => ident := [1];
      case Normal =>
        if t.Primary? {
          ident := name + VERSION;
        } else {
          ident := Ucs2(name);
        }
    }
    var recLen := 33 + |ident|;
    if recLen % 2 != 0 {
      recLen := recLen + 1;
    }
    if recLen > 255 {
      recLen := 255;
    }
    b := new Byte[recLen](_ => 0);
    FillRecord(b, Record(ident, start, length, isDir));
  }

  // Text padding, as fillTextFields and the tail of writeStrField write it.
  method Padding(n: nat, t: Tree) returns (d: array<Byte>)
    ensures fresh(d) && d[..] == Pad(n, t)
  {
    d := new Byte[n](_ => 0);
    var i := 0;
    if t.Joliet? {
      while i + 1 < n
        invariant i <= n && i % 2 == 0
        invariant forall k :: 0 <= k < n ==> d[k] == if k < i && k % 2 == 1 then 0x20 else 0
      {
        d[i], d[i + 1] := 0, 0x20;
        i := i + 2;
      }
    } else {
      while i < n
        invariant i <= n && forall k :: 0 <= k < i ==> d[k] == 0x20
      {
        d[i] := 0x20;
        i := i + 1;
      }
    }
  }

  method WriteStrField(volId: seq<Byte>, t: Tree) returns (d: seq<Byte>)
    requires Ascii(volId)
    ensures d == LabelField(volId, t)
  {
    var enc := if t.Joliet? then Ucs2(volId) else volId;
    if |enc| > 32 {
      enc := enc[..32];
    }
    var pad := Padding(32 - |enc|, t);
    d := enc + pad[..];
  }

  // The descriptor's fields in four parts: identification, volume, sizes, locations and text.
  method FillIdentity(s: array<Byte>, v: Values, ghost fs: seq<Field>) returns (ghost ss: seq<seq<Byte>>)
    requires v.Fit() && s.Length == SECTOR && s[..] == Zeros(SECTOR) && fs == DescriptorFields(v)
    modifies s
    ensures Chain(fs, SECTOR, ss) && |ss| == 4 && ss[3] == s[..]
  {
    ss := [Zeros(SECTOR)];
    ss := PutField(s, fs, ss, 0, [v.kind]);
    ss := PutField(s, fs, ss, 1, STANDARD_ID);
    ss := PutField(s, fs, ss, 6, [1]);
  }

  method FillVolume(s: array<Byte>, v: Values, ghost fs: seq<Field>, ghost before: seq<seq<Byte>>)
    returns (ghost ss: seq<seq<Byte>>)
    requires v.Fit() && s.Length == SECTOR && fs == DescriptorFields(v)
    requires Chain(fs, SECTOR, before) && |before| == 4 && before[3] == s[..]
    modifies s
    ensures Chain(fs, SECTOR, ss) && |ss| == 7 && ss[6] == s[..]
  {
    ss := PutField(s, fs, before, 40, v.volId);
    ss := PutBothEndian32(s, fs, ss, 80, v.total);
    ss := PutField(s, fs, ss, 88, v.escape);
  }

  method FillSizes(s: array<Byte>, v: Values, ghost fs: seq<Field>, ghost before: seq<seq<Byte>>)
    returns (ghost ss: seq<seq<Byte>>)
    requires v.Fit() && s.Length == SECTOR && fs == DescriptorFields(v)
    requires Chain(fs, SECTOR, before) && |before| == 7 && before[6] == s[..]
    modifies s
    ensures Chain(fs, SECTOR, ss) && |ss| == 11 && ss[10] == s[..]
  {
    ss := PutBothEndian16(s, fs, before, 120, 1);
    ss := PutBothEndian16(s, fs, ss, 124, 1);
    ss := PutBothEndian16(s, fs, ss, 128, SECTOR);
    ss := PutBothEndian32(s, fs, ss, 132, 10);
  }

  method FillLocations(s: array<Byte>, v: Values, ghost fs: seq<Field>, ghost before: seq<seq<Byte>>)
    returns (ghost ss: seq<seq<Byte>>)
    requires v.Fit() && s.Length == SECTOR && fs == DescriptorFields(v)
    requires Chain(fs, SECTOR, before) && |before| == 11 && before[10] == s[..]
    modifies s
    ensures Chain(fs, SECTOR, ss) && |ss| == 16 && ss[15] == s[..]
  {
    ss := PutField(s, fs, before, 140, Le32(v.tableL));
    ss := PutField(s, fs, ss, 148, Be32(v.tableM));
    ss := PutField(s, fs, ss, 156, v.root);
    ss := PutField(s, fs, ss, 190, v.text);
    ss := PutField(s, fs, ss, 881, [1]);
  }

  method FillDescriptor(s: array<Byte>, v: Values)
    requires v.Fit() && s.Length == SECTOR && s[..] == Zeros(SECTOR)
    modifies s
    ensures s[..] == Lay(DescriptorFields(v), SECTOR)
  {
    ghost var fs := DescriptorFields(v);
    ghost var ss := FillIdentity(s, v, fs);
    ss := FillVolume(s, v, fs, ss);
    ss := FillSizes(s, v, fs, ss);
    ss := FillLocations(s, v, fs, ss);
    ChainLays(fs, SECTOR, ss);
  }

  method ZeroSector() returns (s: array<Byte>)
    ensures fresh(s) && s[..] == Zeros(SECTOR)
  {
    s := new Byte[SECTOR](_ => 0);
  }

  method BuildVolumeDescriptor(volId: seq<Byte>, total: nat, t: Tree) returns (s: array<Byte>)
    requires Ascii(volId) && total < U32
    ensures fresh(s) && s[..] == Descriptor(volId, total, t)
  {
    var field := WriteStrField(volId, t);
    var root := BuildDirRecord([], RootSector(t), SECTOR, true, Self, t);
    var text := Padding(623, t);
    s := ZeroSector();
    var v := Values(if t.Primary? then 1 else 2, field, total, if t.Joliet? then UCS2_LEVEL3 else [],
                    PathTableSector(t, false), PathTableSector(t, true), root[..], text[..]);
    assert v == DescriptorValues(volId, total, t);
    FillDescriptor(s, v);
  }

  method BuildRootPathTable(lba: nat, bigEndian: bool) returns (s: array<Byte>)
    requires lba < U32
    ensures fresh(s) && s[..] == PathTable(lba, bigEndian)
  {
    s := ZeroSector();
    ghost var fs := PathTableFields(lba, bigEndian);
    ghost var ss := [Zeros(SECTOR)];
    ss := PutField(s, fs, ss, 0, [1, 0]);
    if bigEndian {
      ss := PutField(s, fs, ss, 2, Be32(lba));
      ss := PutField(s, fs, ss, 6, Be16(1));
    } else {
      ss := PutField(s, fs, ss, 2, Le32(lba));
      ss := PutField(s, fs, ss, 6, Le16(1));
    }
    ss := PutField(s, fs, ss, 8, [0, 0]);
    ChainLays(fs, SECTOR, ss);
  }

  method BuildTerminator() returns (s: array<Byte>)
    ensures fresh(s) && s[..] == Lay(TerminatorFields(), SECTOR)
  {
    s := ZeroSector();
    ghost var fs := TerminatorFields();
    ghost var ss := [Zeros(SECTOR)];
    ss := PutField(s, fs, ss, 0, [0xFF]);
    ss := PutField(s, fs, ss, 1, STANDARD_ID);
    ss := PutField(s, fs, ss, 6, [1]);
    ChainLays(fs, SECTOR, ss);
  }

  // copy(s[off:], rec), or a panic when off is past the end.
  method AppendRecord(s: array<Byte>, off: nat, rec: array<Byte>, ghost before: seq<Byte>) returns (ok: bool)
    requires s != rec && |before| == off && s[..] == Sized(before, s.Length)
    modifies s
    ensures ok == (off <= s.Length)
    ensures ok ==> s[..] == Sized(before + rec[..], s.Length)
  {
    if off > s.Length {
      return false;
    }
    var n := if rec.Length <= s.Length - off then rec.Length else s.Length - off;
    PutBytes(s, off, rec[..n]);
    return true;
  }

  // A directory sector with only "." and "..".
  method StartDirectory(t: Tree) returns (s: array<Byte>, off: nat)
    ensures fresh(s) && s[..] == Sized(DirBytes([], t), SECTOR)
    ensures off == |DirBytes([], t)|
  {
    s := ZeroSector();
    SizedEmpty();
    var self := BuildDirRecord([], RootSector(t), SECTOR, true, Self, t);
    var ok := AppendRecord(s, 0, self, []);
    var parent := BuildDirRecord([], RootSector(t), SECTOR, true, Parent, t);
    assert [] + self[..] == RecordBytes(RootRecord(t));
    ok := AppendRecord(s, self.Length, parent, RecordBytes(RootRecord(t)));
    off := self.Length + parent.Length;
    DotEntries(t);
  }

  lemma {:induction false} SizedEmpty()
    ensures Sized([], SECTOR) == Zeros(SECTOR)
  {
    assert [] + Zeros(SECTOR) == Zeros(SECTOR);
  }

  // The sector and the write offset when the first i files are in; every record began inside it.
  ghost predicate DirSoFar(s: seq<Byte>, off: nat, files: seq<File>, i: nat, t: Tree)
    requires Seedable(files) && i <= |files|
  {
    && s == Sized(DirBytes(files[..i], t), SECTOR) && off == |DirBytes(files[..i], t)|
    && (i > 0 ==> |DirBytes(files[..i - 1], t)| <= SECTOR)
  }

  lemma {:induction false} DirBegins(s: seq<Byte>, off: nat, files: seq<File>, t: Tree)
    requires Seedable(files) && s == Sized(DirBytes([], t), SECTOR) && off == |DirBytes([], t)|
    ensures DirSoFar(s, off, files, 0, t)
  {
    assert files[..0] == [];
  }

  lemma {:induction false} DirDone(s: seq<Byte>, off: nat, files: seq<File>, t: Tree)
    requires Seedable(files) && DirSoFar(s, off, files, |files|, t)
    ensures s == DirSector(files, t) && !DirPanics(files, t)
  {
    assert files[..|files|] == files;
  }

  method AppendFile(s: array<Byte>, off: nat, files: seq<File>, i: nat, start: nat, t: Tree)
    returns (off': nat, ok: bool)
    requires Seedable(files) && i < |files| && start == Wrap32(NextSector(files[..i])) && s.Length == SECTOR
    requires DirSoFar(s[..], off, files, i, t)
    modifies s
    ensures ok ==> DirSoFar(s[..], off', files, i + 1, t)
    ensures !ok ==> DirPanics(files, t)
  {
    var rec := BuildDirRecord(files[i].name, start, |files[i].data|, false, Normal, t);
    assert rec[..] == RecordBytes(FileRecord(files, i, t));
    DirStep(files, i, t);
    ok := AppendRecord(s, off, rec, DirBytes(files[..i], t));
    off' := off + rec.Length;
    if !ok {
      PrefixPanics(files, i, t);
    }
  }

  method BuildDirectory(files: seq<File>, starts: seq<nat>, t: Tree) returns (s: array<Byte>, ok: bool)
    requires Seedable(files) && |starts| == |files|
    requires forall i :: 0 <= i < |files| ==> starts[i] == Wrap32(NextSector(files[..i]))
    ensures fresh(s) && ok == !DirPanics(files, t)
    ensures ok ==> s[..] == DirSector(files, t)
  {
    var off;
    s, off := StartDirectory(t);
    ok := true;
    DirBegins(s[..], off, files, t);
    var i := 0;
    while i < |files|
      invariant i <= |files| && fresh(s) && s.Length == SECTOR
      invariant ok && DirSoFar(s[..], off, files, i, t)
    {
      off, ok := AppendFile(s, off, files, i, starts[i], t);
      if !ok {
        return;
      }
      i := i + 1;
    }
    DirDone(s[..], off, files, t);
  }

  // ----- the whole image

  ghost predicate Blocks(bs: seq<seq<Byte>>) {
    |bs| == FIRST_FILE && forall i :: 0 <= i < |bs| ==> |bs[i]| == SECTOR
  }

  lemma {:induction false} PutBlock(bs: seq<seq<Byte>>, rest: seq<Byte>, k: nat, d: seq<Byte>)
    requires Blocks(bs) && k < |bs| && |d| == SECTOR
    ensures |Flat(bs)| == FIRST_FILE * SECTOR
    ensures Put(Flat(bs) + rest, k * SECTOR, d) == Flat(bs[k := d]) + rest
  {
    FlatLength(bs, SECTOR);
    FlatLength(bs[..k], SECTOR);
    var a, b := Flat(bs[..k]), Flat(bs[k + 1..]);
    FlatAround(bs, k);
    FlatAround(bs[k := d], k);
    assert bs[k := d][..k] == bs[..k] && bs[k := d][k + 1..] == bs[k + 1..];
    assert Flat(bs) + rest == a + bs[k] + (b + rest);
  }

  lemma {:induction false} FlatAround(bs: seq<seq<Byte>>, k: nat)
    requires k < |bs|
    ensures Flat(bs) == Flat(bs[..k]) + bs[k] + Flat(bs[k + 1..])
  {
    assert bs == bs[..k] + [bs[k]] + bs[k + 1..];
    FlatConcat(bs[..k] + [bs[k]], bs[k + 1..]);
    FlatAppend(bs[..k], bs[k]);
  }

  method WriteSector(buf: array<Byte>, k: nat, data: array<Byte>, ghost bs: seq<seq<Byte>>, ghost rest: seq<Byte>)
    returns (ghost bs': seq<seq<Byte>>)
    requires buf != data && Blocks(bs) && k < |bs| && data.Length == SECTOR && buf[..] == Flat(bs) + rest
    modifies buf
    ensures bs' == bs[k := data[..]] && Blocks(bs') && buf[..] == Flat(bs') + rest
  {
    PutBlock(bs, rest, k, data[..]);
    PutBytes(buf, k * SECTOR, data[..]);
    bs' := bs[k := data[..]];
  }

  method WriteDescriptors(buf: array<Byte>, volId: seq<Byte>, total: nat, ghost bs: seq<seq<Byte>>,
                          ghost rest: seq<Byte>)
    returns (ghost bs': seq<seq<Byte>>)
    requires Ascii(volId) && total < U32 && Blocks(bs) && buf[..] == Flat(bs) + rest
    modifies buf
    ensures Blocks(bs') && buf[..] == Flat(bs') + rest
    ensures bs' == bs[16 := Descriptor(volId, total, Primary)][17 := Descriptor(volId, total, Joliet)]
                     [18 := Lay(TerminatorFields(), SECTOR)]
  {
    var pvd := BuildVolumeDescriptor(volId, total, Primary);
    bs' := WriteSector(buf, 16, pvd, bs, rest);
    var svd := BuildVolumeDescriptor(volId, total, Joliet);
    bs' := WriteSector(buf, 17, svd, bs', rest);
    var term := BuildTerminator();
    bs' := WriteSector(buf, 18, term, bs', rest);
  }

  method WritePathTables(buf: array<Byte>, ghost bs: seq<seq<Byte>>, ghost rest: seq<Byte>)
    returns (ghost bs': seq<seq<Byte>>)
    requires Blocks(bs) && buf[..] == Flat(bs) + rest
    modifies buf
    ensures Blocks(bs') && buf[..] == Flat(bs') + rest
    ensures bs' == bs[19 := PathTable(23, false)][20 := PathTable(23, true)]
                     [21 := PathTable(24, false)][22 := PathTable(24, true)]
  {
    var table := BuildRootPathTable(RootSector(Primary), false);
    bs' := WriteSector(buf, 19, table, bs, rest);
    table := BuildRootPathTable(RootSector(Primary), true);
    bs' := WriteSector(buf, 20, table, bs', rest);
    table := BuildRootPathTable(RootSector(Joliet), false);
    bs' := WriteSector(buf, 21, table, bs', rest);
    table := BuildRootPathTable(RootSector(Joliet), true);
    bs' := WriteSector(buf, 22, table, bs', rest);
  }

  lemma {:induction false} HeaderAssembled(bs: seq<seq<Byte>>, pvd: seq<Byte>, svd: seq<Byte>, dirP: seq<Byte>,
                                           dirJ: seq<Byte>)
    requires bs == SystemArea() + SystemArea()[..9] && |pvd| == |svd| == |dirP| == |dirJ| == SECTOR
    ensures bs[16 := pvd][17 := svd][18 := Lay(TerminatorFields(), SECTOR)]
              [19 := PathTable(23, false)][20 := PathTable(23, true)][21 := PathTable(24, false)][22 := PathTable(24, true)]
              [23 := dirP][24 := dirJ] == Header(pvd, svd, dirP, dirJ)
  {
  }

  // The files' starting sectors and the sector after the last, in 32-bit arithmetic.
  method Place(files: seq<File>) returns (starts: seq<nat>, total: nat)
    ensures |starts| == |files| && total == Wrap32(NextSector(files))
    ensures forall i :: 0 <= i < |files| ==> starts[i] == Wrap32(NextSector(files[..i]))
  {
    starts, total := [], FIRST_FILE;
    assert files[..0] == [];
    for i := 0 to |files|
      invariant |starts| == i && total == Wrap32(NextSector(files[..i]))
      invariant forall k :: 0 <= k < i ==> starts[k] == Wrap32(NextSector(files[..k]))
    {
      var n := (|files[i].data| + SECTOR - 1) / SECTOR;
      if n == 0 {
        n := 1;
      }
      NextSectorStep(files, i);
      WrapAdd(NextSector(files[..i]), n);
      starts, total := starts + [total], Wrap32(total + n);
    }
    assert files[..|files|] == files;
  }

  lemma {:induction false} PutContent(h: seq<Byte>, files: seq<File>, i: nat, m: nat)
    requires i < |files| && |h| == FIRST_FILE * SECTOR && m >= SectorsOf(|files[i].data|) * SECTOR
    ensures var s, off := h + Flat(Extents(files[..i])) + Zeros(m), NextSector(files[..i]) * SECTOR;
            && off + |files[i].data| <= |s|
            && Put(s, off, files[i].data) ==
               h + Flat(Extents(files[..i + 1])) + Zeros(m - SectorsOf(|files[i].data|) * SECTOR)
  {
    var e, d := Flat(Extents(files[..i])), files[i].data;
    ExtentsLength(files[..i]);
    ExtentsSplit(files[..i + 1], i);
    assert files[..i + 1][..i] == files[..i];
    PutOverZeros(h + e, d, Extent(d), m);
    assert h + (e + Extent(d)) == h + e + Extent(d);
  }

  lemma {:induction false} PutOverZeros(s: seq<Byte>, d: seq<Byte>, x: seq<Byte>, m: nat)
    requires |d| <= |x| <= m && x == d + Zeros(|x| - |d|)
    ensures Put(s + Zeros(m), |s|, d) == s + x + Zeros(m - |x|)
  {
    assert Zeros(m) == Zeros(|d|) + Zeros(|x| - |d|) + Zeros(m - |x|);
  }

  // The image when the first i files are in place.
  ghost function Partial(h: seq<Byte>, files: seq<File>, i: nat): seq<Byte>
    requires i <= |files|
  {
    var done := NextSector(files[..i]);
    h + Flat(Extents(files[..i])) + (if done <= NextSector(files) then Zeros((NextSector(files) - done) * SECTOR) else [])
  }

  method WriteContent(buf: array<Byte>, files: seq<File>, i: nat, ghost h: seq<Byte>, start: nat)
    requires i < |files| && start == NextSector(files[..i]) && |h| == FIRST_FILE * SECTOR
    requires buf[..] == Partial(h, files, i)
    modifies buf
    ensures buf[..] == Partial(h, files, i + 1)
  {
    NextSectorStep(files, i);
    NextSectorMonotone(files, i, |files|);
    NextSectorMonotone(files, i + 1, |files|);
    assert files[..|files|] == files;
    PutContent(h, files, i, (NextSector(files) - start) * SECTOR);
    PutBytes(buf, start * SECTOR, files[i].data);
  }

  lemma {:induction false} PartialEnds(h: seq<Byte>, files: seq<File>)
    ensures NextSector(files) >= FIRST_FILE
    ensures Partial(h, files, 0) == h + Zeros((NextSector(files) - FIRST_FILE) * SECTOR)
    ensures Partial(h, files, |files|) == h + Flat(Extents(files))
  {
    assert files[..0] == [] && files[..|files|] == files && Flat(Extents([])) == [];
    ExtentsLength(files);
    assert h + [] == h;
  }

  method WriteContents(buf: array<Byte>, files: seq<File>, starts: seq<nat>, ghost h: seq<Byte>)
    requires |starts| == |files| && |h| == FIRST_FILE * SECTOR
    requires forall i :: 0 <= i < |files| ==> starts[i] == NextSector(files[..i])
    requires buf[..] == Partial(h, files, 0)
    modifies buf
    ensures buf[..] == h + Flat(Extents(files))
  {
    for i := 0 to |files|
      invariant buf[..] == Partial(h, files, i)
    {
      WriteContent(buf, files, i, h, starts[i]);
    }
    PartialEnds(h, files);
  }

  // The root directories; a panic while building one abandons the image.
  method WriteDirectories(buf: array<Byte>, files: seq<File>, starts: seq<nat>, ghost bs: seq<seq<Byte>>,
                          ghost rest: seq<Byte>)
    returns (ok: bool, ghost bs': seq<seq<Byte>>)
    requires Seedable(files) && |starts| == |files|
    requires forall i :: 0 <= i < |files| ==> starts[i] == Wrap32(NextSector(files[..i]))
    requires Blocks(bs) && buf[..] == Flat(bs) + rest
    modifies buf
    ensures ok == (!DirPanics(files, Primary) && !DirPanics(files, Joliet))
    ensures ok ==> Blocks(bs') && buf[..] == Flat(bs') + rest
    ensures ok ==> bs' == bs[23 := DirSector(files, Primary)][24 := DirSector(files, Joliet)]
  {
    bs' := bs;
    var dir;
    dir, ok := BuildDirectory(files, starts, Primary);
    if !ok {
      return;
    }
    bs' := WriteSector(buf, 23, dir, bs', rest);
    dir, ok := BuildDirectory(files, starts, Joliet);
    if !ok {
      return;
    }
    bs' := WriteSector(buf, 24, dir, bs', rest);
  }

  method WriteHeader(buf: array<Byte>, volId: seq<Byte>, files: seq<File>, starts: seq<nat>, total: nat,
                     ghost rest: seq<Byte>)
    returns (ok: bool)
    requires Ascii(volId) && Seedable(files) && |starts| == |files| && total < U32
    requires forall i :: 0 <= i < |files| ==> starts[i] == Wrap32(NextSector(files[..i]))
    requires buf[..] == Zeros(FIRST_FILE * SECTOR) + rest
    modifies buf
    ensures ok == (!DirPanics(files, Primary) && !DirPanics(files, Joliet))
    ensures ok ==> buf[..] == Flat(Header(Descriptor(volId, total, Primary), Descriptor(volId, total, Joliet),
                                          DirSector(files, Primary), DirSector(files, Joliet))) + rest
  {
    ghost var bs := SystemArea() + SystemArea()[..9];
    ZeroBlocks(bs);
    HeaderAssembled(bs, Descriptor(volId, total, Primary), Descriptor(volId, total, Joliet),
                    DirSector(files, Primary), DirSector(files, Joliet));
    bs := WriteDescriptors(buf, volId, total, bs, rest);
    bs := WritePathTables(buf, bs, rest);
    ok, bs := WriteDirectories(buf, files, starts, bs, rest);
  }

  lemma {:induction false} ZeroBlocks(bs: seq<seq<Byte>>)
    requires forall i :: 0 <= i < |bs| ==> bs[i] == Zeros(SECTOR)
    ensures Flat(bs) == Zeros(|bs| * SECTOR)
  {
    if bs != [] {
      ZeroBlocks(bs[1..]);
    }
  }

  /** The seed writer. It refuses a file over 64 MiB, panics exactly when a directory overflows its
      sector by more than its last record, and otherwise returns the image. */
  method WriteISO(volId: seq<Byte>, files: seq<File>) returns (r: Result<array<Byte>, Failure>)
    requires Ascii(volId) && forall i :: 0 <= i < |files| ==> Ascii(files[i].name)
    ensures r.Ok? ==> fresh(r.value)
    ensures (exists i :: 0 <= i < |files| && |files[i].data| > MAX_FILE) <==> r.Err? && r.error.TooLarge?
    ensures r.Err? && r.error.TooLarge? ==>
              exists i :: 0 <= i < |files| && r.error.name == files[i].name && |files[i].data| > MAX_FILE
                          && forall k :: 0 <= k < i ==> |files[k].data| <= MAX_FILE
    ensures r == Err(Panic) <==> Seedable(files) && (DirPanics(files, Primary) || DirPanics(files, Joliet))
    ensures r.Ok? ==> Seedable(files) && r.value[..] == Image(volId, files)
  {
    for i := 0 to |files|
      invariant forall k :: 0 <= k < i ==> |files[k].data| <= MAX_FILE
    {
      if |files[i].data| > MAX_FILE {
        return Err(TooLarge(files[i].name));
      }
    }
    r := WriteSeedable(volId, files);
  }

  method WriteSeedable(volId: seq<Byte>, files: seq<File>) returns (r: Result<array<Byte>, Failure>)
    requires Ascii(volId) && Seedable(files)
    ensures r.Ok? ==> fresh(r.value) && r.value[..] == Image(volId, files)
    ensures r.Err? ==> r.error == Panic
    ensures r.Err? <==> DirPanics(files, Primary) || DirPanics(files, Joliet)
  {
    var starts, total := Place(files);
    var buf := new Byte[total * SECTOR](_ => 0);
    if total < FIRST_FILE {
      // Only after wrap-around: writeSector's first slice is out of range.
      WrapMeansPanic(files);
      return Err(Panic);
    }
    var ok := FillImage(buf, volId, files, starts, total);
    return if ok then Ok(buf) else Err(Panic);
  }

  method FillImage(buf: array<Byte>, volId: seq<Byte>, files: seq<File>, starts: seq<nat>,
                   total: nat) returns (ok: bool)
    requires Ascii(volId) && Seedable(files) && |starts| == |files|
    requires forall i :: 0 <= i < |files| ==> starts[i] == Wrap32(NextSector(files[..i]))
    requires FIRST_FILE <= total && total == Wrap32(NextSector(files)) && buf[..] == Zeros(total * SECTOR)
    modifies buf
    ensures ok == (!DirPanics(files, Primary) && !DirPanics(files, Joliet))
    ensures ok ==> buf[..] == Image(volId, files)
  {
    ghost var rest := Zeros((total - FIRST_FILE) * SECTOR);
    assert Zeros(total * SECTOR) == Zeros(FIRST_FILE * SECTOR) + rest;
    ok := WriteHeader(buf, volId, files, starts, total, rest);
    if ok {
      ghost var h := HeaderOf(volId, files);
      NoWrapStarts(files);
      PartialEnds(h, files);
      WriteContents(buf, files, starts, h);
    }
  }

  ghost function HeaderOf(volId: seq<Byte>, files: seq<File>): seq<Byte>
    requires Ascii(volId) && Seedable(files)
  {
    var total := Wrap32(NextSector(files));
    Flat(Header(Descriptor(volId, total, Primary), Descriptor(volId, total, Joliet),
                DirSector(files, Primary), DirSector(files, Joliet)))
  }

  lemma {:induction false} WrapMeansPanic(files: seq<File>)
    requires Seedable(files) && Wrap32(NextSector(files)) < FIRST_FILE
    ensures DirPanics(files, Primary)
  {
    ExtentsLength(files);
    if !DirPanics(files, Primary) {
      SectorsNeverWrap(files, Primary);
    }
  }

  lemma {:induction false} NoWrapStarts(files: seq<File>)
    requires Seedable(files) && !DirPanics(files, Primary)
    ensures Wrap32(NextSector(files)) == NextSector(files)
    ensures forall i :: 0 <= i < |files| ==> Wrap32(NextSector(files[..i])) == NextSector(files[..i])
  {
    SectorsNeverWrap(files, Primary);
    forall i | 0 <= i < |files| ensures NextSector(files[..i]) < U32 {
      NextSectorMonotone(files, i, |files|);
      assert files[..|files|] == files;
    }
  }
}
