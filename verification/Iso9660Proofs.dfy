// Reading a seed image undoes writing it: the reader of Iso9660 against its writer.
module Iso9660Proofs {
  import opened Wrappers
  import opened Bytes
  import opened Iso9660

  // ----- one record

  // An identifier a directory record can hold (section 9.1.11 and the even length of 9.1.12).
  predicate Short(r: Record) {
    |r.ident| <= 221
  }

  lemma {:induction false} RecordHead(r: Record, tail: seq<Byte>)
    requires Writable(r)
    ensures (RecordBytes(r) + tail)[0] == RecLen(|r.ident|)
  {
    LaidField(RecordFields(r), RecLen(|r.ident|), 0);
    assert RecordBytes(r)[0..2][0] == RecLen(|r.ident|);
  }

  lemma {:induction false} RecordSlices(r: Record)
    requires Writable(r) && Short(r)
    ensures var b := RecordBytes(r);
            && b[1] == 0 && b[2..10] == Both32(r.extent) && b[10..18] == Both32(r.length)
            && b[25] == (if r.isDir then 2 else 0) && b[26] == 0 && b[27] == 0 && b[28..32] == Both16(1)
            && b[32] == |r.ident| && 33 + |r.ident| <= |b| && b[33..33 + |r.ident|] == r.ident
            && (|b| == 34 + |r.ident| ==> b[|b| - 1] == 0)
  {
    var fs, n, b := RecordFields(r), RecLen(|r.ident|), RecordBytes(r);
    LaidField(fs, n, 0);
    assert b[0..2][1] == b[1];
    LaidField(fs, n, 1);
    LaidField(fs, n, 2);
    LaidField(fs, n, 3);
    assert b[25..28][0] == b[25] && b[25..28][1] == b[26] && b[25..28][2] == b[27];
    LaidField(fs, n, 4);
    LaidField(fs, n, 5);
    assert b[32..33][0] == b[32];
    LaidField(fs, n, 6);
    if n == 34 + |r.ident| {
      LaidGap(fs, n, n - 1);
    }
  }

  lemma {:induction false} ParsedFrom(s: seq<Byte>, n: nat, r: Record)
    requires Writable(r) && Short(r) && n == RecLen(|r.ident|) <= |s| && s[0] == n
    requires s[2..10] == Both32(r.extent) && s[10..18] == Both32(r.length)
    requires s[1] == 0 && s[25] == (if r.isDir then 2 else 0) && s[26] == 0 && s[27] == 0 && s[28..32] == Both16(1)
    requires s[32] == |r.ident| && s[33..][..|r.ident|] == r.ident && (n == 34 + |r.ident| ==> s[n - 1] == 0)
    ensures ParseRecord(s) == Some(r)
  {
    ReadsBoth32(r.extent);
    ReadsBoth32(r.length);
    ReadsBoth16(1);
  }

  lemma {:induction false} RecordParses(r: Record, tail: seq<Byte>)
    requires Writable(r) && Short(r)
    ensures ParseRecord(RecordBytes(r) + tail) == Some(r)
  {
    RecordHead(r, tail);
    RecordSlices(r);
    var b, n := RecordBytes(r), RecLen(|r.ident|);
    var s := b + tail;
    assert s[2..10] == b[2..10] && s[10..18] == b[10..18] && s[28..32] == b[28..32];
    assert s[33..][..|r.ident|] == b[33..33 + |r.ident|];
    ParsedFrom(s, n, r);
  }

  // An identifier too long for its record is cut to the 222 bytes there are, the length byte wrapping around.
  lemma {:induction false} LongIdentIsCut(r: Record)
    requires Writable(r) && !Short(r)
    ensures var b := RecordBytes(r); |b| == 255 && b[32] == |r.ident| % 256 && b[33..255] == r.ident[..222]
  {
    var fs, n, b := RecordFields(r), RecLen(|r.ident|), RecordBytes(r);
    LaidField(fs, n, 5);
    assert b[32..33][0] == b[32];
    LaidField(fs, n, 6);
    assert |r.ident| == 222 ==> r.ident[..222] == r.ident;
  }

  // ----- a directory extent

  predicate AllShort(rs: seq<Record>) {
    forall i :: 0 <= i < |rs| ==> Short(rs[i])
  }

  predicate AllWritable(rs: seq<Record>) {
    forall i :: 0 <= i < |rs| ==> Writable(rs[i])
  }

  function Size(rs: seq<Record>): nat
    requires AllWritable(rs)
  {
    |Flat(Encoded(rs))|
  }

  lemma {:induction false} EncodedHead(rs: seq<Record>)
    requires rs != [] && AllWritable(rs)
    ensures Flat(Encoded(rs)) == RecordBytes(rs[0]) + Flat(Encoded(rs[1..]))
  {
    assert Encoded(rs)[1..] == Encoded(rs[1..]);
  }

  lemma {:induction false} SizedAfter(h: seq<Byte>, t: seq<Byte>, n: nat)
    requires |h| <= n
    ensures Sized(h + t, n) == h + Sized(t, n - |h|)
  {
  }

  lemma {:induction false} FirstParses(r: Record, t: seq<Byte>, n: nat)
    requires Writable(r) && |RecordBytes(r)| <= n
    ensures var p, q := ParseRecords(Sized(RecordBytes(r) + t, n)), ParseRecords(Sized(t, n - |RecordBytes(r)|));
            && (!Short(r) ==> p.None?)
            && (q.None? ==> p.None?)
            && (Short(r) && q.Some? ==> p == Some([r] + q.value))
  {
    var h, s := RecordBytes(r), Sized(RecordBytes(r) + t, n);
    SizedAfter(h, t, n);
    RecordHead(r, Sized(t, n - |h|));
    assert s[|h|..] == Sized(t, n - |h|);
    if Short(r) {
      RecordParses(r, Sized(t, n - |h|));
    }
  }

  // Records laid one after the other in `n` bytes parse back exactly when they all fit;
  // otherwise the reader rejects the extent or finds fewer of them.
  lemma {:induction false} RecordsParseExactly(rs: seq<Record>, n: nat)
    requires AllWritable(rs)
    ensures var p := ParseRecords(Sized(Flat(Encoded(rs)), n));
            if AllShort(rs) && Size(rs) <= n then p == Some(rs) else p.None? || |p.value| < |rs|
    decreases |rs|
  {
    if rs == [] {
      NothingParses(n);
    } else {
      EncodedHead(rs);
      var h, t := RecordBytes(rs[0]), Flat(Encoded(rs[1..]));
      if |h| > n {
        CutRecord(rs[0], t, n);
      } else {
        RecordsParseExactly(rs[1..], n - |h|);
        FirstParses(rs[0], t, n);
        FirstShort(rs);
      }
    }
  }

  lemma {:induction false} NothingParses(n: nat)
    ensures Flat(Encoded([])) == [] && ParseRecords(Sized([], n)) == Some([])
  {
    assert n > 0 ==> Sized([], n)[0] == 0;
  }

  lemma {:induction false} CutRecord(r: Record, t: seq<Byte>, n: nat)
    requires Writable(r) && |RecordBytes(r)| > n
    ensures var p := ParseRecords(Sized(RecordBytes(r) + t, n)); p.None? || p.value == []
  {
    if n > 0 {
      RecordHead(r, t);
      assert Sized(RecordBytes(r) + t, n)[0] == (RecordBytes(r) + t)[0];
    }
  }

  lemma {:induction false} FirstShort(rs: seq<Record>)
    requires rs != []
    ensures [rs[0]] + rs[1..] == rs && (AllShort(rs) <==> Short(rs[0]) && AllShort(rs[1..]))
  {
    if Short(rs[0]) && AllShort(rs[1..]) {
      forall i | 0 <= i < |rs| ensures Short(rs[i]) {
        assert i > 0 ==> rs[i] == rs[1..][i - 1];
      }
    }
  }

  // ----- sectors of the image

  lemma {:induction false} BlockOf(h: seq<seq<Byte>>, body: seq<Byte>, k: nat)
    requires k < |h| && forall i :: 0 <= i < |h| ==> |h[i]| == SECTOR
    ensures |Flat(h)| == |h| * SECTOR
    ensures ReadSector(Flat(h) + body, k) == Some(h[k])
  {
    FlatBlock(h, SECTOR, k);
    assert (Flat(h) + body)[k * SECTOR..k * SECTOR + SECTOR] == Flat(h)[k * SECTOR..k * SECTOR + SECTOR];
  }

  // Which sector is which.
  lemma {:induction false} AfterSystemArea(pvd: seq<Byte>, svd: seq<Byte>, dirP: seq<Byte>, dirJ: seq<Byte>, k: nat)
    requires |pvd| == |svd| == |dirP| == |dirJ| == SECTOR && k < 9
    ensures Header(pvd, svd, dirP, dirJ)[16 + k] == Written(pvd, svd, dirP, dirJ)[k]
  {
  }

  lemma {:induction false} TablesWritten(pvd: seq<Byte>, svd: seq<Byte>, dirP: seq<Byte>, dirJ: seq<Byte>, t: Tree, be: bool)
    requires |pvd| == |svd| == |dirP| == |dirJ| == SECTOR
    ensures Written(pvd, svd, dirP, dirJ)[PathTableSector(t, be) - 16] == PathTable(RootSector(t), be)
  {
  }

  lemma {:induction false} HeaderIs(pvd: seq<Byte>, svd: seq<Byte>, dirP: seq<Byte>, dirJ: seq<Byte>)
    requires |pvd| == |svd| == |dirP| == |dirJ| == SECTOR
    ensures var h := Header(pvd, svd, dirP, dirJ);
            && h[16] == pvd && h[17] == svd && h[18] == Lay(TerminatorFields(), SECTOR) && h[23] == dirP && h[24] == dirJ
            && forall t, be :: h[PathTableSector(t, be)] == PathTable(RootSector(t), be)
  {
    AfterSystemArea(pvd, svd, dirP, dirJ, 0);
    AfterSystemArea(pvd, svd, dirP, dirJ, 1);
    AfterSystemArea(pvd, svd, dirP, dirJ, 2);
    AfterSystemArea(pvd, svd, dirP, dirJ, 7);
    AfterSystemArea(pvd, svd, dirP, dirJ, 8);
    forall t: Tree, be: bool ensures Header(pvd, svd, dirP, dirJ)[PathTableSector(t, be)] == PathTable(RootSector(t), be) {
      AfterSystemArea(pvd, svd, dirP, dirJ, PathTableSector(t, be) - 16);
      TablesWritten(pvd, svd, dirP, dirJ, t, be);
    }
  }

  lemma {:induction false} BlocksRead(h: seq<seq<Byte>>, body: seq<Byte>)
    requires |h| == FIRST_FILE && forall i :: 0 <= i < |h| ==> |h[i]| == SECTOR
    ensures var img := Flat(h) + body;
            && |Flat(h)| == FIRST_FILE * SECTOR
            && ReadSector(img, 16) == Some(h[16]) && ReadSector(img, 17) == Some(h[17]) && ReadSector(img, 18) == Some(h[18])
            && ReadSector(img, 23) == Some(h[23]) && ReadSector(img, 24) == Some(h[24])
            && forall t, be :: ReadSector(img, PathTableSector(t, be)) == Some(h[PathTableSector(t, be)])
  {
    BlockOf(h, body, 16);
    BlockOf(h, body, 17);
    BlockOf(h, body, 18);
    BlockOf(h, body, 23);
    BlockOf(h, body, 24);
    forall t: Tree, be: bool
      ensures ReadSector(Flat(h) + body, PathTableSector(t, be)) == Some(h[PathTableSector(t, be)])
    {
      BlockOf(h, body, PathTableSector(t, be));
    }
  }

  lemma {:induction false} HeaderReads(pvd: seq<Byte>, svd: seq<Byte>, dirP: seq<Byte>, dirJ: seq<Byte>,
                                       body: seq<Byte>)
    requires |pvd| == |svd| == |dirP| == |dirJ| == SECTOR
    ensures var h := Header(pvd, svd, dirP, dirJ);
            var img := Flat(h) + body;
            && |Flat(h)| == FIRST_FILE * SECTOR
            && ReadSector(img, 16) == Some(pvd) && ReadSector(img, 17) == Some(svd)
            && ReadSector(img, 18) == Some(Lay(TerminatorFields(), SECTOR))
            && ReadSector(img, 23) == Some(dirP) && ReadSector(img, 24) == Some(dirJ)
            && forall t, be :: ReadSector(img, PathTableSector(t, be)) == Some(PathTable(RootSector(t), be))
  {
    HeaderIs(pvd, svd, dirP, dirJ);
    BlocksRead(Header(pvd, svd, dirP, dirJ), body);
  }

  lemma {:induction false} DescriptorParses(volId: seq<Byte>, total: nat, t: Tree)
    requires Ascii(volId) && total < U32
    ensures ParseDescriptor(Descriptor(volId, total, t), t) ==
            Some(Volume(LabelField(volId, t), total, RootRecord(t), 10, PathTableSector(t, false), PathTableSector(t, true)))
  {
    var v := DescriptorValues(volId, total, t);
    FixedFields(v);
    TextField(v);
    NumberFields(v);
    RecordParses(RootRecord(t), []);
    assert v.root + [] == v.root;
    FieldsParse(Descriptor(volId, total, t), v, RootRecord(t), t);
  }

  // A sector with these fields parses to their values.
  lemma {:induction false} FieldsParse(s: seq<Byte>, v: Values, root: Record, t: Tree)
    requires |s| == SECTOR && v.Fit() && v.kind == (if t.Primary? then 1 else 2) && (t.Joliet? ==> v.escape == UCS2_LEVEL3)
    requires s[0] == v.kind && s[1..6] == STANDARD_ID && s[6] == 1 && s[7] == 0 && s[881] == 1
    requires s[190..813] == v.text && v.text == Pad(623, t)
    requires s[40..72] == v.volId && s[88..88 + |v.escape|] == v.escape && s[156..190] == v.root
    requires s[80..88] == Both32(v.total) && s[120..124] == Both16(1) && s[124..128] == Both16(1)
    requires s[128..132] == Both16(SECTOR) && s[132..140] == Both32(10)
    requires s[140..144] == Le32(v.tableL) && s[148..152] == Be32(v.tableM) && ParseRecord(v.root) == Some(root)
    ensures ParseDescriptor(s, t) == Some(Volume(v.volId, v.total, root, 10, v.tableL, v.tableM))
  {
    ReadsBoth32(v.total);
    ReadsBoth32(10);
    ReadsBoth16(1);
    ReadsBoth16(SECTOR);
    Read32(v.tableL);
    Read32(v.tableM);
  }

  lemma {:induction false} TextField(v: Values)
    requires v.Fit()
    ensures var s := Lay(DescriptorFields(v), SECTOR); s[7] == 0 && s[190..813] == v.text
  {
    LaidField(DescriptorFields(v), SECTOR, 13);
    LaidGap(DescriptorFields(v), SECTOR, 7);
  }

  lemma {:induction false} FixedFields(v: Values)
    requires v.Fit()
    ensures var s := Lay(DescriptorFields(v), SECTOR);
            && s[0] == v.kind && s[1..6] == STANDARD_ID && s[6] == 1 && s[881] == 1
            && s[40..72] == v.volId && s[88..88 + |v.escape|] == v.escape && s[156..190] == v.root
  {
    var fs := DescriptorFields(v);
    var s := Lay(fs, SECTOR);
    LaidField(fs, SECTOR, 0);
    assert s[0..1][0] == s[0];
    LaidField(fs, SECTOR, 1);
    LaidField(fs, SECTOR, 2);
    assert s[6..7][0] == s[6];
    LaidField(fs, SECTOR, 3);
    LaidField(fs, SECTOR, 5);
    LaidField(fs, SECTOR, 12);
    LaidField(fs, SECTOR, 14);
    assert s[881..882][0] == s[881];
  }

  lemma {:induction false} NumberFields(v: Values)
    requires v.Fit()
    ensures var s := Lay(DescriptorFields(v), SECTOR);
            && s[80..88] == Both32(v.total) && s[120..124] == Both16(1) && s[124..128] == Both16(1)
            && s[128..132] == Both16(SECTOR) && s[132..140] == Both32(10)
            && s[140..144] == Le32(v.tableL) && s[148..152] == Be32(v.tableM)
  {
    var fs := DescriptorFields(v);
    LaidField(fs, SECTOR, 4);
    LaidField(fs, SECTOR, 6);
    LaidField(fs, SECTOR, 7);
    LaidField(fs, SECTOR, 8);
    LaidField(fs, SECTOR, 9);
    LaidField(fs, SECTOR, 10);
    LaidField(fs, SECTOR, 11);
  }

  lemma {:induction false} ImageReads(volId: seq<Byte>, files: seq<File>, t: Tree)
    requires Ascii(volId) && Seedable(files)
    ensures var img := Image(volId, files);
            && ReadSector(img, RootSector(t)) == Some(DirSector(files, t))
            && forall be :: ReadSector(img, PathTableSector(t, be)) == Some(PathTable(RootSector(t), be))
  {
    var total := Wrap32(NextSector(files));
    HeaderReads(Descriptor(volId, total, Primary), Descriptor(volId, total, Joliet),
                DirSector(files, Primary), DirSector(files, Joliet), Flat(Extents(files)));
  }

  lemma {:induction false} TerminatorReads()
    ensures var s := Lay(TerminatorFields(), SECTOR); s[0] == 255 && s[1..6] == STANDARD_ID && s[6] == 1
  {
    var fs := TerminatorFields();
    LaidField(fs, SECTOR, 0);
    LaidField(fs, SECTOR, 1);
    LaidField(fs, SECTOR, 2);
    var s := Lay(fs, SECTOR);
    assert s[0..1][0] == s[0] && s[6..7][0] == s[6];
  }

  lemma {:induction false} DescriptorStarts(volId: seq<Byte>, total: nat, t: Tree)
    requires Ascii(volId) && total < U32
    ensures var s := Descriptor(volId, total, t);
            s[0] == (if t.Primary? then 1 else 2) && s[1..6] == STANDARD_ID && s[6] == 1
  {
    FixedFields(DescriptorValues(volId, total, t));
  }

  /** The volume descriptor set of the image is the primary descriptor, the Joliet descriptor and the set
      terminator, in sectors 16 to 18. */
  lemma {:induction false} DescriptorSetReads(volId: seq<Byte>, files: seq<File>)
    requires Ascii(volId) && Seedable(files)
    ensures var total := Wrap32(NextSector(files));
            ReadSet(Image(volId, files), 16) == Some([Descriptor(volId, total, Primary), Descriptor(volId, total, Joliet)])
  {
    var total := Wrap32(NextSector(files));
    var p, j := Descriptor(volId, total, Primary), Descriptor(volId, total, Joliet);
    HeaderReads(p, j, DirSector(files, Primary), DirSector(files, Joliet), Flat(Extents(files)));
    TerminatorReads();
    DescriptorStarts(volId, total, Primary);
    DescriptorStarts(volId, total, Joliet);
    SetOfTwo(Image(volId, files), p, j, Lay(TerminatorFields(), SECTOR));
  }

  lemma {:induction false} SetOfTwo(img: seq<Byte>, p: seq<Byte>, j: seq<Byte>, end: seq<Byte>)
    requires ReadSector(img, 16) == Some(p) && ReadSector(img, 17) == Some(j) && ReadSector(img, 18) == Some(end)
    requires p[0] == 1 && p[1..6] == STANDARD_ID && p[6] == 1
    requires j[0] == 2 && j[1..6] == STANDARD_ID && j[6] == 1
    requires end[0] == 255 && end[1..6] == STANDARD_ID && end[6] == 1
    ensures ReadSet(img, 16) == Some([p, j])
  {
    assert ReadSet(img, 18) == Some([]);
    assert [j] + [] == [j] && [p] + [j] == [p, j];
    assert ReadSet(img, 17) == Some([j]);
  }

  lemma {:induction false} VolumeOpens(volId: seq<Byte>, files: seq<File>, t: Tree)
    requires Ascii(volId) && Seedable(files)
    ensures OpenVolume(Image(volId, files), t) ==
            Some(Volume(LabelField(volId, t), Wrap32(NextSector(files)), RootRecord(t), 10,
                        PathTableSector(t, false), PathTableSector(t, true)))
  {
    var total := Wrap32(NextSector(files));
    DescriptorSetReads(volId, files);
    DescriptorStarts(volId, total, Primary);
    DescriptorStarts(volId, total, Joliet);
    DescriptorParses(volId, total, t);
    OpensFrom(Image(volId, files), Descriptor(volId, total, Primary), Descriptor(volId, total, Joliet), t);
  }

  lemma {:induction false} OpensFrom(img: seq<Byte>, p: seq<Byte>, j: seq<Byte>, t: Tree)
    requires ReadSet(img, 16) == Some([p, j]) && |p| == SECTOR == |j| && p[0] == 1 && j[0] == 2
    ensures OpenVolume(img, t) == ParseDescriptor(if t.Primary? then p else j, t)
  {
    OneOfEach(p, j);
  }

  lemma {:induction false} OneOfEach(p: seq<Byte>, j: seq<Byte>)
    requires p != [] && p[0] == 1 && j != [] && j[0] == 2
    ensures OfKind([p, j], 1) == [p] && OfKind([p, j], 2) == [j]
  {
    assert [p, j][1..] == [j] && [j][1..] == [];
    assert OfKind([j], 1) == [] && OfKind([j], 2) == [j];
  }

  // ----- names

  lemma {:induction false} Ucs2Decodes(s: seq<Byte>)
    requires Ascii(s)
    ensures FromUcs2(Ucs2(s)) == Some(s)
  {
    if s != [] {
      Ucs2Decodes(s[1..]);
      assert Ucs2(s)[2..] == Ucs2(s[1..]);
      assert [s[0]] + s[1..] == s;
    }
  }

  lemma {:induction false} NameDecodes(name: seq<Byte>, t: Tree)
    requires Ascii(name)
    ensures NameOf(Ident(name, t), t) == Some(name)
  {
    if t.Joliet? {
      Ucs2Decodes(name);
    } else {
      assert (name + VERSION)[|name|..] == VERSION && (name + VERSION)[..|name|] == name;
    }
  }

  // ----- when a file list fits its directory sector

  function DirSize(files: seq<File>, t: Tree): nat
    requires Seedable(files)
  {
    if files == [] then 68
    else DirSize(files[..|files| - 1], t) + RecLen(|Ident(files[|files| - 1].name, t)|)
  }

  // Every identifier fits its record and all the records fit the one directory sector.
  predicate Fits(files: seq<File>, t: Tree)
    requires Seedable(files)
  {
    NamesFit(files, t) && DirSize(files, t) <= SECTOR
  }

  predicate NamesFit(files: seq<File>, t: Tree)
    requires Seedable(files)
  {
    forall i :: 0 <= i < |files| ==> |Ident(files[i].name, t)| <= 221
  }

  lemma {:induction false} EncodedAppend(rs: seq<Record>, r: Record)
    requires AllWritable(rs) && Writable(r)
    ensures Encoded(rs + [r]) == Encoded(rs) + [RecordBytes(r)]
    ensures Size(rs + [r]) == Size(rs) + RecLen(|r.ident|)
  {
    assert Encoded(rs + [r]) == Encoded(rs) + [RecordBytes(r)];
    FlatAppend(Encoded(rs), RecordBytes(r));
  }

  lemma {:induction false} SizeIsDirSize(files: seq<File>, t: Tree)
    requires Seedable(files)
    ensures Size(DirRecords(files, t)) == DirSize(files, t)
  {
    if files == [] {
      var rs := DirRecords(files, t);
      EncodedAppend([], rs[0]);
      EncodedAppend([rs[0]], rs[1]);
      assert [] + [rs[0]] == [rs[0]] && [rs[0]] + [rs[1]] == rs;
      assert Encoded([]) == [];
    } else {
      var n := |files| - 1;
      SizeIsDirSize(files[..n], t);
      EncodedAppend(DirRecords(files[..n], t), FileRecord(files, n, t));
    }
  }

  lemma {:induction false} DirBytesSize(files: seq<File>, t: Tree)
    requires Seedable(files)
    ensures |DirBytes(files, t)| == DirSize(files, t)
  {
    SizeIsDirSize(files, t);
  }

  // The writer panics exactly when the records before the last already overflow the sector.
  lemma {:induction false} PanicsWhen(files: seq<File>, t: Tree)
    requires Seedable(files)
    ensures DirPanics(files, t) <==> files != [] && DirSize(files[..|files| - 1], t) > SECTOR
  {
    if files != [] {
      DirBytesSize(files[..|files| - 1], t);
    }
  }

  // It is enough that some proper prefix overflows.
  lemma {:induction false} PrefixPanics(files: seq<File>, i: nat, t: Tree)
    requires Seedable(files) && i < |files| && |DirBytes(files[..i], t)| > SECTOR
    ensures DirPanics(files, t)
  {
    Overflows(files[..i], t);
    PrefixSize(files, i, t);
    PanicsWhen(files, t);
  }

  lemma {:induction false} PrefixSize(files: seq<File>, i: nat, t: Tree)
    requires Seedable(files) && i < |files| && DirSize(files[..i], t) > SECTOR
    ensures DirSize(files[..|files| - 1], t) > SECTOR
  {
    DirSizeMonotone(files, i, |files| - 1, t);
  }

  lemma {:induction false} Overflows(files: seq<File>, t: Tree)
    requires Seedable(files) && |DirBytes(files, t)| > SECTOR
    ensures DirSize(files, t) > SECTOR
  {
    DirBytesSize(files, t);
  }

  lemma {:induction false} DirStep(files: seq<File>, i: nat, t: Tree)
    requires Seedable(files) && i < |files|
    ensures DirBytes(files[..i + 1], t) ==
            DirBytes(files[..i], t) + RecordBytes(FileRecord(files, i, t))
    ensures DirSize(files[..i + 1], t) == DirSize(files[..i], t) + RecLen(|Ident(files[i].name, t)|)
  {
    assert files[..i + 1][..i] == files[..i];
    assert FileRecord(files[..i + 1], i, t) == FileRecord(files, i, t);
    EncodedAppend(DirRecords(files[..i], t), FileRecord(files, i, t));
    FlatAppend(Encoded(DirRecords(files[..i], t)), RecordBytes(FileRecord(files, i, t)));
  }

  lemma {:induction false} DotEntries(t: Tree)
    ensures DirBytes([], t) ==
            RecordBytes(RootRecord(t)) + RecordBytes(RootRecord(t).(ident := [1]))
  {
    var rs := DirRecords([], t);
    EncodedHead(rs);
    EncodedHead(rs[1..]);
    assert rs[1..][1..] == [];
    assert Flat(Encoded([])) == [];
  }

  lemma {:induction false} DirSizeMonotone(files: seq<File>, i: nat, j: nat, t: Tree)
    requires Seedable(files) && i <= j <= |files|
    ensures DirSize(files[..i], t) <= DirSize(files[..j], t)
    decreases j
  {
    if i < j {
      DirSizeMonotone(files, i, j - 1, t);
      assert files[..j][..j - 1] == files[..j - 1];
    }
  }

  lemma {:induction false} AllShortAppend(rs: seq<Record>, r: Record)
    ensures AllShort(rs + [r]) <==> AllShort(rs) && Short(r)
  {
    assert AllShort(rs + [r]) ==> Short((rs + [r])[|rs|]);
    forall i | AllShort(rs + [r]) && 0 <= i < |rs| ensures Short(rs[i]) {
      assert Short((rs + [r])[i]);
    }
  }

  lemma {:induction false} ShortIffFits(files: seq<File>, t: Tree)
    requires Seedable(files)
    ensures AllShort(DirRecords(files, t)) <==> NamesFit(files, t)
  {
    if files != [] {
      var n := |files| - 1;
      ShortIffFits(files[..n], t);
      AllShortAppend(DirRecords(files[..n], t), FileRecord(files, n, t));
      LastFits(files, t);
    }
  }

  lemma {:induction false} LastFits(files: seq<File>, t: Tree)
    requires Seedable(files) && files != []
    ensures NamesFit(files, t) <==> NamesFit(files[..|files| - 1], t) && |Ident(files[|files| - 1].name, t)| <= 221
  {
    var n := |files| - 1;
    forall i | 0 <= i < n ensures files[..n][i] == files[i] {
    }
    if NamesFit(files[..n], t) && |Ident(files[n].name, t)| <= 221 {
      forall i | 0 <= i < |files| ensures |Ident(files[i].name, t)| <= 221 {
        assert i < n ==> files[i] == files[..n][i];
      }
    }
  }

  lemma {:induction false} DirectoryParses(files: seq<File>, t: Tree)
    requires Seedable(files)
    ensures var p := ParseRecords(DirSector(files, t));
            if Fits(files, t) then p == Some(DirRecords(files, t)) else p.None? || |p.value| < |files| + 2
  {
    RecordsParseExactly(DirRecords(files, t), SECTOR);
    SizeIsDirSize(files, t);
    ShortIffFits(files, t);
  }

  lemma {:induction false} RootReadsFrom(img: seq<Byte>, dir: seq<Byte>, rs: seq<Record>, t: Tree, fits: bool)
    requires OpenVolume(img, t).Some? && OpenVolume(img, t).value.root == RootRecord(t)
    requires ReadSector(img, RootSector(t)) == Some(dir)
    requires |rs| >= 2 && rs[0] == RootRecord(t) && rs[1] == RootRecord(t).(ident := [1])
    requires var p := ParseRecords(dir); if fits then p == Some(rs) else p.None? || |p.value| < |rs|
    ensures var p := ReadRoot(img, t); if fits then p == Some(rs[2..]) else p.None? || |p.value| < |rs| - 2
  {
  }

  // What the rest of the proof uses of an image.
  ghost predicate Carries(img: seq<Byte>, volId: seq<Byte>, files: seq<File>, t: Tree)
    requires Ascii(volId) && Seedable(files)
  {
    && |img| >= FIRST_FILE * SECTOR && img[FIRST_FILE * SECTOR..] == Flat(Extents(files))
    && OpenVolume(img, t) == Some(Volume(LabelField(volId, t), Wrap32(NextSector(files)), RootRecord(t), 10,
                                         PathTableSector(t, false), PathTableSector(t, true)))
    && ReadSector(img, RootSector(t)) == Some(DirSector(files, t))
    && ReadSector(img, PathTableSector(t, false)) == Some(PathTable(RootSector(t), false))
    && ReadSector(img, PathTableSector(t, true)) == Some(PathTable(RootSector(t), true))
  }

  lemma {:induction false} ImageCarries(volId: seq<Byte>, files: seq<File>, t: Tree)
    requires Ascii(volId) && Seedable(files)
    ensures Carries(Image(volId, files), volId, files, t)
  {
    ImageReads(volId, files, t);
    VolumeOpens(volId, files, t);
    var h := ImageSplits(volId, files);
  }

  lemma {:induction false} ImageSplits(volId: seq<Byte>, files: seq<File>) returns (h: seq<Byte>)
    requires Ascii(volId) && Seedable(files)
    ensures |h| == FIRST_FILE * SECTOR && Image(volId, files) == h + Flat(Extents(files))
  {
    var total := Wrap32(NextSector(files));
    var hs := Header(Descriptor(volId, total, Primary), Descriptor(volId, total, Joliet),
                     DirSector(files, Primary), DirSector(files, Joliet));
    FlatLength(hs, SECTOR);
    h := Flat(hs);
  }

  lemma {:induction false} RootReads(img: seq<Byte>, volId: seq<Byte>, files: seq<File>, t: Tree)
    requires Ascii(volId) && Seedable(files) && Carries(img, volId, files, t)
    ensures var p := ReadRoot(img, t);
            if Fits(files, t) then p == Some(DirRecords(files, t)[2..]) else p.None? || |p.value| < |files|
  {
    DirectoryParses(files, t);
    DirRecordsHead(files, t);
    RootReadsFrom(img, DirSector(files, t), DirRecords(files, t), t, Fits(files, t));
  }

  lemma {:induction false} RecordOfPrefix(files: seq<File>, n: nat, i: nat, t: Tree)
    requires Seedable(files) && i < n <= |files|
    ensures FileRecord(files, i, t) == FileRecord(files[..n], i, t)
  {
    assert files[..n][..i] == files[..i];
  }

  lemma {:induction false} DirRecordsStart(files: seq<File>, t: Tree)
    requires Seedable(files)
    ensures var rs := DirRecords(files, t); rs[0] == RootRecord(t) && rs[1] == RootRecord(t).(ident := [1])
  {
    if files != [] {
      DirRecordsStart(files[..|files| - 1], t);
    }
  }

  lemma {:induction false} DirRecordsGrow(files: seq<File>, t: Tree)
    requires Seedable(files) && files != []
    ensures var n := |files| - 1; DirRecords(files, t) == DirRecords(files[..n], t) + [FileRecord(files, n, t)]
  {
  }

  lemma {:induction false} EarlierRecord(files: seq<File>, t: Tree, k: nat)
    requires Seedable(files) && files != [] && k < |files| + 1
    ensures DirRecords(files, t)[k] == DirRecords(files[..|files| - 1], t)[k]
  {
    DirRecordsGrow(files, t);
  }

  lemma {:induction false} DirRecordAt(files: seq<File>, t: Tree, i: nat)
    requires Seedable(files) && i < |files|
    ensures DirRecords(files, t)[i + 2] == FileRecord(files, i, t)
    decreases |files|
  {
    var n := |files| - 1;
    if i < n {
      EarlierRecord(files, t, i + 2);
      DirRecordAt(files[..n], t, i);
      RecordOfPrefix(files, n, i, t);
    } else {
      DirRecordsGrow(files, t);
    }
  }

  lemma {:induction false} DirRecordsHead(files: seq<File>, t: Tree)
    requires Seedable(files)
    ensures var rs := DirRecords(files, t);
            && rs[0] == RootRecord(t) && rs[1] == RootRecord(t).(ident := [1])
            && forall i :: 0 <= i < |files| ==> rs[i + 2] == FileRecord(files, i, t)
  {
    DirRecordsStart(files, t);
    forall i | 0 <= i < |files| ensures DirRecords(files, t)[i + 2] == FileRecord(files, i, t) {
      DirRecordAt(files, t, i);
    }
  }

  // ----- placement

  lemma {:induction false} ExtentsLength(files: seq<File>)
    ensures NextSector(files) >= FIRST_FILE
    ensures |Flat(Extents(files))| == (NextSector(files) - FIRST_FILE) * SECTOR
  {
    if files != [] {
      var n := |files| - 1;
      ExtentsLength(files[..n]);
      ExtentsSplit(files, n);
    }
  }

  lemma {:induction false} ExtentsSplit(files: seq<File>, i: nat)
    requires i < |files|
    ensures Flat(Extents(files)) ==
            Flat(Extents(files[..i])) + Extent(files[i].data) + Flat(Extents(files[i + 1..]))
    ensures i + 1 == |files| ==> Flat(Extents(files[i + 1..])) == []
  {
    var a, b := Extents(files[..i]), Extents(files[i + 1..]);
    assert Extents(files) == a + [Extent(files[i].data)] + b;
    FlatConcat(a + [Extent(files[i].data)], b);
    FlatAppend(a, Extent(files[i].data));
  }

  lemma {:induction false} NextSectorStep(files: seq<File>, i: nat)
    requires i < |files|
    ensures NextSector(files[..i + 1]) == NextSector(files[..i]) + SectorsOf(|files[i].data|)
  {
    assert files[..i + 1][..i] == files[..i];
  }

  lemma {:induction false} NextSectorMonotone(files: seq<File>, i: nat, j: nat)
    requires i <= j <= |files|
    ensures NextSector(files[..i]) <= NextSector(files[..j])
    ensures i < j ==> NextSector(files[..i]) + SectorsOf(|files[i].data|) <= NextSector(files[..j])
    decreases j
  {
    if i < j {
      NextSectorMonotone(files, i, j - 1);
      NextSectorStep(files, j - 1);
    }
  }

  lemma {:induction false} NextSectorBound(files: seq<File>)
    requires Seedable(files)
    ensures NextSector(files) <= FIRST_FILE + 32768 * |files|
  {
    if files != [] {
      NextSectorBound(files[..|files| - 1]);
    }
  }

  lemma {:induction false} DirSizeBound(files: seq<File>, t: Tree)
    requires Seedable(files)
    ensures DirSize(files, t) >= 68 + 33 * |files|
  {
    if files != [] {
      DirSizeBound(files[..|files| - 1], t);
    }
  }

  /** A list whose directories do not make the writer panic is far too short for the 32-bit
      sector numbers to wrap around. */
  lemma {:induction false} SectorsNeverWrap(files: seq<File>, t: Tree)
    requires Seedable(files) && !DirPanics(files, t)
    ensures NextSector(files) < U32
  {
    NextSectorBound(files);
    PanicsWhen(files, t);
    if files != [] {
      DirSizeBound(files[..|files| - 1], t);
    }
  }

  lemma {:induction false} ImageLength(img: seq<Byte>, files: seq<File>)
    requires |img| >= FIRST_FILE * SECTOR && img[FIRST_FILE * SECTOR..] == Flat(Extents(files))
    ensures |img| == NextSector(files) * SECTOR
  {
    ExtentsLength(files);
  }

  lemma {:induction false} ExtentEnds(files: seq<File>, i: nat)
    requires i < |files|
    ensures FIRST_FILE <= NextSector(files[..i])
    ensures NextSector(files[..i + 1]) == NextSector(files[..i]) + SectorsOf(|files[i].data|) <= NextSector(files)
    ensures i + 1 == |files| ==> NextSector(files[..i + 1]) == NextSector(files)
  {
    ExtentsLength(files[..i]);
    NextSectorStep(files, i);
    NextSectorMonotone(files, i + 1, |files|);
    assert files[..|files|] == files;
  }

  /** A file takes as few sectors as hold it, and at least one. */
  lemma {:induction false} SectorsAreFewest(len: nat)
    ensures var n := SectorsOf(len); n >= 1 && len <= n * 2048 && (n == 1 || (n - 1) * 2048 < len)
  {
  }

  /** File extents start at sector 25, follow each other without gap or overlap, and end at the
      end of the image. */
  lemma {:induction false} ExtentsPlaced(volId: seq<Byte>, files: seq<File>, i: nat)
    requires Ascii(volId) && Seedable(files) && !DirPanics(files, Primary) && i < |files|
    ensures var r := FileRecord(files, i, Primary);
            var end := r.extent + SectorsOf(r.length);
            && r.length == |files[i].data| && FIRST_FILE <= r.extent
            && (i == 0 ==> r.extent == FIRST_FILE)
            && (forall j :: i < j < |files| ==> end <= FileRecord(files, j, Primary).extent)
            && (i + 1 < |files| ==> end == FileRecord(files, i + 1, Primary).extent)
            && end * SECTOR <= |Image(volId, files)|
            && (i + 1 == |files| ==> end * SECTOR == |Image(volId, files)|)
  {
    SectorsNeverWrap(files, Primary);
    RecordUnwrapped(files, i, Primary);
    ExtentEnds(files, i);
    assert files[..0] == [];
    ImageCarries(volId, files, Primary);
    ImageLength(Image(volId, files), files);
    forall j | i < j < |files| ensures NextSector(files[..i + 1]) <= FileRecord(files, j, Primary).extent {
      LaterStarts(files, i, j);
    }
    if i + 1 < |files| {
      LaterStarts(files, i, i + 1);
    }
  }

  lemma {:induction false} LaterStarts(files: seq<File>, i: nat, j: nat)
    requires Seedable(files) && NextSector(files) < U32 && i < j < |files|
    ensures NextSector(files[..i + 1]) <= FileRecord(files, j, Primary).extent
    ensures j == i + 1 ==> NextSector(files[..i + 1]) == FileRecord(files, j, Primary).extent
  {
    NextSectorMonotone(files, i + 1, j);
    RecordUnwrapped(files, j, Primary);
  }

  lemma {:induction false} FileReads(img: seq<Byte>, files: seq<File>, i: nat, t: Tree)
    requires |img| >= FIRST_FILE * SECTOR && img[FIRST_FILE * SECTOR..] == Flat(Extents(files)) && i < |files|
    requires Seedable(files) && NextSector(files) < U32
    ensures ReadFile(img, FileRecord(files, i, t), t) == Some(files[i])
  {
    NameDecodes(files[i].name, t);
    RecordUnwrapped(files, i, t);
    DataAt(img, files, i);
    ReadFrom(img, NextSector(files[..i]), files[i], t);
  }

  lemma {:induction false} RecordUnwrapped(files: seq<File>, i: nat, t: Tree)
    requires Seedable(files) && i < |files| && NextSector(files) < U32
    ensures FileRecord(files, i, t) == Record(Ident(files[i].name, t), NextSector(files[..i]), |files[i].data|, false)
  {
    NextSectorMonotone(files, i, |files|);
    assert files[..|files|] == files;
  }

  lemma {:induction false} ReadFrom(img: seq<Byte>, extent: nat, f: File, t: Tree)
    requires Ascii(f.name) && NameOf(Ident(f.name, t), t) == Some(f.name)
    requires extent * SECTOR + |f.data| <= |img| && img[extent * SECTOR..extent * SECTOR + |f.data|] == f.data
    ensures ReadFile(img, Record(Ident(f.name, t), extent, |f.data|, false), t) == Some(f)
  {
  }

  lemma {:induction false} DataAt(img: seq<Byte>, files: seq<File>, i: nat)
    requires |img| >= FIRST_FILE * SECTOR && img[FIRST_FILE * SECTOR..] == Flat(Extents(files)) && i < |files|
    ensures var lo := NextSector(files[..i]) * SECTOR;
            lo + |files[i].data| <= |img| && img[lo..lo + |files[i].data|] == files[i].data
  {
    var h := img[..FIRST_FILE * SECTOR];
    assert img == h + Flat(Extents(files));
    ExtentsLength(files[..i]);
    ExtentsSplit(files, i);
    SliceAt(h, Flat(Extents(files[..i])), files[i].data, Extent(files[i].data), Flat(Extents(files[i + 1..])));
  }

  lemma {:induction false} SliceAt(h: seq<Byte>, before: seq<Byte>, data: seq<Byte>, ext: seq<Byte>, after: seq<Byte>)
    requires data <= ext
    ensures var img, lo := h + (before + ext + after), |h| + |before|;
            lo + |data| <= |img| && img[lo..lo + |data|] == data
  {
  }

  // ----- the round trip

  lemma {:induction false} FilesRead(img: seq<Byte>, rs: seq<Record>, files: seq<File>, t: Tree)
    requires |rs| == |files| && forall i :: 0 <= i < |rs| ==> ReadFile(img, rs[i], t) == Some(files[i])
    ensures ReadFiles(img, rs, t) == Some(files)
  {
    if rs != [] {
      FilesRead(img, rs[1..], files[1..], t);
      assert [files[0]] + files[1..] == files;
    }
  }

  lemma {:induction false} FilesCounted(img: seq<Byte>, rs: seq<Record>, t: Tree)
    ensures ReadFiles(img, rs, t).Some? ==> |ReadFiles(img, rs, t).value| == |rs|
  {
    if rs != [] {
      FilesCounted(img, rs[1..], t);
    }
  }

  lemma {:induction false} RecordsRead(img: seq<Byte>, files: seq<File>, t: Tree)
    requires |img| >= FIRST_FILE * SECTOR && img[FIRST_FILE * SECTOR..] == Flat(Extents(files))
    requires Seedable(files) && NextSector(files) < U32
    ensures ReadFiles(img, DirRecords(files, t)[2..], t) == Some(files)
  {
    var rs := DirRecords(files, t)[2..];
    forall i | 0 <= i < |rs| ensures ReadFile(img, rs[i], t) == Some(files[i]) {
      DirRecordAt(files, t, i);
      FileReads(img, files, i, t);
    }
    FilesRead(img, rs, files, t);
  }

  lemma {:induction false} TreeReads(img: seq<Byte>, volId: seq<Byte>, files: seq<File>, t: Tree)
    requires Ascii(volId) && Seedable(files) && Carries(img, volId, files, t) && NextSector(files) < U32
    ensures ReadTree(img, t) == Some(files) <==> Fits(files, t)
  {
    RootReads(img, volId, files, t);
    if Fits(files, t) {
      RecordsRead(img, files, t);
    } else if ReadRoot(img, t).Some? {
      FilesCounted(img, ReadRoot(img, t).value, t);
    }
  }

  /** Reading a tree of the image gives back every file's name and bytes, in order, if and only
      if each identifier fits a directory record and the records fit the one sector the writer
      reserves for them. */
  lemma {:induction false} ReadingUndoesWriting(volId: seq<Byte>, files: seq<File>, t: Tree)
    requires Ascii(volId) && Seedable(files) && !DirPanics(files, Primary) && !DirPanics(files, Joliet)
    ensures ReadTree(Image(volId, files), t) == Some(files) <==> Fits(files, t)
  {
    SectorsNeverWrap(files, t);
    ImageCarries(volId, files, t);
    TreeReads(Image(volId, files), volId, files, t);
  }

  lemma {:induction false} OneFileSize(file: File, t: Tree)
    requires Seedable([file]) && Ascii(file.name)
    ensures DirSize([file], t) == 68 + RecLen(|Ident(file.name, t)|)
  {
    assert [file][..0] == [] && DirSize([], t) == 68;
  }

  lemma {:induction false} OneFileWritten(file: File, t: Tree)
    requires Seedable([file]) && Ascii(file.name)
    ensures !DirPanics([file], t) && (Fits([file], t) <==> |Ident(file.name, t)| <= 221)
  {
    OneFileSize(file, t);
    PanicsWhen([file], t);
    assert [file][..0] == [];
  }

  /** The size check does not see names: a single file of any content and name is written without complaint,
      and reads back from the primary tree if and only if its name is shorter than 220 bytes. At 220 bytes
      the identifier is written whole in a record of odd length, 255, which section 9.1.12 of ECMA-119
      does not allow; beyond, it is cut. */
  lemma {:induction false} LongNameIsLost(volId: seq<Byte>, name: seq<Byte>, data: seq<Byte>)
    requires Ascii(volId) && Ascii(name) && |data| <= MAX_FILE
    ensures var files := [File(name, data)];
            && Seedable(files) && !DirPanics(files, Primary) && !DirPanics(files, Joliet)
            && (ReadTree(Image(volId, files), Primary) == Some(files) <==> |name| < 220)
  {
    var file := File(name, data);
    OneFileWritten(file, Primary);
    OneFileWritten(file, Joliet);
    ReadingUndoesWriting(volId, [file], Primary);
    assert |Ident(name, Primary)| == |name| + 2;
  }

  lemma {:induction false} SameRecords(p: seq<Byte>, volId: seq<Byte>, files: seq<File>, i: nat, t: Tree)
    requires Ascii(volId) && Seedable(files) && Carries(p, volId, files, t) && Fits(files, t) && i < |files|
    ensures var r := ReadRoot(p, t);
            && r.Some? && |r.value| == |files|
            && r.value[i] == FileRecord(files, i, t)
  {
    RootReads(p, volId, files, t);
    DirRecordsHead(files, t);
    assert DirRecords(files, t)[2..][i] == DirRecords(files, t)[i + 2];
  }

  /** The i-th records of the two trees name the same extent and length. */
  lemma {:induction false} TreesAgree(volId: seq<Byte>, files: seq<File>, i: nat)
    requires Ascii(volId) && Seedable(files) && Fits(files, Primary) && Fits(files, Joliet) && i < |files|
    ensures var p, j := ReadRoot(Image(volId, files), Primary), ReadRoot(Image(volId, files), Joliet);
            && p.Some? && j.Some? && |p.value| == |j.value| == |files|
            && p.value[i].extent == j.value[i].extent && p.value[i].length == j.value[i].length == |files[i].data|
  {
    ImageCarries(volId, files, Primary);
    SameRecords(Image(volId, files), volId, files, i, Primary);
    ImageCarries(volId, files, Joliet);
    SameRecords(Image(volId, files), volId, files, i, Joliet);
  }

  /** Both descriptors carry, in both byte orders, the image's length in sectors; and in each tree
      both path tables name the root directory that the descriptor's root record names. */
  lemma {:induction false} DescriptorsAgree(volId: seq<Byte>, files: seq<File>, t: Tree)
    requires Ascii(volId) && Seedable(files) && !DirPanics(files, t)
    ensures var img := Image(volId, files);
            var v := OpenVolume(img, t);
            && v.Some? && v.value.total * SECTOR == |img|
            && ReadPathTable(img, v.value.tableL, v.value.tableSize, false) == Some(v.value.root.extent)
            && ReadPathTable(img, v.value.tableM, v.value.tableSize, true) == Some(v.value.root.extent)
  {
    ImageCarries(volId, files, t);
    VolumeAgrees(Image(volId, files), volId, files, t);
  }

  lemma {:induction false} VolumeAgrees(img: seq<Byte>, volId: seq<Byte>, files: seq<File>, t: Tree)
    requires Ascii(volId) && Seedable(files) && Carries(img, volId, files, t) && !DirPanics(files, t)
    ensures var v := OpenVolume(img, t);
            && v.Some? && v.value.total * SECTOR == |img|
            && ReadPathTable(img, v.value.tableL, v.value.tableSize, false) == Some(v.value.root.extent)
            && ReadPathTable(img, v.value.tableM, v.value.tableSize, true) == Some(v.value.root.extent)
  {
    ImageLength(img, files);
    SectorsNeverWrap(files, t);
    TableReads(img, PathTableSector(t, false), RootSector(t), false);
    TableReads(img, PathTableSector(t, true), RootSector(t), true);
  }

  lemma {:induction false} TableReads(img: seq<Byte>, k: nat, lba: nat, be: bool)
    requires lba < U32 && ReadSector(img, k) == Some(PathTable(lba, be))
    ensures ReadPathTable(img, k, 10, be) == Some(lba)
  {
    PathTableReads(lba, be);
  }

  lemma {:induction false} PathTableReads(lba: nat, be: bool)
    requires lba < U32
    ensures var d := PathTable(lba, be);
            && d[0] == 1 && d[8] == 0
            && (if be then ReadBe16(d[6..8]) == 1 && ReadBe32(d[2..6]) == lba
                else ReadLe16(d[6..8]) == 1 && ReadLe32(d[2..6]) == lba)
  {
    var fs, d := PathTableFields(lba, be), PathTable(lba, be);
    LaidField(fs, SECTOR, 0);
    assert d[0..2][0] == d[0];
    LaidField(fs, SECTOR, 1);
    LaidField(fs, SECTOR, 2);
    LaidField(fs, SECTOR, 3);
    assert d[8..10][0] == d[8];
    Read32(lba);
  }

  // ----- the volume label

  function TrimSpaces(s: seq<Byte>): seq<Byte> {
    if s != [] && s[|s| - 1] == 0x20 then TrimSpaces(s[..|s| - 1]) else s
  }

  // The label a reader shows: the field decoded, less its padding.
  function LabelOf(v: Volume, t: Tree): Option<seq<Byte>> {
    var d := if t.Primary? then Some(v.volId) else FromUcs2(v.volId);
    if d.None? then None else Some(TrimSpaces(d.value))
  }

  function SpacePadded(s: seq<Byte>, n: nat): seq<Byte>
    decreases n - |s|
  {
    if |s| >= n then s[..n] else SpacePadded(s + [0x20], n)
  }

  lemma {:induction false} TrimUndoesPadding(s: seq<Byte>, n: nat)
    ensures TrimSpaces(SpacePadded(s, n)) == if |s| >= n then TrimSpaces(s[..n]) else TrimSpaces(s)
    decreases n - |s|
  {
    if |s| < n {
      TrimUndoesPadding(s + [0x20], n);
      assert (s + [0x20])[..|s|] == s;
      assert |s| + 1 == n ==> (s + [0x20])[..n] == s + [0x20];
    }
  }

  lemma {:induction false} TrimShortens(s: seq<Byte>)
    ensures |TrimSpaces(s)| <= |s|
    ensures TrimSpaces(s) == s <==> s == [] || s[|s| - 1] != 0x20
  {
    if s != [] && s[|s| - 1] == 0x20 {
      TrimShortens(s[..|s| - 1]);
    }
  }

  lemma {:induction false} PadIsSpaces(s: seq<Byte>, n: nat)
    requires |s| <= n
    ensures SpacePadded(s, n) == s + Pad(n - |s|, Primary)
    decreases n - |s|
  {
    if |s| < n {
      PadIsSpaces(s + [0x20], n);
      assert [0x20] + Pad(n - |s| - 1, Primary) == Pad(n - |s|, Primary);
    }
  }

  lemma {:induction false} Ucs2OfPrefix(s: seq<Byte>, n: nat)
    requires Ascii(s) && n <= |s|
    ensures Ucs2(s)[..2 * n] == Ucs2(s[..n])
  {
    if n > 0 {
      Ucs2OfPrefix(s[1..], n - 1);
      assert s[1..][..n - 1] == s[..n][1..];
      assert Ucs2(s)[..2 * n] == [0, s[0]] + Ucs2(s[1..])[..2 * (n - 1)];
    }
  }

  lemma {:induction false} Ucs2Append(s: seq<Byte>, c: Byte)
    requires Ascii(s) && c < 128
    ensures Ucs2(s + [c]) == Ucs2(s) + [0, c]
  {
    if s == [] {
      assert s + [c] == [c] && [c][1..] == [];
    } else {
      Ucs2Append(s[1..], c);
      assert (s + [c])[1..] == s[1..] + [c];
    }
  }

  lemma {:induction false} Ucs2Padding(s: seq<Byte>, n: nat)
    requires Ascii(s) && |s| <= n
    ensures Ascii(SpacePadded(s, n)) && Ucs2(SpacePadded(s, n)) == Ucs2(s) + Pad(2 * (n - |s|), Joliet)
    decreases n - |s|
  {
    if |s| == n {
      assert s[..n] == s;
    } else {
      Ucs2Padding(s + [0x20], n);
      Ucs2Append(s, 0x20);
      assert [0, 0x20] + Pad(2 * (n - |s| - 1), Joliet) == Pad(2 * (n - |s|), Joliet);
    }
  }

  lemma {:induction false} LabelFieldDecodes(volId: seq<Byte>, t: Tree)
    requires Ascii(volId)
    ensures var n := if t.Primary? then 32 else 16;
            (if t.Primary? then Some(LabelField(volId, t)) else FromUcs2(LabelField(volId, t))) == Some(SpacePadded(volId, n))
  {
    if t.Primary? {
      if |volId| < 32 { PadIsSpaces(volId, 32); }
    } else if |volId| >= 16 {
      Ucs2OfPrefix(volId, 16);
      Ucs2Decodes(volId[..16]);
    } else {
      Ucs2Padding(volId, 16);
      Ucs2Decodes(SpacePadded(volId, 16));
    }
  }

  lemma {:induction false} LabelDecodes(v: Volume, volId: seq<Byte>, t: Tree)
    requires Ascii(volId) && v.volId == LabelField(volId, t)
    ensures LabelOf(v, t) == Some(volId) <==>
            |volId| <= (if t.Primary? then 32 else 16) && (volId == [] || volId[|volId| - 1] != 0x20)
  {
    LabelFieldDecodes(volId, t);
    TrimmedLabel(volId, if t.Primary? then 32 else 16);
  }

  /** The label reads back if and only if it fits its 32-byte field and does not end in the
      padding character. */
  lemma {:induction false} LabelReadsBack(volId: seq<Byte>, files: seq<File>, t: Tree)
    requires Ascii(volId) && Seedable(files)
    ensures var v := OpenVolume(Image(volId, files), t);
            && v.Some?
            && (LabelOf(v.value, t) == Some(volId) <==>
                |volId| <= (if t.Primary? then 32 else 16) && (volId == [] || volId[|volId| - 1] != 0x20))
  {
    VolumeOpens(volId, files, t);
    LabelDecodes(OpenVolume(Image(volId, files), t).value, volId, t);
  }

  lemma {:induction false} TrimmedLabel(volId: seq<Byte>, n: nat)
    ensures TrimSpaces(SpacePadded(volId, n)) == volId <==> |volId| <= n && (volId == [] || volId[|volId| - 1] != 0x20)
  {
    TrimUndoesPadding(volId, n);
    TrimShortens(volId);
    if |volId| >= n {
      TrimShortens(volId[..n]);
      assert |volId| == n ==> volId[..n] == volId;
    }
  }
}
