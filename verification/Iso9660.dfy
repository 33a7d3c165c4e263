/**
 The seed image of `internal/cloudinit/iso9660.go` as bytes, and a reader for it.

 The first half gives the image's parts as functions of the file list, with the clipping the
 source has: identifiers longer than a record can hold are cut, directory records beyond the
 one directory sector are cut or make the writer panic. The second half is a reader written
 from ECMA-119 (2nd edition), sections 8.1 to 8.5, 9.1 and 9.4, which knows nothing of the writer.
 */
module Iso9660 {
  import opened Wrappers
  import opened Bytes

  const SECTOR: nat := 2048
  const MAX_FILE: nat := 0x400_0000
  const FIRST_FILE: nat := 25
  const STANDARD_ID: seq<Byte> := [0x43, 0x44, 0x30, 0x30, 0x31] // "CD001"
  const UCS2_LEVEL3: seq<Byte> := [0x25, 0x2F, 0x45]
  const VERSION: seq<Byte> := [0x3B, 0x31] // ";1"

  datatype Tree = Primary | Joliet

  datatype File = File(name: seq<Byte>, data: seq<Byte>)

  datatype Record = Record(ident: seq<Byte>, extent: nat, length: nat, isDir: bool)

  // ----- names

  predicate Ascii(s: seq<Byte>) {
    forall i :: 0 <= i < |s| ==> s[i] < 128
  }

  // UTF-16 big-endian of an ASCII string.
  function Ucs2(s: seq<Byte>): (u: seq<Byte>)
    requires Ascii(s)
    ensures |u| == 2 * |s|
  {
    if s == [] then [] else [0, s[0]] + Ucs2(s[1..])
  }

  function Ident(name: seq<Byte>, t: Tree): seq<Byte>
    requires Ascii(name)
  {
    if t.Primary? then name + VERSION else Ucs2(name)
  }

  // ----- placement

  function SectorsOf(len: nat): (n: nat)
  {
    var n := (len + SECTOR - 1) / SECTOR;
    if n == 0 then 1 else n
  }

  // The first sector after the given files.
  function NextSector(files: seq<File>): nat {
    if files == [] then FIRST_FILE
    else NextSector(files[..|files| - 1]) + SectorsOf(|files[|files| - 1].data|)
  }

  // ----- directories

  function RecLen(identLen: nat): (n: nat)
    ensures 33 <= n <= 255
  {
    var even := 33 + identLen + (33 + identLen) % 2;
    if even > 255 then 255 else even
  }

  predicate Writable(r: Record) {
    r.extent < U32 && r.length < U32
  }

  function Kept(ident: seq<Byte>): seq<Byte> {
    if |ident| <= RecLen(|ident|) - 33 then ident else ident[..RecLen(|ident|) - 33]
  }

  function RecordFields(r: Record): (fs: seq<Field>)
    requires Writable(r)
    ensures Layout(fs, RecLen(|r.ident|))
  {
    [Field(0, [RecLen(|r.ident|), 0]),
     Field(2, Both32(r.extent)),
     Field(10, Both32(r.length)),
     Field(25, [if r.isDir then 2 else 0, 0, 0]),
     Field(28, Both16(1)),
     Field(32, [|r.ident| % 256]),
     Field(33, Kept(r.ident))]
  }

  function RecordBytes(r: Record): (b: seq<Byte>)
    requires Writable(r)
    ensures |b| == RecLen(|r.ident|)
  {
    Lay(RecordFields(r), RecLen(|r.ident|))
  }

  function FileRecord(files: seq<File>, i: nat, t: Tree): (r: Record)
    requires i < |files| && Ascii(files[i].name)
    ensures |files[i].data| <= MAX_FILE ==> Writable(r)
  {
    Record(Ident(files[i].name, t), Wrap32(NextSector(files[..i])), |files[i].data|, false)
  }

  predicate Seedable(files: seq<File>) {
    forall i :: 0 <= i < |files| ==> Ascii(files[i].name) && |files[i].data| <= MAX_FILE
  }

  function RootSector(t: Tree): nat {
    if t.Primary? then 23 else 24
  }

  function RootRecord(t: Tree): Record {
    Record([0], RootSector(t), SECTOR, true)
  }

  // The directory's records: itself, its parent, then one per file.
  function DirRecords(files: seq<File>, t: Tree): (rs: seq<Record>)
    requires Seedable(files)
    ensures |rs| == |files| + 2 && forall i :: 0 <= i < |rs| ==> Writable(rs[i])
  {
    if files == [] then [RootRecord(t), RootRecord(t).(ident := [1])]
    else
      var n := |files| - 1;
      DirRecords(files[..n], t) + [FileRecord(files, n, t)]
  }

  function Encoded(rs: seq<Record>): (es: seq<seq<Byte>>)
    requires forall i :: 0 <= i < |rs| ==> Writable(rs[i])
    ensures |es| == |rs|
  {
    seq(|rs|, i requires 0 <= i < |rs| => RecordBytes(rs[i]))
  }

  // `s` cut or zero-filled to `n` bytes.
  function Sized(s: seq<Byte>, n: nat): (r: seq<Byte>)
    ensures |r| == n
  {
    if |s| <= n then s + Zeros(n - |s|) else s[..n]
  }

  function DirBytes(files: seq<File>, t: Tree): seq<Byte>
    requires Seedable(files)
  {
    Flat(Encoded(DirRecords(files, t)))
  }

  function DirSector(files: seq<File>, t: Tree): (r: seq<Byte>)
    requires Seedable(files)
    ensures |r| == SECTOR
  {
    Sized(DirBytes(files, t), SECTOR)
  }

  // Slicing the directory buffer at the last record's offset is out of range.
  predicate DirPanics(files: seq<File>, t: Tree)
    requires Seedable(files)
  {
    files != [] && |DirBytes(files[..|files| - 1], t)| > SECTOR
  }

  // ----- descriptors and path tables

  function Pad(n: nat, t: Tree): (p: seq<Byte>)
    ensures |p| == n
  {
    seq(n, i => if t.Joliet? && i % 2 == 0 then 0 else 0x20)
  }

  // A 32-byte identifier field.
  function LabelField(volId: seq<Byte>, t: Tree): (d: seq<Byte>)
    requires Ascii(volId)
    ensures |d| == 32
  {
    var e := if t.Primary? then volId else Ucs2(volId);
    if |e| >= 32 then e[..32] else e + Pad(32 - |e|, t)
  }

  function PathTableSector(t: Tree, bigEndian: bool): nat {
    19 + (if t.Joliet? then 2 else 0) + (if bigEndian then 1 else 0)
  }

  datatype Values = Values(kind: Byte, volId: seq<Byte>, total: nat, escape: seq<Byte>, tableL: nat, tableM: nat,
                           root: seq<Byte>, text: seq<Byte>)
  {
    predicate Fit() {
      |volId| == 32 && total < U32 && |escape| <= 32 && tableL < U32 && tableM < U32 && |root| == 34 && |text| == 623
    }
  }

  function DescriptorFields(v: Values): (fs: seq<Field>)
    requires v.Fit()
    ensures Layout(fs, SECTOR)
  {
    [Field(0, [v.kind]),
     Field(1, STANDARD_ID),
     Field(6, [1]),
     Field(40, v.volId),
     Field(80, Both32(v.total)),
     Field(88, v.escape),
     Field(120, Both16(1)),
     Field(124, Both16(1)),
     Field(128, Both16(SECTOR)),
     Field(132, Both32(10)),
     Field(140, Le32(v.tableL)),
     Field(148, Be32(v.tableM)),
     Field(156, v.root),
     Field(190, v.text),
     Field(881, [1])]
  }

  function DescriptorValues(volId: seq<Byte>, total: nat, t: Tree): (v: Values)
    requires Ascii(volId) && total < U32
    ensures v.Fit()
  {
    Values(if t.Primary? then 1 else 2, LabelField(volId, t), total, if t.Joliet? then UCS2_LEVEL3 else [],
           PathTableSector(t, false), PathTableSector(t, true), RecordBytes(RootRecord(t)), Pad(623, t))
  }

  function Descriptor(volId: seq<Byte>, total: nat, t: Tree): (s: seq<Byte>)
    requires Ascii(volId) && total < U32
    ensures |s| == SECTOR
  {
    Lay(DescriptorFields(DescriptorValues(volId, total, t)), SECTOR)
  }

  function TerminatorFields(): (fs: seq<Field>)
    ensures Layout(fs, SECTOR)
  {
    [Field(0, [0xFF]), Field(1, STANDARD_ID), Field(6, [1])]
  }

  function PathTableFields(lba: nat, bigEndian: bool): (fs: seq<Field>)
    requires lba < U32
    ensures Layout(fs, SECTOR)
  {
    [Field(0, [1, 0]),
     Field(2, if bigEndian then Be32(lba) else Le32(lba)),
     Field(6, if bigEndian then Be16(1) else Le16(1)),
     Field(8, [0, 0])]
  }

  function PathTable(lba: nat, bigEndian: bool): (s: seq<Byte>)
    requires lba < U32
    ensures |s| == SECTOR
  {
    Lay(PathTableFields(lba, bigEndian), SECTOR)
  }

  // ----- the image

  // Sectors 16 to 24.
  function Written(pvd: seq<Byte>, svd: seq<Byte>, dirP: seq<Byte>, dirJ: seq<Byte>): (h: seq<seq<Byte>>)
    requires |pvd| == |svd| == |dirP| == |dirJ| == SECTOR
    ensures |h| == 9 && forall i :: 0 <= i < |h| ==> |h[i]| == SECTOR
  {
    [pvd, svd, Lay(TerminatorFields(), SECTOR),
     PathTable(23, false), PathTable(23, true), PathTable(24, false), PathTable(24, true), dirP, dirJ]
  }

  function SystemArea(): (h: seq<seq<Byte>>)
    ensures |h| == 16 && forall i :: 0 <= i < |h| ==> h[i] == Zeros(SECTOR)
  {
    seq(16, _ => Zeros(SECTOR))
  }

  function Header(pvd: seq<Byte>, svd: seq<Byte>, dirP: seq<Byte>, dirJ: seq<Byte>): (h: seq<seq<Byte>>)
    requires |pvd| == |svd| == |dirP| == |dirJ| == SECTOR
    ensures |h| == FIRST_FILE && forall i :: 0 <= i < |h| ==> |h[i]| == SECTOR
  {
    SystemArea() + Written(pvd, svd, dirP, dirJ)
  }

  function Extent(data: seq<Byte>): (s: seq<Byte>)
    ensures |s| == SectorsOf(|data|) * SECTOR && data <= s
  {
    data + Zeros(SectorsOf(|data|) * SECTOR - |data|)
  }

  function Extents(files: seq<File>): seq<seq<Byte>> {
    seq(|files|, i requires 0 <= i < |files| => Extent(files[i].data))
  }

  function Image(volId: seq<Byte>, files: seq<File>): seq<Byte>
    requires Ascii(volId) && Seedable(files)
  {
    var total := Wrap32(NextSector(files));
    Flat(Header(Descriptor(volId, total, Primary), Descriptor(volId, total, Joliet),
                DirSector(files, Primary), DirSector(files, Joliet)))
    + Flat(Extents(files))
  }

  // ----- a reader

  // The record at the start of `s` (section 9.1): even length with a zero pad byte and no system use area, no
  // extended attributes, agreeing byte orders, not interleaved, volume 1.
  function ParseRecord(s: seq<Byte>): (r: Option<Record>)
    requires s != []
    ensures r.Some? ==> 34 <= s[0] <= |s|
  {
    var n: int := s[0];
    if n < 34 || n % 2 != 0 || n > |s| then None else
      var m: int := s[32];
      var extent, length := ReadBoth32(s[2..10]), ReadBoth32(s[10..18]);
      if (n != 33 + m && n != 34 + m) || (n == 34 + m && s[n - 1] != 0) || s[1] != 0
         || (s[25] != 0 && s[25] != 2) || s[26] != 0 || s[27] != 0
         || extent < 0 || length < 0 || ReadBoth16(s[28..32]) != 1
      then None
      else Some(Record(s[33..][..m], extent, length, s[25] == 2))
  }

  // The records of a directory extent, up to a zero length byte or the end.
  function ParseRecords(s: seq<Byte>): Option<seq<Record>> {
    if s == [] || s[0] == 0 then Some([]) else
      var r := ParseRecord(s);
      if r.None? then None else
        var rest := ParseRecords(s[s[0]..]);
        if rest.None? then None else Some([r.value] + rest.value)
  }

  datatype Volume = Volume(volId: seq<Byte>, total: nat, root: Record, tableSize: int, tableL: nat, tableM: nat)

  // Text with nothing in it: spaces, of two bytes each in the Joliet tree.
  predicate Blank(s: seq<Byte>, t: Tree) {
    forall i :: 0 <= i < |s| ==> s[i] == if t.Joliet? && i % 2 == 0 then 0 else 0x20
  }

  // A primary (section 8.4) or Joliet supplementary (8.5) volume descriptor, of a set of one volume, with the
  // text fields between the root record and the dates left blank.
  function ParseDescriptor(s: seq<Byte>, t: Tree): Option<Volume>
    requires |s| == SECTOR
  {
    var root := ParseRecord(s[156..190]);
    if s[0] != (if t.Primary? then 1 else 2) || s[1..6] != STANDARD_ID || s[6] != 1 || s[7] != 0 || s[881] != 1
       || (t.Joliet? && s[88..91] != UCS2_LEVEL3) || !Blank(s[190..813], t)
       || ReadBoth32(s[80..88]) < 0 || ReadBoth16(s[120..124]) != 1 || ReadBoth16(s[124..128]) != 1
       || ReadBoth16(s[128..132]) != SECTOR || ReadBoth32(s[132..140]) < 0 || root.None?
    then None
    else Some(Volume(s[40..72], ReadBoth32(s[80..88]), root.value, ReadBoth32(s[132..140]),
                     ReadLe32(s[140..144]), ReadBe32(s[148..152])))
  }

  function ReadSector(img: seq<Byte>, k: nat): (r: Option<seq<Byte>>)
    ensures r.Some? ==> |r.value| == SECTOR
  {
    if (k + 1) * SECTOR <= |img| then Some(img[k * SECTOR..k * SECTOR + SECTOR]) else None
  }

  // The volume descriptor set from sector `k` on (sections 8.1 to 8.3): primary and supplementary descriptors
  // up to the set terminator.
  function ReadSet(img: seq<Byte>, k: nat): Option<seq<seq<Byte>>>
    decreases |img| - k * SECTOR
  {
    var s := ReadSector(img, k);
    if s.None? || s.value[1..6] != STANDARD_ID || s.value[6] != 1 then None
    else if s.value[0] == 255 then Some([])
    else if s.value[0] != 1 && s.value[0] != 2 then None
    else
      var rest := ReadSet(img, k + 1);
      if rest.None? then None else Some([s.value] + rest.value)
  }

  function OfKind(ds: seq<seq<Byte>>, kind: Byte): seq<seq<Byte>> {
    if ds == [] then []
    else (if ds[0] != [] && ds[0][0] == kind then [ds[0]] else []) + OfKind(ds[1..], kind)
  }

  // The one descriptor of the tree's kind in the set.
  function OpenVolume(img: seq<Byte>, t: Tree): Option<Volume> {
    var found := ReadSet(img, 16);
    if found.None? then None else
      var ds := OfKind(found.value, if t.Primary? then 1 else 2);
      if |ds| != 1 || |ds[0]| != SECTOR then None else ParseDescriptor(ds[0], t)
  }

  // The root directory's records, less "." and "..".
  function ReadRoot(img: seq<Byte>, t: Tree): Option<seq<Record>> {
    var v := OpenVolume(img, t);
    if v.None? || v.value.root.length != SECTOR || !v.value.root.isDir then None else
      var s := ReadSector(img, v.value.root.extent);
      if s.None? then None else
        var rs := ParseRecords(s.value);
        if rs.None? || |rs.value| < 2 || rs.value[0] != v.value.root
           || rs.value[1] != v.value.root.(ident := [1])
        then None
        else Some(rs.value[2..])
  }

  function FromUcs2(u: seq<Byte>): Option<seq<Byte>> {
    if u == [] then Some([])
    else if |u| == 1 || u[0] != 0 then None
    else
      var rest := FromUcs2(u[2..]);
      if rest.None? then None else Some([u[1]] + rest.value)
  }

  function NameOf(ident: seq<Byte>, t: Tree): Option<seq<Byte>> {
    if t.Joliet? then FromUcs2(ident)
    else if |ident| >= 2 && ident[|ident| - 2..] == VERSION then Some(ident[..|ident| - 2])
    else None
  }

  function ReadFile(img: seq<Byte>, r: Record, t: Tree): Option<File> {
    var name := NameOf(r.ident, t);
    if r.isDir || name.None? || r.extent * SECTOR + r.length > |img| then None
    else Some(File(name.value, img[r.extent * SECTOR..r.extent * SECTOR + r.length]))
  }

  function ReadFiles(img: seq<Byte>, rs: seq<Record>, t: Tree): Option<seq<File>> {
    if rs == [] then Some([]) else
      var f, rest := ReadFile(img, rs[0], t), ReadFiles(img, rs[1..], t);
      if f.None? || rest.None? then None else Some([f.value] + rest.value)
  }

  // Descriptor, root record, directory records, extents.
  function ReadTree(img: seq<Byte>, t: Tree): Option<seq<File>> {
    var rs := ReadRoot(img, t);
    if rs.None? then None else ReadFiles(img, rs.value, t)
  }

  // The one entry of a path table of `size` bytes (section 9.4): the directory it names.
  function ReadPathTable(img: seq<Byte>, k: nat, size: int, bigEndian: bool): Option<nat> {
    var s := ReadSector(img, k);
    if s.None? then None else
      var d := s.value;
      if d[0] != 1 || d[8] != 0 || size != 8 + d[0] + d[0] % 2 then None
      else if bigEndian then (if ReadBe16(d[6..8]) == 1 then Some(ReadBe32(d[2..6])) else None)
      else (if ReadLe16(d[6..8]) == 1 then Some(ReadLe32(d[2..6])) else None)
  }
}
