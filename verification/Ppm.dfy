// The screendump decoder of `internal/qemu/screendump.go`: binary PPM (P6) to RGBA pixels.
module Ppm {
  import opened Wrappers
  import opened Bytes
  import Text

  const MAX_DIM: nat := 32768

  datatype Image = Image(width: nat, height: nat, pix: seq<Byte>)

  datatype Error =
    | NotP6
    | UnexpectedEnd
    | ExpectedDigit(found: Byte)
    | OutOfRange
    | BadDimensions(width: nat, height: nat)
    | BadMaxval(maxval: nat)
    | NoSeparator
    | Truncated(have: nat, want: nat)

  // ----- header numbers

  predicate IsSpace(c: Byte) {
    c == 0x20 || 9 <= c <= 13
  }

  predicate IsDigit(c: Byte) {
    0x30 <= c <= 0x39
  }

  predicate AllDigits(s: seq<Byte>) {
    forall i :: 0 <= i < |s| ==> IsDigit(s[i])
  }

  function Value(s: seq<Byte>): nat
    requires AllDigits(s)
  {
    if s == [] then 0 else Value(s[..|s| - 1]) * 10 + (s[|s| - 1] - 0x30)
  }

  datatype Scan = Num(value: nat, rest: seq<Byte>) | Bad(error: Error)

  // From a '#', what is left at the end of its line.
  function AfterComment(s: seq<Byte>): (r: seq<Byte>)
    ensures |r| <= |s|
  {
    if s == [] || s[0] == 10 then s else AfterComment(s[1..])
  }

  function DigitCount(s: seq<Byte>): (n: nat)
    ensures n <= |s| && AllDigits(s[..n]) && (n < |s| ==> !IsDigit(s[n]))
  {
    if s == [] || !IsDigit(s[0]) then 0 else
      var n := 1 + DigitCount(s[1..]);
      assert s[..n] == [s[0]] + s[1..][..n - 1];
      n
  }

  function Number(s: seq<Byte>): Scan
    requires s != []
  {
    var n := DigitCount(s);
    if n == 0 then Bad(ExpectedDigit(s[0]))
    else if Value(s[..n]) > Text.INT_MAX then Bad(OutOfRange)
    else Num(Value(s[..n]), s[n..])
  }

  // ppmParser.nextInt on the bytes not yet read.
  function NextInt(s: seq<Byte>): Scan
    decreases |s|
  {
    if s == [] then Bad(UnexpectedEnd)
    else if s[0] == 0x23 then NextInt(AfterComment(s[1..]))
    else if IsSpace(s[0]) then NextInt(s[1..])
    else Number(s)
  }

  // ----- pixels

  // scaleSample: 0..maxval to 0..255, clamped.
  function Scale(v: Byte, maxval: nat): (r: Byte)
    requires 0 < maxval
  {
    var x: int := v;
    var s := x * 255 / maxval;
    if s > 255 then 255 else s
  }

  // The first n pixels of a raster of RGB triples, as RGBA.
  function Pixels(raster: seq<Byte>, n: nat, maxval: nat): (p: seq<Byte>)
    requires 0 < maxval && 3 * n <= |raster|
    ensures |p| == 4 * n
  {
    if n == 0 then [] else
      var k := 3 * (n - 1);
      Pixels(raster, n - 1, maxval) +
      [Scale(raster[k], maxval), Scale(raster[k + 1], maxval), Scale(raster[k + 2], maxval), 255]
  }

  /** Pixel i of the image is triple i of the raster, each sample min(255, floor(v*255/maxval)). */
  lemma {:induction false} PixelAt(raster: seq<Byte>, n: nat, maxval: nat, i: nat)
    requires 0 < maxval && 3 * n <= |raster| && i < n
    ensures var p := Pixels(raster, n, maxval);
            && p[4 * i] == Scale(raster[3 * i], maxval) && p[4 * i + 1] == Scale(raster[3 * i + 1], maxval)
            && p[4 * i + 2] == Scale(raster[3 * i + 2], maxval) && p[4 * i + 3] == 255
  {
    if i < n - 1 {
      PixelAt(raster, n - 1, maxval, i);
    }
  }

  lemma {:induction false} Quotient(x: nat, m: nat)
    requires 0 < m
    ensures x / m * m <= x < x / m * m + m
  {
  }

  lemma {:induction false} Times(a: int, b: int, m: nat)
    requires a < b
    ensures a * m + m <= b * m
  {
    if m > 0 {
      Times(a, b, m - 1);
      assert a * m == a * (m - 1) + a && b * m == b * (m - 1) + b;
    }
  }

  lemma {:induction false} QuotientAtMost(x: nat, m: nat, k: nat)
    requires 0 < m && x < k * m + m
    ensures x / m <= k
  {
    Quotient(x, m);
    if k < x / m {
      Times(k, x / m, m);
    }
  }

  lemma {:induction false} QuotientAtLeast(x: nat, m: nat, k: nat)
    requires 0 < m && k * m <= x
    ensures k <= x / m
  {
    Quotient(x, m);
    if x / m < k {
      Times(x / m, k, m);
    }
  }

  /** Scaling rounds v*255/maxval down and takes maxval, and anything above it, to 255. */
  lemma {:induction false} ScaleRoundsDown(v: Byte, maxval: nat)
    requires 0 < maxval
    ensures v <= maxval ==> Scale(v, maxval) * maxval <= v * 255 < Scale(v, maxval) * maxval + maxval
    ensures v >= maxval ==> Scale(v, maxval) == 255
  {
    var x: nat := v * 255;
    if v <= maxval {
      QuotientAtMost(x, maxval, 255);
      Quotient(x, maxval);
    }
    if v >= maxval {
      QuotientAtLeast(x, maxval, 255);
    }
  }

  /** A brighter sample never comes out darker. */
  lemma {:induction false} ScaleKeepsOrder(v: Byte, w: Byte, maxval: nat)
    requires 0 < maxval && v <= w
    ensures Scale(v, maxval) <= Scale(w, maxval)
  {
    Quotient(w * 255, maxval);
    QuotientAtMost(v * 255, maxval, w * 255 / maxval);
  }

  lemma {:induction false} FullScale(v: Byte)
    ensures Scale(v, 255) == v
  {
    var x: int := v;
    assert x * 255 / 255 == x;
  }

  function Decode(data: seq<Byte>): Result<Image, Error> {
    if |data| < 2 || data[0] != 0x50 || data[1] != 0x36 then Err(NotP6) else
      match NextInt(data[2..])
      case Bad(e) => Err(e)
      case Num(w, r1) =>
        match NextInt(r1)
        case Bad(e) => Err(e)
        case Num(h, r2) =>
          match NextInt(r2)
          case Bad(e) => Err(e)
          case Num(m, r3) => Body(w, h, m, r3)
  }

  function Body(w: nat, h: nat, m: nat, s: seq<Byte>): Result<Image, Error> {
    if w == 0 || h == 0 || w > MAX_DIM || h > MAX_DIM then Err(BadDimensions(w, h))
    else if m == 0 || m > 255 then Err(BadMaxval(m))
    else if s == [] || !IsSpace(s[0]) then Err(NoSeparator)
    else if |s| - 1 < w * h * 3 then Err(Truncated(|s| - 1, w * h * 3))
    else Ok(Image(w, h, Pixels(s[1..], w * h, m)))
  }

  // ----- every valid encoding decodes

  // What may stand between header numbers: white space, or a comment up to its newline.
  datatype Gap = Space(c: Byte) | Comment(text: seq<Byte>)

  // The bytes as characters.
  function AsText(s: seq<Byte>): (t: string)
    ensures |t| == |s| && forall i :: 0 <= i < |s| ==> t[i] as int == s[i]
  {
    seq(|s|, i requires 0 <= i < |s| => s[i] as char)
  }

  predicate White(c: Byte) {
    c == ' ' as int || c == '\t' as int || c == '\n' as int || c == '\r' as int || c == 0x0B || c == 0x0C
  }

  predicate GapOk(g: Gap) {
    match g
    case Space(c) => White(c)
    case Comment(text) => forall i :: 0 <= i < |text| ==> text[i] != 10
  }

  predicate GapsOk(gs: seq<Gap>) {
    forall i :: 0 <= i < |gs| ==> GapOk(gs[i])
  }

  function OneGap(g: Gap): seq<Byte> {
    match g
    case Space(c) => [c]
    case Comment(text) => [0x23] + text + [10]
  }

  function GapBytes(gs: seq<Gap>): seq<Byte> {
    if gs == [] then [] else OneGap(gs[0]) + GapBytes(gs[1..])
  }

  // A decimal numeral for n.
  predicate Numeral(s: seq<Byte>, n: nat) {
    s != [] && Text.AllDigits(AsText(s)) && Text.Value(AsText(s)) == n
  }

  lemma {:induction false} ValueOfText(s: seq<Byte>)
    ensures AllDigits(s) <==> Text.AllDigits(AsText(s))
    ensures AllDigits(s) ==> Value(s) == Text.Value(AsText(s))
  {
    if s != [] {
      var n := |s| - 1;
      ValueOfText(s[..n]);
      assert AsText(s)[..n] == AsText(s[..n]);
    }
    if Text.AllDigits(AsText(s)) {
      assert forall i :: 0 <= i < |s| ==> Text.IsDigit(AsText(s)[i]);
    }
  }

  lemma {:induction false} NumeralIs(s: seq<Byte>, n: nat)
    ensures Numeral(s, n) <==> s != [] && AllDigits(s) && Value(s) == n
  {
    ValueOfText(s);
  }

  lemma {:induction false} CommentSkipped(text: seq<Byte>, more: seq<Byte>)
    requires forall i :: 0 <= i < |text| ==> text[i] != 10
    ensures AfterComment(text + [10] + more) == [10] + more
  {
    var s := text + [10] + more;
    if text == [] {
      assert s == [10] + more;
    } else {
      CommentSkipped(text[1..], more);
      assert s[1..] == text[1..] + [10] + more;
    }
  }

  lemma {:induction false} GapSkipped(g: Gap, more: seq<Byte>)
    requires GapOk(g)
    ensures NextInt(OneGap(g) + more) == NextInt(more)
  {
    var s := OneGap(g) + more;
    match g
    case Space(c) =>
      assert s[0] == c && s[1..] == more;
    case Comment(text) =>
      assert s[0] == 0x23 && s[1..] == text + [10] + more;
      CommentSkipped(text, more);
      assert ([10] + more)[1..] == more;
  }

  lemma {:induction false} GapsSkipped(gs: seq<Gap>, more: seq<Byte>)
    requires GapsOk(gs)
    ensures NextInt(GapBytes(gs) + more) == NextInt(more)
    decreases |gs|
  {
    if gs == [] {
      assert GapBytes(gs) + more == more;
    } else {
      assert GapOk(gs[0]);
      GapSkipped(gs[0], GapBytes(gs[1..]) + more);
      GapsSkipped(gs[1..], more);
      assert GapBytes(gs) + more == OneGap(gs[0]) + (GapBytes(gs[1..]) + more);
    }
  }

  lemma {:induction false} DigitsCounted(d: seq<Byte>, more: seq<Byte>)
    requires AllDigits(d) && (more == [] || !IsDigit(more[0]))
    ensures DigitCount(d + more) == |d|
  {
    if d == [] {
      assert d + more == more;
    } else {
      DigitsCounted(d[1..], more);
      assert (d + more)[1..] == d[1..] + more;
    }
  }

  lemma {:induction false} NumberRead(gs: seq<Gap>, d: seq<Byte>, n: nat, more: seq<Byte>)
    requires GapsOk(gs) && Numeral(d, n) && n <= Text.INT_MAX && (more == [] || !IsDigit(more[0]))
    ensures NextInt(GapBytes(gs) + (d + more)) == Num(n, more)
  {
    NumeralIs(d, n);
    GapsSkipped(gs, d + more);
    DigitsCounted(d, more);
    assert (d + more)[0] == d[0] && IsDigit(d[0]);
    assert (d + more)[..|d|] == d && (d + more)[|d|..] == more;
  }

  lemma {:induction false} GapStarts(gs: seq<Gap>, more: seq<Byte>)
    requires GapsOk(gs) && gs != []
    ensures GapBytes(gs) + more != [] && !IsDigit((GapBytes(gs) + more)[0])
  {
    assert GapOk(gs[0]);
  }

  // A header number after its gap.
  datatype Item = Item(gaps: seq<Gap>, digits: seq<Byte>, value: nat)

  predicate ItemOk(i: Item) {
    GapsOk(i.gaps) && Numeral(i.digits, i.value) && i.value <= Text.INT_MAX
  }

  function ItemBytes(i: Item, more: seq<Byte>): seq<Byte> {
    GapBytes(i.gaps) + (i.digits + more)
  }

  // A P6 file: the magic number, three header numbers, one white-space byte, the raster and
  // whatever follows it.
  datatype File = File(width: Item, height: Item, maxval: Item, sep: Byte, raster: seq<Byte>)

  predicate FileOk(f: File) {
    && ItemOk(f.width) && ItemOk(f.height) && ItemOk(f.maxval) && White(f.sep)
    && f.height.gaps != [] && f.maxval.gaps != []
  }

  function Encode(f: File): seq<Byte> {
    [0x50, 0x36] + ItemBytes(f.width, ItemBytes(f.height, ItemBytes(f.maxval, [f.sep] + f.raster)))
  }

  lemma {:induction false} ItemRead(i: Item, more: seq<Byte>)
    requires ItemOk(i) && (more == [] || !IsDigit(more[0]))
    ensures NextInt(ItemBytes(i, more)) == Num(i.value, more)
    ensures i.gaps != [] ==> ItemBytes(i, more) != [] && !IsDigit(ItemBytes(i, more)[0])
  {
    NumberRead(i.gaps, i.digits, i.value, more);
    if i.gaps != [] {
      GapStarts(i.gaps, i.digits + more);
    }
  }

  lemma {:induction false} HeaderRead(s0: seq<Byte>, w: nat, s1: seq<Byte>, h: nat, s2: seq<Byte>, m: nat,
                                      s3: seq<Byte>)
    requires NextInt(s0) == Num(w, s1) && NextInt(s1) == Num(h, s2) && NextInt(s2) == Num(m, s3)
    ensures Decode([0x50, 0x36] + s0) == Body(w, h, m, s3)
  {
    assert ([0x50, 0x36] + s0)[2..] == s0;
  }

  // What a file of these numbers and this raster stands for.
  function Meaning(w: nat, h: nat, m: nat, raster: seq<Byte>): Result<Image, Error> {
    var pixels := w * h;
    if !(0 < w <= 32768 && 0 < h <= 32768) then Err(BadDimensions(w, h))
    else if !(0 < m <= 255) then Err(BadMaxval(m))
    else if |raster| < 3 * pixels then Err(Truncated(|raster|, 3 * pixels))
    else Ok(Image(w, h, Pixels(raster, pixels, m)))
  }

  lemma {:induction false} BodyMeans(w: nat, h: nat, m: nat, sep: Byte, raster: seq<Byte>)
    requires White(sep)
    ensures Body(w, h, m, [sep] + raster) == Meaning(w, h, m, raster)
  {
    assert ([sep] + raster)[1..] == raster;
    assert w * h * 3 == 3 * (w * h);
  }

  /** Any P6 file, with any white space and comments in its header, decodes to exactly the pixels
      of its raster when its dimensions and maxval are supported and its raster is complete, and
      otherwise is refused for the first of these that fails. */
  lemma {:induction false} ValidFilesDecode(f: File)
    requires FileOk(f)
    ensures Decode(Encode(f)) == Meaning(f.width.value, f.height.value, f.maxval.value, f.raster)
  {
    var s3 := [f.sep] + f.raster;
    ItemRead(f.maxval, s3);
    var s2 := ItemBytes(f.maxval, s3);
    ItemRead(f.height, s2);
    var s1 := ItemBytes(f.height, s2);
    ItemRead(f.width, s1);
    HeaderRead(ItemBytes(f.width, s1), f.width.value, s1, f.height.value, s2, f.maxval.value, s3);
    BodyMeans(f.width.value, f.height.value, f.maxval.value, f.sep, f.raster);
  }

  // ----- and nothing else does

  lemma {:induction false} ConsRegroup(s: seq<Byte>, t: seq<Byte>, r: seq<Byte>)
    requires s != [] && s[1..] == t + r
    ensures s == [s[0]] + t + r
  {
    assert s == [s[0]] + s[1..];
    Regroup([s[0]], t, r);
  }

  lemma {:induction false} CommentShape(s: seq<Byte>) returns (text: seq<Byte>)
    ensures s == text + AfterComment(s) && forall i :: 0 <= i < |text| ==> text[i] != 10
    ensures AfterComment(s) != [] ==> AfterComment(s)[0] == 10
  {
    if s == [] || s[0] == 10 {
      text := [];
      assert s == [] + s;
    } else {
      var t := CommentShape(s[1..]);
      text := [s[0]] + t;
      ConsRegroup(s, t, AfterComment(s[1..]));
    }
  }

  lemma {:induction false} ConsGap(g: Gap, i: Item, more: seq<Byte>)
    requires GapOk(g) && ItemOk(i)
    ensures var j := i.(gaps := [g] + i.gaps);
            ItemOk(j) && ItemBytes(j, more) == OneGap(g) + ItemBytes(i, more)
  {
    var gs := [g] + i.gaps;
    assert gs[1..] == i.gaps;
    assert (OneGap(g) + GapBytes(i.gaps)) + (i.digits + more) == OneGap(g) + (GapBytes(i.gaps) + (i.digits + more));
  }

  lemma {:induction false} BareNumber(s: seq<Byte>) returns (i: Item)
    requires s != [] && Number(s).Num?
    ensures ItemOk(i) && i.value == Number(s).value && s == ItemBytes(i, Number(s).rest) && IsDigit(s[0])
    ensures Number(s).rest != [] ==> !IsDigit(Number(s).rest[0])
  {
    var n := DigitCount(s);
    i := Item([], s[..n], Value(s[..n]));
    assert s[..n][0] == s[0];
    NumeralIs(s[..n], Value(s[..n]));
    assert s == ItemBytes(i, s[n..]) by {
      assert s == s[..n] + s[n..] && [] + s == s;
    }
  }

  lemma {:induction false} GapShape(s: seq<Byte>) returns (g: Gap, more: seq<Byte>)
    requires NextInt(s).Num? && (s[0] == 0x23 || IsSpace(s[0]))
    ensures GapOk(g) && s == OneGap(g) + more && NextInt(more) == NextInt(s) && |more| < |s|
  {
    if s[0] == 0x23 {
      var text := CommentShape(s[1..]);
      var r := AfterComment(s[1..]);
      assert NextInt(s) == NextInt(r);
      g, more := Comment(text), r[1..];
      assert s == ([0x23] + text + [10]) + more;
    } else {
      g, more := Space(s[0]), s[1..];
    }
  }

  lemma {:induction false} NumberShape(s: seq<Byte>) returns (i: Item)
    requires NextInt(s).Num?
    ensures ItemOk(i) && i.value == NextInt(s).value && s == ItemBytes(i, NextInt(s).rest)
    ensures NextInt(s).rest != [] ==> !IsDigit(NextInt(s).rest[0])
    ensures s != [] && !IsDigit(s[0]) ==> i.gaps != []
    decreases |s|
  {
    if s[0] == 0x23 || IsSpace(s[0]) {
      var g, more := GapShape(s);
      var j := NumberShape(more);
      ConsGap(g, j, NextInt(more).rest);
      i := j.(gaps := [g] + j.gaps);
    } else {
      i := BareNumber(s);
    }
  }

  lemma {:induction false} FileFrom(w: Item, h: Item, m: Item, s0: seq<Byte>, s1: seq<Byte>, s2: seq<Byte>,
                                    s3: seq<Byte>)
    returns (f: File)
    requires s0 == ItemBytes(w, s1) && s1 == ItemBytes(h, s2) && s2 == ItemBytes(m, s3) && s3 != []
    ensures f.width == w && f.height == h && f.maxval == m && f.sep == s3[0] && [0x50, 0x36] + s0 == Encode(f)
  {
    f := File(w, h, m, s3[0], s3[1..]);
    assert [f.sep] + f.raster == s3;
  }

  lemma {:induction false} HeaderShape(s0: seq<Byte>, s1: seq<Byte>, s2: seq<Byte>, s3: seq<Byte>) returns (f: File)
    requires NextInt(s0).Num? && NextInt(s0).rest == s1 && NextInt(s1).Num? && NextInt(s1).rest == s2
    requires NextInt(s2).Num? && NextInt(s2).rest == s3 && s3 != [] && IsSpace(s3[0])
    ensures FileOk(f) && [0x50, 0x36] + s0 == Encode(f)
  {
    assert s1 != [] && s2 != [];
    var w := NumberShape(s0);
    var h := NumberShape(s1);
    var m := NumberShape(s2);
    f := FileFrom(w, h, m, s0, s1, s2, s3);
  }

  /** Whatever decodes is a P6 file. */
  lemma {:induction false} OnlyFilesDecode(data: seq<Byte>) returns (f: File)
    requires Decode(data).Ok?
    ensures FileOk(f) && data == Encode(f)
  {
    var s0 := data[2..];
    var s1 := NextInt(s0).rest;
    var s2 := NextInt(s1).rest;
    f := HeaderShape(s0, s1, s2, NextInt(s2).rest);
    assert data == [0x50, 0x36] + s0;
  }

  // What does not start with "P6" is refused for that, and nothing else is.
  lemma {:induction false} MagicIsChecked(data: seq<Byte>)
    ensures Decode(data) == Err(NotP6) <==> !(|data| >= 2 && data[0] == 'P' as int && data[1] == '6' as int)
  {
    if |data| >= 2 {
      NeverNotP6(data[2..]);
      if NextInt(data[2..]).Num? {
        NeverNotP6(NextInt(data[2..]).rest);
        if NextInt(NextInt(data[2..]).rest).Num? {
          NeverNotP6(NextInt(NextInt(data[2..]).rest).rest);
        }
      }
    }
  }

  lemma {:induction false} NeverNotP6(s: seq<Byte>)
    ensures NextInt(s) != Bad(NotP6)
    decreases |s|
  {
    if s != [] {
      if s[0] == 0x23 {
        NeverNotP6(AfterComment(s[1..]));
      } else if IsSpace(s[0]) {
        NeverNotP6(s[1..]);
      }
    }
  }

  // ----- the decoder as written

  class Parser {
    const data: seq<Byte>
    var pos: nat

    constructor (data: seq<Byte>, pos: nat)
      ensures this.data == data && this.pos == pos
    {
      this.data, this.pos := data, pos;
    }

    /** nextInt: skip white space and comments, then read a decimal integer. */
    method NextNumber() returns (r: Result<nat, Error>)
      requires pos <= |data|
      modifies this`pos
      ensures pos <= |data|
      ensures match NextInt(old(data[pos..]))
              case Num(v, rest) => r == Ok(v) && rest == data[pos..]
              case Bad(e) => r == Err(e)
    {
      while pos < |data|
        invariant pos <= |data| && NextInt(data[pos..]) == NextInt(old(data[pos..]))
        decreases |data| - pos
      {
        var c := data[pos];
        assert data[pos..][1..] == data[pos + 1..];
        if c == 0x23 {
          SkipComment();
        } else if IsSpace(c) {
          pos := pos + 1;
        } else {
          r := ReadDigits();
          return;
        }
      }
      return Err(UnexpectedEnd);
    }

    // From a '#' to the end of its line.
    method SkipComment()
      requires pos < |data| && data[pos] == 0x23
      modifies this`pos
      ensures old(pos) < pos <= |data| && data[pos..] == AfterComment(data[old(pos) + 1..])
    {
      pos := pos + 1;
      ghost var start := pos;
      while pos < |data| && data[pos] != 10
        invariant start <= pos <= |data| && AfterComment(data[pos..]) == AfterComment(data[start..])
      {
        assert data[pos..][1..] == data[pos + 1..];
        pos := pos + 1;
      }
    }

    method ReadDigits() returns (r: Result<nat, Error>)
      requires pos < |data|
      modifies this`pos
      ensures old(pos) <= pos <= |data|
      ensures match Number(old(data[pos..]))
              case Num(v, rest) => r == Ok(v) && rest == data[pos..]
              case Bad(e) => r == Err(e)
    {
      var start := pos;
      ghost var s := data[start..];
      while pos < |data| && IsDigit(data[pos])
        invariant start <= pos <= |data| && AllDigits(data[start..pos])
      {
        assert data[start..pos + 1] == data[start..pos] + [data[pos]];
        pos := pos + 1;
      }
      DigitsCounted(data[start..pos], data[pos..]);
      assert data[start..pos] + data[pos..] == s;
      assert s[..pos - start] == data[start..pos] && s[pos - start..] == data[pos..];
      if pos == start {
        return Err(ExpectedDigit(data[start]));
      }
      var v := Value(data[start..pos]);
      if v > Text.INT_MAX {
        return Err(OutOfRange);
      }
      return Ok(v);
    }
  }

  /** DecodePPM: terminates, stays in bounds, and computes Decode on every byte string. */
  method DecodePPM(data: seq<Byte>) returns (r: Result<Image, Error>)
    ensures r == Decode(data)
  {
    if |data| < 2 || data[0] != 0x50 || data[1] != 0x36 {
      return Err(NotP6);
    }
    var p := new Parser(data, 2);
    var width := p.NextNumber();
    if width.Err? {
      return Err(width.error);
    }
    var height := p.NextNumber();
    if height.Err? {
      return Err(height.error);
    }
    var maxval := p.NextNumber();
    if maxval.Err? {
      return Err(maxval.error);
    }
    r := DecodeBody(data, p.pos, width.value, height.value, maxval.value);
  }

  method DecodeBody(data: seq<Byte>, pos: nat, width: nat, height: nat, maxval: nat) returns (r: Result<Image, Error>)
    requires pos <= |data|
    ensures r == Body(width, height, maxval, data[pos..])
  {
    if width <= 0 || height <= 0 || width > MAX_DIM || height > MAX_DIM {
      return Err(BadDimensions(width, height));
    }
    if maxval <= 0 || maxval > 255 {
      return Err(BadMaxval(maxval));
    }
    if pos >= |data| || !IsSpace(data[pos]) {
      return Err(NoSeparator);
    }
    var need := width * height * 3;
    if |data| - (pos + 1) < need {
      return Err(Truncated(|data| - (pos + 1), need));
    }
    assert data[pos..][1..] == data[pos + 1..];
    var pix := FillPixels(data[pos + 1..], width, height, maxval);
    return Ok(Image(width, height, pix[..]));
  }

  method FillPixels(src: seq<Byte>, width: nat, height: nat, maxval: nat) returns (pix: array<Byte>)
    requires 0 < maxval <= 255 && width * height * 3 <= |src|
    ensures fresh(pix) && pix[..] == Pixels(src, width * height, maxval)
  {
    AreaIs(width, height);
    pix := FillRows(src, width, height, width * height, maxval);
  }

  // The pixels in the first y rows.
  function Area(width: nat, y: nat): nat {
    if y == 0 then 0 else Area(width, y - 1) + width
  }

  lemma {:induction false} AreaIs(width: nat, y: nat)
    ensures Area(width, y) == width * y
  {
    if y > 0 {
      AreaIs(width, y - 1);
    }
  }

  lemma {:induction false} AreaMonotone(width: nat, y: nat, z: nat)
    requires y <= z
    ensures Area(width, y) <= Area(width, z)
  {
    if y < z {
      AreaMonotone(width, y, z - 1);
    }
  }

  method FillRows(src: seq<Byte>, width: nat, height: nat, total: nat, maxval: nat) returns (pix: array<Byte>)
    requires 0 < maxval <= 255 && total == Area(width, height) && 3 * total <= |src|
    ensures fresh(pix) && pix[..] == Pixels(src, total, maxval)
  {
    pix := new Byte[4 * total](_ => 0);
    var n := 0;
    for y := 0 to height
      invariant n == Area(width, y) && RowsDone(pix, src, total, maxval, n)
    {
      AreaMonotone(width, y + 1, height);
      FillRow(pix, src, total, maxval, n, width);
      n := n + width;
    }
    assert pix[..4 * total] == pix[..];
  }

  // One row of `width` pixels, the first being pixel `n` of the image.
  method FillRow(pix: array<Byte>, src: seq<Byte>, total: nat, maxval: nat, n: nat, width: nat)
    requires 0 < maxval <= 255 && n + width <= total && RowsDone(pix, src, total, maxval, n)
    modifies pix
    ensures RowsDone(pix, src, total, maxval, n + width)
  {
    for x := 0 to width
      invariant RowsDone(pix, src, total, maxval, n + x)
    {
      SetPixel(pix, src, total, maxval, n + x);
    }
  }

  ghost predicate RowsDone(pix: array<Byte>, src: seq<Byte>, total: nat, maxval: nat, n: nat)
    requires 0 < maxval
    reads pix
  {
    && n <= total && pix.Length == 4 * total && 3 * total <= |src|
    && pix[..4 * n] == Pixels(src, n, maxval)
  }

  // The four bytes of pixel n.
  method SetPixel(pix: array<Byte>, src: seq<Byte>, total: nat, maxval: nat, n: nat)
    requires 0 < maxval <= 255 && n < total && pix.Length == 4 * total && 3 * total <= |src|
    requires pix[..4 * n] == Pixels(src, n, maxval)
    modifies pix
    ensures pix[..4 * (n + 1)] == Pixels(src, n + 1, maxval)
  {
    var si := 3 * n;
    var r, g, b := src[si], src[si + 1], src[si + 2];
    if maxval != 255 {
      r, g, b := Scale(r, maxval), Scale(g, maxval), Scale(b, maxval);
    } else {
      FullScale(r);
      FullScale(g);
      FullScale(b);
    }
    pix[4 * n], pix[4 * n + 1], pix[4 * n + 2], pix[4 * n + 3] := r, g, b, 255;
    assert pix[..4 * (n + 1)] == pix[..4 * n] + [r, g, b, 255];
  }
}
