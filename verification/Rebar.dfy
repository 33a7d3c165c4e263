/**
 The boot-time BAR list of `internal/gpu/rebar.go`: a text file that has to behave as a finite map
 from (address, BAR) to size exponent, across any sequence of `vee gpu rebar` commands.
 */
module Rebar {
  import opened Wrappers
  import opened Text

  datatype Entry = Entry(addr: string, bar: int, exp: int)

  datatype ConfError = BadLine(number: nat)

  // ----- addresses

  function Colons(s: string): nat {
    if s == "" then 0 else (if s[0] == ':' then 1 else 0) + Colons(s[1..])
  }

  // normalizePCIAddr
  function Normalize(addr: string): string {
    if Colons(addr) <= 1 then "0000:" + addr else addr
  }

  lemma {:induction false} ColonsConcat(a: string, b: string)
    ensures Colons(a + b) == Colons(a) + Colons(b)
  {
    if a == "" {
      assert a + b == b;
    } else {
      ColonsConcat(a[1..], b);
      assert (a + b)[1..] == a[1..] + b;
    }
  }

  lemma {:induction false} ColonsOfDomain()
    ensures Colons("0000:") == 1
  {
    assert "0000:"[1..] == "000:" && "000:"[1..] == "00:" && "00:"[1..] == "0:" && "0:"[1..] == ":" && ":"[1..] == "";
    assert Colons(":") == 1;
    assert Colons("0:") == 1;
    assert Colons("00:") == 1;
    assert Colons("000:") == 1;
  }

  /** Normalising twice is normalising once exactly when the address has a colon. */
  lemma {:induction false} NormalizeIdempotentWhen(addr: string)
    ensures Normalize(Normalize(addr)) == Normalize(addr) <==> Colons(addr) >= 1
  {
    ColonsOfDomain();
    ColonsConcat("0000:", addr);
    if Colons(addr) == 0 {
      assert |Normalize(Normalize(addr))| == |addr| + 10;
    }
  }

  // An address that one line of the file can carry and that reading back leaves alone.
  predicate Clean(addr: string) {
    IsWord(addr) && addr[0] != '#'
  }

  predicate Stable(addr: string) {
    Clean(addr) && Colons(addr) >= 2
  }

  predicate AllStable(es: seq<Entry>) {
    forall i :: 0 <= i < |es| ==> Stable(es[i].addr)
  }

  predicate AllInts(es: seq<Entry>) {
    forall i :: 0 <= i < |es| ==> IsInt64(es[i].bar) && IsInt64(es[i].exp)
  }

  // What a parsed entry's address always is.
  predicate Readable(addr: string) {
    Clean(addr) && Colons(addr) >= 1
  }

  predicate AllReadable(es: seq<Entry>) {
    forall i :: 0 <= i < |es| ==> Readable(es[i].addr)
  }

  lemma {:induction false} NormalizedColons(addr: string)
    ensures Colons(Normalize(addr)) >= 1 && (Colons(addr) >= 1 ==> Colons(Normalize(addr)) >= 2)
  {
    ColonsOfDomain();
    ColonsConcat("0000:", addr);
  }

  // ----- parsing

  datatype LineKind = Skipped | Malformed | Parsed(entry: Entry)

  function ParseLine(line: string): LineKind {
    var t := TrimSpace(line);
    if t == "" || t[0] == '#' then Skipped else
      var fs := Fields(t);
      if |fs| != 3 then Malformed else
        var bar, exp := Atoi(fs[1]), Atoi(fs[2]);
        if bar.None? || exp.None? then Malformed
        else Parsed(Entry(Normalize(fs[0]), bar.value, exp.value))
  }

  // The entries of lines n, n+1, ..., or the number of the first malformed line.
  function ParseLines(lines: seq<string>, n: nat): Result<seq<Entry>, ConfError> {
    if lines == [] then Ok([]) else
      match ParseLine(lines[0])
      case Malformed => Err(BadLine(n))
      case Skipped => ParseLines(lines[1..], n + 1)
      case Parsed(e) =>
        var rest := ParseLines(lines[1..], n + 1);
        if rest.Err? then rest else Ok([e] + rest.value)
  }

  function ParseConf(content: string): Result<seq<Entry>, ConfError> {
    ParseLines(SplitLines(content), 1)
  }

  /** ParseRebarConf: a loop over the lines that appends or stops at the first malformed one. */
  method ParseRebarConf(content: string) returns (r: Result<seq<Entry>, ConfError>)
    ensures r == ParseConf(content)
    ensures r.Ok? ==> AllInts(r.value) && AllReadable(r.value)
  {
    var entries: seq<Entry> := [];
    var lines := SplitLines(content);
    ParsedAreReadable(lines, 1);
    assert lines[0..] == lines;
    PrependNone(ParseLines(lines, 1));
    for i := 0 to |lines|
      invariant ParseConf(content) == Prepend(entries, ParseLines(lines[i..], i + 1))
    {
      assert lines[i..][1..] == lines[i + 1..];
      match ParseLine(lines[i]) {
        case Malformed => return Err(BadLine(i + 1));
        case Skipped =>
        case Parsed(e) =>
          PrependOne(entries, e, ParseLines(lines[i + 1..], i + 2));
          entries := entries + [e];
      }
    }
    assert entries + [] == entries;
    return Ok(entries);
  }

  function Prepend(es: seq<Entry>, r: Result<seq<Entry>, ConfError>): Result<seq<Entry>, ConfError> {
    if r.Err? then r else Ok(es + r.value)
  }

  lemma {:induction false} PrependNone(r: Result<seq<Entry>, ConfError>)
    ensures Prepend([], r) == r
  {
    if r.Ok? {
      assert [] + r.value == r.value;
    }
  }

  lemma {:induction false} PrependOne(es: seq<Entry>, e: Entry, r: Result<seq<Entry>, ConfError>)
    ensures Prepend(es, Prepend([e], r)) == Prepend(es + [e], r)
  {
    if r.Ok? {
      assert es + ([e] + r.value) == es + [e] + r.value;
    }
  }

  lemma {:induction false} ParsedLineIsReadable(line: string)
    requires ParseLine(line).Parsed?
    ensures var e := ParseLine(line).entry; Readable(e.addr) && IsInt64(e.bar) && IsInt64(e.exp)
  {
    var t := TrimSpace(line);
    FieldsAreWords("", t);
    FirstFieldStarts([t[0]], t[1..]);
    assert "" + [t[0]] == [t[0]];
    var f := Fields(t)[0];
    assert IsWord(f) && f[0] == t[0];
    assert NoSpace("0000:");
    NormalizedColons(f);
  }

  /** Whatever the file holds, a parsed address is one word with a colon and no comment. */
  lemma {:induction false} ParsedAreReadable(lines: seq<string>, n: nat)
    ensures var r := ParseLines(lines, n);
            r.Ok? ==> AllInts(r.value) && AllReadable(r.value)
    decreases |lines|
  {
    if lines != [] {
      ParsedAreReadable(lines[1..], n + 1);
      if ParseLine(lines[0]).Parsed? {
        ParsedLineIsReadable(lines[0]);
      }
    }
  }

  // ----- rendering

  function RenderEntry(e: Entry): string {
    e.addr + " " + Decimal(e.bar) + " " + Decimal(e.exp)
  }

  function RenderLines(es: seq<Entry>): string {
    if es == [] then "" else RenderEntry(es[0]) + "\n" + RenderLines(es[1..])
  }

  // The two comment lines at the top of the file.
  const TITLE := "# Written by " + "`vee gpu rebar`" + ". One boot-time " + "BAR resize per " + "line:"
  const LEGEND := "# <pci-addr> " + "<bar-index> " + "<size-exponent>" + "   (size = " + "2^exp MB)"

  predicate Comment(s: string) {
    s != "" && s[0] == '#' && !IsSpace(s[|s| - 1]) && OneLine(s)
  }

  predicate OneLine(s: string) {
    forall i :: 0 <= i < |s| ==> s[i] != '\n'
  }

  lemma {:induction false} HeaderIsComment()
    ensures Comment(TITLE) && Comment(LEGEND)
  {
    assert OneLine("# Written by ") && OneLine("`vee gpu rebar`") && OneLine(". One boot-time ")
           && OneLine("BAR resize per ") && OneLine("line:");
    assert OneLine("# <pci-addr> ") && OneLine("<bar-index> ") && OneLine("<size-exponent>")
           && OneLine("   (size = ") && OneLine("2^exp MB)");
  }

  function Render(sorted: seq<Entry>): string {
    TITLE + "\n" + (LEGEND + "\n" + RenderLines(sorted))
  }

  lemma {:induction false} DecimalIsWord(n: int)
    ensures IsWord(Decimal(n))
  {
    var d := Digits(if n < 0 then -n else n);
    assert forall i :: 0 <= i < |d| ==> IsDigit(d[i]);
  }

  lemma {:induction false} RenderedEntryParses(e: Entry)
    requires Clean(e.addr) && IsInt64(e.bar) && IsInt64(e.exp)
    ensures ParseLine(RenderEntry(e)) == Parsed(e.(addr := Normalize(e.addr)))
    ensures OneLine(RenderEntry(e))
  {
    var b, x := Decimal(e.bar), Decimal(e.exp);
    DecimalIsWord(e.bar);
    DecimalIsWord(e.exp);
    AtoiOfDecimal(e.bar);
    AtoiOfDecimal(e.exp);
    FieldsOfThree(e.addr, b, x);
    WordsLine(e.addr, b, x);
    LineParsed(RenderEntry(e), e, b, x);
  }

  lemma {:induction false} LineParsed(line: string, e: Entry, b: string, x: string)
    requires line != "" && line[0] != '#' && TrimSpace(line) == line && Fields(line) == [e.addr, b, x]
    requires Atoi(b) == Some(e.bar) && Atoi(x) == Some(e.exp)
    ensures ParseLine(line) == Parsed(e.(addr := Normalize(e.addr)))
  {
  }

  lemma {:induction false} WordsLine(a: string, b: string, c: string)
    requires IsWord(a) && IsWord(b) && IsWord(c)
    ensures var line := a + " " + b + " " + c;
            line != "" && line[0] == a[0] && TrimSpace(line) == line && OneLine(line)
  {
    var line := a + " " + b + " " + c;
    assert line[0] == a[0] && line[|line| - 1] == c[|c| - 1];
    OneLineJoined(a, b, c);
  }

  lemma {:induction false} OneLineJoined(a: string, b: string, c: string)
    requires NoSpace(a) && NoSpace(b) && NoSpace(c)
    ensures OneLine(a + " " + b + " " + c)
  {
    var line := a + " " + b + " " + c;
    forall i | 0 <= i < |line| ensures line[i] != '\n' {
      assert i < |a| ==> line[i] == a[i];
      assert |a| < i <= |a| + |b| ==> line[i] == b[i - |a| - 1];
      assert |a| + |b| + 2 <= i ==> line[i] == c[i - |a| - |b| - 2];
    }
  }

  function Normalized(es: seq<Entry>): (r: seq<Entry>)
    ensures |r| == |es| && forall i :: 0 <= i < |es| ==> r[i] == es[i].(addr := Normalize(es[i].addr))
  {
    if es == [] then [] else [es[0].(addr := Normalize(es[0].addr))] + Normalized(es[1..])
  }

  lemma {:induction false} RenderedLinesParse(es: seq<Entry>, n: nat)
    requires AllInts(es) && forall i :: 0 <= i < |es| ==> Clean(es[i].addr)
    ensures ParseLines(SplitLines(RenderLines(es)), n) == Ok(Normalized(es))
    decreases |es|
  {
    if es == [] {
      assert SplitLines("") == [""] && [""][1..] == [];
      assert ParseLines([], n + 1) == Ok([]);
    } else {
      RenderedEntryParses(es[0]);
      SplitFirstLine(RenderEntry(es[0]), RenderLines(es[1..]));
      RenderedLinesParse(es[1..], n + 1);
      var lines := SplitLines(RenderLines(es));
      assert lines[0] == RenderEntry(es[0]) && lines[1..] == SplitLines(RenderLines(es[1..]));
    }
  }

  lemma {:induction false} HeaderSkipped(t: string, l: string, body: string)
    requires Comment(t) && Comment(l)
    ensures ParseConf(t + "\n" + (l + "\n" + body)) == ParseLines(SplitLines(body), 3)
  {
    SplitFirstLine(t, l + "\n" + body);
    SplitFirstLine(l, body);
    var lines := [t] + ([l] + SplitLines(body));
    assert lines[1..] == [l] + SplitLines(body) && lines[1..][1..] == SplitLines(body);
    assert TrimSpace(t) == t && TrimSpace(l) == l;
    assert ParseLine(t).Skipped? && ParseLine(l).Skipped?;
    assert ParseLines(lines, 1) == ParseLines(lines[1..], 2);
  }

  /** Parsing a rendered list gives the list back if and only if every address is one word that is
      not a comment and has at least two colons. */
  lemma {:induction false} RenderParses(es: seq<Entry>)
    requires AllInts(es)
    ensures ParseConf(Render(es)) == Ok(es) <==> AllStable(es)
  {
    HeaderIsComment();
    HeaderSkipped(TITLE, LEGEND, RenderLines(es));
    ParsedAreReadable(SplitLines(RenderLines(es)), 3);
    if forall i :: 0 <= i < |es| ==> Clean(es[i].addr) {
      RenderedLinesParse(es, 3);
      var back := Normalized(es);
      if i :| 0 <= i < |es| && !Stable(es[i].addr) {
        assert |back[i].addr| == |es[i].addr| + 5;
      } else {
        assert back == es;
      }
    }
  }

  // ----- sorting

  // Go's string order.
  predicate StrLess(a: string, b: string) {
    b != "" && (a == "" || a[0] < b[0] || (a[0] == b[0] && StrLess(a[1..], b[1..])))
  }

  predicate Less(x: Entry, y: Entry) {
    if x.addr != y.addr then StrLess(x.addr, y.addr) else x.bar < y.bar
  }

  lemma {:induction false} StrLessTransitive(a: string, b: string, c: string)
    requires StrLess(a, b) && StrLess(b, c)
    ensures StrLess(a, c)
  {
    if a != "" && a[0] == b[0] == c[0] {
      StrLessTransitive(a[1..], b[1..], c[1..]);
    }
  }

  lemma {:induction false} StrLessIrreflexive(a: string)
    ensures !StrLess(a, a)
  {
    if a != "" {
      StrLessIrreflexive(a[1..]);
    }
  }

  lemma {:induction false} LessTransitive(x: Entry, y: Entry, z: Entry)
    requires Less(x, y) && Less(y, z)
    ensures Less(x, z)
  {
    if x.addr != y.addr && y.addr != z.addr {
      StrLessTransitive(x.addr, y.addr, z.addr);
      StrLessIrreflexive(x.addr);
    }
  }

  lemma {:induction false} LessAsymmetric(x: Entry, y: Entry)
    requires Less(x, y)
    ensures !Less(y, x)
  {
    if Less(y, x) {
      LessTransitive(x, y, x);
      StrLessIrreflexive(x.addr);
    }
  }

  predicate InOrder(es: seq<Entry>) {
    forall i, j :: 0 <= i < j < |es| ==> !Less(es[j], es[i])
  }

  function Insert(x: Entry, es: seq<Entry>): seq<Entry> {
    if es == [] || Less(x, es[0]) then [x] + es else [es[0]] + Insert(x, es[1..])
  }

  function Sorted(es: seq<Entry>): seq<Entry> {
    if es == [] then [] else Insert(es[|es| - 1], Sorted(es[..|es| - 1]))
  }

  lemma {:induction false} InsertPermutes(x: Entry, es: seq<Entry>)
    ensures multiset(Insert(x, es)) == multiset(es) + multiset{x}
  {
    if es != [] && !Less(x, es[0]) {
      InsertPermutes(x, es[1..]);
      assert es == [es[0]] + es[1..];
    }
  }

  lemma {:induction false} InsertInOrder(x: Entry, es: seq<Entry>)
    requires InOrder(es)
    ensures InOrder(Insert(x, es))
  {
    if es == [] || Less(x, es[0]) {
      forall j | 0 <= j < |es| ensures !Less(es[j], x) {
        if Less(es[j], x) {
          LessTransitive(es[j], x, es[0]);
          LessAsymmetric(es[j], es[0]);
        }
      }
    } else {
      var t := Insert(x, es[1..]);
      InsertInOrder(x, es[1..]);
      InsertPermutes(x, es[1..]);
      forall j | 0 <= j < |t| ensures !Less(t[j], es[0]) {
        assert t[j] in multiset(t);
        assert t[j] == x || t[j] in multiset(es[1..]);
      }
    }
  }

  /** RenderRebarConf writes the entries in order of address, then BAR. */
  lemma {:induction false} SortedSorts(es: seq<Entry>)
    ensures multiset(Sorted(es)) == multiset(es) && InOrder(Sorted(es))
  {
    if es != [] {
      var n := |es| - 1;
      SortedSorts(es[..n]);
      InsertPermutes(es[n], Sorted(es[..n]));
      InsertInOrder(es[n], Sorted(es[..n]));
      assert es == es[..n] + [es[n]];
    }
  }

  // ----- the map a list stands for

  type Key = (string, int)

  function KeyOf(e: Entry): Key { (e.addr, e.bar) }

  ghost predicate Represents(es: seq<Entry>, m: map<Key, int>) {
    && |es| == |m|
    && (forall i :: 0 <= i < |es| ==> KeyOf(es[i]) in m && m[KeyOf(es[i])] == es[i].exp)
    && (forall k :: k in m ==> Entry(k.0, k.1, m[k]) in es)
  }

  function KeysOf(es: seq<Entry>): set<Key> {
    if es == [] then {} else KeysOf(es[..|es| - 1]) + {KeyOf(es[|es| - 1])}
  }

  lemma {:induction false} KeysBounded(es: seq<Entry>)
    ensures |KeysOf(es)| <= |es|
    ensures forall i :: 0 <= i < |es| ==> KeyOf(es[i]) in KeysOf(es)
  {
    if es != [] {
      KeysBounded(es[..|es| - 1]);
    }
  }

  lemma {:induction false} SubsetSize<T>(a: set<T>, b: set<T>)
    requires a <= b
    ensures |a| <= |b|
  {
    assert b == a + (b - a);
  }

  /** Keys stay unique. */
  lemma {:induction false} KeysUnique(es: seq<Entry>, m: map<Key, int>)
    requires Represents(es, m)
    ensures forall i, j :: 0 <= i < j < |es| ==> KeyOf(es[i]) != KeyOf(es[j])
  {
    forall i, j | 0 <= i < j < |es| ensures KeyOf(es[i]) != KeyOf(es[j]) {
      if KeyOf(es[i]) == KeyOf(es[j]) {
        var rest := es[..j] + es[j + 1..];
        KeysBounded(rest);
        forall k | k in m.Keys ensures k in KeysOf(rest) {
          var e := Entry(k.0, k.1, m[k]);
          var p :| 0 <= p < |es| && es[p] == e;
          assert KeyOf(e) == k;
          var q := if p < j then p else if p == j then i else p - 1;
          assert KeyOf(rest[q]) == k;
        }
        SubsetSize(m.Keys, KeysOf(rest));
      }
    }
  }

  lemma {:induction false} PermutationRepresents(es: seq<Entry>, es': seq<Entry>, m: map<Key, int>)
    requires Represents(es, m) && multiset(es) == multiset(es')
    ensures Represents(es', m)
  {
    assert |es| == |multiset(es)| == |multiset(es')| == |es'|;
    forall i | 0 <= i < |es'| ensures KeyOf(es'[i]) in m && m[KeyOf(es'[i])] == es'[i].exp {
      assert es'[i] in multiset(es');
      assert es'[i] in multiset(es);
    }
    forall k | k in m ensures Entry(k.0, k.1, m[k]) in es' {
      assert Entry(k.0, k.1, m[k]) in multiset(es);
      assert Entry(k.0, k.1, m[k]) in multiset(es');
    }
  }

  // ----- updates

  // The first entry for the key, or |es|.
  function Find(es: seq<Entry>, k: Key): (i: nat)
    ensures i <= |es| && (i < |es| ==> KeyOf(es[i]) == k) && forall j :: 0 <= j < i ==> KeyOf(es[j]) != k
  {
    if es == [] then 0 else if KeyOf(es[0]) == k then 0 else 1 + Find(es[1..], k)
  }

  function Merged(es: seq<Entry>, e: Entry): seq<Entry> {
    var entry := e.(addr := Normalize(e.addr));
    var i := Find(es, KeyOf(entry));
    if i < |es| then es[i := entry] else es + [entry]
  }

  function Removed(es: seq<Entry>, addr: string, bar: int): seq<Entry> {
    var i := Find(es, (Normalize(addr), bar));
    if i < |es| then es[..i] + es[i + 1..] else es
  }

  lemma {:induction false} Listed(es: seq<Entry>, m: map<Key, int>, k: Key) returns (p: nat)
    requires Represents(es, m) && k in m
    ensures p < |es| && es[p] == Entry(k.0, k.1, m[k]) && KeyOf(es[p]) == k
  {
    p :| 0 <= p < |es| && es[p] == Entry(k.0, k.1, m[k]);
  }

  lemma {:induction false} ReplaceUpdates(es: seq<Entry>, m: map<Key, int>, i: nat, e: Entry)
    requires Represents(es, m) && i < |es| && KeyOf(es[i]) == KeyOf(e)
    ensures Represents(es[i := e], m[KeyOf(e) := e.exp])
  {
    KeysUnique(es, m);
    var es', m' := es[i := e], m[KeyOf(e) := e.exp];
    assert m'.Keys == m.Keys;
    forall k | k in m' ensures Entry(k.0, k.1, m'[k]) in es' {
      if k == KeyOf(e) {
        assert es'[i] == e;
      } else {
        var p := Listed(es, m, k);
        assert es'[p] == es[p];
      }
    }
  }

  lemma {:induction false} NewKeyCounts(m: map<Key, int>, k: Key, v: int)
    requires k !in m
    ensures |m[k := v]| == |m| + 1
  {
    assert m[k := v].Keys == m.Keys + {k};
  }

  lemma {:induction false} OldKeyCounts(m: map<Key, int>, k: Key)
    requires k in m
    ensures |m - {k}| == |m| - 1
  {
    assert (m - {k}).Keys == m.Keys - {k};
  }

  lemma {:induction false} AppendUpdates(es: seq<Entry>, m: map<Key, int>, e: Entry)
    requires Represents(es, m) && forall j :: 0 <= j < |es| ==> KeyOf(es[j]) != KeyOf(e)
    ensures Represents(es + [e], m[KeyOf(e) := e.exp])
  {
    var es', m' := es + [e], m[KeyOf(e) := e.exp];
    if KeyOf(e) in m {
      var p := Listed(es, m, KeyOf(e));
    }
    NewKeyCounts(m, KeyOf(e), e.exp);
    forall k | k in m' ensures Entry(k.0, k.1, m'[k]) in es' {
      if k == KeyOf(e) {
        assert es'[|es|] == e;
      } else {
        var p := Listed(es, m, k);
        assert es'[p] == es[p];
      }
    }
  }

  lemma {:induction false} DropDeletes(es: seq<Entry>, m: map<Key, int>, i: nat)
    requires Represents(es, m) && i < |es|
    ensures Represents(es[..i] + es[i + 1..], m - {KeyOf(es[i])})
  {
    KeysUnique(es, m);
    var es', m' := es[..i] + es[i + 1..], m - {KeyOf(es[i])};
    OldKeyCounts(m, KeyOf(es[i]));
    forall j | 0 <= j < |es'| ensures KeyOf(es'[j]) in m' && m'[KeyOf(es'[j])] == es'[j].exp {
      assert es'[j] == es[if j < i then j else j + 1];
    }
    forall k | k in m' ensures Entry(k.0, k.1, m'[k]) in es' {
      var p := Listed(es, m, k);
      assert es'[if p < i then p else p - 1] == es[p];
    }
  }

  /** MergeRebarEntry is map update. */
  lemma {:induction false} MergeUpdates(es: seq<Entry>, m: map<Key, int>, e: Entry)
    requires Represents(es, m)
    ensures Represents(Merged(es, e), m[(Normalize(e.addr), e.bar) := e.exp])
  {
    var entry := e.(addr := Normalize(e.addr));
    var i := Find(es, KeyOf(entry));
    if i < |es| {
      ReplaceUpdates(es, m, i, entry);
    } else {
      AppendUpdates(es, m, entry);
    }
  }

  /** RemoveRebarEntry is map deletion, and reports whether the key was present. */
  lemma {:induction false} RemoveDeletes(es: seq<Entry>, m: map<Key, int>, addr: string, bar: int)
    requires Represents(es, m)
    ensures Represents(Removed(es, addr, bar), m - {(Normalize(addr), bar)})
    ensures (Normalize(addr), bar) in m <==> Find(es, (Normalize(addr), bar)) < |es|
  {
    var k := (Normalize(addr), bar);
    var i := Find(es, k);
    if i < |es| {
      DropDeletes(es, m, i);
    } else {
      if k in m {
        var p := Listed(es, m, k);
      }
      assert m - {k} == m;
    }
  }

  // ----- the file across commands

  function ReadConf(file: Option<string>): Result<seq<Entry>, ConfError> {
    if file.None? then Ok([]) else ParseConf(file.value)
  }

  // The map the file reads as.
  ghost predicate ReadsAs(file: Option<string>, m: map<Key, int>) {
    ReadConf(file).Ok? && Represents(ReadConf(file).value, m)
  }

  // Every address gives its domain.
  predicate Qualified(m: map<Key, int>) {
    forall k :: k in m ==> Colons(k.0) >= 2
  }

  // The file reads as the map and can be written again.
  ghost predicate Holds(file: Option<string>, m: map<Key, int>) {
    ReadsAs(file, m) && Qualified(m)
  }

  // rebarInstall's effect on the file: read, merge, render; an unreadable file is left alone.
  function Installed(file: Option<string>, e: Entry): Option<string> {
    var r := ReadConf(file);
    if r.Err? then file else Some(Render(Sorted(Merged(r.value, e))))
  }

  // rebarUninstall's: read, remove, render; the file goes when its last entry does.
  function Uninstalled(file: Option<string>, addr: string, bar: int): Option<string> {
    var r := ReadConf(file);
    if r.Err? || Find(r.value, (Normalize(addr), bar)) == |r.value| then file else
      var es := Removed(r.value, addr, bar);
      if es == [] then None else Some(Render(Sorted(es)))
  }

  // An address the file can carry: one word, one colon or more, and no comment.
  predicate Usable(addr: string) {
    NoSpace(addr) && (Colons(addr) == 1 || (Colons(addr) >= 2 && addr[0] != '#'))
  }

  lemma {:induction false} ColonsMeanText(addr: string)
    ensures Colons(addr) > 0 ==> addr != ""
  {
  }

  lemma {:induction false} UsableIsStable(addr: string)
    ensures Usable(addr) <==> Stable(Normalize(addr))
  {
    ColonsOfDomain();
    ColonsConcat("0000:", addr);
    ColonsMeanText(addr);
    if Colons(addr) <= 1 {
      var n := "0000:" + addr;
      assert NoSpace("0000:");
      assert NoSpace(n) <==> NoSpace(addr) by {
        assert forall i :: 0 <= i < |addr| ==> n[i + 5] == addr[i];
      }
    }
  }

  lemma {:induction false} WritesStable(es: seq<Entry>, m: map<Key, int>)
    requires Represents(es, m) && AllInts(es) && AllStable(es)
    ensures ReadsAs(Some(Render(Sorted(es))), m)
  {
    SortedSorts(es);
    PermutationRepresents(es, Sorted(es), m);
    SameMembers(es, Sorted(es));
    RenderParses(Sorted(es));
  }

  // Entries that read back as the same map have addresses that reading back leaves alone.
  lemma {:induction false} ReadsBackStable(es: seq<Entry>, m: map<Key, int>)
    requires Represents(es, m) && AllInts(es) && forall i :: 0 <= i < |es| ==> Colons(es[i].addr) >= 1
    requires ReadsAs(Some(Render(es)), m)
    ensures AllStable(es)
  {
    var back := ParseConf(Render(es)).value;
    HeaderIsComment();
    HeaderSkipped(TITLE, LEGEND, RenderLines(es));
    ParsedAreReadable(SplitLines(RenderLines(es)), 3);
    forall i | 0 <= i < |es| ensures Clean(es[i].addr) {
      var p := Listed(back, m, KeyOf(es[i]));
    }
    RenderedLinesParse(es, 3);
    forall i | 0 <= i < |es| ensures Colons(es[i].addr) >= 2 {
      var p := Listed(back, m, KeyOf(es[i]));
      NormalizedColons(es[p].addr);
    }
  }

  /** What is written reads as the entries' map if and only if every address is stable. */
  lemma {:induction false} WritesMap(es: seq<Entry>, m: map<Key, int>)
    requires Represents(es, m) && AllInts(es) && forall i :: 0 <= i < |es| ==> Colons(es[i].addr) >= 1
    ensures ReadsAs(Some(Render(Sorted(es))), m) <==> AllStable(es)
  {
    if AllStable(es) {
      WritesStable(es, m);
    } else if ReadsAs(Some(Render(Sorted(es))), m) {
      SortedSorts(es);
      PermutationRepresents(es, Sorted(es), m);
      SameMembers(es, Sorted(es));
      ReadsBackStable(Sorted(es), m);
    }
  }

  lemma {:induction false} ReadIsReadable(file: Option<string>)
    ensures var r := ReadConf(file); r.Ok? ==> AllInts(r.value) && AllReadable(r.value)
  {
    if file.Some? {
      ParsedAreReadable(SplitLines(file.value), 1);
    }
  }

  lemma {:induction false} StableWhenQualified(es: seq<Entry>, m: map<Key, int>)
    requires Represents(es, m) && AllReadable(es)
    ensures AllStable(es) <==> Qualified(m)
  {
    forall k | k in m ensures exists i :: 0 <= i < |es| && es[i].addr == k.0 {
      var p := Listed(es, m, k);
    }
  }

  lemma {:induction false} MergedStable(es: seq<Entry>, m: map<Key, int>, e: Entry)
    requires Represents(es, m) && AllReadable(es)
    ensures AllStable(Merged(es, e)) <==> Usable(e.addr) && Qualified(m)
  {
    UsableIsStable(e.addr);
    StableWhenQualified(es, m);
    var entry := e.(addr := Normalize(e.addr));
    var i, left := Find(es, KeyOf(entry)), Merged(es, e);
    assert left[i] == entry;
    assert forall j :: 0 <= j < |es| && j != i ==> left[j] == es[j];
    if AllStable(left) {
      forall j | 0 <= j < |es| ensures Stable(es[j].addr) {
        assert es[j].addr == left[j].addr;
      }
    }
  }

  /** After an install the file reads as the updated map if and only if the address is usable and every
      address already in the file gives its domain. */
  lemma {:induction false} InstallUpdates(file: Option<string>, m: map<Key, int>, e: Entry)
    requires ReadsAs(file, m) && IsInt64(e.bar) && IsInt64(e.exp)
    ensures ReadsAs(Installed(file, e), m[(Normalize(e.addr), e.bar) := e.exp]) <==> Usable(e.addr) && Qualified(m)
  {
    var es := ReadConf(file).value;
    ReadIsReadable(file);
    MergeUpdates(es, m, e);
    MergedStable(es, m, e);
    NormalizedColons(e.addr);
    WritesMap(Merged(es, e), m[(Normalize(e.addr), e.bar) := e.exp]);
  }

  lemma {:induction false} OneEntryReads(e: Entry)
    requires Clean(e.addr) && IsInt64(e.bar) && IsInt64(e.exp)
    ensures ParseConf(Render([e])) == Ok([e.(addr := Normalize(e.addr))])
  {
    HeaderIsComment();
    HeaderSkipped(TITLE, LEGEND, RenderLines([e]));
    RenderedLinesParse([e], 3);
    assert Normalized([e]) == [e.(addr := Normalize(e.addr))];
  }

  lemma {:induction false} FirstInstall(e: Entry)
    ensures Installed(None, e) == Some(Render([e.(addr := Normalize(e.addr))]))
  {
    var entry := e.(addr := Normalize(e.addr));
    assert Merged([], e) == [entry];
    assert [entry][..0] == [] && Sorted([entry]) == Insert(entry, Sorted([])) == [entry];
  }

  lemma {:induction false} NormalizeOne()
    ensures Normalize("1") == "0000:1" && Normalize("0000:1") == "0000:0000:1" && Clean("0000:1")
  {
    ColonsOfDomain();
    ColonsConcat("0000:", "1");
    assert "1"[1..] == "" && Colons("1") == 0;
    assert "0000:" + "1" == "0000:1" && "0000:" + "0000:1" == "0000:0000:1";
  }

  /** An address without a colon, such as "1": normalising it twice adds the domain twice, so the entry
      installed under "0000:1" comes back under another key. */
  lemma {:induction false} ColonlessAddressIsLost(bar: int, exp: int)
    requires IsInt64(bar) && IsInt64(exp)
    ensures Normalize("1") == "0000:1" && Normalize("0000:1") == "0000:0000:1"
    ensures ReadConf(Installed(None, Entry("1", bar, exp))) == Ok([Entry("0000:0000:1", bar, exp)])
  {
    NormalizeOne();
    FirstInstall(Entry("1", bar, exp));
    OneEntryReads(Entry("0000:1", bar, exp));
  }

  lemma {:induction false} WritesWhatStays(es: seq<Entry>, m: map<Key, int>)
    requires Represents(es, m) && AllInts(es) && AllReadable(es)
    ensures ReadsAs(if es == [] then None else Some(Render(Sorted(es))), m) <==> Qualified(m)
  {
    StableWhenQualified(es, m);
    WritesMap(es, m);
  }

  lemma {:induction false} RemovedStay(es: seq<Entry>, addr: string, bar: int)
    requires AllInts(es) && AllReadable(es)
    ensures var left := Removed(es, addr, bar); AllInts(left) && AllReadable(left)
  {
    var i, left := Find(es, (Normalize(addr), bar)), Removed(es, addr, bar);
    assert i < |es| ==> forall j :: 0 <= j < |left| ==> left[j] == es[if j < i then j else j + 1];
  }

  lemma {:induction false} DeletesFromFile(file: Option<string>, m: map<Key, int>, addr: string, bar: int)
    requires ReadsAs(file, m) && (Normalize(addr), bar) in m
    ensures var k := (Normalize(addr), bar);
            && (ReadsAs(Uninstalled(file, addr, bar), m - {k}) <==> Qualified(m - {k}))
            && (Uninstalled(file, addr, bar).None? <==> |m| == 1)
  {
    var es, k := ReadConf(file).value, (Normalize(addr), bar);
    ReadIsReadable(file);
    RemoveDeletes(es, m, addr, bar);
    RemovedStay(es, addr, bar);
    OldKeyCounts(m, k);
    WritesWhatStays(Removed(es, addr, bar), m - {k});
  }

  /** An uninstall is map deletion in the file if and only if there is nothing to delete or every address
      that stays gives its domain; the file goes when its last entry does. */
  lemma {:induction false} UninstallDeletes(file: Option<string>, m: map<Key, int>, addr: string, bar: int)
    requires ReadsAs(file, m)
    ensures var k := (Normalize(addr), bar);
            && (ReadsAs(Uninstalled(file, addr, bar), m - {k}) <==> k !in m || Qualified(m - {k}))
            && (k in m && |m| == 1 <==> file.Some? && Uninstalled(file, addr, bar).None?)
            && (k !in m ==> Uninstalled(file, addr, bar) == file)
  {
    var k := (Normalize(addr), bar);
    if k in m {
      DeletesFromFile(file, m, addr, bar);
    } else {
      RemoveDeletes(ReadConf(file).value, m, addr, bar);
      assert m - {k} == m;
    }
  }

  lemma {:induction false} InstallHolds(file: Option<string>, m: map<Key, int>, e: Entry)
    requires Holds(file, m) && Usable(e.addr) && IsInt64(e.bar) && IsInt64(e.exp)
    ensures Holds(Installed(file, e), m[(Normalize(e.addr), e.bar) := e.exp])
  {
    InstallUpdates(file, m, e);
    UsableIsStable(e.addr);
  }

  lemma {:induction false} UninstallHolds(file: Option<string>, m: map<Key, int>, addr: string, bar: int)
    requires Holds(file, m)
    ensures Holds(Uninstalled(file, addr, bar), m - {(Normalize(addr), bar)})
  {
    UninstallDeletes(file, m, addr, bar);
  }

  datatype Command = Set(entry: Entry) | Unset(addr: string, bar: int)

  function RunFile(file: Option<string>, cmds: seq<Command>): Option<string> {
    if cmds == [] then file else
      var before := RunFile(file, cmds[..|cmds| - 1]);
      match cmds[|cmds| - 1]
      case Set(e) => Installed(before, e)
      case Unset(a, b) => Uninstalled(before, a, b)
  }

  function RunMap(m: map<Key, int>, cmds: seq<Command>): map<Key, int> {
    if cmds == [] then m else
      var before := RunMap(m, cmds[..|cmds| - 1]);
      match cmds[|cmds| - 1]
      case Set(e) => before[(Normalize(e.addr), e.bar) := e.exp]
      case Unset(a, b) => before - {(Normalize(a), b)}
  }

  /** Any sequence of commands on usable addresses, with the file rendered and parsed between them,
      is the same sequence of updates and deletions on a finite map. */
  lemma {:induction false} FileIsAMap(file: Option<string>, m: map<Key, int>, cmds: seq<Command>)
    requires Holds(file, m)
    requires forall i :: 0 <= i < |cmds| && cmds[i].Set? ==>
                           Usable(cmds[i].entry.addr) && IsInt64(cmds[i].entry.bar) && IsInt64(cmds[i].entry.exp)
    ensures Holds(RunFile(file, cmds), RunMap(m, cmds))
  {
    if cmds != [] {
      var n := |cmds| - 1;
      FileIsAMap(file, m, cmds[..n]);
      var f', m' := RunFile(file, cmds[..n]), RunMap(m, cmds[..n]);
      match cmds[n]
      case Set(e) => InstallHolds(f', m', e);
      case Unset(a, b) => UninstallHolds(f', m', a, b);
    }
  }

  // ----- the edits as written, in place

  class EntryList {
    var entries: seq<Entry>

    constructor (es: seq<Entry>)
      ensures entries == es
    {
      entries := es;
    }

    method MergeRebarEntry(e: Entry)
      modifies this
      ensures entries == Merged(old(entries), e)
    {
      var entry := e.(addr := Normalize(e.addr));
      for i := 0 to |entries|
        invariant entries == old(entries)
        invariant forall j :: 0 <= j < i ==> KeyOf(entries[j]) != KeyOf(entry)
      {
        if entries[i].addr == entry.addr && entries[i].bar == entry.bar {
          FindIs(entries, KeyOf(entry), i);
          entries := entries[i := entry];
          return;
        }
      }
      entries := entries + [entry];
    }

    method RemoveRebarEntry(addr: string, bar: int) returns (found: bool)
      modifies this
      ensures entries == Removed(old(entries), addr, bar)
      ensures found <==> exists i :: 0 <= i < |old(entries)| && KeyOf(old(entries)[i]) == (Normalize(addr), bar)
    {
      var a := Normalize(addr);
      for i := 0 to |entries|
        invariant entries == old(entries)
        invariant forall j :: 0 <= j < i ==> KeyOf(entries[j]) != (a, bar)
      {
        if entries[i].addr == a && entries[i].bar == bar {
          FindIs(entries, (a, bar), i);
          entries := entries[..i] + entries[i + 1..];
          return true;
        }
      }
      return false;
    }
  }

  lemma {:induction false} FindIs(es: seq<Entry>, k: Key, i: nat)
    requires i < |es| && KeyOf(es[i]) == k && forall j :: 0 <= j < i ==> KeyOf(es[j]) != k
    ensures Find(es, k) == i
  {
  }

  method WriteEntries(header: string, sorted: seq<Entry>) returns (text: string)
    ensures text == header + RenderLines(sorted)
  {
    text := header;
    assert sorted[0..] == sorted;
    for i := 0 to |sorted|
      invariant text + RenderLines(sorted[i..]) == header + RenderLines(sorted)
    {
      assert sorted[i..][1..] == sorted[i + 1..];
      var line := RenderEntry(sorted[i]) + "\n";
      assert text + (line + RenderLines(sorted[i + 1..])) == (text + line) + RenderLines(sorted[i + 1..]);
      text := text + line;
    }
    assert text + "" == text;
  }

  /** RenderRebarConf: a sorted copy, then one line per entry. */
  method RenderRebarConf(es: seq<Entry>) returns (text: string)
    ensures text == Render(Sorted(es))
  {
    var header := TITLE + "\n" + (LEGEND + "\n");
    text := WriteEntries(header, Sorted(es));
    Regroup(TITLE + "\n", LEGEND + "\n", RenderLines(Sorted(es)));
  }

  /** Parsing a rendered list yields its sorted form, exactly when every address is stable. */
  lemma {:induction false} RenderSortsAndParses(es: seq<Entry>)
    requires AllInts(es)
    ensures ParseConf(Render(Sorted(es))) == Ok(Sorted(es)) <==> AllStable(es)
  {
    SortedSorts(es);
    SameMembers(es, Sorted(es));
    RenderParses(Sorted(es));
  }

  lemma {:induction false} SameMembers(es: seq<Entry>, es': seq<Entry>)
    requires multiset(es) == multiset(es')
    ensures AllInts(es) ==> AllInts(es')
    ensures AllStable(es) <==> AllStable(es')
  {
    forall i | 0 <= i < |es'| ensures es'[i] in es {
      assert es'[i] in multiset(es');
      assert es'[i] in multiset(es);
    }
    forall i | 0 <= i < |es| ensures es[i] in es' {
      assert es[i] in multiset(es);
      assert es[i] in multiset(es');
    }
  }
}
