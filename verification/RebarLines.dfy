/**
 The lines of the BAR list by their grammar: three words between white space, the last two of them numerals,
 is an entry; nothing but white space, or a first word that starts with '#', is skipped; anything else is malformed.
 */
module RebarLines {
  import opened Wrappers
  import opened Text
  import opened Rebar

  // ----- words and gaps

  predicate Gap(s: string) {
    forall i :: 0 <= i < |s| ==> IsSpace(s[i])
  }

  // White space, by code point.
  lemma {:induction false} SpaceTable(c: char)
    ensures IsSpace(c) <==>
            var n := c as int;
            || 9 <= n <= 13 || n == 32 || n == 0x85 || n == 0xA0 || n == 0x1680 || 0x2000 <= n <= 0x200A
            || n == 0x2028 || n == 0x2029 || n == 0x202F || n == 0x205F || n == 0x3000
  {
  }

  // Words with gaps before, between and after them.
  function Weave(words: seq<string>, gaps: seq<string>): string
    requires |gaps| == |words| + 1
  {
    if words == [] then gaps[0] else gaps[0] + (words[0] + Weave(words[1..], gaps[1..]))
  }

  predicate Woven(words: seq<string>, gaps: seq<string>) {
    && |gaps| == |words| + 1
    && (forall i :: 0 <= i < |words| ==> IsWord(words[i]))
    && (forall i :: 0 <= i < |gaps| ==> Gap(gaps[i]))
    && (forall i :: 0 < i < |words| ==> gaps[i] != "")
  }

  lemma {:induction false} GapSkipped(gap: string, rest: string)
    requires Gap(gap)
    ensures FieldsFrom("", gap + rest) == FieldsFrom("", rest)
  {
    if gap == "" {
      assert gap + rest == rest;
    } else {
      GapSkipped(gap[1..], rest);
      assert (gap + rest)[1..] == gap[1..] + rest;
    }
  }

  lemma {:induction false} WordTaken(cur: string, w: string, rest: string)
    requires NoSpace(w) && cur + w != "" && (rest == "" || IsSpace(rest[0]))
    ensures FieldsFrom(cur, w + rest) == [cur + w] + Fields(rest)
    decreases |w|
  {
    if w == "" {
      assert w + rest == rest && cur + w == cur;
      assert rest != "" ==> Fields(rest) == FieldsFrom("", rest[1..]);
    } else {
      assert (w + rest)[1..] == w[1..] + rest && (w + rest)[0] == w[0];
      WordTaken(cur + [w[0]], w[1..], rest);
      assert cur + [w[0]] + w[1..] == cur + w;
    }
  }

  lemma {:induction false} WeaveStarts(words: seq<string>, gaps: seq<string>)
    requires Woven(words, gaps) && (words != [] ==> gaps[0] != "")
    ensures var s := Weave(words, gaps); s == "" || IsSpace(s[0])
  {
    if words != [] {
      assert Weave(words, gaps)[0] == gaps[0][0];
    }
  }

  /** strings.Fields gives back the words whatever white space is around them. */
  lemma {:induction false} FieldsOfWeave(words: seq<string>, gaps: seq<string>)
    requires Woven(words, gaps)
    ensures Fields(Weave(words, gaps)) == words
    decreases |words|
  {
    if words == [] {
      GapSkipped(gaps[0], "");
      assert gaps[0] + "" == gaps[0];
    } else {
      var rest := Weave(words[1..], gaps[1..]);
      FieldsOfWeave(words[1..], gaps[1..]);
      WeaveStarts(words[1..], gaps[1..]);
      GapSkipped(gaps[0], words[0] + rest);
      assert "" + words[0] == words[0];
      WordTaken("", words[0], rest);
    }
  }

  lemma {:induction false} FirstField(gap: string, w: string, rest: string)
    requires Gap(gap) && IsWord(w) && (rest == "" || IsSpace(rest[0]))
    ensures Fields(gap + (w + rest)) == [w] + Fields(rest)
  {
    GapSkipped(gap, w + rest);
    assert "" + w == w;
    WordTaken("", w, rest);
  }

  // Every text is its fields woven into some gaps.
  lemma {:induction false} WeaveOfFields(s: string) returns (gaps: seq<string>)
    ensures Woven(Fields(s), gaps) && s == Weave(Fields(s), gaps)
    decreases |s|
  {
    var gap, w, rest := FirstWord(s);
    if w == "" {
      GapSkipped(s, "");
      assert s + "" == s;
      gaps := [s];
    } else {
      var more := WeaveOfFields(rest);
      gaps := [gap] + more;
      FirstField(gap, w, rest);
      Joined(gap, w, rest, more);
    }
  }

  lemma {:induction false} FirstWord(s: string) returns (gap: string, w: string, rest: string)
    ensures Gap(gap) && NoSpace(w) && s == gap + (w + rest) && (rest == "" || IsSpace(rest[0]))
    ensures w == "" ==> Gap(s)
    ensures w != "" ==> |rest| < |s|
  {
    var n := Leading(s);
    var m := Run(s[n..]);
    gap, w, rest := s[..n], s[n..][..m], s[n..][m..];
    if m == 0 {
      assert n == |s| && s[..n] == s;
    }
  }

  lemma {:induction false} Joined(gap: string, w: string, rest: string, more: seq<string>)
    requires Gap(gap) && IsWord(w) && (rest == "" || IsSpace(rest[0]))
    requires Woven(Fields(rest), more) && rest == Weave(Fields(rest), more)
    ensures Woven([w] + Fields(rest), [gap] + more)
    ensures Weave([w] + Fields(rest), [gap] + more) == gap + (w + rest)
  {
    var words, gaps := [w] + Fields(rest), [gap] + more;
    assert words[1..] == Fields(rest) && gaps[1..] == more;
  }

  // The leading white space, and the leading run of anything else.
  function Leading(s: string): (n: nat)
    ensures n <= |s| && Gap(s[..n]) && (n < |s| ==> !IsSpace(s[n]))
  {
    if s != "" && IsSpace(s[0]) then
      assert forall i :: 0 <= i < Leading(s[1..]) ==> s[1..][i] == s[i + 1];
      1 + Leading(s[1..])
    else 0
  }

  function Run(s: string): (n: nat)
    ensures n <= |s| && NoSpace(s[..n]) && (n < |s| ==> IsSpace(s[n])) && (s != "" && !IsSpace(s[0]) ==> n > 0)
  {
    if s != "" && !IsSpace(s[0]) then
      assert forall i :: 0 <= i < Run(s[1..]) ==> s[1..][i] == s[i + 1];
      1 + Run(s[1..])
    else 0
  }

  // ----- one line

  lemma {:induction false} TrailingSpace(cur: string, s: string, c: char)
    requires IsSpace(c)
    ensures FieldsFrom(cur, s + [c]) == FieldsFrom(cur, s)
    decreases |s|
  {
    if s == "" {
      assert s + [c] == [c] && [c][1..] == "";
      assert FieldsFrom("", "") == [];
    } else {
      assert (s + [c])[1..] == s[1..] + [c];
      TrailingSpace("", s[1..], c);
      TrailingSpace(cur + [s[0]], s[1..], c);
    }
  }

  lemma {:induction false} TrimKeepsFields(s: string)
    ensures Fields(TrimSpace(s)) == Fields(s)
    decreases |s|
  {
    if s != "" {
      if IsSpace(s[0]) {
        TrimKeepsFields(s[1..]);
      } else if IsSpace(s[|s| - 1]) {
        TrimKeepsFields(s[..|s| - 1]);
        TrailingSpace("", s[..|s| - 1], s[|s| - 1]);
        assert s == s[..|s| - 1] + [s[|s| - 1]];
      }
    }
  }

  lemma {:induction false} FirstLetter(s: string)
    ensures TrimSpace(s) == "" <==> Fields(s) == []
    ensures Fields(s) != [] ==> TrimSpace(s) != "" && Fields(s)[0] != "" && Fields(s)[0][0] == TrimSpace(s)[0]
  {
    TrimKeepsFields(s);
    var t := TrimSpace(s);
    if t != "" {
      FirstFieldStarts([t[0]], t[1..]);
      assert "" + [t[0]] == [t[0]];
    }
  }

  // What a numeral says.
  predicate Numeral(s: string, n: int) {
    && IsInt64(n) && s != ""
    && (if s[0] == '-' then |s| > 1 && AllDigits(s[1..]) && -n == Value(s[1..])
        else if s[0] == '+' then |s| > 1 && AllDigits(s[1..]) && n == Value(s[1..])
        else AllDigits(s) && n == Value(s))
  }

  ghost predicate Entered(line: string, e: Entry) {
    exists a, b, x, gaps ::
      && Woven([a, b, x], gaps) && line == Weave([a, b, x], gaps) && a[0] != '#'
      && e.addr == Normalize(a) && Numeral(b, e.bar) && Numeral(x, e.exp)
  }

  ghost predicate Passed(line: string) {
    exists words, gaps :: Woven(words, gaps) && line == Weave(words, gaps) && (words == [] || words[0][0] == '#')
  }

  lemma {:induction false} LineByFields(line: string)
    ensures var fs := Fields(line);
            && (ParseLine(line).Skipped? <==> fs == [] || (fs[0] != "" && fs[0][0] == '#'))
            && forall e :: ParseLine(line) == Parsed(e) <==>
                           && |fs| == 3 && fs[0] != "" && fs[0][0] != '#' && e.addr == Normalize(fs[0])
                           && Numeral(fs[1], e.bar) && Numeral(fs[2], e.exp)
  {
    TrimKeepsFields(line);
    FirstLetter(line);
  }

  lemma {:induction false} EnteredFields(line: string, e: Entry)
    requires Entered(line, e)
    ensures ParseLine(line) == Parsed(e)
  {
    var a, b, x, gaps :| && Woven([a, b, x], gaps) && line == Weave([a, b, x], gaps) && a[0] != '#'
                         && e.addr == Normalize(a) && Numeral(b, e.bar) && Numeral(x, e.exp);
    FieldsOfWeave([a, b, x], gaps);
    LineByFields(line);
  }

  /** A line is an entry if and only if it is written as one, and skipped if and only if it is blank or a comment. */
  lemma {:induction false} LinesAreExact(line: string)
    ensures forall e :: ParseLine(line) == Parsed(e) <==> Entered(line, e)
    ensures ParseLine(line).Skipped? <==> Passed(line)
  {
    LineByFields(line);
    var fs := Fields(line);
    var gaps := WeaveOfFields(line);
    forall e | ParseLine(line) == Parsed(e) ensures Entered(line, e) {
      assert fs == [fs[0], fs[1], fs[2]];
      assert Woven([fs[0], fs[1], fs[2]], gaps);
    }
    forall e | Entered(line, e) ensures ParseLine(line) == Parsed(e) {
      EnteredFields(line, e);
    }
    if Passed(line) {
      var words, gs :| Woven(words, gs) && line == Weave(words, gs) && (words == [] || words[0][0] == '#');
      FieldsOfWeave(words, gs);
    }
  }

  // ----- the whole file

  function Unlines(lines: seq<string>): string {
    if lines == [] then "" else if |lines| == 1 then lines[0] else lines[0] + ("\n" + Unlines(lines[1..]))
  }

  lemma {:induction false} LinesOfFile(s: string)
    ensures Unlines(SplitLines(s)) == s && forall i :: 0 <= i < |SplitLines(s)| ==> OneLine(SplitLines(s)[i])
    decreases |s|
  {
    if s != "" {
      LinesOfFile(s[1..]);
      var r, lines := SplitLines(s[1..]), SplitLines(s);
      assert s == [s[0]] + s[1..];
      if s[0] == '\n' {
        assert lines[1..] == r;
      } else {
        assert OneLine(r[0]) && lines[1..] == r[1..];
        assert |r| > 1 ==> [s[0]] + (r[0] + ("\n" + Unlines(r[1..]))) == [s[0]] + r[0] + ("\n" + Unlines(r[1..]));
      }
    }
  }

  // What each line is.
  function Kinds(lines: seq<string>): (ks: seq<LineKind>)
    ensures |ks| == |lines| && forall i :: 0 <= i < |lines| ==> ks[i] == ParseLine(lines[i])
  {
    seq(|lines|, i requires 0 <= i < |lines| => ParseLine(lines[i]))
  }

  // The entries among them, in order.
  function Entries(ks: seq<LineKind>): seq<Entry> {
    if ks == [] then [] else (if ks[0].Parsed? then [ks[0].entry] else []) + Entries(ks[1..])
  }

  // The first malformed one.
  predicate FirstBad(ks: seq<LineKind>, k: nat) {
    k < |ks| && ks[k].Malformed? && forall j :: 0 <= j < k ==> !ks[j].Malformed?
  }

  function Total(ks: seq<LineKind>, n: nat): Result<seq<Entry>, ConfError> {
    if ks == [] then Ok([])
    else if ks[0].Malformed? then Err(BadLine(n))
    else
      var rest := Total(ks[1..], n + 1);
      if rest.Err? then rest else Ok((if ks[0].Parsed? then [ks[0].entry] else []) + rest.value)
  }

  lemma {:induction false} ParseByKinds(lines: seq<string>, n: nat)
    ensures ParseLines(lines, n) == Total(Kinds(lines), n)
    decreases |lines|
  {
    if lines != [] {
      ParseByKinds(lines[1..], n + 1);
      assert Kinds(lines)[1..] == Kinds(lines[1..]) && Kinds(lines)[0] == ParseLine(lines[0]);
      var rest := ParseLines(lines[1..], n + 1);
      assert rest.Ok? ==> [] + rest.value == rest.value;
    }
  }

  lemma {:induction false} AllGood(ks: seq<LineKind>, n: nat)
    requires forall j :: 0 <= j < |ks| ==> !ks[j].Malformed?
    ensures Total(ks, n) == Ok(Entries(ks))
    decreases |ks|
  {
    if ks != [] {
      AllGood(ks[1..], n + 1);
    }
  }

  lemma {:induction false} BadAt(ks: seq<LineKind>, k: nat, n: nat)
    requires FirstBad(ks, k)
    ensures Total(ks, n) == Err(BadLine(n + k))
    decreases |ks|
  {
    if k > 0 {
      BadAt(ks[1..], k - 1, n + 1);
    }
  }

  lemma {:induction false} SomeBad(ks: seq<LineKind>, j: nat) returns (k: nat)
    requires j < |ks| && ks[j].Malformed?
    ensures FirstBad(ks, k)
  {
    if i: nat :| i < j && ks[i].Malformed? {
      k := SomeBad(ks, i);
    } else {
      k := j;
    }
  }

  lemma {:induction false} ByFirstBad(ks: seq<LineKind>)
    ensures forall k: nat :: Total(ks, 1) == Err(BadLine(k)) <==> k > 0 && FirstBad(ks, k - 1)
    ensures Total(ks, 1).Ok? ==> Total(ks, 1).value == Entries(ks)
  {
    if j: nat :| j < |ks| && ks[j].Malformed? {
      var k := SomeBad(ks, j);
      BadAt(ks, k, 1);
    } else {
      AllGood(ks, 1);
    }
    forall k: nat | k > 0 && FirstBad(ks, k - 1) ensures Total(ks, 1) == Err(BadLine(k)) {
      BadAt(ks, k - 1, 1);
    }
  }

  /** A file is refused with the number of its first malformed line, counted from 1, and read as the entries of its
      lines if it has none. */
  lemma {:induction false} FilesAreExact(content: string)
    ensures var ks := Kinds(SplitLines(content));
            && (forall k: nat :: ParseConf(content) == Err(BadLine(k)) <==> k > 0 && FirstBad(ks, k - 1))
            && (ParseConf(content).Ok? ==> ParseConf(content).value == Entries(ks))
  {
    ParseByKinds(SplitLines(content), 1);
    ByFirstBad(Kinds(SplitLines(content)));
  }

  // ----- the order of the entries

  ghost predicate DiffersAt(a: string, b: string, k: nat) {
    k <= |a| && k <= |b| && a[..k] == b[..k] && k < |b| && (k == |a| || a[k] < b[k])
  }

  lemma {:induction false} LexicographicOrder(a: string, b: string)
    ensures StrLess(a, b) <==> exists k: nat :: DiffersAt(a, b, k)
    decreases |a|
  {
    if a == "" || b == "" {
      if b != "" {
        assert DiffersAt(a, b, 0);
      }
    } else {
      LexicographicOrder(a[1..], b[1..]);
      if a[0] < b[0] {
        assert DiffersAt(a, b, 0);
      }
      forall k: nat | DiffersAt(a[1..], b[1..], k) && a[0] == b[0] ensures DiffersAt(a, b, k + 1) {
        assert a[..k + 1] == [a[0]] + a[1..][..k] && b[..k + 1] == [b[0]] + b[1..][..k];
      }
      forall k: nat | DiffersAt(a, b, k) && k > 0 ensures a[0] == b[0] && DiffersAt(a[1..], b[1..], k - 1) {
        assert a[..k][0] == b[..k][0];
        assert a[1..][..k - 1] == a[..k][1..] && b[1..][..k - 1] == b[..k][1..];
      }
    }
  }

  /** Entries are ordered by address, as text, and by BAR within an address. */
  lemma {:induction false} EntryOrder(x: Entry, y: Entry)
    ensures Less(x, y) <==> (exists k: nat :: DiffersAt(x.addr, y.addr, k)) || (x.addr == y.addr && x.bar < y.bar)
  {
    LexicographicOrder(x.addr, y.addr);
  }
}
