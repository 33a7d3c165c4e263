// The remote-command quoting of `cmd/ssh.go` and the proof that the guest's shell undoes it.
module Quoting {
  import opened Wrappers
  import opened Shells
  import opened Text

  // ----- the two printers

  // strings.ReplaceAll(s, "'", `'\''`)
  function EscapeQuotes(s: string): string {
    if s == "" then ""
    else (if s[0] == '\'' then "'\\''" else [s[0]]) + EscapeQuotes(s[1..])
  }

  function ShellQuote(s: string): string {
    if s == "" then "''"
    else if forall i :: 0 <= i < |s| ==> Inert(s[i]) then s
    else "'" + EscapeQuotes(s) + "'"
  }

  predicate CmdInert(c: char) {
    Inert(c) || c == '\\'
  }

  // What the quoting loop still writes for `s` after `k` pending backslashes, closing mark included.
  function CmdBody(k: nat, s: string): string
    decreases |s|
  {
    if s == "" then Slashes(k) + "\""
    else if s[0] == '\\' then "\\" + CmdBody(k + 1, s[1..])
    else if s[0] == '\"' then Slashes(k) + "\"\"" + CmdBody(0, s[1..])
    else [s[0]] + CmdBody(0, s[1..])
  }

  function CmdQuoted(s: string): string {
    if s == "" then "\"\""
    else if forall i :: 0 <= i < |s| ==> CmdInert(s[i]) then s
    else "\"" + CmdBody(0, s)
  }

  function Quote(s: string, windows: bool): string {
    if windows then CmdQuoted(s) else ShellQuote(s)
  }

  function QuoteAll(args: seq<string>, windows: bool): (qs: seq<string>)
    ensures |qs| == |args|
  {
    if args == [] then [] else QuoteAll(args[..|args| - 1], windows) + [Quote(args[|args| - 1], windows)]
  }

  // strings.Join(parts, " ")
  function Join(parts: seq<string>): string {
    if parts == [] then ""
    else if |parts| == 1 then parts[0]
    else Join(parts[..|parts| - 1]) + " " + parts[|parts| - 1]
  }

  // The remote command line.
  function Line(args: seq<string>, windows: bool): string {
    Join(QuoteAll(args, windows))
  }

  lemma {:induction false} LineGrows(front: seq<string>, a: string, windows: bool)
    ensures Line(front + [a], windows) ==
            (if front == [] then "" else Line(front, windows) + " ") + Quote(a, windows)
  {
    QuotesGrow(front, a, windows);
    JoinGrows(QuoteAll(front, windows), Quote(a, windows));
  }

  lemma {:induction false} QuotesGrow(front: seq<string>, a: string, windows: bool)
    ensures QuoteAll(front + [a], windows) == QuoteAll(front, windows) + [Quote(a, windows)]
  {
    assert (front + [a])[..|front|] == front;
  }

  lemma {:induction false} JoinGrows(parts: seq<string>, p: string)
    ensures Join(parts + [p]) == (if parts == [] then "" else Join(parts) + " ") + p
  {
    assert (parts + [p])[..|parts|] == parts;
  }

  // ----- POSIX

  lemma {:induction false} PosixConcat(st: Posix, a: string, b: string)
    ensures PosixRun(st, a + b) == PosixRun(PosixRun(st, a), b)
    decreases |a|
  {
    if a == "" {
      assert a + b == b;
    } else {
      assert (a + b)[1..] == a[1..] + b && (a + b)[0] == a[0];
      PosixConcat(PosixStep(st, a[0]), a[1..], b);
    }
  }

  lemma {:induction false} PosixOne(st: Posix, c: char)
    ensures PosixRun(st, [c]) == PosixStep(st, c)
  {
    assert [c][1..] == "";
  }

  lemma {:induction false} InertStep(st: Posix, c: char)
    requires st.mode == Word && Inert(c)
    ensures PosixStep(st, c) == st.(cur := st.cur + [c])
  {
    assert c != ' ' && c != '\t' && c != '\'' && c != '\"' && c != '\\';
  }

  lemma {:induction false} InertScanned(st: Posix, s: string)
    requires st.mode == Word && forall i :: 0 <= i < |s| ==> Inert(s[i])
    ensures PosixRun(st, s) == st.(cur := st.cur + s)
    decreases |s|
  {
    if s == "" {
      assert st.cur + s == st.cur;
    } else {
      var next := st.(cur := st.cur + [s[0]]);
      InertStep(st, s[0]);
      InertScanned(next, s[1..]);
      assert st.cur + [s[0]] + s[1..] == st.cur + s;
    }
  }

  lemma {:induction false} SplicedScanned(st: Posix)
    requires st.mode == Single
    ensures PosixRun(st, "'\\''") == st.(cur := st.cur + ['\''])
  {
    var t := "'\\''";
    assert t[1..] == "\\''" && t[1..][1..] == "''" && t[1..][1..][1..] == "'" && t[1..][1..][1..][1..] == "";
    var s1 := PosixStep(st, '\'');
    var s2 := PosixStep(s1, '\\');
    var s3 := PosixStep(s2, '\'');
    assert PosixRun(s3, "'") == PosixStep(s3, '\'') by { PosixOne(s3, '\''); }
    assert PosixRun(s2, "''") == PosixRun(s3, "'");
    assert PosixRun(s1, "\\''") == PosixRun(s2, "''");
  }

  lemma {:induction false} EscapedScanned(st: Posix, s: string)
    requires st.mode == Single
    ensures PosixRun(st, EscapeQuotes(s)) == st.(cur := st.cur + s)
    decreases |s|
  {
    if s == "" {
      assert st.cur + s == st.cur;
    } else {
      var head := if s[0] == '\'' then "'\\''" else [s[0]];
      PosixConcat(st, head, EscapeQuotes(s[1..]));
      if s[0] == '\'' {
        SplicedScanned(st);
      } else {
        PosixOne(st, s[0]);
      }
      EscapedScanned(st.(cur := st.cur + [s[0]]), s[1..]);
      assert st.cur + [s[0]] + s[1..] == st.cur + s;
    }
  }

  // From between words, a quoted argument leaves the machine in a word holding the argument.
  lemma {:induction false} WordScanned(words: seq<string>, a: string)
    ensures PosixRun(Posix(words, Blank, ""), ShellQuote(a)) == Posix(words, Word, a)
  {
    var st, q := Posix(words, Blank, ""), ShellQuote(a);
    assert "" + a == a;
    if a == "" {
      assert q[1..] == "'";
      PosixOne(Posix(words, Single, ""), '\'');
    } else if forall i :: 0 <= i < |a| ==> Inert(a[i]) {
      assert Inert(a[0]) && !IsBlank(a[0]);
      InertScanned(Posix(words, Word, ""), a);
      assert PosixStep(st, a[0]) == PosixStep(Posix(words, Word, ""), a[0]);
    } else {
      assert q[1..] == EscapeQuotes(a) + "'";
      PosixConcat(Posix(words, Single, ""), EscapeQuotes(a), "'");
      EscapedScanned(Posix(words, Single, ""), a);
      PosixOne(Posix(words, Single, a), '\'');
    }
  }

  lemma {:induction false} PosixAppend(start: Posix, before: string, words: seq<string>, b: string, a: string)
    requires PosixRun(start, before) == Posix(words, Word, b)
    ensures PosixRun(start, before + " " + ShellQuote(a)) == Posix(words + [b], Word, a)
  {
    PosixConcat(start, before, " ");
    PosixOne(Posix(words, Word, b), ' ');
    PosixConcat(start, before + " ", ShellQuote(a));
    WordScanned(words + [b], a);
  }

  lemma {:induction false} PosixLine(front: seq<string>, a: string)
    ensures PosixRun(Posix([], Blank, ""), Line(front + [a], false)) == Posix(front, Word, a)
  {
    LineGrows(front, a, false);
    if front == [] {
      WordScanned([], a);
      assert "" + ShellQuote(a) == ShellQuote(a);
    } else {
      var m := |front| - 1;
      var rest, b := front[..m], front[m];
      assert front == rest + [b];
      PosixLine(rest, b);
      PosixAppend(Posix([], Blank, ""), Line(front, false), rest, b, a);
    }
  }

  /** A POSIX shell splits the joined line back into the argument list, and meets every character
      outside the inert set quoted or escaped. */
  lemma {:induction false} PosixUndoesQuoting(args: seq<string>)
    ensures PosixFields(Line(args, false)) == Some(args)
  {
    if args != [] {
      var n := |args| - 1;
      PosixLine(args[..n], args[n]);
      assert args[..n] + [args[n]] == args;
    }
  }

  // ----- the C runtime

  lemma {:induction false} CrtConcat(st: Crt, a: string, b: string)
    ensures CrtRun(st, a + b) == CrtRun(CrtRun(st, a), b)
    decreases |a|
  {
    if a == "" {
      assert a + b == b;
    } else {
      assert (a + b)[1..] == a[1..] + b && (a + b)[0] == a[0];
      CrtConcat(CrtStep(st, a[0]), a[1..], b);
    }
  }

  lemma {:induction false} CrtOne(st: Crt, c: char)
    ensures CrtRun(st, [c]) == CrtStep(st, c)
  {
    assert [c][1..] == "";
  }

  lemma {:induction false} SlashesScanned(st: Crt, n: nat)
    requires st.mode == Quoted
    ensures CrtRun(st, Slashes(n)) == st.(k := st.k + n)
    decreases n
  {
    if n > 0 {
      SlashesScanned(st.(k := st.k + 1), n - 1);
      assert Slashes(n)[1..] == Slashes(n - 1);
    }
  }

  // The machine holds `a` as its current argument.
  predicate Holding(st: Crt, args: seq<string>, a: string) {
    (st.mode == Plain || st.mode == Closing) && st.args == args && st.cur + Slashes(st.k) == a
    && (st.mode == Closing ==> st.k == 0)
  }

  lemma {:induction false} BareStep(st: Crt, a: string, c: char)
    requires st.mode == Plain && Holding(st, st.args, a) && CmdInert(c)
    ensures var next := CrtStep(st, c);
            next.mode == Plain && next.args == st.args && Holding(next, st.args, a + [c])
  {
    if c == '\\' {
      assert st.cur + Slashes(st.k + 1) == a + [c];
    } else {
      assert CrtStep(st, c).cur + Slashes(0) == a + [c];
    }
  }

  lemma {:induction false} BareScanned(st: Crt, s: string, a: string)
    requires st.mode == Plain && Holding(st, st.args, a) && forall i :: 0 <= i < |s| ==> CmdInert(s[i])
    ensures Holding(CrtRun(st, s), st.args, a + s)
    decreases |s|
  {
    if s == "" {
      assert a + s == a;
    } else {
      BareStep(st, a, s[0]);
      BareScanned(CrtStep(st, s[0]), s[1..], a + [s[0]]);
      assert a + [s[0]] + s[1..] == a + s;
    }
  }

  lemma {:induction false} QuoteScanned(st: Crt)
    requires st.mode == Quoted
    ensures CrtRun(st, Slashes(st.k) + "\"\"") == st.(cur := st.cur + Slashes(st.k) + ['\"'], k := 0)
    ensures CrtRun(st, Slashes(st.k) + "\"") == Crt(st.args, Closing, st.cur + Slashes(st.k), 0)
  {
    SlashesScanned(st, st.k);
    var st2 := st.(k := st.k + st.k);
    CrtConcat(st, Slashes(st.k), "\"\"");
    CrtConcat(st, Slashes(st.k), "\"");
    CrtOne(st2, '\"');
    var st3 := Crt(st.args, Closing, st.cur + Slashes(st.k), 0);
    CrtOne(st3, '\"');
    assert "\"\""[1..] == "\"";
  }

  lemma {:induction false} BodyScanned(st: Crt, s: string)
    requires st.mode == Quoted
    ensures CrtRun(st, CmdBody(st.k, s)) == Crt(st.args, Closing, st.cur + Slashes(st.k) + s, 0)
    decreases |s|
  {
    if s == "" {
      QuoteScanned(st);
      assert st.cur + Slashes(st.k) + s == st.cur + Slashes(st.k);
    } else if s[0] == '\\' {
      BodyScanned(st.(k := st.k + 1), s[1..]);
      assert CmdBody(st.k, s)[1..] == CmdBody(st.k + 1, s[1..]);
      assert Slashes(st.k + 1) + s[1..] == Slashes(st.k) + s;
      assert st.cur + Slashes(st.k + 1) + s[1..] == st.cur + Slashes(st.k) + s;
    } else {
      var next := st.(cur := st.cur + Slashes(st.k) + [s[0]], k := 0);
      BodyScanned(next, s[1..]);
      assert next.cur + Slashes(0) + s[1..] == st.cur + Slashes(st.k) + s;
      var head := if s[0] == '\"' then Slashes(st.k) + "\"\"" else [s[0]];
      CrtConcat(st, head, CmdBody(0, s[1..]));
      if s[0] == '\"' {
        QuoteScanned(st);
      } else {
        CrtOne(st, s[0]);
      }
    }
  }

  lemma {:induction false} ArgScanned(args: seq<string>, a: string)
    ensures Holding(CrtRun(Crt(args, Between, "", 0), CmdQuoted(a)), args, a)
  {
    var st, q := Crt(args, Between, "", 0), CmdQuoted(a);
    assert "" + Slashes(0) == "";
    if a == "" {
      assert q[1..] == "\"";
      CrtOne(Crt(args, Quoted, "", 0), '\"');
    } else if forall i :: 0 <= i < |a| ==> CmdInert(a[i]) {
      assert CmdInert(a[0]) && !IsBlank(a[0]);
      BareScanned(Crt(args, Plain, "", 0), a, "");
      assert "" + a == a;
    } else {
      assert q[1..] == CmdBody(0, a);
      BodyScanned(Crt(args, Quoted, "", 0), a);
      assert "" + Slashes(0) + a == a && a + Slashes(0) == a;
    }
  }

  lemma {:induction false} SpaceEnds(st: Crt, args: seq<string>, a: string)
    requires Holding(st, args, a)
    ensures CrtRun(st, " ") == Crt(args + [a], Between, "", 0)
  {
    CrtOne(st, ' ');
  }

  lemma {:induction false} CrtAppend(start: Crt, before: string, args: seq<string>, b: string, a: string)
    requires Holding(CrtRun(start, before), args, b)
    ensures Holding(CrtRun(start, before + " " + CmdQuoted(a)), args + [b], a)
  {
    CrtConcat(start, before, " ");
    SpaceEnds(CrtRun(start, before), args, b);
    CrtConcat(start, before + " ", CmdQuoted(a));
    ArgScanned(args + [b], a);
  }

  lemma {:induction false} CrtLine(front: seq<string>, a: string)
    ensures Holding(CrtRun(Crt([], Between, "", 0), Line(front + [a], true)), front, a)
  {
    LineGrows(front, a, true);
    if front == [] {
      ArgScanned([], a);
      assert "" + CmdQuoted(a) == CmdQuoted(a);
    } else {
      var m := |front| - 1;
      var rest, b := front[..m], front[m];
      assert front == rest + [b];
      CrtLine(rest, b);
      CrtAppend(Crt([], Between, "", 0), Line(front, true), rest, b, a);
    }
  }

  /** The C runtime splits the joined line back into the argument list. */
  lemma {:induction false} CrtUndoesQuoting(args: seq<string>)
    ensures CrtArgs(Line(args, true)) == args
  {
    if args != [] {
      var n := |args| - 1;
      CrtLine(args[..n], args[n]);
      assert args[..n] + [args[n]] == args;
    }
  }

  // ----- cmd.exe

  lemma {:induction false} ScanConcat(on: bool, a: string, b: string)
    decreases |a|
    ensures QuotingAfter(on, a + b) == QuotingAfter(QuotingAfter(on, a), b)
    ensures Shielded(on, a + b) <==> Shielded(on, a) && Shielded(QuotingAfter(on, a), b)
  {
    if a == "" {
      assert a + b == b;
    } else {
      assert (a + b)[1..] == a[1..] + b && (a + b)[0] == a[0];
      ScanConcat(if a[0] == '\"' then !on else on, a[1..], b);
    }
  }

  lemma {:induction false} PlainScanned(on: bool, s: string)
    requires forall i :: 0 <= i < |s| ==> s[i] != '\"' && !Operator(s[i])
    ensures QuotingAfter(on, s) == on && Shielded(on, s)
  {
    if s != "" {
      PlainScanned(on, s[1..]);
    }
  }

  lemma {:induction false} ConsShielded(c: char, t: string)
    requires c != '\"' && Shielded(true, t) && !QuotingAfter(true, t)
    ensures Shielded(true, [c] + t) && !QuotingAfter(true, [c] + t)
  {
    assert ([c] + t)[1..] == t;
  }

  lemma {:induction false} DoubledShielded(t: string)
    requires Shielded(true, t) && !QuotingAfter(true, t)
    ensures Shielded(true, "\"\"" + t) && !QuotingAfter(true, "\"\"" + t)
  {
    assert ("\"\"" + t)[1..] == "\"" + t && ("\"" + t)[1..] == t;
  }

  lemma {:induction false} SlashesShielded(k: nat, t: string)
    requires Shielded(true, t) && !QuotingAfter(true, t)
    ensures Shielded(true, Slashes(k) + t) && !QuotingAfter(true, Slashes(k) + t)
  {
    PlainScanned(true, Slashes(k));
    ScanConcat(true, Slashes(k), t);
  }

  lemma {:induction false} ClosingShielded()
    ensures Shielded(true, "\"") && !QuotingAfter(true, "\"")
  {
    assert "\""[1..] == "";
  }

  lemma {:induction false} BodyShielded(k: nat, s: string)
    ensures Shielded(true, CmdBody(k, s)) && !QuotingAfter(true, CmdBody(k, s))
    decreases |s|
  {
    BodyIs(k, s);
    if s == "" {
      ClosingShielded();
      SlashesShielded(k, "\"");
    } else if s[0] == '\\' {
      BodyShielded(k + 1, s[1..]);
      ConsShielded('\\', CmdBody(k + 1, s[1..]));
    } else {
      var t := CmdBody(0, s[1..]);
      BodyShielded(0, s[1..]);
      if s[0] == '\"' {
        DoubledShielded(t);
        SlashesShielded(k, "\"\"" + t);
      } else {
        ConsShielded(s[0], t);
      }
    }
  }

  lemma {:induction false} BodyIs(k: nat, s: string)
    ensures CmdBody(k, s) ==
            if s == "" then Slashes(k) + "\""
            else if s[0] == '\\' then ['\\'] + CmdBody(k + 1, s[1..])
            else if s[0] == '\"' then Slashes(k) + ("\"\"" + CmdBody(0, s[1..]))
            else [s[0]] + CmdBody(0, s[1..])
  {
    if s != "" && s[0] == '\"' {
      Regroup(Slashes(k), "\"\"", CmdBody(0, s[1..]));
    }
  }

  lemma {:induction false} ArgShielded(a: string)
    ensures Shielded(false, CmdQuoted(a)) && !QuotingAfter(false, CmdQuoted(a))
  {
    var q := CmdQuoted(a);
    if a == "" {
      assert q[1..] == "\"" && "\""[1..] == "";
    } else if forall i :: 0 <= i < |a| ==> CmdInert(a[i]) {
      PlainScanned(false, a);
    } else {
      BodyShielded(0, a);
      assert q[1..] == CmdBody(0, a);
    }
  }

  /** cmd.exe meets every operator of the line with quoting on, and has quoting off at the end of
      every argument, where the line so far is that of the arguments so far. */
  lemma {:induction false} OperatorsShielded(args: seq<string>, n: nat)
    requires n <= |args|
    ensures Shielded(false, Line(args, true))
    ensures Line(args[..n], true) <= Line(args, true) && !QuotingAfter(false, Line(args[..n], true))
  {
    LineShielded(args);
    LineShielded(args[..n]);
    LineBegins(args, n);
  }

  lemma {:induction false} LineBegins(args: seq<string>, n: nat)
    requires n <= |args|
    ensures Line(args[..n], true) <= Line(args, true)
  {
    if n == |args| {
      assert args[..n] == args;
    } else {
      var m := |args| - 1;
      LineBegins(args[..m], n);
      assert args[..m][..n] == args[..n] && args == args[..m] + [args[m]];
      LineGrows(args[..m], args[m], true);
    }
  }

  lemma {:induction false} AppendShielded(before: string, a: string)
    requires Shielded(false, before) && !QuotingAfter(false, before)
    ensures var line := before + " " + CmdQuoted(a); Shielded(false, line) && !QuotingAfter(false, line)
  {
    ArgShielded(a);
    PlainScanned(false, " ");
    ScanConcat(false, before, " ");
    ScanConcat(false, before + " ", CmdQuoted(a));
  }

  lemma {:induction false} LineShielded(args: seq<string>)
    ensures Shielded(false, Line(args, true)) && !QuotingAfter(false, Line(args, true))
  {
    if args != [] {
      var n := |args| - 1;
      var front, a := args[..n], args[n];
      assert args == front + [a];
      LineGrows(front, a, true);
      if n == 0 {
        ArgShielded(a);
        assert "" + CmdQuoted(a) == CmdQuoted(a);
      } else {
        LineShielded(front);
        AppendShielded(Line(front, true), a);
      }
    }
  }

  // ----- what needs no quoting

  // A character no quoting is for: the same for both, and the backslash of Windows paths.
  predicate Harmless(c: char, windows: bool) {
    'a' <= c <= 'z' || 'A' <= c <= 'Z' || '0' <= c <= '9' || c in "@%_-+=:,./" || (windows && c == '\\')
  }

  lemma {:induction false} EscapingGrows(s: string)
    ensures |EscapeQuotes(s)| >= |s|
  {
    if s != "" {
      EscapingGrows(s[1..]);
    }
  }

  lemma {:induction false} BodyGrows(k: nat, s: string)
    ensures |CmdBody(k, s)| > |s|
    decreases |s|
  {
    if s != "" {
      BodyGrows(k + 1, s[1..]);
      BodyGrows(0, s[1..]);
    }
  }

  /** An argument passes untouched exactly when it is not empty and every character of it is harmless, as in a plain
      Windows path. */
  lemma {:induction false} PassesUntouched(s: string, windows: bool)
    ensures Quote(s, windows) == s <==> s != "" && forall i :: 0 <= i < |s| ==> Harmless(s[i], windows)
  {
    EscapingGrows(s);
    BodyGrows(0, s);
  }

  // ----- the loops

  /** cmdQuote's loop. */
  method CmdQuote(s: string) returns (r: string)
    ensures r == CmdQuoted(s)
  {
    if s == "" {
      return "\"\"";
    }
    if forall i :: 0 <= i < |s| ==> CmdInert(s[i]) {
      return s;
    }
    var b := "\"";
    var slashes := 0;
    for i := 0 to |s|
      invariant b + CmdBody(slashes, s[i..]) == "\"" + CmdBody(0, s)
    {
      var c := s[i];
      ghost var before, k := b, slashes;
      assert s[i..][1..] == s[i + 1..];
      if c == '\\' {
        slashes := slashes + 1;
      } else if c == '\"' {
        while slashes > 0
          invariant slashes <= k && b == before + Slashes(k - slashes)
        {
          b := b + "\\";
          slashes := slashes - 1;
        }
        b := b + "\"";
      } else {
        slashes := 0;
      }
      b := b + [c];
    }
    ghost var before, k := b, slashes;
    while slashes > 0
      invariant slashes <= k && b == before + Slashes(k - slashes)
    {
      b := b + "\\";
      slashes := slashes - 1;
    }
    b := b + "\"";
    assert s[|s|..] == "";
    return b;
  }

  // Quote each argument, then join with single spaces.
  method JoinRemote(remoteCmd: seq<string>, windowsGuest: bool) returns (line: string)
    ensures line == Line(remoteCmd, windowsGuest)
    ensures windowsGuest ==> CrtArgs(line) == remoteCmd && Shielded(false, line)
    ensures !windowsGuest ==> PosixFields(line) == Some(remoteCmd)
  {
    var quoted: seq<string> := [];
    for i := 0 to |remoteCmd|
      invariant quoted == QuoteAll(remoteCmd[..i], windowsGuest)
    {
      var q;
      if windowsGuest {
        q := CmdQuote(remoteCmd[i]);
      } else {
        q := ShellQuote(remoteCmd[i]);
      }
      assert remoteCmd[..i + 1][..i] == remoteCmd[..i];
      quoted := quoted + [q];
    }
    assert remoteCmd[..|remoteCmd|] == remoteCmd;
    line := Join(quoted);
    if windowsGuest {
      CrtUndoesQuoting(remoteCmd);
      LineShielded(remoteCmd);
    } else {
      PosixUndoesQuoting(remoteCmd);
    }
  }
}
