/**
 The three parsers a remote command line has to survive, none of which vee controls: the POSIX
 shell's token splitting and quote removal, the Microsoft C runtime's argument splitting, and the
 quote tracking of cmd.exe. Each is a machine that takes the line one character at a time.
 */
module Shells {
  import opened Wrappers

  predicate Alphanumeric(c: char) {
    'a' <= c <= 'z' || 'A' <= c <= 'Z' || '0' <= c <= '9'
  }

  // Characters to which no shell assigns a meaning.
  predicate Inert(c: char) {
    Alphanumeric(c) || c in "@%_-+=:,./"
  }

  predicate IsBlank(c: char) {
    c == ' ' || c == '\t'
  }

  // ----- sections 2.2, 2.3 and 2.6.7 of the POSIX.1-2017 Shell Command Language

  datatype Mode = Blank | Word | Escape | Single | Double | DoubleEscape | Failed

  // The fields so far, and the current one with its quoting removed.
  datatype Posix = Posix(words: seq<string>, mode: Mode, cur: string)

  /** One character. The machine fails on any character it would meet unquoted and unescaped
      that is not inert, a blank or a quoting character, and on an expansion inside double quotes. */
  function PosixStep(st: Posix, c: char): Posix {
    match st.mode
    case Blank => if IsBlank(c) then st else PosixBare(st.(mode := Word, cur := ""), c)
    case Word => PosixBare(st, c)
    case Escape => st.(mode := Word, cur := if c == '\n' then st.cur else st.cur + [c])
    case Single => if c == '\'' then st.(mode := Word) else st.(cur := st.cur + [c])
    case Double =>
      if c == '\"' then st.(mode := Word)
      else if c == '\\' then st.(mode := DoubleEscape)
      else if c == '$' || c == '`' then st.(mode := Failed)
      else st.(cur := st.cur + [c])
    case DoubleEscape =>
      st.(mode := Double,
      cur := if c == '\n' then st.cur
      else if c in "$`\"\\" then st.cur + [c]
      else st.cur + ['\\', c])
    case Failed => st
  }

  function PosixBare(st: Posix, c: char): Posix {
    if IsBlank(c) then Posix(st.words + [st.cur], Blank, "")
    else if c == '\'' then st.(mode := Single)
    else if c == '\"' then st.(mode := Double)
    else if c == '\\' then st.(mode := Escape)
    else if Inert(c) then st.(cur := st.cur + [c])
    else st.(mode := Failed)
  }

  function PosixRun(st: Posix, s: string): Posix
    decreases |s|
  {
    if s == "" then st else PosixRun(PosixStep(st, s[0]), s[1..])
  }

  function PosixFields(line: string): Option<seq<string>> {
    var st := PosixRun(Posix([], Blank, ""), line);
    match st.mode
    case Blank => Some(st.words)
    case Word => Some(st.words + [st.cur])
    case _ => None
  }

  // ----- the Microsoft C runtime's argument rules

  function Slashes(n: nat): (s: string)
    ensures |s| == n && forall i :: 0 <= i < n ==> s[i] == '\\'
  {
    seq(n, _ => '\\')
  }

  // Closing: inside quotes, after a mark that closes them unless a second one follows.
  datatype CrtMode = Between | Plain | Quoted | Closing

  // `k` backslashes are pending: the next character decides what they mean.
  datatype Crt = Crt(args: seq<string>, mode: CrtMode, cur: string, k: nat)

  /** One character. Before a quote mark each pair of backslashes is one backslash and an odd one
      escapes the mark; elsewhere they are literal. Inside quotes a doubled mark is a literal one. */
  function CrtStep(st: Crt, c: char): Crt {
    match st.mode
    case Between => if IsBlank(c) then st else CrtPlain(Crt(st.args, Plain, "", 0), c)
    case Plain => CrtPlain(st, c)
    case Quoted =>
      if c == '\\' then st.(k := st.k + 1)
      else if c == '\"' && st.k % 2 == 1 then st.(cur := st.cur + Slashes(st.k / 2) + [c], k := 0)
      else if c == '\"' then Crt(st.args, Closing, st.cur + Slashes(st.k / 2), 0)
      else st.(cur := st.cur + Slashes(st.k) + [c], k := 0)
    case Closing =>
      if c == '\"' then st.(mode := Quoted, cur := st.cur + [c]) else CrtPlain(st.(mode := Plain), c)
  }

  function CrtPlain(st: Crt, c: char): Crt {
    if c == '\\' then st.(k := st.k + 1)
    else if c == '\"' && st.k % 2 == 1 then st.(cur := st.cur + Slashes(st.k / 2) + [c], k := 0)
    else if c == '\"' then Crt(st.args, Quoted, st.cur + Slashes(st.k / 2), 0)
    else if IsBlank(c) then Crt(st.args + [st.cur + Slashes(st.k)], Between, "", 0)
    else st.(cur := st.cur + Slashes(st.k) + [c], k := 0)
  }

  function CrtRun(st: Crt, s: string): Crt
    decreases |s|
  {
    if s == "" then st else CrtRun(CrtStep(st, s[0]), s[1..])
  }

  function CrtArgs(line: string): seq<string> {
    var st := CrtRun(Crt([], Between, "", 0), line);
    if st.mode.Between? then st.args else st.args + [st.cur + Slashes(st.k)]
  }

  // ----- cmd.exe: every quote mark toggles, operators act only while quoting is off

  predicate Operator(c: char) {
    c in "&|<>^"
  }

  // Whether quoting is on after `s`.
  function QuotingAfter(on: bool, s: string): bool
    decreases |s|
  {
    if s == "" then on else QuotingAfter(if s[0] == '\"' then !on else on, s[1..])
  }

  // No operator of `s` is met while quoting is off.
  predicate Shielded(on: bool, s: string)
    decreases |s|
  {
    s == "" ||
    ((Operator(s[0]) ==> on) && Shielded(if s[0] == '\"' then !on else on, s[1..]))
  }
}
