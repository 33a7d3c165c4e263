/**
 The boot phase watcher of `internal/boot/phasewatcher.go`. The regular expressions are abstract:
 a pattern is any predicate on lines with a way to read a detail off a line, and the watcher takes
 an ordered list of them.
 */
module BootWatcher {
  import opened Wrappers

  datatype Phase = Unknown | BIOSPost | Bootloader | KernelBoot | Init | CloudInit | Install | Ready | Failed

  function Rank(p: Phase): nat {
    match p
    case BIOSPost => 1
    case Bootloader => 2
    case KernelBoot => 3
    case Init => 4
    case CloudInit => 5
    case Install => 6
    case Ready => 7
    case _ => 0
  }

  // The order of a boot: BIOS POST, bootloader, kernel, init, cloud-init, install, ready.
  predicate Before(p: Phase, q: Phase) {
    match q
    case Bootloader => p.BIOSPost?
    case KernelBoot => p.BIOSPost? || p.Bootloader?
    case Init => p.BIOSPost? || p.Bootloader? || p.KernelBoot?
    case CloudInit => p.BIOSPost? || p.Bootloader? || p.KernelBoot? || p.Init?
    case Install => p.BIOSPost? || p.Bootloader? || p.KernelBoot? || p.Init? || p.CloudInit?
    case Ready => !p.Unknown? && !p.Failed? && !p.Ready?
    case _ => false
  }

  // Ranks are the order of the boot, and only Unknown and Failed have none.
  lemma {:induction false} RankIsOrder(p: Phase, q: Phase)
    ensures 0 < Rank(p) < Rank(q) <==> Before(p, q)
    ensures Rank(p) == 0 <==> p.Unknown? || p.Failed?
  {
  }

  datatype Event = Event(phase: Phase, detail: string, panicLine: string)

  datatype Pattern = Pattern(matches: string -> bool, phase: Phase, fail: bool, detail: string -> string)

  datatype Class = Class(phase: Phase, fail: bool, panicLine: string, detail: string)

  // classify: the patterns in order until one matches.
  function Classify(patterns: seq<Pattern>, line: string): Class {
    if patterns == [] then Class(Unknown, false, "", "")
    else if patterns[0].matches(line) then
      Class(patterns[0].phase, patterns[0].fail, line, patterns[0].detail(line))
    else Classify(patterns[1..], line)
  }

  // The first of the patterns that matches the line, or |ps|.
  function FirstMatch(ps: seq<Pattern>, line: string): (i: nat)
    ensures i <= |ps| && (i < |ps| ==> ps[i].matches(line)) && forall j :: 0 <= j < i ==> !ps[j].matches(line)
  {
    if ps == [] then 0 else if ps[0].matches(line) then 0 else 1 + FirstMatch(ps[1..], line)
  }

  /** First match wins: a line's class is that of the least pattern that matches it, Unknown if none does. */
  lemma {:induction false} FirstMatchWins(ps: seq<Pattern>, line: string, i: nat)
    requires i <= |ps| && (i < |ps| ==> ps[i].matches(line)) && forall j :: 0 <= j < i ==> !ps[j].matches(line)
    ensures i == FirstMatch(ps, line)
    ensures Classify(ps, line) ==
            if i < |ps| then Class(ps[i].phase, ps[i].fail, line, ps[i].detail(line)) else Class(Unknown, false, "", "")
  {
    if i > 0 {
      FirstMatchWins(ps[1..], line, i - 1);
    }
  }

  method ClassifyLine(patterns: seq<Pattern>, line: string) returns (c: Class)
    ensures c == Classify(patterns, line)
  {
    FirstMatchWins(patterns, line, FirstMatch(patterns, line));
    for i := 0 to |patterns|
      invariant i <= FirstMatch(patterns, line)
    {
      if patterns[i].matches(line) {
        return Class(patterns[i].phase, patterns[i].fail, line, patterns[i].detail(line));
      }
    }
    return Class(Unknown, false, "", "");
  }

  // ----- one line

  // What Run remembers between lines, and what it has sent.
  datatype State = State(last: Phase, out: seq<Event>, done: bool)

  // Sending on the channel, or losing the event to a cancelled context.
  function Send(s: State, e: Event, delivered: bool): State {
    if delivered then s.(out := s.out + [e]) else s
  }

  function OnLine(ps: seq<Pattern>, s: State, line: string, delivered: bool): State {
    if s.done then s else OnClass(s, Classify(ps, line), delivered)
  }

  function OnClass(s: State, c: Class, delivered: bool): State {
    if c.phase.Unknown? then s
    else if c.fail then Send(s, Event(Failed, "", c.panicLine), delivered).(done := true)
    else if c.phase.Install? then Send(s, Event(c.phase, c.detail, ""), delivered).(last := c.phase)
    else if Rank(c.phase) <= Rank(s.last) then s
    else Send(s, Event(c.phase, c.detail, ""), delivered).(last := c.phase, done := c.phase.Ready?)
  }

  // ----- lines of a byte stream

  // The complete lines of a stream, each with its newline, and the text after the last newline.
  function Lines(stream: string): (r: (seq<string>, string)) {
    if stream == "" then ([], "") else
      var n := |stream| - 1;
      var (ls, rest) := Lines(stream[..n]);
      if stream[n] == '\n' then (ls + [rest + [stream[n]]], "") else (ls, rest + [stream[n]])
  }

  predicate NoNewline(s: string) {
    forall i :: 0 <= i < |s| ==> s[i] != '\n'
  }

  predicate OneLine(s: string) {
    s != "" && s[|s| - 1] == '\n' && NoNewline(s[..|s| - 1])
  }

  /** The lines joined are the stream; each ends in its only newline, and what is left over has none. */
  lemma {:induction false} LinesAreLines(stream: string)
    ensures var (ls, rest) := Lines(stream);
            && Joined(ls) + rest == stream && NoNewline(rest) && forall i :: 0 <= i < |ls| ==> OneLine(ls[i])
  {
    if stream != "" {
      var n := |stream| - 1;
      LinesAreLines(stream[..n]);
      var (ls, rest) := Lines(stream[..n]);
      var line := rest + [stream[n]];
      assert stream == stream[..n] + [stream[n]];
      Regroup(Joined(ls), rest, [stream[n]]);
      if stream[n] == '\n' {
        assert line[..|line| - 1] == rest;
        assert (ls + [line])[..|ls|] == ls;
        assert Joined(ls + [line]) + "" == Joined(ls) + line;
      }
    }
  }

  lemma {:induction false} LinesPartial(a: string, b: string)
    requires forall i :: 0 <= i < |b| ==> b[i] != '\n'
    ensures Lines(a + b) == (Lines(a).0, Lines(a).1 + b)
  {
    if b == "" {
      assert a + b == a && Lines(a).1 + b == Lines(a).1;
    } else {
      var n := |b| - 1;
      LinesPartial(a, b[..n]);
      assert (a + b)[..|a| + n] == a + b[..n];
      assert Lines(a).1 + b[..n] + [b[n]] == Lines(a).1 + b;
    }
  }

  lemma {:induction false} LinesFull(a: string, b: string)
    requires b != "" && b[|b| - 1] == '\n' && forall i :: 0 <= i < |b| - 1 ==> b[i] != '\n'
    ensures Lines(a + b) == (Lines(a).0 + [Lines(a).1 + b], "")
  {
    var n := |b| - 1;
    LinesPartial(a, b[..n]);
    assert (a + b)[..|a| + n] == a + b[..n];
    assert Lines(a).1 + b[..n] + [b[n]] == Lines(a).1 + b;
  }

  // ----- what a whole log reports

  predicate TerminalLine(ps: seq<Pattern>, line: string) {
    var i := FirstMatch(ps, line);
    i < |ps| && Terminates(ps[i])
  }

  predicate Terminates(p: Pattern) {
    !p.phase.Unknown? && (p.fail || p.phase.Ready?)
  }

  function LineRank(ps: seq<Pattern>, line: string): nat {
    var i := FirstMatch(ps, line);
    if i < |ps| then Rank(ps[i].phase) else 0
  }

  function Max(a: nat, b: nat): nat {
    if a > b then a else b
  }

  // The highest rank any of the lines reaches.
  function MaxRank(ps: seq<Pattern>, lines: seq<string>): nat {
    if lines == [] then 0 else
      Max(LineRank(ps, lines[|lines| - 1]), MaxRank(ps, lines[..|lines| - 1]))
  }

  // What a line after `before` reports: a failure, an install stage, or a phase above all earlier ones.
  function Reports(ps: seq<Pattern>, before: seq<string>, line: string): seq<Event> {
    var i := FirstMatch(ps, line);
    if i < |ps| then PatternReports(ps[i], line, MaxRank(ps, before)) else []
  }

  function PatternReports(p: Pattern, line: string, highest: nat): seq<Event> {
    if p.phase.Unknown? then []
    else if p.fail then [Event(Failed, "", line)]
    else if p.phase.Install? || Rank(p.phase) > highest then [Event(p.phase, p.detail(line), "")]
    else []
  }

  predicate AnyTerminal(ps: seq<Pattern>, lines: seq<string>) {
    exists i :: 0 <= i < |lines| && TerminalLine(ps, lines[i])
  }

  // The report of a log: its lines in turn, cut after the first terminal one.
  function Report(ps: seq<Pattern>, lines: seq<string>): seq<Event> {
    if lines == [] then [] else
      var before := lines[..|lines| - 1];
      if AnyTerminal(ps, before) then Report(ps, before)
      else Report(ps, before) + Reports(ps, before, lines[|lines| - 1])
  }

  // A state that has seen exactly `lines`, all delivered.
  ghost predicate Seen(ps: seq<Pattern>, s: State, lines: seq<string>) {
    && s.out == Report(ps, lines)
    && (s.done <==> AnyTerminal(ps, lines))
    && (!s.done ==> Rank(s.last) == MaxRank(ps, lines) <= 6)
  }

  lemma {:induction false} TerminalGrows(ps: seq<Pattern>, lines: seq<string>, line: string)
    ensures AnyTerminal(ps, lines + [line]) <==> AnyTerminal(ps, lines) || TerminalLine(ps, line)
  {
    var all := lines + [line];
    if AnyTerminal(ps, lines) {
      var i :| 0 <= i < |lines| && TerminalLine(ps, lines[i]);
      assert all[i] == lines[i];
    }
    assert all[|lines|] == line;
  }

  lemma {:induction false} ReportGrows(ps: seq<Pattern>, lines: seq<string>, line: string)
    ensures Report(ps, lines + [line]) ==
            if AnyTerminal(ps, lines) then Report(ps, lines) else Report(ps, lines) + Reports(ps, lines, line)
  {
    assert (lines + [line])[..|lines|] == lines;
  }

  lemma {:induction false} MaxRankGrows(ps: seq<Pattern>, lines: seq<string>, line: string)
    ensures MaxRank(ps, lines + [line]) == Max(LineRank(ps, line), MaxRank(ps, lines))
  {
    assert (lines + [line])[..|lines|] == lines;
  }

  // A matched pattern moves a state as the report says.
  lemma {:induction false} PatternSeen(s: State, p: Pattern, line: string, highest: nat)
    requires !s.done && Rank(s.last) == highest <= 6
    ensures var s' := OnClass(s, Class(p.phase, p.fail, line, p.detail(line)), true);
            && s'.out == s.out + PatternReports(p, line, highest) && (s'.done <==> Terminates(p))
            && (!s'.done ==> Rank(s'.last) == Max(Rank(p.phase), highest) <= 6)
  {
    assert s.out + [] == s.out;
  }

  lemma {:induction false} OnLineSeen(ps: seq<Pattern>, s: State, lines: seq<string>, line: string)
    requires Seen(ps, s, lines)
    ensures Seen(ps, OnLine(ps, s, line, true), lines + [line])
  {
    TerminalGrows(ps, lines, line);
    ReportGrows(ps, lines, line);
    if !s.done {
      var i := FirstMatch(ps, line);
      FirstMatchWins(ps, line, i);
      MaxRankGrows(ps, lines, line);
      if i < |ps| {
        PatternSeen(s, ps[i], line, MaxRank(ps, lines));
      } else {
        assert s.out + [] == s.out;
      }
    }
  }

  lemma {:induction false} StreamLineSeen(ps: seq<Pattern>, s: State, log: string, line: string)
    requires Seen(ps, s, Lines(log).0) && LineOrRest(line) && line[|line| - 1] == '\n'
    ensures Seen(ps, OnLine(ps, s, Lines(log).1 + line, true), Lines(log + line).0) && Lines(log + line).1 == ""
  {
    LinesFull(log, line);
    OnLineSeen(ps, s, Lines(log).0, Lines(log).1 + line);
  }

  // ----- the watcher

  class Watcher {
    const patterns: seq<Pattern>
    var last: Phase
    var leftover: string
    var out: seq<Event>
    var returned: bool
    ghost var log: string // all the bytes polled so far

    ghost function View(): State
      reads this
    {
      State(last, out, returned)
    }

    ghost predicate Valid()
      reads this
    {
      && Seen(patterns, View(), Lines(log).0)
      && (!returned ==> leftover == Lines(log).1)
    }

    constructor (patterns: seq<Pattern>)
      ensures Valid() && log == "" && out == [] && this.patterns == patterns
    {
      this.patterns := patterns;
      last, leftover, out, returned, log := Unknown, "", [], false, "";
    }

    // One line read in full, with the partial line kept from earlier polls in front of it.
    method HandleLine(line: string)
      requires Valid() && !returned
      requires LineOrRest(line) && line[|line| - 1] == '\n'
      modifies this
      ensures Valid() && log == old(log) + line
      ensures View() == OnLine(patterns, old(View()), old(leftover) + line, true)
    {
      var full := leftover + line;
      StreamLineSeen(patterns, View(), log, line);
      leftover, log := "", log + line;
      Advance(full);
    }

    // Classify a line, advance the phase, send an event.
    method Advance(full: string)
      requires !returned
      modifies this`last, this`out, this`returned
      ensures View() == OnLine(patterns, old(View()), full, true)
    {
      var c := ClassifyLine(patterns, full);
      if c.phase.Unknown? {
        return;
      }
      if c.fail {
        out := out + [Event(Failed, "", c.panicLine)];
        returned := true;
        return;
      }
      if c.phase.Install? {
        last := c.phase;
        out := out + [Event(c.phase, c.detail, "")];
        return;
      }
      if Rank(c.phase) <= Rank(last) {
        return;
      }
      last := c.phase;
      out := out + [Event(c.phase, c.detail, "")];
      if c.phase.Ready? {
        returned := true;
      }
    }

    // A partial line at the end of the file is kept for the next poll.
    method KeepPartial(text: string)
      requires Valid() && !returned && LineOrRest(text) && text[|text| - 1] != '\n'
      modifies this`leftover, this`log
      ensures Valid() && log == old(log) + text
    {
      LinesPartial(log, text);
      leftover := leftover + text;
      log := log + text;
    }

    // The part of a poll that Run, having returned, no longer reads.
    ghost method Skip(text: string)
      requires Valid() && returned
      modifies this`log
      ensures Valid() && log == old(log) + text
    {
      AfterReturn(patterns, View(), log, text);
      log := log + text;
    }

    /** One poll: `chunk` is what the file grew by. Whatever the chunks, what has been sent is the
        report of the complete lines of all the bytes so far. */
    method Poll(chunk: string)
      requires Valid()
      modifies this
      ensures Valid() && log == old(log) + chunk
      ensures out == Report(patterns, Lines(log).0)
    {
      var unread := chunk;
      while unread != "" && !returned
        invariant Valid() && log + unread == old(log) + chunk
        decreases |unread|
      {
        var line;
        line, unread := ReadString(unread);
        ghost var before := log;
        if line[|line| - 1] == '\n' {
          HandleLine(line);
        } else {
          KeepPartial(line);
        }
        Regroup(before, line, unread);
      }
      if unread != "" {
        Skip(unread);
      } else {
        assert log + unread == log;
      }
    }
  }

  // A newline-terminated line, or text without one.
  predicate LineOrRest(s: string) {
    s != "" && forall i :: 0 <= i < |s| - 1 ==> s[i] != '\n'
  }

  // bufio's ReadString('\n'): up to and including the next newline, or whatever is left.
  method ReadString(text: string) returns (line: string, unread: string)
    requires text != ""
    ensures text == line + unread && LineOrRest(line)
  {
    var end := 0;
    while end + 1 < |text| && text[end] != '\n'
      invariant end < |text| && forall i :: 0 <= i < end ==> text[i] != '\n'
    {
      end := end + 1;
    }
    line, unread := text[..end + 1], text[end + 1..];
  }

  ghost predicate SeenLog(ps: seq<Pattern>, s: State, log: string) {
    Seen(ps, s, Lines(log).0)
  }

  // Once Run has returned, more bytes change nothing.
  lemma {:induction false} AfterReturn(ps: seq<Pattern>, s: State, log: string, more: string)
    requires s.done && SeenLog(ps, s, log)
    ensures SeenLog(ps, s, log + more)
  {
    if more == "" {
      assert log + more == log;
    } else {
      var n := |more| - 1;
      AfterReturn(ps, s, log, more[..n]);
      Regroup(log, more[..n], [more[n]]);
      assert more[..n] + [more[n]] == more;
      assert SeenLog(ps, s, log + more[..n] + [more[n]]) by {
        OneMoreByte(ps, s, log + more[..n], more[n]);
      }
    }
  }

  lemma {:induction false} OneMoreByte(ps: seq<Pattern>, s: State, log: string, c: char)
    requires s.done && SeenLog(ps, s, log)
    ensures SeenLog(ps, s, log + [c])
  {
    assert (log + [c])[..|log|] == log;
    if c == '\n' {
      DoneStays(ps, s, Lines(log).0, Lines(log).1 + [c]);
    }
  }

  lemma {:induction false} DoneStays(ps: seq<Pattern>, s: State, lines: seq<string>, line: string)
    requires s.done && Seen(ps, s, lines)
    ensures Seen(ps, s, lines + [line])
  {
    OnLineSeen(ps, s, lines, line);
  }

  /** However a log is cut into polls, a new watcher sends the same report. */
  method WatchAll(patterns: seq<Pattern>, chunks: seq<string>) returns (sent: seq<Event>)
    ensures sent == Report(patterns, Lines(Joined(chunks)).0)
  {
    var w := new Watcher(patterns);
    for i := 0 to |chunks|
      invariant w.Valid() && w.patterns == patterns && w.log == Joined(chunks[..i]) && fresh(w)
    {
      w.Poll(chunks[i]);
      assert chunks[..i + 1][..i] == chunks[..i];
    }
    assert chunks[..|chunks|] == chunks;
    sent := w.out;
  }

  function Joined(chunks: seq<string>): string {
    if chunks == [] then "" else Joined(chunks[..|chunks| - 1]) + chunks[|chunks| - 1]
  }

  // ----- every run: lines, idle timeouts and cancellation in any order

  datatype Action = SeeLine(line: string, delivered: bool) | IdleTimeout(message: string, delivered: bool) | Cancel

  function Act(ps: seq<Pattern>, s: State, a: Action): State {
    match a
    case SeeLine(line, delivered) => OnLine(ps, s, line, delivered)
    case IdleTimeout(m, delivered) =>
      if s.done || s.last.Ready? || s.last.Failed? then s
      else Send(s, Event(Failed, "", m), delivered).(done := true)
    case Cancel => s.(done := true)
  }

  function After(ps: seq<Pattern>, run: seq<Action>): State {
    if run == [] then State(Unknown, [], false) else Act(ps, After(ps, run[..|run| - 1]), run[|run| - 1])
  }

  predicate Terminal(e: Event) {
    e.phase.Ready? || e.phase.Failed?
  }

  ghost predicate Orderly(s: State) {
    && (forall i :: 0 <= i < |s.out| && !Terminal(s.out[i]) && !s.done ==> Rank(s.out[i].phase) <= Rank(s.last))
    && (forall i :: 0 <= i < |s.out| - 1 ==> !Terminal(s.out[i]))
    && (!s.done ==> (forall i :: 0 <= i < |s.out| ==> !Terminal(s.out[i])) && Rank(s.last) <= 6)
    && (forall i, j :: 0 <= i < j < |s.out| && !Terminal(s.out[j]) ==>
          Rank(s.out[i].phase) < Rank(s.out[j].phase) || (s.out[i].phase.Install? && s.out[j].phase.Install?))
    && (forall i :: 0 <= i < |s.out| && !Terminal(s.out[i]) ==> Rank(s.out[i].phase) > 0) && !s.last.Failed?
  }

  lemma {:induction false} SendKeepsOrder(s: State, e: Event, last: Phase, done: bool)
    requires Orderly(s) && !s.done && Rank(s.last) <= Rank(last)
    requires Terminal(e) <==> done
    requires !done ==> last == e.phase && 0 < Rank(last) <= 6 && (Rank(s.last) < Rank(last) || last.Install?)
    requires !last.Failed?
    ensures Orderly(State(last, s.out + [e], done))
  {
    var out := s.out + [e];
    assert forall i :: 0 <= i < |s.out| ==> out[i] == s.out[i] && !Terminal(out[i]);
    assert Rank(last) == 6 <==> last.Install?;
    assert forall i :: 0 <= i < |s.out| ==> (Rank(out[i].phase) == 6 <==> out[i].phase.Install?);
  }

  lemma {:induction false} ActKeepsOrder(ps: seq<Pattern>, s: State, a: Action)
    requires Orderly(s)
    ensures Orderly(Act(ps, s, a))
  {
    if !s.done && a.SeeLine? {
      var c := Classify(ps, a.line);
      if c.fail {
        SendKeepsOrder(s, Event(Failed, "", c.panicLine), s.last, true);
      } else if c.phase.Install? || Rank(c.phase) > Rank(s.last) {
        SendKeepsOrder(s, Event(c.phase, c.detail, ""), c.phase, c.phase.Ready?);
      }
    } else if !s.done && a.IdleTimeout? {
      SendKeepsOrder(s, Event(Failed, "", a.message), s.last, true);
    }
  }

  /** In every run, events before the last are not terminal, so at most one Ready or Failed is sent
      and nothing follows it; and the others follow the order of the boot, except that Install may repeat. */
  lemma {:induction false} PhasesOnlyAdvance(ps: seq<Pattern>, run: seq<Action>)
    ensures var out := After(ps, run).out;
            && (forall i :: 0 <= i < |out| - 1 ==> !Terminal(out[i]))
            && (forall i, j :: 0 <= i < j < |out| && !Terminal(out[j]) ==>
                  Before(out[i].phase, out[j].phase) || (out[i].phase.Install? && out[j].phase.Install?))
  {
    RunIsOrderly(ps, run);
    var out := After(ps, run).out;
    forall i, j | 0 <= i < j < |out| && !Terminal(out[j])
      ensures Before(out[i].phase, out[j].phase) || (out[i].phase.Install? && out[j].phase.Install?)
    {
      RankIsOrder(out[i].phase, out[j].phase);
    }
  }

  // The event an action of the run stands behind.
  predicate Causes(ps: seq<Pattern>, a: Action, e: Event) {
    match a
    case SeeLine(line, delivered) =>
      var i := FirstMatch(ps, line);
      delivered && i < |ps| && e == if ps[i].fail then Event(Failed, "", line)
                                    else Event(ps[i].phase, ps[i].detail(line), "")
    case IdleTimeout(message, delivered) => delivered && e == Event(Failed, "", message)
    case Cancel => false
  }

  ghost predicate Caused(ps: seq<Pattern>, run: seq<Action>, out: seq<Event>, at: seq<nat>) {
    && |at| == |out| && (forall i, j :: 0 <= i < j < |at| ==> at[i] < at[j])
    && forall i :: 0 <= i < |at| ==> at[i] < |run| && Causes(ps, run[at[i]], out[i])
  }

  /** Every event of a run was sent at its own step and for its cause: a failure line, a line of the phase
      reported, or the idle timeout. */
  lemma {:induction false} EventsHaveCauses(ps: seq<Pattern>, run: seq<Action>) returns (at: seq<nat>)
    ensures Caused(ps, run, After(ps, run).out, at)
  {
    if run == [] {
      at := [];
    } else {
      var n := |run| - 1;
      at := EventsHaveCauses(ps, run[..n]);
      var s := After(ps, run[..n]);
      if After(ps, run).out != s.out {
        ActCauses(ps, s, run[n]);
        at := at + [n];
      }
    }
  }

  lemma {:induction false} ActCauses(ps: seq<Pattern>, s: State, a: Action)
    ensures var out := Act(ps, s, a).out;
            out == s.out || (|out| == |s.out| + 1 && out[..|s.out|] == s.out && Causes(ps, a, out[|s.out|]))
  {
    if a.SeeLine? {
      FirstMatchWins(ps, a.line, FirstMatch(ps, a.line));
    }
  }

  /** As long as the watcher has not returned, the idle timeout ends the boot as failed. */
  lemma {:induction false} TimeoutFailsTheBoot(ps: seq<Pattern>, run: seq<Action>, message: string)
    requires !After(ps, run).done
    ensures var s := After(ps, run + [IdleTimeout(message, true)]);
            s.done && s.out == After(ps, run).out + [Event(Failed, "", message)]
  {
    RunIsOrderly(ps, run);
    assert (run + [IdleTimeout(message, true)])[..|run|] == run;
  }

  lemma {:induction false} RunIsOrderly(ps: seq<Pattern>, run: seq<Action>)
    ensures Orderly(After(ps, run))
  {
    if run != [] {
      RunIsOrderly(ps, run[..|run| - 1]);
      ActKeepsOrder(ps, After(ps, run[..|run| - 1]), run[|run| - 1]);
    }
  }
}
