// The `vee ssh` command-line parser of `cmd/ssh_argv.go`.
module SshArgv {
  import opened Wrappers

  // sshBoolFlags: 46AaCfGgKkMNnqsTtVvXxYy
  predicate IsBool(c: char) {
    || c == '4' || c == '6' || c == 'A' || c == 'a' || c == 'C' || c == 'f' || c == 'G' || c == 'g'
    || c == 'K' || c == 'k' || c == 'M' || c == 'N' || c == 'n' || c == 'q' || c == 's' || c == 'T'
    || c == 't' || c == 'V' || c == 'v' || c == 'X' || c == 'x' || c == 'Y' || c == 'y'
  }

  // sshValueFlags: BbcDEeFIiJLlmOoPpQRSWw
  predicate IsValue(c: char) {
    || c == 'B' || c == 'b' || c == 'c' || c == 'D' || c == 'E' || c == 'e' || c == 'F' || c == 'I'
    || c == 'i' || c == 'J' || c == 'L' || c == 'l' || c == 'm' || c == 'O' || c == 'o' || c == 'P'
    || c == 'p' || c == 'Q' || c == 'R' || c == 'S' || c == 'W' || c == 'w'
  }

  datatype Argv = Argv(name: string, user: string, identity: string, flags: seq<string>, command: seq<string>)

  datatype Error =
    | UnexpectedArgument(arg: string)
    | NeedsArgument(flag: string)
    | UnknownLong(name: string)
    | UnknownShort(c: char)
    | NameRequired

  const EMPTY := Argv("", "", "", [], [])

  // ----- the grammar

  // What one word in option position does: end the parse, fail, or leave the words still to parse.
  datatype Step = Stop(out: Argv) | Fail(error: Error) | Next(out: Argv, rest: seq<string>)

  predicate IsFlag(arg: string) {
    arg != "" && arg[0] == '-' && arg != "-"
  }

  predicate IsLong(arg: string) {
    |arg| >= 2 && arg[..2] == "--"
  }

  // strings.Cut(s, "="): the text before the first '=', and the text after it if there is one.
  function Cut(s: string): (r: (string, Option<string>)) {
    if s == "" then ("", None)
    else if s[0] == '=' then ("", Some(s[1..]))
    else var (a, b) := Cut(s[1..]); ([s[0]] + a, b)
  }

  function Long(name: string, value: Option<string>, tail: seq<string>, out: Argv): Step {
    if name != "user" && name != "identity" && name != "ssh-flag" then Fail(UnknownLong(name))
    else if value.None? && tail == [] then Fail(NeedsArgument("--" + name))
    else
      var (v, rest) := if value.Some? then (value.value, tail) else (tail[0], tail[1..]);
      Next(if name == "user" then out.(user := v)
           else if name == "identity" then out.(identity := v)
           else out.(flags := out.flags + [v]),
           rest)
  }

  function SetValue(out: Argv, c: char, v: string): Argv {
    if c == 'l' then out.(user := v)
    else if c == 'i' then out.(identity := v)
    else out.(flags := out.flags + [['-', c], v])
  }

  function Cluster(cluster: string, tail: seq<string>, out: Argv): Step
    decreases |cluster|
  {
    if cluster == "" then Next(out, tail)
    else
      var c, val := cluster[0], cluster[1..];
      if IsBool(c) then Cluster(val, tail, out.(flags := out.flags + [['-', c]]))
      else if !IsValue(c) then Fail(UnknownShort(c))
      else if val != "" then Next(SetValue(out, c, val), tail)
      else if tail == [] then Fail(NeedsArgument(['-', c]))
      else Next(SetValue(out, c, tail[0]), tail[1..])
  }

  function StepWord(argv: seq<string>, out: Argv): (s: Step)
    requires argv != []
    ensures s.Next? ==> |s.rest| < |argv|
  {
    var arg, tail := argv[0], argv[1..];
    if arg == "--" then Stop(out.(command := tail))
    else if !IsFlag(arg) then
      if out.name != "" then Fail(UnexpectedArgument(arg)) else Next(out.(name := arg), tail)
    else if IsLong(arg) then
      var (name, value) := Cut(arg[2..]);
      Long(name, value, tail, out)
    else
      ClusterRest(arg[1..], tail, out);
      Cluster(arg[1..], tail, out)
  }

  lemma {:induction false} ClusterRest(cluster: string, tail: seq<string>, out: Argv)
    ensures Cluster(cluster, tail, out).Next? ==> |Cluster(cluster, tail, out).rest| <= |tail|
    decreases |cluster|
  {
    if cluster != "" && IsBool(cluster[0]) {
      ClusterRest(cluster[1..], tail, out.(flags := out.flags + [['-', cluster[0]]]));
    }
  }

  function Finish(out: Argv): Result<Argv, Error> {
    if out.name == "" then Err(NameRequired) else Ok(out)
  }

  function Parse(argv: seq<string>, out: Argv): Result<Argv, Error>
    decreases |argv|
  {
    if argv == [] then Finish(out) else
      match StepWord(argv, out)
      case Stop(o) => Finish(o)
      case Fail(e) => Err(e)
      case Next(o, rest) => Parse(rest, o)
  }

  // ----- the parser as written: nested index loops over mutable results

  method ParseSSHArgv(argv: seq<string>) returns (r: Result<Argv, Error>)
    ensures r == Parse(argv, EMPTY)
  {
    var out := EMPTY;
    var i := 0;
    assert argv[0..] == argv;
    while i < |argv|
      invariant 0 <= i <= |argv| && Parse(argv[i..], out) == Parse(argv, EMPTY)
      decreases |argv| - i
    {
      if argv[i] == "--" {
        AtSeparator(argv[i..], out);
        assert argv[i..][1..] == argv[i + 1..];
        out := out.(command := argv[i + 1..]);
        return Finish(out);
      }
      var ok, err;
      out, i, ok, err := TakeWord(argv, i, out);
      if !ok {
        return Err(err);
      }
      i := i + 1;
    }
    return Finish(out);
  }

  lemma {:induction false} AtSeparator(words: seq<string>, out: Argv)
    requires words != [] && words[0] == "--"
    ensures Parse(words, out) == Finish(out.(command := words[1..]))
  {
  }

  // The word at i, a name or a flag; i' is the last word it used.
  method TakeWord(argv: seq<string>, i: nat, out: Argv) returns (out': Argv, i': nat, ok: bool, err: Error)
    requires i < |argv| && argv[i] != "--"
    ensures i <= i' < |argv|
    ensures Parse(argv[i..], out) == if ok then Parse(argv[i' + 1..], out') else Err(err)
  {
    var arg := argv[i];
    if !IsFlag(arg) {
      out', i', ok, err := TakeName(argv, i, out);
    } else if IsLong(arg) {
      out', i', ok, err := TakeLong(argv, i, out);
    } else {
      out', i', ok, err := TakeCluster(argv, i, out);
    }
  }

  method TakeName(argv: seq<string>, i: nat, out: Argv) returns (out': Argv, i': nat, ok: bool, err: Error)
    requires i < |argv| && argv[i] != "--" && !IsFlag(argv[i])
    ensures i <= i' < |argv|
    ensures StepWord(argv[i..], out) == if ok then Next(out', argv[i' + 1..]) else Fail(err)
  {
    assert argv[i..][1..] == argv[i + 1..];
    out', i', ok, err := out, i, true, NameRequired;
    if out.name != "" {
      return out, i, false, UnexpectedArgument(argv[i]);
    }
    out' := out.(name := argv[i]);
  }

  // A long flag at word i; i' is the last word it used.
  method TakeLong(argv: seq<string>, i: nat, out: Argv) returns (out': Argv, i': nat, ok: bool, err: Error)
    requires i < |argv| && argv[i] != "--" && IsFlag(argv[i]) && IsLong(argv[i])
    ensures i <= i' < |argv|
    ensures StepWord(argv[i..], out) == if ok then Next(out', argv[i' + 1..]) else Fail(err)
  {
    var (name, value) := Cut(argv[i][2..]);
    assert argv[i..][1..] == argv[i + 1..];
    out', i', ok, err := out, i, true, NameRequired;
    if name != "user" && name != "identity" && name != "ssh-flag" {
      return out, i, false, UnknownLong(name);
    }
    var v;
    if value.Some? {
      v := value.value;
    } else if i + 1 >= |argv| {
      return out, i, false, NeedsArgument("--" + name);
    } else {
      i' := i + 1;
      v := argv[i'];
      assert argv[i + 1..][1..] == argv[i' + 1..];
    }
    if name == "user" {
      out' := out.(user := v);
    } else if name == "identity" {
      out' := out.(identity := v);
    } else {
      out' := out.(flags := out.flags + [v]);
    }
  }

  // A value flag's argument: the rest of its cluster, or the next word.
  method TakeValue(argv: seq<string>, i: nat, out: Argv, c: char, attached: string)
    returns (out': Argv, i': nat, ok: bool, err: Error)
    requires i < |argv| && !IsBool(c) && IsValue(c)
    ensures i <= i' < |argv|
    ensures Cluster([c] + attached, argv[i + 1..], out) == if ok then Next(out', argv[i' + 1..]) else Fail(err)
  {
    assert ([c] + attached)[1..] == attached;
    out', i', ok, err := out, i, true, NameRequired;
    var val := attached;
    if val == "" {
      if i + 1 >= |argv| {
        return out, i, false, NeedsArgument(['-', c]);
      }
      i' := i + 1;
      val := argv[i'];
      assert argv[i + 1..][1..] == argv[i' + 1..];
    }
    if c == 'l' {
      out' := out.(user := val);
    } else if c == 'i' {
      out' := out.(identity := val);
    } else {
      out' := out.(flags := out.flags + [['-', c], val]);
    }
  }

  // The letters of a cluster at word i.
  method TakeCluster(argv: seq<string>, i: nat, out: Argv) returns (out': Argv, i': nat, ok: bool, err: Error)
    requires i < |argv| && argv[i] != "--" && IsFlag(argv[i]) && !IsLong(argv[i])
    ensures i <= i' < |argv|
    ensures StepWord(argv[i..], out) == if ok then Next(out', argv[i' + 1..]) else Fail(err)
  {
    assert argv[i..][1..] == argv[i + 1..];
    out', i', ok, err := out, i, true, NameRequired;
    var cluster := argv[i][1..];
    assert cluster[0..] == cluster;
    var j := 0;
    while j < |cluster|
      invariant 0 <= j <= |cluster| && i' == i
      invariant Cluster(cluster[j..], argv[i + 1..], out') == StepWord(argv[i..], out)
    {
      var c := cluster[j];
      assert cluster[j..] == [c] + cluster[j + 1..] && cluster[j..][1..] == cluster[j + 1..];
      if IsBool(c) {
        out' := out'.(flags := out'.flags + [['-', c]]);
      } else if IsValue(c) {
        out', i', ok, err := TakeValue(argv, i, out', c, cluster[j + 1..]);
        return;
      } else {
        return out', i, false, UnknownShort(c);
      }
      j := j + 1;
    }
    assert cluster[j..] == "";
  }

  // ----- the command after "--"

  // The position of the first "--" that is not some flag's argument.
  function Separator(argv: seq<string>, out: Argv): Option<nat>
    decreases |argv|
  {
    if argv == [] then None
    else if argv[0] == "--" then Some(0)
    else match StepWord(argv, out)
      case Next(o, rest) =>
        var k := Separator(rest, o);
        if k.None? then None else Some(|argv| - |rest| + k.value)
      case _ => None
  }

  lemma {:induction false} StepTakesPrefix(argv: seq<string>, out: Argv)
    requires argv != [] && StepWord(argv, out).Next?
    ensures var rest := StepWord(argv, out).rest;
            |rest| < |argv| && rest == argv[|argv| - |rest|..] && (|argv| - |rest| == 1 || |argv| - |rest| == 2)
  {
    var arg := argv[0];
    if IsFlag(arg) && !IsLong(arg) {
      ClusterTakesPrefix(arg[1..], argv[1..], out);
    }
    assert |argv| > 1 ==> argv[1..][1..] == argv[2..];
  }

  lemma {:induction false} ClusterTakesPrefix(cluster: string, tail: seq<string>, out: Argv)
    ensures var s := Cluster(cluster, tail, out);
            !s.Stop? && (s.Next? ==> s.rest == tail || (tail != [] && s.rest == tail[1..]))
    decreases |cluster|
  {
    if cluster != "" && IsBool(cluster[0]) {
      ClusterTakesPrefix(cluster[1..], tail, out.(flags := out.flags + [['-', cluster[0]]]));
    }
  }

  lemma {:induction false} OnlySeparatorStops(argv: seq<string>, out: Argv)
    requires argv != []
    ensures StepWord(argv, out).Stop? <==> argv[0] == "--"
  {
    if IsFlag(argv[0]) && !IsLong(argv[0]) {
      ClusterTakesPrefix(argv[0][1..], argv[1..], out);
    }
  }

  /** An accepted line's command is exactly the words after the first unconsumed "--". */
  lemma {:induction false} CommandIsVerbatim(argv: seq<string>, out: Argv)
    requires Parse(argv, out).Ok?
    ensures match Separator(argv, out)
            case None => Parse(argv, out).value.command == out.command
            case Some(k) => k < |argv| && argv[k] == "--" && Parse(argv, out).value.command == argv[k + 1..]
    decreases |argv|
  {
    if argv != [] && argv[0] != "--" {
      var s := StepWord(argv, out);
      OnlySeparatorStops(argv, out);
      assert Parse(argv, out) == Parse(s.rest, s.out);
      CommandIsVerbatim(s.rest, s.out);
      StepTakesPrefix(argv, out);
      StepKeepsCommand(argv, out);
      var k := Separator(s.rest, s.out);
      if k.Some? {
        var n := |argv| - |s.rest|;
        assert s.rest == argv[n..] && argv[n..][k.value] == argv[n + k.value];
        assert argv[n..][k.value + 1..] == argv[n + k.value + 1..];
      }
    }
  }

  lemma {:induction false} StepKeepsCommand(argv: seq<string>, out: Argv)
    requires argv != [] && StepWord(argv, out).Next?
    ensures StepWord(argv, out).out.command == out.command
  {
    if IsFlag(argv[0]) && !IsLong(argv[0]) {
      ClusterKeepsCommand(argv[0][1..], argv[1..], out);
    }
  }

  lemma {:induction false} ClusterKeepsCommand(cluster: string, tail: seq<string>, out: Argv)
    ensures var s := Cluster(cluster, tail, out); s.Next? ==> s.out.command == out.command
    decreases |cluster|
  {
    if cluster != "" && IsBool(cluster[0]) {
      ClusterKeepsCommand(cluster[1..], tail, out.(flags := out.flags + [['-', cluster[0]]]));
    }
  }

  // ----- one-letter flags

  predicate OwnWord(flag: string) {
    |flag| == 2 && flag[0] == '-'
  }

  // One-letter boolean flags, and one-letter value flags each followed by its value.
  predicate Split(flags: seq<string>)
    decreases |flags|
  {
    flags == [] ||
    (OwnWord(flags[0]) &&
     ((IsBool(flags[0][1]) && Split(flags[1..])) ||
      (IsValue(flags[0][1]) && flags[0][1] != 'l' && flags[0][1] != 'i' && |flags| >= 2 && Split(flags[2..]))))
  }

  lemma {:induction false} LettersAreFlags(c: char)
    requires IsBool(c) || IsValue(c)
    ensures c != '-' && (IsBool(c) ==> !IsValue(c))
    ensures IsFlag(['-', c]) && !IsLong(['-', c]) && ['-', c] != "--" && ['-', c][1..] == [c]
  {
    var w := ['-', c];
    assert w[1] == c && w[..2] == w;
  }

  lemma {:induction false} BoolStep(c: char, rest: seq<string>, out: Argv)
    requires IsBool(c)
    ensures StepWord([['-', c]] + rest, out) == Next(out.(flags := out.flags + [['-', c]]), rest)
  {
    LettersAreFlags(c);
    assert ([['-', c]] + rest)[1..] == rest;
    var o := out.(flags := out.flags + [['-', c]]);
    assert [c][1..] == "" && Cluster("", rest, o) == Next(o, rest);
    assert Cluster([c], rest, out) == Next(o, rest);
  }

  lemma {:induction false} ValueStep(c: char, v: string, rest: seq<string>, out: Argv)
    requires IsValue(c)
    ensures StepWord([['-', c], v] + rest, out) == Next(SetValue(out, c, v), rest)
  {
    LettersAreFlags(c);
    var argv := [['-', c], v] + rest;
    assert argv[1..] == [v] + rest && argv[1..][1..] == rest;
    assert [c][1..] == "";
  }

  lemma {:induction false} BoolWord(c: char, rest: seq<string>, out: Argv)
    requires IsBool(c)
    ensures Parse([['-', c]] + rest, out) == Parse(rest, out.(flags := out.flags + [['-', c]]))
  {
    BoolStep(c, rest, out);
  }

  lemma {:induction false} ValueWord(c: char, v: string, rest: seq<string>, out: Argv)
    requires IsValue(c)
    ensures Parse([['-', c], v] + rest, out) == Parse(rest, SetValue(out, c, v))
  {
    ValueStep(c, v, rest, out);
  }

  lemma {:induction false} FlagsParse(flags: seq<string>, rest: seq<string>, out: Argv)
    requires Split(flags)
    ensures Parse(flags + rest, out) == Parse(rest, out.(flags := out.flags + flags))
    decreases |flags|
  {
    if flags == [] {
      assert flags + rest == rest && out.flags + flags == out.flags;
    } else {
      var c := flags[0][1];
      assert flags[0] == ['-', c];
      if IsBool(c) {
        var more := flags[1..];
        FlagsParse(more, rest, out.(flags := out.flags + [['-', c]]));
        BoolFirst(c, more, rest, out);
        assert flags == [['-', c]] + more;
      } else {
        var v, more := flags[1], flags[2..];
        FlagsParse(more, rest, SetValue(out, c, v));
        ValueFirst(c, v, more, rest, out);
        assert flags == [['-', c], v] + more;
      }
    }
  }

  lemma {:induction false} BoolFirst(c: char, more: seq<string>, rest: seq<string>, out: Argv)
    requires IsBool(c)
    requires var o := out.(flags := out.flags + [['-', c]]);
             Parse(more + rest, o) == Parse(rest, o.(flags := o.flags + more))
    ensures Parse([['-', c]] + more + rest, out) == Parse(rest, out.(flags := out.flags + ([['-', c]] + more)))
  {
    BoolWord(c, more + rest, out);
    Regroup([['-', c]], more, rest);
    Regroup(out.flags, [['-', c]], more);
  }

  lemma {:induction false} ValueFirst(c: char, v: string, more: seq<string>, rest: seq<string>, out: Argv)
    requires IsValue(c) && c != 'l' && c != 'i'
    requires var o := SetValue(out, c, v);
             Parse(more + rest, o) == Parse(rest, o.(flags := o.flags + more))
    ensures Parse([['-', c], v] + more + rest, out) == Parse(rest, out.(flags := out.flags + ([['-', c], v] + more)))
  {
    ValueWord(c, v, more + rest, out);
    Regroup([['-', c], v], more, rest);
    Regroup(out.flags, [['-', c], v], more);
  }

  lemma {:induction false} SplitConcat(a: seq<string>, b: seq<string>)
    requires Split(a) && Split(b)
    ensures Split(a + b)
    decreases |a|
  {
    if a == [] {
      assert a + b == b;
    } else if IsBool(a[0][1]) {
      SplitConcat(a[1..], b);
      assert (a + b)[1..] == a[1..] + b;
    } else {
      SplitConcat(a[2..], b);
      assert (a + b)[2..] == a[2..] + b;
    }
  }

  lemma {:induction false} SplitOne(c: char, v: string)
    ensures IsBool(c) ==> Split([['-', c]])
    ensures IsValue(c) && c != 'l' && c != 'i' ==> Split([['-', c], v])
  {
    assert [['-', c]][1..] == [] && [['-', c], v][2..] == [];
  }

  // Some word in option position is `--ssh-flag`.
  predicate UsesSshFlag(argv: seq<string>, out: Argv)
    decreases |argv|
  {
    argv != [] && argv[0] != "--" &&
    ((IsFlag(argv[0]) && IsLong(argv[0]) && Cut(argv[0][2..]).0 == "ssh-flag") ||
     (match StepWord(argv, out)
      case Next(o, rest) => UsesSshFlag(rest, o)
      case _ => false))
  }

  lemma {:induction false} ClusterKeepsSplit(cluster: string, tail: seq<string>, out: Argv)
    requires Cluster(cluster, tail, out).Next?
    ensures Cluster(cluster, tail, out).out.name == out.name
    ensures Split(out.flags) ==> Split(Cluster(cluster, tail, out).out.flags)
    decreases |cluster|
  {
    if cluster != "" {
      var c, val := cluster[0], cluster[1..];
      var v := if val != "" || tail == [] then val else tail[0];
      SplitOne(c, v);
      if IsBool(c) {
        if Split(out.flags) {
          SplitConcat(out.flags, [['-', c]]);
        }
        ClusterKeepsSplit(val, tail, out.(flags := out.flags + [['-', c]]));
      } else if c != 'l' && c != 'i' && Split(out.flags) {
        SplitConcat(out.flags, [['-', c], v]);
      }
    }
  }

  // Every name a line is accepted with can stand in option position, and without `--ssh-flag` so can its flags.
  lemma {:induction false} ParsedParts(argv: seq<string>, out: Argv)
    requires Parse(argv, out).Ok? && !IsFlag(out.name)
    ensures var r := Parse(argv, out).value;
            && r.name != "" && !IsFlag(r.name)
            && (Split(out.flags) && !UsesSshFlag(argv, out) ==> Split(r.flags))
    decreases |argv|
  {
    if argv != [] {
      OnlySeparatorStops(argv, out);
      if argv[0] != "--" {
        var s := StepWord(argv, out);
        if IsFlag(argv[0]) && !IsLong(argv[0]) {
          ClusterKeepsSplit(argv[0][1..], argv[1..], out);
        }
        assert Parse(argv, out) == Parse(s.rest, s.out);
        ParsedParts(s.rest, s.out);
      }
    }
  }

  // A line that says what `r` says: split flags, -l, -i, the name, and the command after "--".
  function Render(r: Argv): seq<string> {
    r.flags + ["-l", r.user] + ["-i", r.identity] + [r.name] + ["--"] + r.command
  }

  lemma {:induction false} NameAndCommandParse(r: Argv, out: Argv)
    requires out == r.(name := "", command := []) && r.name != "" && !IsFlag(r.name)
    ensures Parse([r.name] + (["--"] + r.command), out) == Ok(r)
  {
    var end := ["--"] + r.command;
    var o := out.(name := r.name);
    assert end[1..] == r.command;
    assert StepWord(end, o) == Stop(r);
    assert Parse(end, o) == Ok(r);
    assert ([r.name] + end)[1..] == end && r.name != "--";
    assert StepWord([r.name] + end, out) == Next(o, end);
  }

  lemma {:induction false} OptionsParse(user: string, identity: string, rest: seq<string>, out: Argv)
    ensures Parse(["-l", user] + (["-i", identity] + rest), out) == Parse(rest, out.(user := user, identity := identity))
  {
    assert "-i" == ['-', 'i'] && "-l" == ['-', 'l'];
    ValueWord('i', identity, rest, out.(user := user));
    ValueWord('l', user, ["-i", identity] + rest, out);
  }

  lemma {:induction false} RenderedParses(r: Argv)
    requires Split(r.flags) && !IsFlag(r.name) && r.name != ""
    ensures Parse(Render(r), EMPTY) == Ok(r)
  {
    var named := [r.name] + (["--"] + r.command);
    var options := ["-l", r.user] + (["-i", r.identity] + named);
    var flagged := EMPTY.(flags := r.flags);
    NameAndCommandParse(r, flagged.(user := r.user, identity := r.identity));
    OptionsParse(r.user, r.identity, named, flagged);
    assert [] + r.flags == r.flags;
    FlagsParse(r.flags, options, EMPTY);
    assert Render(r) == r.flags + options by { RenderShape(r); }
  }

  lemma {:induction false} RenderShape(r: Argv)
    ensures Render(r) == r.flags + (["-l", r.user] + (["-i", r.identity] + ([r.name] + (["--"] + r.command))))
  {
  }

  lemma {:induction false} CutAt(name: string, v: string)
    requires forall i :: 0 <= i < |name| ==> name[i] != '='
    ensures Cut(name + "=" + v) == (name, Some(v))
  {
    var s := name + "=" + v;
    if name == "" {
      assert s[1..] == v;
    } else {
      CutAt(name[1..], v);
      assert s[1..] == name[1..] + "=" + v;
      assert [name[0]] + name[1..] == name;
    }
  }

  lemma {:induction false} AttachedStep(name: string, v: string, tail: seq<string>, out: Argv)
    requires forall i :: 0 <= i < |name| ==> name[i] != '='
    ensures StepWord(["--" + (name + "=" + v)] + tail, out) == Long(name, Some(v), tail, out)
  {
    var argv := ["--" + (name + "=" + v)] + tail;
    CutAt(name, v);
    assert argv[0][2..] == name + "=" + v && argv[1..] == tail && argv[0][..2] == "--" && |argv[0]| > 2;
  }

  lemma {:induction false} LongTakes(name: string, v: string, tail: seq<string>, out: Argv)
    requires name == "user" || name == "identity"
    ensures var o := if name == "user" then out.(user := v) else out.(identity := v);
            Long(name, None, [v] + tail, out) == Next(o, tail) == Long(name, Some(v), tail, out)
  {
    assert ([v] + tail)[1..] == tail;
  }

  /** `--user v`, `--user=v`, `-l v` and `-lv` are one option, and so are `--identity` and `-i`. */
  lemma {:induction false} LongFormsAgree(name: string, v: string, rest: seq<string>, out: Argv)
    requires name == "user" || name == "identity"
    ensures var c := if name == "user" then 'l' else 'i';
            var short := Parse([['-', c], v] + rest, out);
            && Parse(["--" + name] + ([v] + rest), out) == short
            && Parse(["--" + (name + "=" + v)] + rest, out) == short
            && (v != "" ==> Parse([['-', c] + v] + rest, out) == short)
  {
    var c := if name == "user" then 'l' else 'i';
    LongStep(name, [v] + rest, out);
    AttachedStep(name, v, rest, out);
    LongTakes(name, v, rest, out);
    ValueWord(c, v, rest, out);
    if v != "" {
      AttachedValue(c, v, rest, out);
    }
  }

  lemma {:induction false} AttachedValue(c: char, v: string, rest: seq<string>, out: Argv)
    requires IsValue(c) && v != ""
    ensures Parse([['-', c] + v] + rest, out) == Parse(rest, SetValue(out, c, v))
  {
    LettersAreFlags(c);
    var argv := [['-', c] + v] + rest;
    assert argv[1..] == rest && argv[0][1..] == [c] + v && ([c] + v)[1..] == v;
    assert Cluster([c] + v, rest, out) == Next(SetValue(out, c, v), rest);
    assert argv[0][1] == c && c != '-';
  }

  lemma {:induction false} LongStep(name: string, tail: seq<string>, out: Argv)
    requires name != "" && forall i :: 0 <= i < |name| ==> name[i] != '='
    ensures StepWord(["--" + name] + tail, out) == Long(name, None, tail, out)
  {
    var argv := ["--" + name] + tail;
    CutPlain(name);
    assert argv[0][2..] == name && argv[1..] == tail && argv[0][..2] == "--" && |argv[0]| > 2;
  }

  // A line that says what `r` says whatever its flags are: each one behind a `--ssh-flag=`.
  function PassOn(flags: seq<string>): (ws: seq<string>)
    ensures |ws| == |flags|
  {
    if flags == [] then [] else ["--" + ("ssh-flag" + "=" + flags[0])] + PassOn(flags[1..])
  }

  function RenderLong(r: Argv): seq<string> {
    PassOn(r.flags)
    + (["--" + ("user" + "=" + r.user)] + (["--" + ("identity" + "=" + r.identity)] + ([r.name] + (["--"] + r.command))))
  }

  lemma {:induction false} FlagAttached(flag: string, rest: seq<string>, out: Argv)
    ensures Parse(["--" + ("ssh-flag" + "=" + flag)] + rest, out) == Parse(rest, out.(flags := out.flags + [flag]))
  {
    AttachedStep("ssh-flag", flag, rest, out);
    assert "ssh-flag"[0] == 's' && "identity"[0] == 'i';
  }

  lemma {:induction false} PassedOn(flags: seq<string>, rest: seq<string>, out: Argv)
    ensures Parse(PassOn(flags) + rest, out) == Parse(rest, out.(flags := out.flags + flags))
    decreases |flags|
  {
    if flags == [] {
      assert PassOn(flags) + rest == rest && out.flags + flags == out.flags;
    } else {
      var word, more := ["--" + ("ssh-flag" + "=" + flags[0])], PassOn(flags[1..]);
      var o := out.(flags := out.flags + [flags[0]]);
      FlagAttached(flags[0], more + rest, out);
      PassedOn(flags[1..], rest, o);
      Regroup(word, more, rest);
      assert o.flags + flags[1..] == out.flags + flags;
    }
  }

  lemma {:induction false} LongOptionsParse(r: Argv, rest: seq<string>, out: Argv)
    ensures Parse(["--" + ("user" + "=" + r.user)] + (["--" + ("identity" + "=" + r.identity)] + rest), out) ==
            Parse(rest, out.(user := r.user, identity := r.identity))
  {
    var tail := ["--" + ("identity" + "=" + r.identity)] + rest;
    AttachedStep("user", r.user, tail, out);
    LongTakes("user", r.user, tail, out);
    AttachedStep("identity", r.identity, rest, out.(user := r.user));
    LongTakes("identity", r.identity, rest, out.(user := r.user));
  }

  /** Every accepted line, with `--ssh-flag` or without, has a normal form that parses to the same result:
      every flag passed on by `--ssh-flag=`, `--user=`, `--identity=`, the name, `--` and the command. */
  lemma {:induction false} LongFormReparses(argv: seq<string>)
    requires Parse(argv, EMPTY).Ok?
    ensures Parse(RenderLong(Parse(argv, EMPTY).value), EMPTY) == Parse(argv, EMPTY)
  {
    ParsedParts(argv, EMPTY);
    var r := Parse(argv, EMPTY).value;
    var named := [r.name] + (["--"] + r.command);
    var options := ["--" + ("user" + "=" + r.user)] + (["--" + ("identity" + "=" + r.identity)] + named);
    var flagged := EMPTY.(flags := r.flags);
    PassedOn(r.flags, options, EMPTY);
    assert [] + r.flags == r.flags;
    LongOptionsParse(r, named, flagged);
    NameAndCommandParse(r, flagged.(user := r.user, identity := r.identity));
  }

  lemma {:induction false} SshFlagStep(flag: string, tail: seq<string>, out: Argv)
    ensures StepWord(["--" + "ssh-flag"] + ([flag] + tail), out) == Next(out.(flags := out.flags + [flag]), tail)
  {
    LongStep("ssh-flag", [flag] + tail, out);
    SshFlagTakes(flag, tail, out);
  }

  lemma {:induction false} SshFlagTakes(flag: string, tail: seq<string>, out: Argv)
    ensures Long("ssh-flag", None, [flag] + tail, out) == Next(out.(flags := out.flags + [flag]), tail)
  {
    assert "ssh-flag"[0] == 's' && "identity"[0] == 'i';
    assert ([flag] + tail)[1..] == tail;
  }

  lemma {:induction false} DoubledStep(c: char, tail: seq<string>, out: Argv)
    requires IsBool(c)
    ensures Cluster([c, c], tail, out) == Next(out.(flags := out.flags + [['-', c], ['-', c]]), tail)
  {
    var o1 := out.(flags := out.flags + [['-', c]]);
    var o2 := o1.(flags := o1.flags + [['-', c]]);
    assert o2.flags == out.flags + [['-', c], ['-', c]];
    assert [c][1..] == "" && [c, c][1..] == [c];
    assert Cluster("", tail, o2) == Next(o2, tail);
    assert Cluster([c], tail, o1) == Next(o2, tail);
  }

  /** `--ssh-flag` passes its word on unread, so a cluster in it comes back as two flags. */
  lemma {:induction false} SshFlagIsNotReparsed(c: char, name: string)
    requires IsBool(c) && name != "" && !IsFlag(name)
    ensures var r := Argv(name, "", "", [['-', c, c]], []);
            && Parse(["--" + "ssh-flag"] + ([['-', c, c]] + [name]), EMPTY) == Ok(r)
            && Parse(Render(r), EMPTY) == Ok(r.(flags := [['-', c], ['-', c]]))
  {
    var w, two := ['-', c, c], [['-', c], ['-', c]];
    SshFlagStep(w, [name], EMPTY);
    assert [] + [w] == [w] && [] + two == two;
    NameAlone(name, EMPTY.(flags := [w]));
    var r := Argv(name, "", "", [w], []);
    RenderShape(r);
    var rest := ["-l", ""] + (["-i", ""] + ([name] + (["--"] + [])));
    LettersAreFlags(c);
    DoubledStep(c, rest, EMPTY);
    assert ([w] + rest)[1..] == rest && w[1..] == [c, c];
    assert StepWord([w] + rest, EMPTY) == Next(EMPTY.(flags := two), rest);
    OptionsParse("", "", [name] + (["--"] + []), EMPTY.(flags := two));
    NameAndCommandParse(r.(flags := two), EMPTY.(flags := two));
  }

  lemma {:induction false} NameAlone(name: string, out: Argv)
    requires name != "" && !IsFlag(name) && out.name == ""
    ensures Parse([name], out) == Ok(out.(name := name))
  {
    assert [name][1..] == [];
    assert StepWord([name], out) == Next(out.(name := name), []);
  }

  lemma {:induction false} CutPlain(s: string)
    requires forall i :: 0 <= i < |s| ==> s[i] != '='
    ensures Cut(s) == (s, None)
  {
    if s != "" {
      CutPlain(s[1..]);
      assert [s[0]] + s[1..] == s;
    }
  }
}
