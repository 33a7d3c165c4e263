/**
 The grammar of `vee ssh` command lines as a printer: a line is a list of items, each with the words it
 is written as and what it adds to the result. The parser accepts exactly the lines of the grammar, with
 their meaning, and refuses each other line at its first word that is no item, for the reason that word gives.
 */
module SshGrammar {
  import opened Wrappers
  import opened SshArgv

  const BOOL_FLAGS := "46AaCfGgKkMNnqsTtVvXxYy"
  const VALUE_FLAGS := "BbcDEeFIiJLlmOoPpQRSWw"

  /** The two tables of letters. */
  lemma {:induction false} LetterTables(c: char)
    ensures IsBool(c) <==> c in BOOL_FLAGS
    ensures IsValue(c) <==> c in VALUE_FLAGS
  {
  }

  // ----- items

  // A destination, boolean letters, a value flag after boolean letters, one of vee's own long options.
  datatype Item =
    | Name(name: string)
    | Bools(letters: string)
    | Short(letters: string, flag: char, value: string, attached: bool)
    | Own(option: string, value: string, attached: bool)

  predicate AllBool(s: string) {
    forall i :: 0 <= i < |s| ==> IsBool(s[i])
  }

  predicate IsOption(name: string) {
    name == "user" || name == "identity" || name == "ssh-flag"
  }

  predicate Wf(item: Item) {
    match item
    case Name(n) => !IsFlag(n)
    case Bools(s) => s != "" && AllBool(s)
    case Short(s, c, v, attached) => AllBool(s) && IsValue(c) && (attached ==> v != "")
    case Own(o, v, attached) => IsOption(o)
  }

  function Print(item: Item): (ws: seq<string>)
    ensures ws != []
  {
    match item
    case Name(n) => [n]
    case Bools(s) => ["-" + s]
    case Short(s, c, v, attached) => if attached then ["-" + (s + ([c] + v))] else ["-" + (s + [c]), v]
    case Own(o, v, attached) => if attached then ["--" + (o + "=" + v)] else ["--" + o, v]
  }

  // One word `-c` for each letter.
  function Each(s: string): (ws: seq<string>)
    ensures |ws| == |s| && forall i :: 0 <= i < |s| ==> ws[i] == ['-', s[i]]
  {
    if s == "" then [] else [['-', s[0]]] + Each(s[1..])
  }

  // What an item adds.
  function Do(item: Item, out: Argv): Argv {
    match item
    case Name(n) => out.(name := n)
    case Bools(s) => out.(flags := out.flags + Each(s))
    case Short(s, c, v, _) =>
      if c == 'l' then out.(user := v, flags := out.flags + Each(s))
      else if c == 'i' then out.(identity := v, flags := out.flags + Each(s))
      else out.(flags := out.flags + Each(s) + [['-', c], v])
    case Own(o, v, _) =>
      if o == "user" then out.(user := v)
      else if o == "identity" then out.(identity := v)
      else out.(flags := out.flags + [v])
  }

  // An item may stand where the result so far is `out`: there is no second destination.
  predicate Fits(item: Item, out: Argv) {
    Wf(item) && (item.Name? ==> out.name == "")
  }

  // ----- one item

  lemma {:induction false} BoolPrefix(s: string, t: string, tail: seq<string>, out: Argv)
    requires AllBool(s)
    ensures Cluster(s + t, tail, out) == Cluster(t, tail, out.(flags := out.flags + Each(s)))
    decreases |s|
  {
    if s == "" {
      assert s + t == t && out.flags + [] == out.flags;
    } else {
      var o := out.(flags := out.flags + [['-', s[0]]]);
      BoolPrefix(s[1..], t, tail, o);
      assert (s + t)[1..] == s[1..] + t && (s + t)[0] == s[0];
      Regroup(out.flags, [['-', s[0]]], Each(s[1..]));
    }
  }

  lemma {:induction false} ValueEnds(c: char, v: string, tail: seq<string>, out: Argv)
    requires IsValue(c)
    ensures v != "" ==> Cluster([c] + v, tail, out) == Next(SetValue(out, c, v), tail)
    ensures Cluster([c], [v] + tail, out) == Next(SetValue(out, c, v), tail)
    ensures Cluster([c], [], out) == Fail(NeedsArgument(['-', c]))
  {
    LettersAreFlags(c);
    assert ([c] + v)[1..] == v && [c][1..] == "" && ([v] + tail)[1..] == tail;
  }

  lemma {:induction false} ClusterWord(cluster: string, rest: seq<string>, out: Argv)
    requires cluster != "" && cluster[0] != '-'
    ensures StepWord(["-" + cluster] + rest, out) == Cluster(cluster, rest, out)
  {
    var w := "-" + cluster;
    assert w[1] == cluster[0] && w[1..] == cluster && w[0] == '-' && |w| >= 2;
    assert !IsLong(w) by { assert w[..2][1] == w[1]; }
    assert ([w] + rest)[0] == w && ([w] + rest)[1..] == rest;
  }

  lemma {:induction false} FirstIsNoDash(s: string, c: char)
    requires AllBool(s) && (s == "" ==> c != '-')
    ensures (s + [c])[0] != '-'
  {
    if s != "" {
      LettersAreFlags(s[0]);
    }
  }

  lemma {:induction false} BoolsStep(s: string, rest: seq<string>, out: Argv)
    requires s != "" && AllBool(s)
    ensures StepWord(["-" + s] + rest, out) == Next(out.(flags := out.flags + Each(s)), rest)
  {
    LettersAreFlags(s[0]);
    ClusterWord(s, rest, out);
    BoolPrefix(s, "", rest, out);
    assert s + "" == s;
  }

  lemma {:induction false} ShortStep(s: string, c: char, v: string, attached: bool, rest: seq<string>, out: Argv)
    requires AllBool(s) && IsValue(c) && (attached ==> v != "")
    ensures StepWord(Print(Short(s, c, v, attached)) + rest, out) == Next(Do(Short(s, c, v, attached), out), rest)
  {
    var o := out.(flags := out.flags + Each(s));
    LettersAreFlags(c);
    FirstIsNoDash(s, c);
    ValueEnds(c, v, rest, o);
    if attached {
      assert (s + ([c] + v))[0] == (s + [c])[0];
      ClusterWord(s + ([c] + v), rest, out);
      BoolPrefix(s, [c] + v, rest, out);
    } else {
      ClusterWord(s + [c], [v] + rest, out);
      BoolPrefix(s, [c], [v] + rest, out);
      assert ["-" + (s + [c]), v] + rest == ["-" + (s + [c])] + ([v] + rest);
    }
  }

  lemma {:induction false} NoEquals(o: string)
    requires IsOption(o)
    ensures o != "" && forall i :: 0 <= i < |o| ==> o[i] != '='
  {
  }

  lemma {:induction false} OwnTakes(o: string, v: string, rest: seq<string>, out: Argv)
    requires IsOption(o)
    ensures Long(o, Some(v), rest, out) == Next(Do(Own(o, v, true), out), rest) == Long(o, None, [v] + rest, out)
  {
    assert ([v] + rest)[1..] == rest;
  }

  lemma {:induction false} OwnStep(o: string, v: string, attached: bool, rest: seq<string>, out: Argv)
    requires IsOption(o)
    ensures StepWord(Print(Own(o, v, attached)) + rest, out) == Next(Do(Own(o, v, attached), out), rest)
  {
    NoEquals(o);
    OwnTakes(o, v, rest, out);
    if attached {
      AttachedStep(o, v, rest, out);
    } else {
      LongStep(o, [v] + rest, out);
      assert ["--" + o, v] + rest == ["--" + o] + ([v] + rest);
    }
  }

  /** An item is read as what it says, whatever follows. */
  lemma {:induction false} ItemStep(item: Item, rest: seq<string>, out: Argv)
    requires Fits(item, out)
    ensures StepWord(Print(item) + rest, out) == Next(Do(item, out), rest)
  {
    match item
    case Name(n) => assert ([n] + rest)[1..] == rest && n != "--";
    case Bools(s) => BoolsStep(s, rest, out);
    case Short(s, c, v, attached) => ShortStep(s, c, v, attached, rest, out);
    case Own(o, v, attached) => OwnStep(o, v, attached, rest, out);
  }

  // ----- from words to items

  // The boolean letters a cluster starts with.
  function Leading(cluster: string): (n: nat)
    ensures n <= |cluster| && AllBool(cluster[..n]) && (n < |cluster| ==> !IsBool(cluster[n]))
  {
    if cluster != "" && IsBool(cluster[0]) then
      assert forall i :: 0 <= i < Leading(cluster[1..]) ==> cluster[1 + i] == cluster[1..][i];
      1 + Leading(cluster[1..])
    else 0
  }

  // What is the matter with a word that starts no item.
  datatype Offence =
    | SecondName(word: string)
    | NoValue(letters: string, flag: char)
    | NoOwnValue(option: string)
    | StrangeLetter(letters: string, letter: char, after: string)
    | StrangeOption(option: string, value: Option<string>)
    | NoName

  predicate Offends(o: Offence, words: seq<string>, out: Argv) {
    match o
    case SecondName(w) => words != [] && words[0] == w && !IsFlag(w) && out.name != ""
    case NoValue(s, c) => words == ["-" + (s + [c])] && AllBool(s) && IsValue(c)
    case NoOwnValue(name) => words == ["--" + name] && IsOption(name)
    case StrangeLetter(s, c, t) =>
      && words != [] && words[0] == "-" + (s + ([c] + t)) && AllBool(s) && !IsBool(c) && !IsValue(c)
      && (s == "" ==> c != '-')
    case StrangeOption(name, v) =>
      && words != [] && words[0] == "--" + (if v.None? then name else name + "=" + v.value)
      && !IsOption(name) && '=' !in name && words[0] != "--"
    case NoName => (words == [] || words[0] == "--") && out.name == ""
  }

  function Complaint(o: Offence): Error {
    match o
    case SecondName(w) => UnexpectedArgument(w)
    case NoValue(_, c) => NeedsArgument(['-', c])
    case NoOwnValue(name) => NeedsArgument("--" + name)
    case StrangeLetter(_, c, _) => UnknownShort(c)
    case StrangeOption(name, _) => UnknownLong(name)
    case NoName => NameRequired
  }

  // A step that goes on has read an item; one that fails has met an offence.
  ghost predicate Understood(argv: seq<string>, out: Argv, s: Step, item: Option<Item>, o: Offence) {
    match s
    case Stop(_) => argv != [] && argv[0] == "--"
    case Next(o', rest) => item.Some? && Fits(item.value, out) && argv == Print(item.value) + rest && o' == Do(item.value, out)
    case Fail(e) => Offends(o, argv, out) && Complaint(o) == e
  }

  lemma {:induction false} CutJoins(s: string)
    ensures '=' !in Cut(s).0
    ensures s == if Cut(s).1.None? then Cut(s).0 else Cut(s).0 + "=" + Cut(s).1.value
  {
    if s != "" && s[0] != '=' {
      CutJoins(s[1..]);
      assert s == [s[0]] + s[1..];
      var (a, b) := Cut(s[1..]);
      if b.Some? {
        assert [s[0]] + (a + "=" + b.value) == [s[0]] + a + "=" + b.value;
      }
    } else if s != "" {
      assert s == "" + "=" + s[1..];
    }
  }

  lemma {:induction false} UnderstandLong(w: string, tail: seq<string>, out: Argv)
    returns (item: Option<Item>, o: Offence)
    requires IsFlag(w) && IsLong(w) && w != "--"
    ensures Understood([w] + tail, out, StepWord([w] + tail, out), item, o)
  {
    var name, value := Cut(w[2..]).0, Cut(w[2..]).1;
    CutJoins(w[2..]);
    assert w == "--" + w[2..];
    var argv := [w] + tail;
    assert argv[0] == w && argv[1..] == tail;
    item, o := None, NoName;
    if !IsOption(name) {
      o := StrangeOption(name, value);
    } else if value.Some? {
      item := Some(Own(name, value.value, true));
    } else if tail == [] {
      o := NoOwnValue(name);
    } else {
      item := Some(Own(name, tail[0], false));
      assert argv == ["--" + name, tail[0]] + tail[1..];
    }
  }

  // A value flag after boolean letters, with what is left of its word.
  lemma {:induction false} UnderstandValue(s: string, c: char, v: string, tail: seq<string>, out: Argv)
    returns (item: Option<Item>, o: Offence)
    requires AllBool(s) && IsValue(c)
    ensures var argv := ["-" + (s + ([c] + v))] + tail; Understood(argv, out, StepWord(argv, out), item, o)
  {
    item, o := None, NoName;
    if v != "" {
      item := Some(Short(s, c, v, true));
      ShortStep(s, c, v, true, tail, out);
    } else {
      assert [c] + v == [c];
      if tail == [] {
        o := NoValue(s, c);
        NoValueStep(s, c, out);
        assert ["-" + (s + [c])] + tail == ["-" + (s + [c])];
      } else {
        item := Some(Short(s, c, tail[0], false));
        ShortStep(s, c, tail[0], false, tail[1..], out);
        assert ["-" + (s + [c])] + tail == ["-" + (s + [c]), tail[0]] + tail[1..];
      }
    }
  }

  lemma {:induction false} UnderstandCluster(cluster: string, tail: seq<string>, out: Argv)
    returns (item: Option<Item>, o: Offence)
    requires cluster != "" && cluster[0] != '-'
    ensures var argv := ["-" + cluster] + tail; Understood(argv, out, StepWord(argv, out), item, o)
  {
    var n := Leading(cluster);
    var s := cluster[..n];
    item, o := None, NoName;
    if n == |cluster| {
      assert s == cluster;
      BoolsStep(s, tail, out);
      item := Some(Bools(s));
    } else {
      var c, v := cluster[n], cluster[n + 1..];
      assert cluster == s + ([c] + v);
      if IsValue(c) {
        item, o := UnderstandValue(s, c, v, tail, out);
      } else {
        StrangeStep(s, c, v, tail, out);
        o := StrangeLetter(s, c, v);
      }
    }
  }

  lemma {:induction false} Understand(argv: seq<string>, out: Argv) returns (item: Option<Item>, o: Offence)
    requires argv != []
    ensures Understood(argv, out, StepWord(argv, out), item, o)
  {
    var w, tail := argv[0], argv[1..];
    assert argv == [w] + tail;
    item, o := None, NoName;
    if w == "--" {
    } else if !IsFlag(w) {
      item, o := Some(Name(w)), SecondName(w);
    } else if IsLong(w) {
      item, o := UnderstandLong(w, tail, out);
    } else {
      assert w == "-" + w[1..] && w[..2] == [w[0], w[1]];
      item, o := UnderstandCluster(w[1..], tail, out);
    }
  }

  // ----- whole lines

  function PrintAll(items: seq<Item>): seq<string> {
    if items == [] then [] else Print(items[0]) + PrintAll(items[1..])
  }

  function DoAll(items: seq<Item>, out: Argv): Argv {
    if items == [] then out else DoAll(items[1..], Do(items[0], out))
  }

  predicate AllFit(items: seq<Item>, out: Argv) {
    items == [] || (Fits(items[0], out) && AllFit(items[1..], Do(items[0], out)))
  }

  lemma {:induction false} ItemsRead(items: seq<Item>, tail: seq<string>, out: Argv)
    requires AllFit(items, out)
    ensures Parse(PrintAll(items) + tail, out) == Parse(tail, DoAll(items, out))
    decreases |items|
  {
    if items == [] {
      assert PrintAll(items) + tail == tail;
    } else {
      var more := PrintAll(items[1..]) + tail;
      ItemStep(items[0], more, out);
      ItemsRead(items[1..], tail, Do(items[0], out));
      Regroup(Print(items[0]), PrintAll(items[1..]), tail);
    }
  }

  lemma {:induction false} OffenceRefused(o: Offence, words: seq<string>, out: Argv)
    requires Offends(o, words, out)
    ensures Parse(words, out) == Err(Complaint(o))
  {
    match o
    case SecondName(w) =>
    case NoValue(s, c) => NoValueStep(s, c, out);
    case NoOwnValue(name) =>
      NoEquals(name);
      LongStep(name, [], out);
    case StrangeLetter(s, c, t) =>
      StrangeStep(s, c, t, words[1..], out);
      assert words == [words[0]] + words[1..];
    case StrangeOption(name, v) =>
      StrangeOptionStep(name, v, words[1..], out);
      assert words == [words[0]] + words[1..];
    case NoName => EndsParse(words, out);
  }

  lemma {:induction false} NoValueStep(s: string, c: char, out: Argv)
    requires AllBool(s) && IsValue(c)
    ensures StepWord(["-" + (s + [c])], out) == Fail(NeedsArgument(['-', c]))
  {
    LettersAreFlags(c);
    FirstIsNoDash(s, c);
    ClusterWord(s + [c], [], out);
    BoolPrefix(s, [c], [], out);
    ValueEnds(c, "", [], out.(flags := out.flags + Each(s)));
    assert ["-" + (s + [c])] + [] == ["-" + (s + [c])];
  }

  lemma {:induction false} StrangeStep(s: string, c: char, t: string, tail: seq<string>, out: Argv)
    requires AllBool(s) && !IsBool(c) && !IsValue(c) && (s == "" ==> c != '-')
    ensures StepWord(["-" + (s + ([c] + t))] + tail, out) == Fail(UnknownShort(c))
  {
    FirstIsNoDash(s, c);
    assert (s + ([c] + t))[0] == (s + [c])[0];
    ClusterWord(s + ([c] + t), tail, out);
    BoolPrefix(s, [c] + t, tail, out);
  }

  lemma {:induction false} StrangeOptionStep(name: string, v: Option<string>, tail: seq<string>, out: Argv)
    requires !IsOption(name) && '=' !in name && (v.None? ==> name != "")
    ensures var w := "--" + (if v.None? then name else name + "=" + v.value);
            StepWord([w] + tail, out) == Fail(UnknownLong(name))
  {
    if v.Some? {
      AttachedStep(name, v.value, tail, out);
    } else {
      LongStep(name, tail, out);
    }
  }

  // A line cut where its items end.
  lemma {:induction false} Decompose(argv: seq<string>, out: Argv)
    returns (items: seq<Item>, tail: seq<string>, o: Offence)
    ensures AllFit(items, out) && argv == PrintAll(items) + tail
    ensures tail == [] || tail[0] == "--" || Offends(o, tail, DoAll(items, out))
    decreases |argv|
  {
    items, tail, o := [], argv, NoName;
    assert PrintAll([]) + argv == argv;
    if argv != [] {
      var s := StepWord(argv, out);
      var item, o' := Understand(argv, out);
      o := o';
      if s.Next? {
        var more;
        more, tail, o := Decompose(s.rest, s.out);
        items := [item.value] + more;
        assert items[1..] == more;
        Regroup(Print(item.value), PrintAll(more), tail);
      }
    }
  }

  // The words end here, with or without a command.
  ghost predicate Ends(tail: seq<string>, out: Argv, r: Argv) {
    out.name != "" && ((tail == [] && r == out) || (tail != [] && tail[0] == "--" && r == out.(command := tail[1..])))
  }

  ghost predicate InGrammar(argv: seq<string>, out: Argv, r: Argv) {
    exists items, tail :: AllFit(items, out) && argv == PrintAll(items) + tail && Ends(tail, DoAll(items, out), r)
  }

  ghost predicate Refused(argv: seq<string>, out: Argv, e: Error) {
    exists items, tail, o :: AllFit(items, out) && argv == PrintAll(items) + tail
                             && Offends(o, tail, DoAll(items, out)) && e == Complaint(o)
  }

  lemma {:induction false} EndsParse(tail: seq<string>, out: Argv)
    requires tail == [] || tail[0] == "--"
    ensures out.name == "" ==> Parse(tail, out) == Err(NameRequired)
    ensures out.name != "" ==> Parse(tail, out) == Ok(if tail == [] then out else out.(command := tail[1..]))
  {
    if tail != [] {
      AtSeparator(tail, out);
    }
  }

  /** A line is accepted with a result if and only if it is written as items that mean it, and refused with
      an error if and only if its first word that is no item gives that reason. */
  lemma {:induction false} GrammarIsExact(argv: seq<string>, out: Argv)
    ensures forall r :: Parse(argv, out) == Ok(r) <==> InGrammar(argv, out, r)
    ensures forall e :: Parse(argv, out) == Err(e) <==> Refused(argv, out, e)
  {
    var items, tail, o := Decompose(argv, out);
    var end := DoAll(items, out);
    ItemsRead(items, tail, out);
    if tail == [] || tail[0] == "--" {
      EndsParse(tail, end);
      if end.name == "" {
        assert Offends(NoName, tail, end);
        assert Refused(argv, out, NameRequired);
      } else {
        assert Ends(tail, end, Parse(argv, out).value);
        assert InGrammar(argv, out, Parse(argv, out).value);
      }
    } else {
      OffenceRefused(o, tail, end);
      assert Refused(argv, out, Complaint(o));
    }
    forall r | InGrammar(argv, out, r) ensures Parse(argv, out) == Ok(r) {
      GrammarAccepted(argv, out, r);
    }
    forall e | Refused(argv, out, e) ensures Parse(argv, out) == Err(e) {
      RefusedParses(argv, out, e);
    }
  }

  lemma {:induction false} GrammarAccepted(argv: seq<string>, out: Argv, r: Argv)
    requires InGrammar(argv, out, r)
    ensures Parse(argv, out) == Ok(r)
  {
    var items, tail :| AllFit(items, out) && argv == PrintAll(items) + tail && Ends(tail, DoAll(items, out), r);
    ItemsRead(items, tail, out);
    EndsParse(tail, DoAll(items, out));
  }

  lemma {:induction false} RefusedParses(argv: seq<string>, out: Argv, e: Error)
    requires Refused(argv, out, e)
    ensures Parse(argv, out) == Err(e)
  {
    var items, tail, o :| AllFit(items, out) && argv == PrintAll(items) + tail
                          && Offends(o, tail, DoAll(items, out)) && e == Complaint(o);
    ItemsRead(items, tail, out);
    OffenceRefused(o, tail, DoAll(items, out));
  }

  // ----- clusters spread into one-letter flags

  // How many words an option takes, by its letters alone.
  function Uses(w: string): (n: nat)
    ensures 1 <= n <= 2
  {
    if !IsFlag(w) then 1
    else if IsLong(w) then if '=' in w then 1 else 2
    else
      var n := Leading(w[1..]);
      if n == |w| - 2 && IsValue(w[n + 1]) then 2 else 1
  }

  // The letters of a cluster as words of their own; an attached value becomes a word too. A word with a
  // letter that is no flag stays as it is.
  function Expanded(w: string): seq<string> {
    if !IsFlag(w) || IsLong(w) then [w] else
      var cluster := w[1..];
      var n := Leading(cluster);
      if n == |cluster| then Each(cluster)
      else if !IsValue(cluster[n]) then [w]
      else if n + 1 == |cluster| then Each(cluster[..n]) + [['-', cluster[n]]]
      else Each(cluster[..n]) + [['-', cluster[n]], cluster[n + 1..]]
  }

  function Taken(argv: seq<string>): (n: nat)
    requires argv != []
    ensures 1 <= n <= |argv|
  {
    if Uses(argv[0]) <= |argv| then Uses(argv[0]) else |argv|
  }

  // Every cluster in option position spread out, up to the command.
  function ExpandAll(argv: seq<string>): seq<string>
    decreases |argv|
  {
    if argv == [] || argv[0] == "--" then argv
    else Expanded(argv[0]) + argv[1..Taken(argv)] + ExpandAll(argv[Taken(argv)..])
  }

  // Every short flag in option position stands alone.
  predicate OneLetter(argv: seq<string>)
    decreases |argv|
  {
    argv == [] || argv[0] == "--" ||
    ((IsFlag(argv[0]) && !IsLong(argv[0]) ==> OwnWord(argv[0])) && OneLetter(argv[Taken(argv)..]))
  }

  // The items an item is spread into.
  function Singles(s: string): seq<Item> {
    if s == "" then [] else [Bools([s[0]])] + Singles(s[1..])
  }

  function Loose(item: Item): seq<Item> {
    match item
    case Bools(s) => Singles(s)
    case Short(s, c, v, _) => Singles(s) + [Short("", c, v, false)]
    case _ => [item]
  }

  lemma {:induction false} SinglesAre(s: string, more: seq<Item>, out: Argv)
    requires AllBool(s)
    ensures PrintAll(Singles(s) + more) == Each(s) + PrintAll(more)
    ensures AllFit(Singles(s) + more, out) == AllFit(more, out.(flags := out.flags + Each(s)))
    ensures DoAll(Singles(s) + more, out) == DoAll(more, out.(flags := out.flags + Each(s)))
    decreases |s|
  {
    if s == "" {
      assert Singles(s) + more == more && out.flags + [] == out.flags && [] + PrintAll(more) == PrintAll(more);
    } else {
      var first, rest := Bools([s[0]]), Singles(s[1..]) + more;
      SinglesAre(s[1..], more, Do(first, out));
      assert Singles(s) + more == [first] + rest && ([first] + rest)[1..] == rest;
      assert Each([s[0]]) == [['-', s[0]]] && "-" + [s[0]] == ['-', s[0]];
      Regroup(out.flags, [['-', s[0]]], Each(s[1..]));
      Regroup([['-', s[0]]], Each(s[1..]), PrintAll(more));
    }
  }

  lemma {:induction false} OneItem(item: Item, out: Argv)
    ensures PrintAll([item]) == Print(item) && DoAll([item], out) == Do(item, out)
    ensures AllFit([item], out) <==> Fits(item, out)
  {
    assert [item][1..] == [] && Print(item) + [] == Print(item);
  }

  lemma {:induction false} LooseMeansTheSame(item: Item, out: Argv)
    requires Fits(item, out)
    ensures AllFit(Loose(item), out) && DoAll(Loose(item), out) == Do(item, out)
  {
    match item
    case Bools(s) =>
      SinglesAre(s, [], out);
      assert Singles(s) + [] == Singles(s);
    case Short(s, c, v, _) =>
      var last, o := Short("", c, v, false), out.(flags := out.flags + Each(s));
      SinglesAre(s, [last], out);
      OneItem(last, o);
      assert o.flags + [] == o.flags;
    case _ => OneItem(item, out);
  }

  // Where the boolean letters of a word end.
  lemma {:induction false} LeadingIs(s: string, t: string)
    requires AllBool(s) && (t == "" || !IsBool(t[0]))
    ensures Leading(s + t) == |s| && (s + t)[..|s|] == s && (s + t)[|s|..] == t
  {
    assert forall i :: 0 <= i < |s| ==> IsBool((s + t)[i]);
    assert t != "" ==> (s + t)[|s|] == t[0];
  }

  // A word of boolean letters and a value flag, with what is left of the word.
  lemma {:induction false} ValueSpread(s: string, c: char, v: string)
    requires AllBool(s) && IsValue(c)
    ensures var w := "-" + (s + ([c] + v));
            && Uses(w) == (if v == "" then 2 else 1)
            && Expanded(w) == Each(s) + if v == "" then [['-', c]] else [['-', c], v]
  {
    var t := [c] + v;
    var w := "-" + (s + t);
    LettersAreFlags(c);
    LeadingIs(s, t);
    FirstIsNoDash(s, c);
    assert w[1..] == s + t && (s + t)[|s|] == c && (s + t)[0] == (s + [c])[0] && w[..2][1] == w[1];
    assert (s + t)[|s| + 1..] == v;
  }

  lemma {:induction false} ShortSpread(s: string, c: char, v: string, attached: bool)
    requires AllBool(s) && IsValue(c) && (attached ==> v != "")
    ensures var ws := Print(Short(s, c, v, attached));
            Uses(ws[0]) == |ws| && Expanded(ws[0]) + ws[1..] == Each(s) + [['-', c], v]
  {
    var ws := Print(Short(s, c, v, attached));
    if attached {
      ValueSpread(s, c, v);
      assert ws[1..] == [] && Expanded(ws[0]) + [] == Expanded(ws[0]);
    } else {
      ValueSpread(s, c, "");
      assert [c] + "" == [c] && ws[1..] == [v];
      assert Each(s) + [['-', c]] + [v] == Each(s) + [['-', c], v];
    }
  }

  lemma {:induction false} BoolsSpread(s: string)
    requires s != "" && AllBool(s)
    ensures Uses("-" + s) == 1 && Expanded("-" + s) == Each(s)
  {
    var w := "-" + s;
    LettersAreFlags(s[0]);
    LeadingIs(s, "");
    assert s + "" == s && w[1..] == s && w[..2][1] == s[0];
  }

  lemma {:induction false} OwnSpread(o: string, v: string, attached: bool)
    requires IsOption(o)
    ensures var ws := Print(Own(o, v, attached)); Uses(ws[0]) == |ws| && Expanded(ws[0]) == [ws[0]]
  {
    NoEquals(o);
    var ws := Print(Own(o, v, attached));
    assert ws[0][..2] == "--" && |ws[0]| > 2;
    if attached {
      assert ws[0][2 + |o|] == '=';
    }
  }

  lemma {:induction false} LooseBools(s: string)
    requires AllBool(s)
    ensures PrintAll(Loose(Bools(s))) == Each(s)
  {
    SinglesAre(s, [], EMPTY);
    assert Singles(s) + [] == Singles(s) && Each(s) + [] == Each(s);
  }

  lemma {:induction false} LooseShort(s: string, c: char, v: string, attached: bool)
    requires AllBool(s)
    ensures PrintAll(Loose(Short(s, c, v, attached))) == Each(s) + [['-', c], v]
  {
    var last := Short("", c, v, false);
    SinglesAre(s, [last], EMPTY);
    OneItem(last, EMPTY);
    assert "-" + ("" + [c]) == ['-', c];
  }

  lemma {:induction false} NoSeparator(item: Item)
    requires Wf(item)
    ensures Print(item)[0] != "--"
  {
    ItemStep(item, [], EMPTY);
    assert Print(item) + [] == Print(item);
    OnlySeparatorStops(Print(item), EMPTY);
  }

  // The letters of a written item say how many words it has and how it is spread.
  lemma {:induction false} ItemSpread(item: Item)
    requires Wf(item)
    ensures var ws := Print(item); Uses(ws[0]) == |ws| && Expanded(ws[0]) + ws[1..] == PrintAll(Loose(item))
  {
    match item
    case Name(n) => OneItem(item, EMPTY);
    case Bools(s) =>
      BoolsSpread(s);
      LooseBools(s);
      assert Print(item)[1..] == [] && Each(s) + [] == Each(s);
    case Short(s, c, v, attached) =>
      ShortSpread(s, c, v, attached);
      LooseShort(s, c, v, attached);
    case Own(o, v, attached) =>
      OwnSpread(o, v, attached);
      OneItem(item, EMPTY);
  }

  lemma {:induction false} SpreadFirst(item: Item, rest: seq<string>)
    requires Wf(item)
    ensures ExpandAll(Print(item) + rest) == PrintAll(Loose(item)) + ExpandAll(rest)
  {
    ItemSpread(item);
    NoSeparator(item);
    var ws := Print(item);
    var argv := ws + rest;
    assert argv[0] == ws[0] && argv[1..|ws|] == ws[1..] && argv[|ws|..] == rest;
  }

  lemma {:induction false} LoneSpread(s: string, c: char)
    requires AllBool(s) && IsValue(c)
    ensures ExpandAll(["-" + (s + [c])]) == Each(s) + [['-', c]]
  {
    ValueSpread(s, c, "");
    NoSeparator(Short(s, c, "", false));
    assert [c] + "" == [c];
    var line := ["-" + (s + [c])];
    assert line[1..1] == [] && line[1..] == [];
  }

  lemma {:induction false} NoValueSpread(s: string, c: char, out: Argv)
    requires AllBool(s) && IsValue(c)
    ensures Parse(ExpandAll(["-" + (s + [c])]), out) == Err(NeedsArgument(['-', c]))
  {
    LoneSpread(s, c);
    LooseBools(s);
    SinglesAre(s, [], out);
    assert Singles(s) + [] == Singles(s);
    ItemsRead(Singles(s), [['-', c]], out);
    NoValueStep("", c, out.(flags := out.flags + Each(s)));
    assert "-" + ("" + [c]) == ['-', c];
  }

  lemma {:induction false} StaysItself(o: Offence, words: seq<string>, out: Argv)
    requires words != [] && words[0] != "--" && Offends(o, words, out) && !o.NoValue?
    ensures Expanded(words[0]) == [words[0]]
  {
    var w := words[0];
    if o.StrangeLetter? {
      var s, t := o.letters, [o.letter] + o.after;
      LeadingIs(s, t);
      assert w[1..] == s + t && (s + t)[|s|] == o.letter;
    } else if o.StrangeOption? || o.NoOwnValue? {
      assert w[..2] == "--";
    }
  }

  // A line that is refused at its first word is so when spread.
  lemma {:induction false} OffenceSpread(o: Offence, words: seq<string>, out: Argv)
    requires words != [] && words[0] != "--" && Offends(o, words, out)
    ensures Parse(ExpandAll(words), out) == Err(Complaint(o))
  {
    if o.NoValue? {
      NoValueSpread(o.letters, o.flag, out);
    } else {
      StaysItself(o, words, out);
      var more := words[1..Taken(words)] + ExpandAll(words[Taken(words)..]);
      Regroup([words[0]], words[1..Taken(words)], ExpandAll(words[Taken(words)..]));
      assert ExpandAll(words) == [words[0]] + more;
      assert o.NoOwnValue? ==> words[1..1] == [] && more == [];
      OffenceRefused(o, ExpandAll(words), out);
    }
  }

  predicate Single(item: Item) {
    match item
    case Bools(s) => |s| == 1
    case Short(s, _, _, attached) => s == "" && !attached
    case _ => true
  }

  lemma {:induction false} SinglesStandAlone(items: seq<Item>, rest: seq<string>)
    requires (forall i :: 0 <= i < |items| ==> Wf(items[i]) && Single(items[i])) && OneLetter(rest)
    ensures OneLetter(PrintAll(items) + rest)
    decreases |items|
  {
    if items == [] {
      assert PrintAll(items) + rest == rest;
    } else {
      var ws, more := Print(items[0]), PrintAll(items[1..]) + rest;
      SinglesStandAlone(items[1..], rest);
      Regroup(ws, PrintAll(items[1..]), rest);
      StandsAlone(items[0], more);
    }
  }

  lemma {:induction false} StandsAlone(item: Item, more: seq<string>)
    requires Wf(item) && Single(item) && OneLetter(more)
    ensures OneLetter(Print(item) + more)
  {
    ItemSpread(item);
    var ws := Print(item);
    var argv := ws + more;
    assert argv[0] == ws[0] && argv[|ws|..] == more;
    if item.Own? {
      assert ws[0][..2] == "--";
    }
  }

  lemma {:induction false} SinglesSingle(s: string)
    requires AllBool(s)
    ensures forall i :: 0 <= i < |Singles(s)| ==> Wf(Singles(s)[i]) && Single(Singles(s)[i])
  {
    if s != "" {
      SinglesSingle(s[1..]);
    }
  }

  lemma {:induction false} LooseStandAlone(item: Item, rest: seq<string>)
    requires Wf(item) && OneLetter(rest)
    ensures OneLetter(PrintAll(Loose(item)) + rest)
  {
    if item.Bools? || item.Short? {
      SinglesSingle(item.letters);
    }
    SinglesStandAlone(Loose(item), rest);
  }

  /** Spreading out every cluster, by its letters alone, never changes what a line parses to, errors included,
      and leaves no cluster in a line that parses. */
  lemma {:induction false} ExpansionKeepsParse(argv: seq<string>, out: Argv)
    ensures Parse(ExpandAll(argv), out) == Parse(argv, out)
    ensures Parse(argv, out).Ok? ==> OneLetter(ExpandAll(argv))
    decreases |argv|
  {
    if argv != [] && argv[0] != "--" {
      OnlySeparatorStops(argv, out);
      var s := StepWord(argv, out);
      var item, o := Understand(argv, out);
      if s.Fail? {
        OffenceSpread(o, argv, out);
      } else {
        ExpansionKeepsParse(s.rest, s.out);
        SpreadFirst(item.value, s.rest);
        LooseMeansTheSame(item.value, out);
        ItemsRead(Loose(item.value), ExpandAll(s.rest), out);
        if Parse(argv, out).Ok? {
          LooseStandAlone(item.value, ExpandAll(s.rest));
        }
      }
    }
  }
}
