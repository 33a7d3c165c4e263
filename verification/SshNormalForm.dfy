/**
 When the normal form of a `vee ssh` line reparses. Each word the parser reads in option position
 forwards some words to ssh, from itself or the word after it; if the line's flags come back as they
 were, they were split.
 */
module SshNormalForm {
  import opened Wrappers
  import opened SshArgv

  // ----- what reading one word does

  // Where the value a word takes goes.
  datatype Target = Nothing | User | Identity | Flag

  // The flags a word itself stands for, and the value it takes: attached to it, or the next word.
  datatype Read = Read(own: seq<string>, target: Target, value: string, eats: bool)

  function Emitted(rd: Read): seq<string> {
    rd.own + (if rd.target.Flag? then [rd.value] else [])
  }

  ghost predicate Moves(rd: Read, out: Argv, o: Argv) {
    && o.flags == out.flags + Emitted(rd)
    && o.user == (if rd.target.User? then rd.value else out.user)
    && o.identity == (if rd.target.Identity? then rd.value else out.identity)
  }

  ghost predicate Leaves(rd: Read, tail: seq<string>, rest: seq<string>) {
    if rd.eats then tail != [] && rd.value == tail[0] && rest == tail[1..] else rest == tail
  }

  // A flag that takes the next word is no boolean letter.
  predicate Eats(x: string) {
    IsFlag(x) && !(|x| == 2 && IsBool(x[1]))
  }

  predicate Generic(c: char) {
    IsValue(c) && !IsBool(c) && c != 'l' && c != 'i'
  }

  // What a read can be for a word `x`.
  ghost predicate Fits(rd: Read, x: string) {
    && (forall k :: 0 <= k < |rd.own| ==> |rd.own[k]| == 2)
    && (rd.eats ==> !rd.target.Nothing? && Eats(x))
    && (!rd.eats && !rd.target.Nothing? ==> |rd.value| < |x| && |x| >= 3)
    && (!IsFlag(x) ==> rd.own == [] && rd.target.Nothing?)
    && (|x| <= 2 ==> FitsShort(rd, x))
  }

  ghost predicate FitsShort(rd: Read, x: string) {
    && (rd.own == [] || (rd.own == [x] && |x| == 2 && x[0] == '-' && if rd.eats then Generic(x[1]) else IsBool(x[1])))
    && (rd.own == [x] && rd.eats ==> rd.target.Flag?)
    && (x == "-l" ==> rd.target.User?) && (x == "-i" ==> rd.target.Identity?)
  }

  lemma {:induction false} ReadCluster(cluster: string, tail: seq<string>, out: Argv) returns (rd: Read)
    requires Cluster(cluster, tail, out).Next?
    ensures var s := Cluster(cluster, tail, out); Moves(rd, out, s.out) && Leaves(rd, tail, s.rest)
    ensures forall k :: 0 <= k < |rd.own| ==> |rd.own[k]| == 2
    ensures rd.eats ==> !rd.target.Nothing?
    ensures !rd.eats && !rd.target.Nothing? ==> |rd.value| < |cluster|
    ensures |cluster| == 1 ==> OneLetterRead(rd, cluster[0])
    decreases |cluster|
  {
    if cluster == "" {
      rd := Read([], Nothing, "", false);
      assert out.flags + [] == out.flags;
    } else if IsBool(cluster[0]) {
      var flag := ['-', cluster[0]];
      var o := out.(flags := out.flags + [flag]);
      var more := ReadCluster(cluster[1..], tail, o);
      rd := more.(own := [flag] + more.own);
      assert out.flags + [flag] + Emitted(more) == out.flags + Emitted(rd);
      if |cluster| == 1 {
        assert cluster[1..] == "";
        NothingLeft(tail, o, more);
      }
    } else {
      rd := ReadValue(cluster[0], cluster[1..], tail, out);
    }
  }

  ghost predicate OneLetterRead(rd: Read, c: char) {
    if IsBool(c) then rd.own == [['-', c]] && rd.target.Nothing? && !rd.eats
    else
      && rd.eats && rd.own == (if c == 'l' || c == 'i' then [] else [['-', c]])
      && IsValue(c) && rd.target == (if c == 'l' then User else if c == 'i' then Identity else Flag)
  }

  lemma {:induction false} NothingLeft(tail: seq<string>, out: Argv, rd: Read)
    requires Moves(rd, out, out) && Leaves(rd, tail, tail) && (rd.eats ==> !rd.target.Nothing?)
    requires !rd.eats && !rd.target.Nothing? ==> |rd.value| < 0
    ensures rd.own == [] && rd.target.Nothing? && !rd.eats
  {
    assert |out.flags + Emitted(rd)| == |out.flags|;
  }

  lemma {:induction false} ReadValue(c: char, val: string, tail: seq<string>, out: Argv) returns (rd: Read)
    requires !IsBool(c) && Cluster([c] + val, tail, out).Next?
    ensures var s := Cluster([c] + val, tail, out); Moves(rd, out, s.out) && Leaves(rd, tail, s.rest)
    ensures |rd.own| <= 1 && (rd.own != [] ==> |rd.own[0]| == 2) && !rd.target.Nothing?
    ensures !rd.eats ==> rd.value == val && val != ""
    ensures val == "" ==> OneLetterRead(rd, c)
  {
    assert ([c] + val)[1..] == val;
    var v := if val != "" then val else tail[0];
    rd := Read(if c == 'l' || c == 'i' then [] else [['-', c]],
               if c == 'l' then User else if c == 'i' then Identity else Flag, v, val == "");
    assert out.flags + [] == out.flags;
    assert [['-', c]] + [v] == [['-', c], v];
  }

  lemma {:induction false} CutShorter(s: string)
    ensures |Cut(s).0| <= |s| && (Cut(s).1.Some? ==> |Cut(s).1.value| < |s|)
  {
    if s != "" && s[0] != '=' {
      CutShorter(s[1..]);
    }
  }

  lemma {:induction false} ReadLong(x: string, tail: seq<string>, out: Argv) returns (rd: Read)
    requires IsLong(x) && x != "--" && IsFlag(x)
    requires var (name, value) := Cut(x[2..]); Long(name, value, tail, out).Next?
    ensures var (name, value) := Cut(x[2..]);
            var s := Long(name, value, tail, out);
            Moves(rd, out, s.out) && Leaves(rd, tail, s.rest)
    ensures Fits(rd, x)
  {
    CutShorter(x[2..]);
    var (name, value) := Cut(x[2..]);
    var v := if value.Some? then value.value else tail[0];
    rd := Read([], if name == "user" then User else if name == "identity" then Identity else Flag, v, value.None?);
    assert |x| > 2 && out.flags + [] == out.flags && [] + [v] == [v];
  }

  lemma {:induction false} ReadShort(x: string, tail: seq<string>, out: Argv) returns (rd: Read)
    requires IsFlag(x) && Cluster(x[1..], tail, out).Next?
    ensures var s := Cluster(x[1..], tail, out); Moves(rd, out, s.out) && Leaves(rd, tail, s.rest)
    ensures Fits(rd, x)
  {
    rd := ReadCluster(x[1..], tail, out);
    if |x| == 2 {
      assert x == ['-', x[1]] && x[1..] == [x[1]];
    }
  }

  lemma {:induction false} ReadWord(argv: seq<string>, out: Argv) returns (rd: Read)
    requires argv != [] && StepWord(argv, out).Next?
    ensures var s := StepWord(argv, out); Moves(rd, out, s.out) && Leaves(rd, argv[1..], s.rest)
    ensures Fits(rd, argv[0])
  {
    var x, tail := argv[0], argv[1..];
    if !IsFlag(x) {
      rd := Read([], Nothing, "", false);
      assert out.flags + [] == out.flags;
    } else if IsLong(x) {
      rd := ReadLong(x, tail, out);
    } else {
      rd := ReadShort(x, tail, out);
    }
  }

  lemma {:induction false} FlagsGrow(argv: seq<string>, out: Argv)
    requires Parse(argv, out).Ok?
    ensures out.flags <= Parse(argv, out).value.flags
    decreases |argv|
  {
    if argv != [] {
      var s := StepWord(argv, out);
      OnlySeparatorStops(argv, out);
      if s.Next? {
        var _ := ReadWord(argv, out);
        FlagsGrow(s.rest, s.out);
      }
    }
  }

  // ----- reading the flags themselves, `i` words read and `e` of them forwarded

  // The last word of at least `b` characters.
  function Last(w: seq<string>, b: nat): (q: int)
    ensures -1 <= q < |w| && (q >= 0 ==> |w[q]| >= b) && forall j :: q < j < |w| ==> |w[j]| < b
  {
    if w == [] then -1 else if |w[|w| - 1]| >= b then |w| - 1 else Last(w[..|w| - 1], b)
  }

  // Once an option's value is `v`, a word as long as `v` is still to be forwarded.
  predicate Behind(w: seq<string>, v: string, e: nat, i: nat) {
    |v| >= 3 ==> e < i && e <= Last(w, |v|)
  }

  predicate On(w: seq<string>, i: nat, out: Argv) {
    var e := |out.flags|;
    && e <= i && out.flags <= w && (e == i ==> Split(w[..i]))
    && Behind(w, out.user, e, i) && Behind(w, out.identity, e, i)
  }

  // How many of the forwarded words come out of the word itself.
  function Own(rd: Read): nat {
    |rd.own| + if rd.target.Flag? && !rd.eats then 1 else 0
  }

  // The forwarded words are those of `w` from `e` on.
  predicate Emits(w: seq<string>, e: nat, rd: Read) {
    e + |Emitted(rd)| <= |w| && w[e..e + |Emitted(rd)|] == Emitted(rd)
  }

  lemma {:induction false} EmittedAt(w: seq<string>, e: nat, rd: Read, k: nat)
    requires Emits(w, e, rd) && k < |Emitted(rd)|
    ensures w[e + k] == Emitted(rd)[k]
  {
    assert w[e + k] == w[e..e + |Emitted(rd)|][k];
  }

  lemma {:induction false} StaysBehind(w: seq<string>, e: nat, i: nat, rd: Read)
    requires e < i < |w| && Fits(rd, w[i]) && Emits(w, e, rd)
    ensures e + Own(rd) <= i
  {
    if e + Own(rd) > i {
      EmittedAt(w, e, rd, i - e);
      assert false;
    }
  }

  lemma {:induction false} OwnAtFront(w: seq<string>, i: nat, rd: Read)
    requires i < |w| && Fits(rd, w[i]) && Emits(w, i, rd) && Own(rd) > 0
    ensures |w[i]| == 2 && rd.own == [w[i]] && Own(rd) == 1
  {
    EmittedAt(w, i, rd, 0);
  }

  ghost predicate NextWord(w: seq<string>, i: nat, rd: Read) {
    rd.eats ==> rd.value == if i + 1 < |w| then w[i + 1] else "-l"
  }

  lemma {:induction false} KeepsBehind(w: seq<string>, e: nat, i: nat, rd: Read, v: string)
    requires i < |w| && Fits(rd, w[i]) && Emits(w, e, rd) && NextWord(w, i, rd)
    requires Behind(w, v, e, i)
    ensures Behind(w, v, e + |Emitted(rd)|, if rd.eats then i + 2 else i + 1)
  {
    if |v| >= 3 {
      StaysBehind(w, e, i, rd);
      var q := Last(w, |v|);
      if q < e + |Emitted(rd)| {
        EmittedAt(w, e, rd, q - e);
        assert false;
      }
    }
  }

  lemma {:induction false} NewBehind(w: seq<string>, e: nat, i: nat, rd: Read)
    requires e <= i < |w| && Fits(rd, w[i]) && Emits(w, e, rd) && NextWord(w, i, rd)
    requires rd.target.User? || rd.target.Identity?
    ensures Behind(w, rd.value, e + |Emitted(rd)|, if rd.eats then i + 2 else i + 1)
  {
    if e < i {
      StaysBehind(w, e, i, rd);
    } else if Own(rd) > 0 {
      OwnAtFront(w, i, rd);
      assert false;
    }
  }

  lemma {:induction false} BehindOrSplit(w: seq<string>, e: nat, i: nat, rd: Read)
    requires e <= i < |w| && Fits(rd, w[i]) && Emits(w, e, rd) && NextWord(w, i, rd)
    requires e == i ==> Split(w[..i])
    ensures var n := if rd.eats then i + 2 else i + 1;
            e + |Emitted(rd)| < n || (e + |Emitted(rd)| == n && Split(w[..n]))
  {
    if e < i {
      StaysBehind(w, e, i, rd);
    } else if Own(rd) > 0 {
      OwnAtFront(w, i, rd);
      var c, n := w[i][1], e + |Emitted(rd)|;
      SplitOne(c, rd.value);
      assert w[i] == ['-', c];
      assert w[..n] == w[..i] + Emitted(rd);
      SplitConcat(w[..i], Emitted(rd));
    }
  }

  lemma {:induction false} Advance(w: seq<string>, i: nat, out: Argv, rd: Read, o: Argv)
    requires i < |w| && On(w, i, out) && Fits(rd, w[i]) && NextWord(w, i, rd)
    requires Moves(rd, out, o) && o.flags <= w
    ensures Emits(w, |out.flags|, rd)
    ensures On(w, if rd.eats then i + 2 else i + 1, o)
  {
    var e := |out.flags|;
    assert Emits(w, e, rd) by {
      assert w[..|o.flags|] == out.flags + Emitted(rd);
    }
    BehindOrSplit(w, e, i, rd);
    KeepsBehind(w, e, i, rd, out.user);
    KeepsBehind(w, e, i, rd, out.identity);
    if rd.target.User? || rd.target.Identity? {
      NewBehind(w, e, i, rd);
    }
  }

  // ----- the words after the flags, read out of step

  function Named(r: Argv): seq<string> {
    [r.name] + (["--"] + r.command)
  }

  function Ending(r: Argv): seq<string> {
    ["-l", r.user] + (["-i", r.identity] + Named(r))
  }

  ghost predicate SameOptions(a: Argv, b: Argv) {
    a.flags == b.flags && a.user == b.user && a.identity == b.identity
  }

  lemma {:induction false} CommandParses(command: seq<string>, o: Argv)
    ensures Parse(["--"] + command, o).Ok? ==> SameOptions(Parse(["--"] + command, o).value, o)
  {
    AtSeparator(["--"] + command, o);
  }

  lemma {:induction false} NamedParses(r: Argv, o: Argv)
    requires !IsFlag(r.name) && r.name != ""
    ensures Parse(Named(r), o).Ok? ==> o.name == "" && SameOptions(Parse(Named(r), o).value, o)
  {
    var end := ["--"] + r.command;
    assert Named(r)[0] == r.name && Named(r)[1..] == end;
    CommandParses(r.command, o.(name := r.name));
  }

  // The last flag takes "-l" and leaves a flag to be forwarded: itself, or one before it.
  lemma {:induction false} LastIsPending(w: seq<string>, out: Argv, rd: Read, o: Argv)
    requires w != [] && On(w, |w| - 1, out) && Fits(rd, w[|w| - 1]) && rd.eats && rd.value == "-l"
    requires Moves(rd, out, o) && o.flags <= w && Emits(w, |out.flags|, rd)
    ensures |o.flags| < |w|
  {
    var e, i := |out.flags|, |w| - 1;
    if e < i {
      StaysBehind(w, e, i, rd);
    } else if Own(rd) > 0 {
      OwnAtFront(w, i, rd);
    }
  }

  // What the words after the flags start from when the last flag has taken "-l".
  ghost predicate Overran(w: seq<string>, out: Argv) {
    && w != [] && On(w, |w| + 1, out) && |out.flags| < |w| && Eats(w[|w| - 1])
    && (w[|w| - 1] == "-i" ==> out.identity == "-l")
  }

  // The user's name, read as an option that takes no word, forwards no word as long as itself.
  lemma {:induction false} UserForwards(w: seq<string>, out: Argv, user: string, rd: Read, o: Argv)
    requires Overran(w, out) && Fits(rd, user) && !rd.eats && Moves(rd, out, o)
    ensures o.flags != w || o.user != user
  {
  }

  // Nor does the identity after a user's name that took "-i".
  lemma {:induction false} LongIsNotForwarded(w: seq<string>, out: Argv, u: Read, user: string,
                                              d: Read, identity: string, name: string, b: nat)
    requires Overran(w, out) && Fits(u, user) && u.eats && u.value == "-i"
    requires Fits(d, identity) && (d.eats ==> d.value == name) && !IsFlag(name)
    requires w == out.flags + Emitted(u) + Emitted(d) && |identity| <= b && b >= 3
    ensures |out.flags| > Last(w, b)
  {
  }

  lemma {:induction false} BothForward(w: seq<string>, out: Argv, user: string, u: Read, mid: Argv,
                                       identity: string, d: Read, o: Argv, name: string)
    requires Overran(w, out) && Fits(u, user) && u.eats && u.value == "-i" && Moves(u, out, mid)
    requires Fits(d, identity) && (d.eats ==> d.value == name) && !IsFlag(name) && Moves(d, mid, o)
    requires IsFlag(identity) || identity == ""
    ensures o.flags != w || o.user != user || o.identity != identity
  {
    if o.flags == w && o.user == user && o.identity == identity {
      if |user| >= 3 || |identity| >= 3 {
        var b := if |identity| >= |user| then |identity| else |user|;
        LongIsNotForwarded(w, out, u, user, d, identity, name, b);
        assert false;
      } else {
        ShortForward(w, out, user, u, mid, identity, d, o, name);
        assert false;
      }
    }
  }

  lemma {:induction false} ShortForward(w: seq<string>, out: Argv, user: string, u: Read, mid: Argv,
                                        identity: string, d: Read, o: Argv, name: string)
    requires Overran(w, out) && Fits(u, user) && u.eats && u.value == "-i" && Moves(u, out, mid)
    requires Fits(d, identity) && (d.eats ==> d.value == name) && !IsFlag(name) && Moves(d, mid, o)
    requires IsFlag(identity) || identity == ""
    requires |user| <= 2 && |identity| <= 2
    ensures o.flags != w || o.user != user || o.identity != identity
  {
  }

  // The identity read in option position, after the user's name took "-i".
  lemma {:induction false} IdentityOverruns(r: Argv, out: Argv, u: Read, mid: Argv)
    requires !IsFlag(r.name) && r.name != ""
    requires Overran(r.flags, out) && Fits(u, r.user) && u.eats && u.value == "-i" && Moves(u, out, mid)
    ensures Parse([r.identity] + Named(r), mid) != Ok(r)
  {
    var argv, tail := [r.identity] + Named(r), Named(r);
    assert argv[1..] == tail && tail[1..] == ["--"] + r.command;
    OnlySeparatorStops(argv, mid);
    var s := StepWord(argv, mid);
    if s.Next? {
      var d := ReadWord(argv, mid);
      NamedParses(r, s.out);
      CommandParses(r.command, s.out);
      if IsFlag(r.identity) || r.identity == "" {
        BothForward(r.flags, out, r.user, u, mid, r.identity, d, s.out, r.name);
      }
    }
  }

  // The user's name read in option position, after the last flag took "-l".
  lemma {:induction false} UserOverruns(r: Argv, out: Argv)
    requires !IsFlag(r.name) && r.name != "" && Overran(r.flags, out)
    ensures Parse([r.user] + (["-i", r.identity] + Named(r)), out) != Ok(r)
  {
    var tail := ["-i", r.identity] + Named(r);
    var argv := [r.user] + tail;
    assert argv[1..] == tail && tail[1..] == [r.identity] + Named(r);
    OnlySeparatorStops(argv, out);
    var s := StepWord(argv, out);
    if s.Next? {
      var u := ReadWord(argv, out);
      if u.eats {
        IdentityOverruns(r, out, u, s.out);
      } else {
        assert "-i" == ['-', 'i'];
        ValueWord('i', r.identity, Named(r), s.out);
        NamedParses(r, s.out.(identity := r.identity));
        UserForwards(r.flags, out, r.user, u, s.out);
      }
    }
  }

  lemma {:induction false} Overruns(r: Argv, out: Argv, rd: Read, o: Argv)
    requires !IsFlag(r.name) && r.name != "" && r.flags != []
    requires var w := r.flags; On(w, |w| - 1, out) && Fits(rd, w[|w| - 1]) && rd.eats && rd.value == "-l"
    requires Moves(rd, out, o) && o.flags <= r.flags
    ensures Parse(Ending(r)[1..], o) != Ok(r)
  {
    var w := r.flags;
    Advance(w, |w| - 1, out, rd, o);
    LastIsPending(w, out, rd, o);
    assert Ending(r)[1..] == [r.user] + (["-i", r.identity] + Named(r));
    UserOverruns(r, o);
  }

  lemma {:induction false} EndsInStep(r: Argv, out: Argv)
    requires !IsFlag(r.name) && r.name != "" && Parse(Ending(r), out) == Ok(r)
    ensures out.flags == r.flags
  {
    OptionsParse(r.user, r.identity, Named(r), out);
    NamedParses(r, out.(user := r.user, identity := r.identity));
  }

  lemma {:induction false} Follow(r: Argv, i: nat, out: Argv)
    requires !IsFlag(r.name) && r.name != ""
    requires i <= |r.flags| && On(r.flags, i, out) && Parse(r.flags[i..] + Ending(r), out) == Ok(r)
    ensures Split(r.flags)
    decreases |r.flags| - i
  {
    var w, end := r.flags, Ending(r);
    if i == |w| {
      assert w[i..] + end == end && w[..i] == w;
      EndsInStep(r, out);
    } else {
      var argv := w[i..] + end;
      assert argv[0] == w[i] && argv[1..] == w[i + 1..] + end;
      OnlySeparatorStops(argv, out);
      var s := StepWord(argv, out);
      var rd := ReadWord(argv, out);
      FlagsGrow(s.rest, s.out);
      TakesNext(w, i, end, rd, s.rest);
      if rd.eats && i + 1 == |w| {
        Overruns(r, out, rd, s.out);
      } else {
        Advance(w, i, out, rd, s.out);
        Follow(r, if rd.eats then i + 2 else i + 1, s.out);
      }
    }
  }

  lemma {:induction false} TakesNext(w: seq<string>, i: nat, end: seq<string>, rd: Read, rest: seq<string>)
    requires i < |w| && end != [] && end[0] == "-l" && Leaves(rd, w[i + 1..] + end, rest)
    ensures NextWord(w, i, rd)
    ensures !rd.eats ==> rest == w[i + 1..] + end
    ensures rd.eats ==> rest == if i + 1 == |w| then end[1..] else w[i + 2..] + end
  {
    if rd.eats && i + 1 < |w| {
      assert (w[i + 1..] + end)[1..] == w[i + 2..] + end;
    } else if rd.eats {
      assert w[i + 1..] + end == end;
    }
  }

  /** Rendering an accepted line in normal form and parsing again gives the same result exactly when its
      flags came out split, and every line without `--ssh-flag` has them split. */
  lemma {:induction false} NormalFormReparses(argv: seq<string>)
    requires Parse(argv, EMPTY).Ok?
    ensures var r := Parse(argv, EMPTY).value;
            && (!UsesSshFlag(argv, EMPTY) ==> Split(r.flags))
            && (Parse(Render(r), EMPTY) == Ok(r) <==> Split(r.flags))
  {
    ParsedParts(argv, EMPTY);
    var r := Parse(argv, EMPTY).value;
    if Split(r.flags) {
      RenderedParses(r);
    } else if Parse(Render(r), EMPTY) == Ok(r) {
      RenderShape(r);
      assert r.flags[0..] == r.flags;
      Follow(r, 0, EMPTY);
    }
  }
}
