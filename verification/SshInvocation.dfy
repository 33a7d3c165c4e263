/**
 The ssh command line that `buildSSHArgs` of `cmd/ssh.go` makes, against ssh's own reading of it: options with
 getopt's clusters and attached values, before and after the destination, the destination split at its last
 '@', and the remote command.
 */
module SshInvocation {
  import opened Wrappers
  import opened Text
  import opened Shells
  import opened Quoting
  import opened SshArgv

  // ----- ssh's reading

  datatype Flag = Flag(letter: char, value: Option<string>)

  datatype Reading = Reading(flags: seq<Flag>, dest: Option<string>, remote: seq<string>)

  const START := Reading([], None, [])

  // The letters of one option word; what is left of the line, or None for a usage error.
  function ReadLetters(cluster: string, tail: seq<string>, flags: seq<Flag>): (r: Option<(seq<Flag>, seq<string>)>)
    ensures r.Some? ==> |r.value.1| <= |tail|
    decreases |cluster|
  {
    if cluster == "" then Some((flags, tail))
    else if IsBool(cluster[0]) then ReadLetters(cluster[1..], tail, flags + [Flag(cluster[0], None)])
    else if !IsValue(cluster[0]) then None
    else if |cluster| > 1 then Some((flags + [Flag(cluster[0], Some(cluster[1..]))], tail))
    else if tail == [] then None
    else Some((flags + [Flag(cluster[0], Some(tail[0]))], tail[1..]))
  }

  // Options go on after the destination; "--" ends them.
  function ReadArgs(args: seq<string>, r: Reading): Option<Reading>
    decreases |args|
  {
    if args == [] then Some(r)
    else if args[0] == "--" then
      if r.dest.Some? || |args| == 1 then Some(r.(remote := args[1..]))
      else Some(r.(dest := Some(args[1]), remote := args[2..]))
    else if IsFlag(args[0]) then
      var l := ReadLetters(args[0][1..], args[1..], r.flags);
      if l.None? then None else ReadArgs(l.value.1, r.(flags := l.value.0))
    else if r.dest.None? then ReadArgs(args[1..], r.(dest := Some(args[0])))
    else Some(r.(remote := args))
  }

  // The user and host of a destination.
  function SplitDest(dest: string): (Option<string>, string) {
    if dest == "" then (None, "") else
      var n := |dest| - 1;
      if dest[n] == '@' then (Some(dest[..n]), "")
      else var (u, h) := SplitDest(dest[..n]); (u, h + [dest[n]])
  }

  // What is given for one letter, in order.
  function Only(flags: seq<Flag>, letter: char): seq<Flag> {
    if flags == [] then []
    else (if flags[0].letter == letter then [flags[0]] else []) + Only(flags[1..], letter)
  }

  // The port: the last one given counts.
  function PortOf(flags: seq<Flag>): string {
    if flags == [] then "22" else
      var last := flags[|flags| - 1];
      if last.letter == 'p' && last.value.Some? then last.value.value else PortOf(flags[..|flags| - 1])
  }

  // The name of an `-o` option, in any case, ends at '=' or a space.
  function Keyword(v: string): (k: string)
    ensures |k| <= |v|
  {
    if v == "" || v[0] == '=' || v[0] == ' ' then "" else [v[0]] + Keyword(v[1..])
  }

  function Lower(s: string): (t: string)
    ensures |t| == |s|
  {
    if s == "" then ""
    else [if 'A' <= s[0] <= 'Z' then (s[0] as int + 32) as char else s[0]] + Lower(s[1..])
  }

  // What `-o` settings say of a keyword: the first one counts.
  function Setting(flags: seq<Flag>, keyword: string): Option<string> {
    if flags == [] then None
    else if flags[0].letter == 'o' && flags[0].value.Some? && Lower(Keyword(flags[0].value.value)) == Lower(keyword) then
      var v, n := flags[0].value.value, |Keyword(flags[0].value.value)|;
      Some(if n < |v| then v[n + 1..] else "")
    else Setting(flags[1..], keyword)
  }

  // ----- one-letter options

  predicate Proper(f: Flag) {
    if f.value.None? then IsBool(f.letter) else IsValue(f.letter)
  }

  predicate AllProper(fs: seq<Flag>) {
    forall i :: 0 <= i < |fs| ==> Proper(fs[i])
  }

  function WordsOf(f: Flag): seq<string> {
    if f.value.None? then [['-', f.letter]] else [['-', f.letter], f.value.value]
  }

  function Worded(fs: seq<Flag>): seq<string> {
    if fs == [] then [] else WordsOf(fs[0]) + Worded(fs[1..])
  }

  lemma {:induction false} ReadsOne(f: Flag, rest: seq<string>, r: Reading)
    requires Proper(f)
    ensures ReadArgs(WordsOf(f) + rest, r) == ReadArgs(rest, r.(flags := r.flags + [f]))
  {
    var c := f.letter;
    LettersAreFlags(c);
    assert [c][1..] == "";
    if f.value.None? {
      assert ([['-', c]] + rest)[1..] == rest;
      assert ReadLetters("", rest, r.flags + [f]) == Some((r.flags + [f], rest));
    } else {
      var v := f.value.value;
      assert ([['-', c], v] + rest)[1..] == [v] + rest && ([v] + rest)[1..] == rest;
    }
  }

  lemma {:induction false} ReadsOptions(fs: seq<Flag>, rest: seq<string>, r: Reading)
    requires AllProper(fs)
    ensures ReadArgs(Worded(fs) + rest, r) == ReadArgs(rest, r.(flags := r.flags + fs))
    decreases |fs|
  {
    if fs == [] {
      assert Worded(fs) + rest == rest && r.flags + fs == r.flags;
    } else {
      var f, more := fs[0], fs[1..];
      ReadsOptions(more, rest, r.(flags := r.flags + [f]));
      FirstRead(f, more, rest, r);
      assert fs == [f] + more;
    }
  }

  lemma {:induction false} FirstRead(f: Flag, more: seq<Flag>, rest: seq<string>, r: Reading)
    requires Proper(f)
    requires var r1 := r.(flags := r.flags + [f]);
             ReadArgs(Worded(more) + rest, r1) == ReadArgs(rest, r1.(flags := r1.flags + more))
    ensures ReadArgs(WordsOf(f) + Worded(more) + rest, r) == ReadArgs(rest, r.(flags := r.flags + ([f] + more)))
  {
    ReadsOne(f, Worded(more) + rest, r);
    Regroup(WordsOf(f), Worded(more), rest);
    Regroup(r.flags, [f], more);
  }

  lemma {:induction false} WordedConcat(a: seq<Flag>, b: seq<Flag>)
    ensures Worded(a + b) == Worded(a) + Worded(b)
    decreases |a|
  {
    if a == [] {
      assert a + b == b;
    } else {
      WordedConcat(a[1..], b);
      assert (a + b)[0] == a[0] && (a + b)[1..] == a[1..] + b;
      Regroup(WordsOf(a[0]), Worded(a[1..]), Worded(b));
    }
  }

  // The user's flags, split as the parser leaves them.
  function FlagsIn(ws: seq<string>): (fs: seq<Flag>)
    requires Split(ws)
    ensures AllProper(fs) && Worded(fs) == ws
    decreases |ws|
  {
    if ws == [] then []
    else if IsBool(ws[0][1]) then
      assert ws[0] == ['-', ws[0][1]] && ws == [ws[0]] + ws[1..];
      [Flag(ws[0][1], None)] + FlagsIn(ws[1..])
    else
      assert ws[0] == ['-', ws[0][1]] && ws == [ws[0], ws[1]] + ws[2..];
      [Flag(ws[0][1], Some(ws[1]))] + FlagsIn(ws[2..])
  }

  lemma {:induction false} OnlyConcat(a: seq<Flag>, b: seq<Flag>, c: char)
    ensures Only(a + b, c) == Only(a, c) + Only(b, c)
    decreases |a|
  {
    if a == [] {
      assert a + b == b;
    } else {
      OnlyConcat(a[1..], b, c);
      assert (a + b)[1..] == a[1..] + b;
    }
  }

  lemma {:induction false} NoIdentityIn(ws: seq<string>)
    requires Split(ws)
    ensures Only(FlagsIn(ws), 'i') == [] == Only(FlagsIn(ws), 'l')
    decreases |ws|
  {
    if ws != [] {
      if IsBool(ws[0][1]) {
        NoIdentityIn(ws[1..]);
      } else {
        NoIdentityIn(ws[2..]);
      }
    }
  }

  // ----- the destination

  lemma {:induction false} NoAt(host: string)
    requires '@' !in host
    ensures SplitDest(host) == (None, host)
  {
    if host != "" {
      NoAt(host[..|host| - 1]);
      assert host == host[..|host| - 1] + [host[|host| - 1]];
    }
  }

  lemma {:induction false} AtSplits(user: string, host: string)
    requires '@' !in host
    ensures SplitDest(user + "@" + host) == (Some(user), host)
    decreases |host|
  {
    var d := user + "@" + host;
    if host == "" {
      assert d[..|d| - 1] == user;
    } else {
      AtSplits(user, host[..|host| - 1]);
      assert d[..|d| - 1] == user + "@" + host[..|host| - 1];
      assert host == host[..|host| - 1] + [host[|host| - 1]];
    }
  }

  // ----- ports and settings

  lemma {:induction false} PortConcat(a: seq<Flag>, b: seq<Flag>)
    requires AllProper(b)
    ensures PortOf(a + b) == if Only(b, 'p') == [] then PortOf(a) else PortOf(b)
    decreases |b|
  {
    if b == [] {
      assert a + b == a;
    } else {
      var n := |b| - 1;
      PortConcat(a, b[..n]);
      assert (a + b)[..|a| + n] == a + b[..n] && b == b[..n] + [b[n]];
      OnlyConcat(b[..n], [b[n]], 'p');
      assert [b[n]][1..] == [] && Only([b[n]], 'p') == if b[n].letter == 'p' then [b[n]] else [];
    }
  }

  lemma {:induction false} SettingConcat(a: seq<Flag>, b: seq<Flag>, key: string)
    ensures Setting(a + b, key) == if Setting(a, key).Some? then Setting(a, key) else Setting(b, key)
    decreases |a|
  {
    if a == [] {
      assert a + b == b;
    } else {
      SettingConcat(a[1..], b, key);
      assert (a + b)[0] == a[0] && (a + b)[1..] == a[1..] + b;
    }
  }

  lemma {:induction false} KeywordOf(key: string, v: string)
    requires '=' !in key && ' ' !in key
    ensures Keyword(key + "=" + v) == key && (key + "=" + v)[|key| + 1..] == v
  {
    var s := key + "=" + v;
    if key != "" {
      KeywordOf(key[1..], v);
      assert s[1..] == key[1..] + "=" + v && key == [key[0]] + key[1..];
    }
  }

  // ----- what vee asks of ssh

  const KNOWN_HOSTS := "UserKnownHostsFile"
  const HOST_KEYS := "StrictHostKeyChecking"
  const ACCEPT_NEW := "accept-new"

  // vee's options ahead of the user's flags, and its defaults behind them.
  function Options(port: int, identity: string): seq<string> {
    (if port == 22 then [] else ["-p", Decimal(port)]) + (if identity == "" then [] else ["-i", identity])
  }

  function Defaults(knownHosts: string): seq<string> {
    if knownHosts == "" then []
    else ["-o", KNOWN_HOSTS + "=" + knownHosts, "-o", HOST_KEYS + "=" + ACCEPT_NEW]
  }

  function Destination(user: string, host: string): string {
    if user == "" then host else user + "@" + host
  }

  function SshArgs(user: string, host: string, port: int, identity: string, knownHosts: string,
                   extra: seq<string>, remote: seq<string>): seq<string> {
    Options(port, identity) + extra + Defaults(knownHosts) + [Destination(user, host)] + remote
  }

  // A host and a user that ssh can be given as a destination.
  predicate Plain(user: string, host: string) {
    host != "" && '@' !in host && (if user == "" then host else user)[0] != '-'
  }

  function DefaultSetting(knownHosts: string, key: string): Option<string> {
    if knownHosts == "" then None
    else if Lower(key) == Lower(KNOWN_HOSTS) then Some(knownHosts)
    else if Lower(key) == Lower(HOST_KEYS) then Some(ACCEPT_NEW)
    else None
  }

  lemma {:induction false} DefaultsByName(knownHosts: string)
    requires knownHosts != ""
    ensures DefaultSetting(knownHosts, "UserKnownHostsFile") == Some(knownHosts)
    ensures DefaultSetting(knownHosts, "StrictHostKeyChecking") == Some("accept-new")
  {
    assert |Lower("UserKnownHostsFile")| != |Lower("StrictHostKeyChecking")|;
  }

  // The session that was asked for: the destination; the user's last port, or the machine's; the identity;
  // of every setting the user's first value, or vee's default; and the user's other flags.
  ghost predicate Meant(r: Reading, user: string, host: string, port: int, identity: string, knownHosts: string,
                        flags: seq<Flag>)
  {
    && r.dest.Some? && SplitDest(r.dest.value) == (if user == "" then None else Some(user), host)
    && PortOf(r.flags) == (if Only(flags, 'p') == [] then Decimal(port) else PortOf(flags))
    && Only(r.flags, 'i') == (if identity == "" then [] else [Flag('i', Some(identity))])
    && (forall key :: Setting(r.flags, key) ==
                      if Setting(flags, key).Some? then Setting(flags, key) else DefaultSetting(knownHosts, key))
    && (forall c :: c != 'p' && c != 'i' && c != 'o' ==> Only(r.flags, c) == Only(flags, c))
  }

  function VeeFlags(port: int, identity: string): seq<Flag> {
    (if port == 22 then [] else [Flag('p', Some(Decimal(port)))])
    + (if identity == "" then [] else [Flag('i', Some(identity))])
  }

  function Given(name: string, v: string): Flag {
    Flag('o', Some(name + "=" + v))
  }

  function DefaultFlags(knownHosts: string): seq<Flag> {
    if knownHosts == "" then [] else [Given(KNOWN_HOSTS, knownHosts), Given(HOST_KEYS, ACCEPT_NEW)]
  }

  lemma {:induction false} VeeFlagsAre(port: int, identity: string)
    ensures AllProper(VeeFlags(port, identity)) && Worded(VeeFlags(port, identity)) == Options(port, identity)
    ensures PortOf(VeeFlags(port, identity)) == Decimal(port)
    ensures forall key :: Setting(VeeFlags(port, identity), key) == None
    ensures Only(VeeFlags(port, identity), 'i') == (if identity == "" then [] else [Flag('i', Some(identity))])
    ensures forall c :: c != 'p' && c != 'i' ==> Only(VeeFlags(port, identity), c) == []
  {
    var p: seq<Flag> := if port == 22 then [] else [Flag('p', Some(Decimal(port)))];
    var i: seq<Flag> := if identity == "" then [] else [Flag('i', Some(identity))];
    assert p != [] ==> p[1..] == [] && p[..0] == [];
    assert i != [] ==> i[1..] == [] && i[..0] == [];
    WordedConcat(p, i);
    assert "-p" == ['-', 'p'] && "-i" == ['-', 'i'];
    PortConcat(p, i);
    assert Decimal(22) == "22" by { assert Digits(2) == "2"; }
    forall key ensures Setting(p + i, key) == None {
      SettingConcat(p, i, key);
    }
    OnlyConcat(p, i, 'i');
    forall c | c != 'p' && c != 'i' ensures Only(p + i, c) == [] {
      OnlyConcat(p, i, c);
    }
  }

  lemma {:induction false} TwoGiven(a: string, x: string, b: string, y: string)
    ensures Worded([Given(a, x), Given(b, y)]) == ["-o", a + "=" + x, "-o", b + "=" + y]
    ensures forall c :: c != 'o' ==> Only([Given(a, x), Given(b, y)], c) == []
  {
    var f, g := Given(a, x), Given(b, y);
    assert [f, g][1..] == [g] && [g][1..] == [];
    assert "-o" == ['-', 'o'];
    assert Worded([g]) == ["-o", b + "=" + y];
    forall c | c != 'o' ensures Only([f, g], c) == [] {
      assert Only([g], c) == [];
    }
  }

  lemma {:induction false} DefaultWords(knownHosts: string)
    ensures AllProper(DefaultFlags(knownHosts)) && Worded(DefaultFlags(knownHosts)) == Defaults(knownHosts)
    ensures forall c :: c != 'o' ==> Only(DefaultFlags(knownHosts), c) == []
  {
    TwoGiven(KNOWN_HOSTS, knownHosts, HOST_KEYS, ACCEPT_NEW);
  }

  lemma {:induction false} TwoSettings(a: string, x: string, b: string, y: string, key: string)
    requires '=' !in a && ' ' !in a && '=' !in b && ' ' !in b
    ensures Setting([Given(a, x), Given(b, y)], key) ==
            if Lower(key) == Lower(a) then Some(x) else if Lower(key) == Lower(b) then Some(y) else None
  {
    var f, g := Given(a, x), Given(b, y);
    assert [f, g][1..] == [g] && [g][1..] == [];
    KeywordOf(a, x);
    KeywordOf(b, y);
    assert Setting([g], key) == if Lower(key) == Lower(b) then Some(y) else None;
  }

  lemma {:induction false} PlainNames()
    ensures '=' !in KNOWN_HOSTS && ' ' !in KNOWN_HOSTS && '=' !in HOST_KEYS && ' ' !in HOST_KEYS
  {
  }

  lemma {:induction false} DefaultSettings(knownHosts: string, key: string)
    ensures Setting(DefaultFlags(knownHosts), key) == DefaultSetting(knownHosts, key)
  {
    PlainNames();
    TwoSettings(KNOWN_HOSTS, knownHosts, HOST_KEYS, ACCEPT_NEW, key);
  }

  // All the flags together say what each part says.
  lemma {:induction false} OnlyOf(v: seq<Flag>, flags: seq<Flag>, d: seq<Flag>, c: char)
    ensures Only(v + flags + d, c) == Only(v, c) + Only(flags, c) + Only(d, c)
  {
    OnlyConcat(v + flags, d, c);
    OnlyConcat(v, flags, c);
  }

  lemma {:induction false} PortMeans(port: int, identity: string, knownHosts: string, flags: seq<Flag>)
    requires AllProper(flags)
    ensures PortOf(VeeFlags(port, identity) + flags + DefaultFlags(knownHosts)) ==
            if Only(flags, 'p') == [] then Decimal(port) else PortOf(flags)
  {
    var v, d := VeeFlags(port, identity), DefaultFlags(knownHosts);
    VeeFlagsAre(port, identity);
    DefaultWords(knownHosts);
    PortConcat(v + flags, d);
    PortConcat(v, flags);
  }

  lemma {:induction false} LettersMean(port: int, identity: string, knownHosts: string, flags: seq<Flag>, c: char)
    ensures var all := VeeFlags(port, identity) + flags + DefaultFlags(knownHosts);
            && (c != 'p' && c != 'i' && c != 'o' ==> Only(all, c) == Only(flags, c))
            && (Only(flags, 'i') == [] ==> Only(all, 'i') == if identity == "" then [] else [Flag('i', Some(identity))])
  {
    VeeFlagsAre(port, identity);
    DefaultWords(knownHosts);
    OnlyOf(VeeFlags(port, identity), flags, DefaultFlags(knownHosts), c);
    OnlyOf(VeeFlags(port, identity), flags, DefaultFlags(knownHosts), 'i');
    assert [] + Only(flags, c) + [] == Only(flags, c);
  }

  lemma {:induction false} SettingsMean(port: int, identity: string, knownHosts: string, flags: seq<Flag>, key: string)
    ensures Setting(VeeFlags(port, identity) + flags + DefaultFlags(knownHosts), key) ==
            if Setting(flags, key).Some? then Setting(flags, key) else DefaultSetting(knownHosts, key)
  {
    VeeFlagsAre(port, identity);
    DefaultSettings(knownHosts, key);
    SettingConcat(VeeFlags(port, identity) + flags, DefaultFlags(knownHosts), key);
    SettingConcat(VeeFlags(port, identity), flags, key);
  }

  lemma {:induction false} DestinationReads(user: string, host: string)
    requires Plain(user, host)
    ensures var d := Destination(user, host);
            && d != "--" && !IsFlag(d) && SplitDest(d) == (if user == "" then None else Some(user), host)
  {
    if user == "" {
      NoAt(host);
    } else {
      AtSplits(user, host);
    }
  }

  lemma {:induction false} WordsOfArgs(user: string, host: string, port: int, identity: string, knownHosts: string,
                                       extra: seq<string>, remote: seq<string>)
    requires Split(extra)
    ensures SshArgs(user, host, port, identity, knownHosts, extra, remote) ==
            Worded(VeeFlags(port, identity) + FlagsIn(extra) + DefaultFlags(knownHosts))
            + ([Destination(user, host)] + remote)
    ensures AllProper(VeeFlags(port, identity) + FlagsIn(extra) + DefaultFlags(knownHosts))
  {
    VeeFlagsAre(port, identity);
    DefaultWords(knownHosts);
    ThreeParts(VeeFlags(port, identity), FlagsIn(extra), DefaultFlags(knownHosts), [Destination(user, host)], remote);
  }

  lemma {:induction false} ThreeParts(v: seq<Flag>, e: seq<Flag>, d: seq<Flag>, dest: seq<string>, remote: seq<string>)
    requires AllProper(v) && AllProper(e) && AllProper(d)
    ensures Worded(v) + Worded(e) + Worded(d) + dest + remote == Worded(v + e + d) + (dest + remote)
    ensures AllProper(v + e + d)
  {
    WordedConcat(v + e, d);
    WordedConcat(v, e);
    Regroup(Worded(v) + Worded(e) + Worded(d), dest, remote);
  }

  // What is read after the destination: the remote words, unless the first is an option.
  lemma {:induction false} RemoteReads(r: Reading, remote: seq<string>)
    requires r.dest.Some? && r.remote == [] && |remote| <= 1
    ensures remote == [] || !IsFlag(remote[0]) ==> ReadArgs(remote, r) == Some(r.(remote := remote))
    ensures remote != [] && IsFlag(remote[0]) ==>
              ReadArgs(remote, r).None? || ReadArgs(remote, r).value.remote == []
  {
    if remote != [] && IsFlag(remote[0]) && remote[0] != "--" {
      var l := ReadLetters(remote[0][1..], remote[1..], r.flags);
      assert l.Some? ==> l.value.1 == [];
    }
  }

  /** ssh reads the arguments as the session that was asked for, with the remote command as its one remote word,
      if and only if that word does not look like an option. */
  lemma {:induction false} SshReadsTheSession(user: string, host: string, port: int, identity: string,
                                              knownHosts: string, extra: seq<string>, remote: seq<string>)
    requires Plain(user, host) && Split(extra) && |remote| <= 1
    ensures var r := ReadArgs(SshArgs(user, host, port, identity, knownHosts, extra, remote), START);
            r.Some? && Meant(r.value, user, host, port, identity, knownHosts, FlagsIn(extra)) && r.value.remote == remote
            <==> remote == [] || !IsFlag(remote[0])
  {
    var r := Reading(VeeFlags(port, identity) + FlagsIn(extra) + DefaultFlags(knownHosts), Some(Destination(user, host)), []);
    ReadUpToRemote(user, host, port, identity, knownHosts, extra, remote);
    RemoteReads(r, remote);
    MeantAll(user, host, port, identity, knownHosts, extra, r.(remote := remote));
  }

  lemma {:induction false} ReadUpToRemote(user: string, host: string, port: int, identity: string,
                                          knownHosts: string, extra: seq<string>, remote: seq<string>)
    requires Plain(user, host) && Split(extra)
    ensures var fs := VeeFlags(port, identity) + FlagsIn(extra) + DefaultFlags(knownHosts);
            ReadArgs(SshArgs(user, host, port, identity, knownHosts, extra, remote), START) ==
            ReadArgs(remote, Reading(fs, Some(Destination(user, host)), []))
  {
    var fs := VeeFlags(port, identity) + FlagsIn(extra) + DefaultFlags(knownHosts);
    var dest := Destination(user, host);
    WordsOfArgs(user, host, port, identity, knownHosts, extra, remote);
    ReadsOptions(fs, [dest] + remote, START);
    DestinationReads(user, host);
    assert [] + fs == fs;
    DestinationNext(dest, remote, fs);
  }

  lemma {:induction false} DestinationNext(dest: string, remote: seq<string>, fs: seq<Flag>)
    requires dest != "--" && !IsFlag(dest)
    ensures ReadArgs([dest] + remote, Reading(fs, None, [])) == ReadArgs(remote, Reading(fs, Some(dest), []))
  {
    assert ([dest] + remote)[1..] == remote;
  }

  lemma {:induction false} MeantAll(user: string, host: string, port: int, identity: string, knownHosts: string,
                                    extra: seq<string>, r: Reading)
    requires Plain(user, host) && Split(extra) && r.dest == Some(Destination(user, host))
    requires r.flags == VeeFlags(port, identity) + FlagsIn(extra) + DefaultFlags(knownHosts)
    ensures Meant(r, user, host, port, identity, knownHosts, FlagsIn(extra))
  {
    var flags := FlagsIn(extra);
    DestinationReads(user, host);
    NoIdentityIn(extra);
    PortMeans(port, identity, knownHosts, flags);
    forall c | c != 'p' && c != 'i' && c != 'o' ensures Only(r.flags, c) == Only(flags, c) {
      LettersMean(port, identity, knownHosts, flags, c);
    }
    LettersMean(port, identity, knownHosts, flags, 'i');
    forall key ensures Setting(r.flags, key) ==
                       if Setting(flags, key).Some? then Setting(flags, key) else DefaultSetting(knownHosts, key)
    {
      SettingsMean(port, identity, knownHosts, flags, key);
    }
  }

  // ----- when the remote line looks like an option

  // Quoting leaves the argument as it is.
  predicate Bare(arg: string, windows: bool) {
    arg != "" && forall i :: 0 <= i < |arg| ==> if windows then CmdInert(arg[i]) else Inert(arg[i])
  }

  lemma {:induction false} QuoteStarts(arg: string, windows: bool)
    ensures Quote(arg, windows) != ""
    ensures Bare(arg, windows) ==> Quote(arg, windows) == arg
    ensures !Bare(arg, windows) ==> Quote(arg, windows)[0] != '-'
  {
  }

  lemma {:induction false} LineStarts(args: seq<string>, windows: bool)
    requires args != []
    ensures |Line(args, windows)| >= |Quote(args[0], windows)|
    ensures Line(args, windows)[..|Quote(args[0], windows)|] == Quote(args[0], windows)
    ensures |args| == 1 ==> Line(args, windows) == Quote(args[0], windows)
    ensures |args| > 1 ==> |Line(args, windows)| > |Quote(args[0], windows)|
    decreases |args|
  {
    var n := |args| - 1;
    assert args == args[..n] + [args[n]];
    LineGrows(args[..n], args[n], windows);
    if n > 0 {
      LineStarts(args[..n], windows);
    }
  }

  /** The remote line looks like an option exactly when its first argument starts with a dash that quoting
      leaves bare, and the line is not "-" alone. */
  lemma {:induction false} LineIsAFlagWhen(args: seq<string>, windows: bool)
    requires args != []
    ensures IsFlag(Line(args, windows)) <==>
            Bare(args[0], windows) && args[0][0] == '-' && args != ["-"]
  {
    QuoteStarts(args[0], windows);
    LineStarts(args, windows);
    var line, q := Line(args, windows), Quote(args[0], windows);
    assert line[..|q|][0] == line[0];
  }

  /** A remote command such as `-v` is bare, and ssh takes it for an option of its own. */
  lemma {:induction false} DashCommandIsLost(user: string, host: string, c: char)
    requires Plain(user, host) && IsBool(c)
    ensures Line([['-', c]], false) == ['-', c]
    ensures ReadArgs(SshArgs(user, host, 22, "", "", [], [['-', c]]), START) ==
            Some(Reading([Flag(c, None)], Some(Destination(user, host)), []))
  {
    var dest := Destination(user, host);
    LineStarts([['-', c]], false);
    QuoteStarts(['-', c], false);
    ReadUpToRemote(user, host, 22, "", "", [], [['-', c]]);
    assert VeeFlags(22, "") + FlagsIn([]) + DefaultFlags("") == [];
    ReadsOne(Flag(c, None), [], Reading([], Some(dest), []));
    assert [['-', c]] + [] == [['-', c]] && [] + [Flag(c, None)] == [Flag(c, None)];
  }

  /** buildSSHArgs: ssh reads what it makes as the session that was asked for, if and only if the remote line does
      not look like an option; and the guest's shell splits that line back into the remote command. */
  method BuildSSHArgs(user: string, host: string, port: int, identity: string, knownHosts: string,
                      remoteCmd: seq<string>, extra: seq<string>, windowsGuest: bool)
    returns (args: seq<string>)
    ensures var line := Line(remoteCmd, windowsGuest);
            && args == SshArgs(user, host, port, identity, knownHosts, extra, if remoteCmd == [] then [] else [line])
            && (remoteCmd != [] && windowsGuest ==> CrtArgs(line) == remoteCmd && Shielded(false, line))
            && (remoteCmd != [] && !windowsGuest ==> PosixFields(line) == Some(remoteCmd))
    ensures Plain(user, host) && Split(extra) ==>
              var r := ReadArgs(args, START);
              var remote := if remoteCmd == [] then [] else [Line(remoteCmd, windowsGuest)];
              r.Some? && Meant(r.value, user, host, port, identity, knownHosts, FlagsIn(extra)) && r.value.remote == remote
              <==> remoteCmd == [] || !Bare(remoteCmd[0], windowsGuest) || remoteCmd[0][0] != '-' || remoteCmd == ["-"]
  {
    args := [];
    if port != 22 {
      args := args + ["-p", Decimal(port)];
    }
    if identity != "" {
      args := args + ["-i", identity];
    }
    assert args == Options(port, identity);
    args := args + extra;
    ghost var soFar := args;
    if knownHosts != "" {
      args := args + ["-o", KNOWN_HOSTS + "=" + knownHosts];
      args := args + ["-o", HOST_KEYS + "=" + ACCEPT_NEW];
    }
    assert args == soFar + Defaults(knownHosts);
    var dest := host;
    if user != "" {
      dest := user + "@" + host;
    }
    args := args + [dest];
    ghost var front := args;
    if |remoteCmd| > 0 {
      var line := JoinRemote(remoteCmd, windowsGuest);
      args := args + [line];
    }
    assert front + [] == front;
    BuiltReads(user, host, port, identity, knownHosts, remoteCmd, extra, windowsGuest);
  }

  lemma {:induction false} BuiltReads(user: string, host: string, port: int, identity: string, knownHosts: string,
                                      remoteCmd: seq<string>, extra: seq<string>, windowsGuest: bool)
    ensures Plain(user, host) && Split(extra) ==>
              var remote := if remoteCmd == [] then [] else [Line(remoteCmd, windowsGuest)];
              var r := ReadArgs(SshArgs(user, host, port, identity, knownHosts, extra, remote), START);
              r.Some? && Meant(r.value, user, host, port, identity, knownHosts, FlagsIn(extra)) && r.value.remote == remote
              <==> remoteCmd == [] || !Bare(remoteCmd[0], windowsGuest) || remoteCmd[0][0] != '-' || remoteCmd == ["-"]
  {
    if Plain(user, host) && Split(extra) {
      var remote := if remoteCmd == [] then [] else [Line(remoteCmd, windowsGuest)];
      SshReadsTheSession(user, host, port, identity, knownHosts, extra, remote);
      if remoteCmd != [] {
        LineIsAFlagWhen(remoteCmd, windowsGuest);
      }
    }
  }
}
