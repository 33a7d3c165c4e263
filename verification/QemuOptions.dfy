/**
 The part of QEMU's option syntax and meaning that the disk section of a command line relies on.
 Options come as a flag word and a text word; the text is a list of properties separated by commas,
 a doubled comma standing for a comma in a value. Options take effect in order: an id has to be
 defined before it is used, and only once.
 */
module QemuOptions {
  import opened Wrappers

  datatype Key =
    | KFile | KIf | KId | KFormat | KCache | KAio | KDiscard | KMedia | KReadonly | KIndex
    | KDrive | KBus | KBootindex | KSerial | KIothread | KOther(name: string)

  datatype Prop = Prop(key: Key, value: string)

  datatype Arg =
    | Object(kind: string, props: seq<Prop>)
    | Drive(props: seq<Prop>)
    | Device(kind: string, props: seq<Prop>)

  // ----- what options define and refer to

  const AHCI_ID := "ahci0"

  function Lookup(props: seq<Prop>, key: Key): Option<string> {
    if props == [] then None
    else if props[0].key == key then Some(props[0].value)
    else Lookup(props[1..], key)
  }

  function SetOf(o: Option<string>): set<string> {
    if o.None? then {} else {o.value}
  }

  function Defs(a: Arg): set<string> {
    SetOf(Lookup(a.props, KId))
  }

  // The controller of a bus name such as "ahci0.2".
  function Controller(bus: string): string {
    if bus == "" || bus[0] == '.' then "" else [bus[0]] + Controller(bus[1..])
  }

  function Bus(a: Arg): Option<string> {
    if a.Device? then Lookup(a.props, KBus) else None
  }

  // The drive, iothread and controller ids a device refers to.
  function Refs(a: Arg): set<string> {
    if !a.Device? then {} else
      SetOf(Lookup(a.props, KDrive)) + SetOf(Lookup(a.props, KIothread))
      + (if Bus(a).None? then {} else {Controller(Bus(a).value)})
  }

  // QEMU's reading of a command line on which `env` is already defined.
  predicate WellDefined(args: seq<Arg>, env: set<string>)
    decreases |args|
  {
    args == [] ||
    (Refs(args[0]) <= env && Defs(args[0]) !! env && WellDefined(args[1..], env + Defs(args[0])))
  }

  // No two devices sit on the same port of the AHCI controller.
  predicate PortsFree(args: seq<Arg>, used: set<string>)
    decreases |args|
  {
    args == [] ||
    (AhciPort(args[0]) !! used && PortsFree(args[1..], used + AhciPort(args[0])))
  }

  function AhciPort(a: Arg): set<string> {
    if Bus(a).Some? && Controller(Bus(a).value) == AHCI_ID then {Bus(a).value} else {}
  }

  function AllDefs(args: seq<Arg>): set<string> {
    if args == [] then {} else Defs(args[0]) + AllDefs(args[1..])
  }

  function AllPorts(args: seq<Arg>): set<string> {
    if args == [] then {} else AhciPort(args[0]) + AllPorts(args[1..])
  }

  lemma {:induction false} NoneOf(props: seq<Prop>, key: Key)
    requires forall i :: 0 <= i < |props| ==> props[i].key != key
    ensures Lookup(props, key) == None
  {
    if props != [] {
      NoneOf(props[1..], key);
    }
  }

  lemma {:induction false} FoundAt(props: seq<Prop>, key: Key, n: nat)
    requires n < |props| && props[n].key == key && forall i :: 0 <= i < n ==> props[i].key != key
    ensures Lookup(props, key) == Some(props[n].value)
  {
    if n > 0 {
      FoundAt(props[1..], key, n - 1);
    }
  }

  lemma {:induction false} ReadConcat(a: seq<Arg>, b: seq<Arg>, env: set<string>, used: set<string>)
    ensures WellDefined(a + b, env) <==> WellDefined(a, env) && WellDefined(b, env + AllDefs(a))
    ensures PortsFree(a + b, used) <==> PortsFree(a, used) && PortsFree(b, used + AllPorts(a))
    ensures AllDefs(a + b) == AllDefs(a) + AllDefs(b) && AllPorts(a + b) == AllPorts(a) + AllPorts(b)
    decreases |a|
  {
    if a == [] {
      assert a + b == b && env + {} == env && used + {} == used;
    } else {
      assert (a + b)[1..] == a[1..] + b && (a + b)[0] == a[0];
      ReadConcat(a[1..], b, env + Defs(a[0]), used + AhciPort(a[0]));
      assert env + Defs(a[0]) + AllDefs(a[1..]) == env + AllDefs(a);
      assert used + AhciPort(a[0]) + AllPorts(a[1..]) == used + AllPorts(a);
    }
  }

  lemma {:induction false} ReadOne(a: Arg, env: set<string>, used: set<string>)
    ensures WellDefined([a], env) <==> Refs(a) <= env && Defs(a) !! env
    ensures PortsFree([a], used) <==> AhciPort(a) !! used
    ensures AllDefs([a]) == Defs(a) && AllPorts([a]) == AhciPort(a)
  {
    assert [a][1..] == [];
  }

  /** The same by positions: what argument k refers to is defined by an argument before it. */
  lemma {:induction false} DefinedBeforeUse(args: seq<Arg>, env: set<string>, k: nat, id: string)
    requires WellDefined(args, env) && k < |args| && id in Refs(args[k])
    ensures id in env || exists j :: 0 <= j < k && id in Defs(args[j])
    decreases |args|
  {
    if k > 0 {
      DefinedBeforeUse(args[1..], env + Defs(args[0]), k - 1, id);
      if id !in env && id !in Defs(args[0]) {
        var j :| 0 <= j < k - 1 && id in Defs(args[1..][j]);
        assert args[1..][j] == args[j + 1];
      }
    }
  }

  lemma {:induction false} DefinedOnce(args: seq<Arg>, env: set<string>, j: nat, k: nat)
    requires WellDefined(args, env) && j < k < |args|
    ensures Defs(args[j]) !! Defs(args[k]) && Defs(args[k]) !! env
    decreases |args|
  {
    if j > 0 {
      DefinedOnce(args[1..], env + Defs(args[0]), j - 1, k - 1);
    } else {
      NotInEnv(args[1..], env + Defs(args[0]), k - 1);
    }
  }

  lemma {:induction false} NotInEnv(args: seq<Arg>, env: set<string>, k: nat)
    requires WellDefined(args, env) && k < |args|
    ensures Defs(args[k]) !! env
    decreases |args|
  {
    if k > 0 {
      NotInEnv(args[1..], env + Defs(args[0]), k - 1);
    }
  }

  // ----- writing options as words

  function KeyName(k: Key): string {
    match k
    case KFile => "file"
    case KIf => "if"
    case KId => "id"
    case KFormat => "format"
    case KCache => "cache"
    case KAio => "aio"
    case KDiscard => "discard"
    case KMedia => "media"
    case KReadonly => "readonly"
    case KIndex => "index"
    case KDrive => "drive"
    case KBus => "bus"
    case KBootindex => "bootindex"
    case KSerial => "serial"
    case KIothread => "iothread"
    case KOther(n) => n
  }

  function Flag(a: Arg): string {
    match a
    case Object(_, _) => "-object"
    case Drive(_) => "-drive"
    case Device(_, _) => "-device"
  }

  function PropText(p: Prop): string {
    KeyName(p.key) + "=" + p.value
  }

  function PropTexts(ps: seq<Prop>): (r: seq<string>)
    ensures |r| == |ps| && forall i :: 0 <= i < |ps| ==> r[i] == PropText(ps[i])
  {
    if ps == [] then [] else [PropText(ps[0])] + PropTexts(ps[1..])
  }

  // strings.Join(pieces, ",")
  function JoinCommas(ps: seq<string>): string {
    if ps == [] then "" else if |ps| == 1 then ps[0] else ps[0] + "," + JoinCommas(ps[1..])
  }

  function PropsText(ps: seq<Prop>): string {
    JoinCommas(PropTexts(ps))
  }

  function TextOf(a: Arg): string {
    JoinCommas((if a.Drive? then [] else [a.kind]) + PropTexts(a.props))
  }

  function Words(args: seq<Arg>): seq<string> {
    if args == [] then [] else [Flag(args[0]), TextOf(args[0])] + Words(args[1..])
  }

  lemma {:induction false} WordsConcat(a: seq<Arg>, b: seq<Arg>)
    ensures Words(a + b) == Words(a) + Words(b)
  {
    if a == [] {
      assert a + b == b;
    } else {
      assert (a + b)[1..] == a[1..] + b;
      WordsConcat(a[1..], b);
    }
  }

  lemma {:induction false} WordsOfOne(a: Arg)
    ensures Words([a]) == [Flag(a), TextOf(a)]
  {
    assert [a][1..] == [];
  }

  // ----- reading words as QEMU does

  function KeyOf(name: string): Key {
    if name == "file" then KFile
    else if name == "if" then KIf
    else if name == "id" then KId
    else if name == "format" then KFormat
    else if name == "cache" then KCache
    else if name == "aio" then KAio
    else if name == "discard" then KDiscard
    else if name == "media" then KMedia
    else if name == "readonly" then KReadonly
    else if name == "index" then KIndex
    else if name == "drive" then KDrive
    else if name == "bus" then KBus
    else if name == "bootindex" then KBootindex
    else if name == "serial" then KSerial
    else if name == "iothread" then KIothread
    else KOther(name)
  }

  // A value and what follows it: up to a comma that is not doubled, doubled ones taken as one.
  function TakeValue(s: string): (r: (string, string))
    ensures |r.1| <= |s| && (r.1 == "" || r.1[0] == ',')
    decreases |s|
  {
    if s == "" then ("", "")
    else if s[0] != ',' then var (v, rest) := TakeValue(s[1..]); ([s[0]] + v, rest)
    else if |s| > 1 && s[1] == ',' then var (v, rest) := TakeValue(s[2..]); ([','] + v, rest)
    else ("", s)
  }

  // Where a property's name ends: at the first '=' or comma.
  function NameEnd(s: string): (n: nat)
    ensures n <= |s| && (n < |s| ==> s[n] == '=' || s[n] == ',')
    ensures forall i :: 0 <= i < n ==> s[i] != '=' && s[i] != ','
  {
    if s == "" || s[0] == '=' || s[0] == ',' then 0 else 1 + NameEnd(s[1..])
  }

  predicate Named(s: string) {
    NameEnd(s) < |s| && s[NameEnd(s)] == '='
  }

  function PastComma(s: string): (r: string)
    ensures |r| <= |s| && (s != "" ==> |r| < |s|)
  {
    if s == "" then "" else s[1..]
  }

  // A property without a value is a switch, and on.
  function ReadProps(s: string): seq<Prop>
    decreases |s|
  {
    if s == "" then [] else
      var n := NameEnd(s);
      if Named(s) then
        var (v, rest) := TakeValue(s[n + 1..]);
        [Prop(KeyOf(s[..n]), v)] + ReadProps(PastComma(rest))
      else
        [Prop(KeyOf(s[..n]), "on")] + ReadProps(PastComma(s[n..]))
  }

  // The kind of a device or object comes first, unnamed.
  function ReadKind(s: string): (string, seq<Prop>) {
    if Named(s) then ("", ReadProps(s)) else
      var (v, rest) := TakeValue(s);
      (v, ReadProps(PastComma(rest)))
  }

  function ReadArg(flag: string, text: string): Option<Arg> {
    if flag == "-drive" then Some(Drive(ReadProps(text)))
    else if flag == "-device" then var (k, ps) := ReadKind(text); Some(Device(k, ps))
    else if flag == "-object" then var (k, ps) := ReadKind(text); Some(Object(k, ps))
    else None
  }

  function ReadWords(words: seq<string>): Option<seq<Arg>> {
    if words == [] then Some([])
    else if |words| == 1 then None
    else
      var a, rest := ReadArg(words[0], words[1]), ReadWords(words[2..]);
      if a.None? || rest.None? then None else Some([a.value] + rest.value)
  }

  // ----- what is written reads back

  predicate NoComma(s: string) {
    forall i :: 0 <= i < |s| ==> s[i] != ','
  }

  predicate PlainWord(s: string) {
    s != "" && forall i :: 0 <= i < |s| ==> s[i] != ',' && s[i] != '='
  }

  predicate AllKnown(ps: seq<Prop>) {
    forall i :: 0 <= i < |ps| ==> !ps[i].key.KOther?
  }

  predicate Free(ps: seq<Prop>) {
    forall i :: 0 <= i < |ps| ==> NoComma(ps[i].value)
  }

  predicate WellFormed(a: Arg) {
    a.props != [] && AllKnown(a.props) && (a.Drive? || PlainWord(a.kind))
  }

  lemma {:induction false} KeyRead(k: Key)
    requires !k.KOther?
    ensures KeyOf(KeyName(k)) == k && PlainWord(KeyName(k))
  {
    if k.KFile? || k.KIf? || k.KId? || k.KFormat? || k.KCache? {
      FirstKeysRead(k);
    } else if k.KAio? || k.KDiscard? || k.KMedia? || k.KReadonly? || k.KIndex? {
      MiddleKeysRead(k);
    } else {
      LastKeysRead(k);
    }
  }

  lemma {:induction false} FirstKeysRead(k: Key)
    requires k.KFile? || k.KIf? || k.KId? || k.KFormat? || k.KCache?
    ensures KeyOf(KeyName(k)) == k && PlainWord(KeyName(k))
  {
  }

  lemma {:induction false} MiddleKeysRead(k: Key)
    requires k.KAio? || k.KDiscard? || k.KMedia? || k.KReadonly? || k.KIndex?
    ensures KeyOf(KeyName(k)) == k && PlainWord(KeyName(k))
  {
  }

  lemma {:induction false} LastKeysRead(k: Key)
    requires k.KDrive? || k.KBus? || k.KBootindex? || k.KSerial? || k.KIothread?
    ensures KeyOf(KeyName(k)) == k && PlainWord(KeyName(k))
  {
  }

  // The end of the text, or a comma that no second one follows.
  predicate Ends(rest: string) {
    rest == "" || (rest[0] == ',' && (|rest| == 1 || rest[1] != ','))
  }

  lemma {:induction false} TakePlain(v: string, rest: string)
    requires NoComma(v) && Ends(rest)
    ensures TakeValue(v + rest) == (v, rest)
  {
    if v == "" {
      assert v + rest == rest;
    } else {
      TakePlain(v[1..], rest);
      assert (v + rest)[1..] == v[1..] + rest;
      assert [v[0]] + v[1..] == v;
    }
  }

  lemma {:induction false} NameFound(name: string, more: string)
    requires (forall i :: 0 <= i < |name| ==> name[i] != ',' && name[i] != '=')
    requires more == "" || more[0] == '=' || more[0] == ','
    ensures NameEnd(name + more) == |name|
  {
    if name == "" {
      assert name + more == more;
    } else {
      NameFound(name[1..], more);
      assert (name + more)[1..] == name[1..] + more;
    }
  }

  lemma {:induction false} NamedText(name: string, v: string, rest: string)
    requires PlainWord(name)
    ensures var s := name + "=" + v + rest;
            && s != "" && NameEnd(s) == |name| && Named(s) && s[..|name|] == name && s[|name| + 1..] == v + rest
  {
    var s, more := name + "=" + v + rest, "=" + v + rest;
    assert s == name + more;
    NameFound(name, more);
  }

  lemma {:induction false} ReadStep(s: string, v: string, rest: string)
    requires s != "" && Named(s) && TakeValue(s[NameEnd(s) + 1..]) == (v, rest)
    ensures ReadProps(s) == [Prop(KeyOf(s[..NameEnd(s)]), v)] + ReadProps(PastComma(rest))
  {
  }

  lemma {:induction false} PropRead(p: Prop, rest: string)
    requires !p.key.KOther? && NoComma(p.value) && Ends(rest)
    ensures ReadProps(PropText(p) + rest) == [p] + ReadProps(PastComma(rest))
  {
    KeyRead(p.key);
    NamedText(KeyName(p.key), p.value, rest);
    TakePlain(p.value, rest);
    ReadStep(PropText(p) + rest, p.value, rest);
  }

  lemma {:induction false} PropThen(p: Prop, more: string)
    requires !p.key.KOther? && NoComma(p.value) && more != "" && more[0] != ','
    ensures ReadProps(PropText(p) + ("," + more)) == [p] + ReadProps(more)
  {
    PropRead(p, "," + more);
    assert PastComma("," + more) == more;
  }

  lemma {:induction false} PropLast(p: Prop)
    requires !p.key.KOther? && NoComma(p.value)
    ensures ReadProps(PropText(p)) == [p]
  {
    PropRead(p, "");
    assert PropText(p) + "" == PropText(p);
    assert ReadProps("") == [] && [p] + [] == [p];
  }

  lemma {:induction false} FirstText(ps: seq<Prop>)
    requires ps != [] && AllKnown(ps)
    ensures PropsText(ps) != "" && PropsText(ps)[0] != ','
  {
    KeyRead(ps[0].key);
    if |ps| == 1 {
      LastText(ps[0]);
      assert ps == [ps[0]];
    } else {
      MoreText(ps[0], ps[1..]);
      assert ps == [ps[0]] + ps[1..];
    }
    assert PropText(ps[0])[0] == KeyName(ps[0].key)[0];
  }

  lemma {:induction false} PropsReadBack(ps: seq<Prop>)
    requires ps != [] && AllKnown(ps) && Free(ps)
    ensures ReadProps(PropsText(ps)) == ps
  {
    if |ps| == 1 {
      LastText(ps[0]);
      PropLast(ps[0]);
      assert ps == [ps[0]];
    } else {
      var p, more := ps[0], ps[1..];
      assert ps == [p] + more;
      PropsReadBack(more);
      MoreText(p, more);
      FirstText(more);
      PropThen(p, PropsText(more));
    }
  }

  lemma {:induction false} LastText(p: Prop)
    ensures PropsText([p]) == PropText(p)
  {
    assert PropTexts([p])[0] == PropText(p);
  }

  lemma {:induction false} MoreText(p: Prop, more: seq<Prop>)
    requires more != []
    ensures PropsText([p] + more) == PropText(p) + ("," + PropsText(more))
  {
    var t := PropTexts([p] + more);
    assert t[0] == PropText(p) && t[1..] == PropTexts(more);
    assert t[0] + "," + JoinCommas(t[1..]) == t[0] + ("," + JoinCommas(t[1..]));
  }

  // ----- and nothing with a comma does: reading a comma takes two of them

  function Commas(s: string): nat {
    if s == "" then 0 else (if s[0] == ',' then 1 else 0) + Commas(s[1..])
  }

  lemma {:induction false} CommasConcat(a: string, b: string)
    ensures Commas(a + b) == Commas(a) + Commas(b)
  {
    if a == "" {
      assert a + b == b;
    } else {
      assert (a + b)[1..] == a[1..] + b;
      CommasConcat(a[1..], b);
    }
  }

  lemma {:induction false} NoneMeansFree(s: string)
    ensures Commas(s) == 0 <==> NoComma(s)
  {
    if s != "" {
      NoneMeansFree(s[1..]);
      if NoComma(s[1..]) && s[0] != ',' {
        assert forall i :: 0 < i < |s| ==> s[i] == s[1..][i - 1];
      }
    }
  }

  function ValueCommas(ps: seq<Prop>): nat {
    if ps == [] then 0 else Commas(ps[0].value) + ValueCommas(ps[1..])
  }

  lemma {:induction false} NoValueCommas(ps: seq<Prop>)
    ensures ValueCommas(ps) == 0 ==> Free(ps)
  {
    if ps != [] {
      NoneMeansFree(ps[0].value);
      NoValueCommas(ps[1..]);
      assert forall i :: 0 < i < |ps| ==> ps[i] == ps[1..][i - 1];
    }
  }

  lemma {:induction false} TakeCount(s: string)
    ensures Commas(s) == 2 * Commas(TakeValue(s).0) + Commas(TakeValue(s).1)
    decreases |s|
  {
    if s != "" {
      if s[0] != ',' {
        TakeCount(s[1..]);
        assert ([s[0]] + TakeValue(s[1..]).0)[1..] == TakeValue(s[1..]).0;
      } else if |s| > 1 && s[1] == ',' {
        TakeCount(s[2..]);
        assert s[1..][1..] == s[2..];
        assert ([','] + TakeValue(s[2..]).0)[1..] == TakeValue(s[2..]).0;
      }
    }
  }

  lemma {:induction false} NameHasNone(s: string)
    ensures Commas(s) == Commas(s[NameEnd(s)..])
  {
    if s == "" || s[0] == '=' || s[0] == ',' {
      assert s[0..] == s;
    } else {
      NameHasNone(s[1..]);
      assert s[1..][NameEnd(s[1..])..] == s[NameEnd(s)..];
    }
  }

  lemma {:induction false} ReadCount(s: string)
    requires s != ""
    ensures Commas(s) + 1 >= |ReadProps(s)| + 2 * ValueCommas(ReadProps(s))
    decreases |s|, 1
  {
    var n := NameEnd(s);
    NameHasNone(s);
    if Named(s) {
      var (v, rest) := TakeValue(s[n + 1..]);
      NamedCount(s, n);
      RestCount(Prop(KeyOf(s[..n]), v), rest);
    } else {
      SwitchCount();
      RestCount(Prop(KeyOf(s[..n]), "on"), s[n..]);
    }
  }

  lemma {:induction false} NamedCount(s: string, n: nat)
    requires n < |s| && s[n] == '='
    ensures var (v, rest) := TakeValue(s[n + 1..]); Commas(s[n..]) == 2 * Commas(v) + Commas(rest)
  {
    TakeCount(s[n + 1..]);
    assert s[n..][1..] == s[n + 1..];
  }

  lemma {:induction false} SwitchCount()
    ensures Commas("on") == 0
  {
    NoneMeansFree("on");
  }

  lemma {:induction false} RestCount(p: Prop, rest: string)
    requires rest == "" || rest[0] == ','
    ensures var ps := [p] + ReadProps(PastComma(rest));
            2 * Commas(p.value) + Commas(rest) + 1 >= |ps| + 2 * ValueCommas(ps)
    decreases |rest|, 0
  {
    var more := ReadProps(PastComma(rest));
    assert ([p] + more)[1..] == more;
    if |rest| > 1 {
      ReadCount(rest[1..]);
    } else {
      assert PastComma(rest) == "";
    }
  }

  lemma {:induction false} TextCount(ps: seq<Prop>)
    requires ps != [] && AllKnown(ps)
    ensures Commas(PropsText(ps)) == |ps| - 1 + ValueCommas(ps)
  {
    PropCount(ps[0]);
    if |ps| == 1 {
      LastText(ps[0]);
      assert ps == [ps[0]] && ValueCommas(ps[1..]) == 0;
    } else {
      TextCount(ps[1..]);
      MoreText(ps[0], ps[1..]);
      assert ps == [ps[0]] + ps[1..];
      JoinCount(PropText(ps[0]), PropsText(ps[1..]));
    }
  }

  lemma {:induction false} JoinCount(a: string, b: string)
    ensures Commas(a + ("," + b)) == Commas(a) + 1 + Commas(b)
  {
    CommasConcat(a, "," + b);
    assert ("," + b)[1..] == b;
  }

  lemma {:induction false} PropCount(p: Prop)
    requires !p.key.KOther?
    ensures Commas(PropText(p)) == Commas(p.value)
  {
    KeyRead(p.key);
    NoneMeansFree(KeyName(p.key));
    CommasConcat(KeyName(p.key), "=" + p.value);
    assert KeyName(p.key) + "=" + p.value == KeyName(p.key) + ("=" + p.value);
    assert ("=" + p.value)[1..] == p.value;
  }

  lemma {:induction false} PropsReadBackWhen(ps: seq<Prop>)
    requires ps != [] && AllKnown(ps)
    ensures ReadProps(PropsText(ps)) == ps <==> Free(ps)
  {
    if Free(ps) {
      PropsReadBack(ps);
    }
    if ReadProps(PropsText(ps)) == ps {
      FirstText(ps);
      ReadCount(PropsText(ps));
      TextCount(ps);
      NoValueCommas(ps);
    }
  }

  lemma {:induction false} KindRead(kind: string, ps: seq<Prop>)
    requires PlainWord(kind) && ps != [] && AllKnown(ps)
    ensures ReadKind(JoinCommas([kind] + PropTexts(ps))) == (kind, ReadProps(PropsText(ps)))
  {
    KindText(kind, PropTexts(ps));
    FirstText(ps);
    KindThen(kind, PropsText(ps));
  }

  lemma {:induction false} KindText(kind: string, texts: seq<string>)
    requires texts != []
    ensures JoinCommas([kind] + texts) == kind + ("," + JoinCommas(texts))
  {
    var t := [kind] + texts;
    assert t[1..] == texts;
    assert kind + "," + JoinCommas(texts) == kind + ("," + JoinCommas(texts));
  }

  lemma {:induction false} KindThen(kind: string, more: string)
    requires PlainWord(kind) && more != "" && more[0] != ','
    ensures ReadKind(kind + ("," + more)) == (kind, ReadProps(more))
  {
    var rest := "," + more;
    NameFound(kind, rest);
    assert (kind + rest)[|kind|] == ',';
    TakePlain(kind, rest);
    assert PastComma(rest) == more;
  }

  // The flag says what is read.
  lemma {:induction false} FlagRead(text: string)
    ensures ReadArg("-drive", text) == Some(Drive(ReadProps(text)))
    ensures var (k, ps) := ReadKind(text);
            ReadArg("-device", text) == Some(Device(k, ps)) && ReadArg("-object", text) == Some(Object(k, ps))
  {
    assert "-drive"[1] == 'd' && "-object"[1] == 'o' && "-device"[1] == 'd';
  }

  lemma {:induction false} DriveText(ps: seq<Prop>)
    ensures TextOf(Drive(ps)) == PropsText(ps)
  {
    assert [] + PropTexts(ps) == PropTexts(ps);
  }

  /** QEMU reads the two words of an option back as that option if and only if no value of it holds a
      comma. */
  lemma {:induction false} OptionReadsBack(a: Arg)
    requires WellFormed(a)
    ensures ReadArg(Flag(a), TextOf(a)).Some?
    ensures ReadArg(Flag(a), TextOf(a)) == Some(a) <==> Free(a.props)
  {
    PropsReadBackWhen(a.props);
    FlagRead(TextOf(a));
    if a.Drive? {
      DriveText(a.props);
    } else {
      KindRead(a.kind, a.props);
    }
  }

  lemma {:induction false} WordsStep(flag: string, text: string, words: seq<string>, a: Arg, more: seq<Arg>)
    requires ReadArg(flag, text).Some? && ReadWords(words).Some?
    ensures var r := ReadWords([flag, text] + words);
            r.Some? && (r == Some([a] + more) <==> ReadArg(flag, text) == Some(a) && ReadWords(words) == Some(more))
  {
    var w := [flag, text] + words;
    assert w[0] == flag && w[1] == text && w[2..] == words;
    var x, y := ReadArg(flag, text).value, ReadWords(words).value;
    assert ReadWords(w) == Some([x] + y);
    if [x] + y == [a] + more {
      assert ([x] + y)[0] == x && ([x] + y)[1..] == y && ([a] + more)[1..] == more;
    }
  }

  predicate AllFree(args: seq<Arg>) {
    forall i :: 0 <= i < |args| ==> Free(args[i].props)
  }

  lemma {:induction false} FirstFree(a: Arg, more: seq<Arg>)
    ensures AllFree([a] + more) <==> Free(a.props) && AllFree(more)
  {
    var args := [a] + more;
    if AllFree(args) {
      assert args[0] == a;
      forall i | 0 <= i < |more| ensures Free(more[i].props) {
        assert args[i + 1] == more[i];
      }
    }
  }

  /** And so for a whole list of options. */
  lemma {:induction false} WordsReadBack(args: seq<Arg>)
    requires forall i :: 0 <= i < |args| ==> WellFormed(args[i])
    ensures ReadWords(Words(args)).Some?
    ensures ReadWords(Words(args)) == Some(args) <==> AllFree(args)
  {
    if args != [] {
      var a, more := args[0], args[1..];
      assert args == [a] + more;
      OptionReadsBack(a);
      WordsReadBack(more);
      WordsStep(Flag(a), TextOf(a), Words(more), a, more);
      FirstFree(a, more);
    }
  }

  // A value with a comma and a property after it is read as two properties.
  lemma {:induction false} CommaSplits(k: Key, p: string, id: string, more: seq<Prop>)
    requires !k.KOther? && NoComma(p) && NoComma(id) && more != [] && AllKnown(more)
    ensures ReadProps(PropsText([Prop(k, p + ("," + PropText(Prop(KId, id))))] + more)) ==
            [Prop(k, p)] + ([Prop(KId, id)] + ReadProps(PropsText(more)))
  {
    CommaJoins(k, p, id, more);
    FirstText(more);
    TwoRead(Prop(k, p), Prop(KId, id), PropsText(more));
  }

  lemma {:induction false} TwoRead(a: Prop, b: Prop, more: string)
    requires !a.key.KOther? && !b.key.KOther? && NoComma(a.value) && NoComma(b.value) && more != "" && more[0] != ','
    ensures ReadProps(PropText(a) + ("," + (PropText(b) + ("," + more)))) == [a] + ([b] + ReadProps(more))
  {
    PropThen(b, more);
    TextStarts(b, "," + more);
    PropThen(a, PropText(b) + ("," + more));
  }

  lemma {:induction false} TextStarts(p: Prop, more: string)
    requires !p.key.KOther?
    ensures PropText(p) + more != "" && (PropText(p) + more)[0] != ','
  {
    KeyRead(p.key);
    assert (PropText(p) + more)[0] == KeyName(p.key)[0];
  }

  lemma {:induction false} CommaJoins(k: Key, p: string, id: string, more: seq<Prop>)
    requires !k.KOther? && more != [] && AllKnown(more)
    ensures PropsText([Prop(k, p + ("," + PropText(Prop(KId, id))))] + more) ==
            PropText(Prop(k, p)) + ("," + (PropText(Prop(KId, id)) + ("," + PropsText(more))))
  {
    MoreText(Prop(k, p + ("," + PropText(Prop(KId, id)))), more);
    CommaText(k, p, id, "," + PropsText(more));
  }

  lemma {:induction false} CommaText(k: Key, p: string, id: string, tail: string)
    ensures PropText(Prop(k, p + ("," + PropText(Prop(KId, id))))) + tail ==
            PropText(Prop(k, p)) + ("," + (PropText(Prop(KId, id)) + tail))
  {
  }

  lemma {:induction false} EachReads(args: seq<Arg>, rs: seq<Arg>)
    requires |args| == |rs| && forall i :: 0 <= i < |args| ==> ReadAs(args[i], rs[i])
    ensures ReadWords(Words(args)) == Some(rs)
  {
    if args != [] {
      EachReads(args[1..], rs[1..]);
      FirstReads(args[0], args[1..], rs[0], rs[1..]);
      assert [args[0]] + args[1..] == args && [rs[0]] + rs[1..] == rs;
    }
  }

  lemma {:induction false} FirstReads(a: Arg, more: seq<Arg>, r: Arg, rs: seq<Arg>)
    requires ReadAs(a, r) && ReadWords(Words(more)) == Some(rs)
    ensures ReadWords(Words([a] + more)) == Some([r] + rs)
  {
    FirstWords(a, more);
    WordsStep(Flag(a), TextOf(a), Words(more), r, rs);
  }

  lemma {:induction false} FirstWords(a: Arg, more: seq<Arg>)
    ensures Words([a] + more) == [Flag(a), TextOf(a)] + Words(more)
  {
    assert ([a] + more)[1..] == more;
  }

  // The words of `a` are read as `r`.
  predicate ReadAs(a: Arg, r: Arg) {
    ReadArg(Flag(a), TextOf(a)) == Some(r)
  }
}
