/**
 The vsock bridge table of `cmd/vee-vz-helper/vsock.go`. A listener is a number, never reused; the
 open listeners and the socket files in the VM directory are the world the table has to match.
 */
module Vsock {
  import opened Wrappers
  import opened Text

  datatype Error = Disabled | PortRequired | NotAbsolute | ListenFailed

  datatype Target = Target(ln: nat, path: string)

  datatype State = State(
    vmDir: string,
    enabled: bool,
    bridges: map<nat, nat>,
    forwards: map<nat, Target>,
    open: set<nat>,
    sockets: set<string>,
    nextLn: nat)

  function BridgePath(vmDir: string, port: nat): string {
    vmDir + "/vz-vsock-" + Digits(port) + ".sock"
  }

  predicate IsAbs(path: string) {
    path != "" && path[0] == '/'
  }

  // An operation, and whether the listen it may attempt succeeds.
  datatype Op =
    | ConnectBridge(port: nat, listens: bool)
    | ListenForward(port: nat, target: string, listens: bool)
    | CloseAll

  function Connect(s: State, port: nat, listens: bool): (State, Result<string, Error>) {
    var path := BridgePath(s.vmDir, port);
    if !s.enabled then (s, Err(Disabled))
    else if port == 0 then (s, Err(PortRequired))
    else if port in s.bridges then (s, Ok(path))
    else if !listens then (s.(sockets := s.sockets - {path}), Err(ListenFailed))
    else
      (s.(bridges := s.bridges[port := s.nextLn], open := s.open + {s.nextLn},
       sockets := s.sockets + {path}, nextLn := s.nextLn + 1), Ok(path))
  }

  function Listen(s: State, port: nat, target: string, listens: bool): (State, Result<(), Error>) {
    if !s.enabled then (s, Err(Disabled))
    else if port == 0 then (s, Err(PortRequired))
    else if !IsAbs(target) then (s, Err(NotAbsolute))
    else if port in s.forwards then
      (s.(forwards := s.forwards[port := s.forwards[port].(path := target)]), Ok(()))
    else if !listens then (s, Err(ListenFailed))
    else
      (s.(forwards := s.forwards[port := Target(s.nextLn, target)], open := s.open + {s.nextLn},
       nextLn := s.nextLn + 1), Ok(()))
  }

  // The listeners some ports of a forward table hold.
  function Listeners(m: map<nat, Target>, ports: set<nat>): set<nat> {
    set p | p in ports && p in m :: m[p].ln
  }

  function Close(s: State): State {
    s.(bridges := map[], forwards := map[],
    open := s.open - s.bridges.Values - Listeners(s.forwards, s.forwards.Keys),
    sockets := s.sockets - (set p | p in s.bridges :: BridgePath(s.vmDir, p)))
  }

  function Apply(s: State, op: Op): State {
    match op
    case ConnectBridge(p, listens) => Connect(s, p, listens).0
    case ListenForward(p, t, listens) => Listen(s, p, t, listens).0
    case CloseAll => Close(s)
  }

  function After(vmDir: string, enabled: bool, sockets: set<string>, ops: seq<Op>): State {
    if ops == [] then State(vmDir, enabled, map[], map[], {}, sockets, 0)
    else Apply(After(vmDir, enabled, sockets, ops[..|ops| - 1]), ops[|ops| - 1])
  }

  // ----- what every operation keeps

  /** The open listeners are exactly those of the two tables, each held by one port of one table,
      and every bridge has its socket file. */
  ghost predicate Inv(s: State) {
    Served(s) && AllHeld(s) && Apart(s)
  }

  ghost predicate Served(s: State) {
    && (forall p :: p in s.bridges ==> s.bridges[p] in s.open && BridgePath(s.vmDir, p) in s.sockets)
    && (forall p :: p in s.forwards ==> s.forwards[p].ln in s.open)
  }

  ghost predicate AllHeld(s: State) {
    forall l :: l in s.open ==> l < s.nextLn && Held(s, l)
  }

  ghost predicate Apart(s: State) {
    && (forall p, q :: p in s.bridges && q in s.bridges && s.bridges[p] == s.bridges[q] ==> p == q)
    && (forall p, q :: p in s.forwards && q in s.forwards && s.forwards[p].ln == s.forwards[q].ln ==> p == q)
    && (forall p, q :: p in s.bridges && q in s.forwards ==> s.bridges[p] != s.forwards[q].ln)
  }

  ghost predicate Held(s: State, l: nat) {
    (exists p :: p in s.bridges && s.bridges[p] == l) || (exists p :: p in s.forwards && s.forwards[p].ln == l)
  }

  lemma {:induction false} PathsDistinct(vmDir: string, p: nat, q: nat)
    requires BridgePath(vmDir, p) == BridgePath(vmDir, q)
    ensures p == q
  {
    var pre := vmDir + "/vz-vsock-";
    var a, b := BridgePath(vmDir, p), BridgePath(vmDir, q);
    assert a[|pre|..|a| - 5] == Digits(p) && b[|pre|..|b| - 5] == Digits(q);
    ValueOfDigits(p);
    ValueOfDigits(q);
  }

  lemma {:induction false} StaleSocketRemoved(s: State, port: nat)
    requires Inv(s) && port !in s.bridges
    ensures Inv(s.(sockets := s.sockets - {BridgePath(s.vmDir, port)}))
  {
    var s' := s.(sockets := s.sockets - {BridgePath(s.vmDir, port)});
    forall p | p in s'.bridges ensures BridgePath(s'.vmDir, p) in s'.sockets {
      if BridgePath(s.vmDir, p) == BridgePath(s.vmDir, port) {
        PathsDistinct(s.vmDir, p, port);
      }
    }
    assert forall l :: Held(s, l) ==> Held(s', l);
  }

  lemma {:induction false} ConnectKeeps(s: State, port: nat, listens: bool)
    requires Inv(s)
    ensures Inv(Connect(s, port, listens).0)
  {
    var s' := Connect(s, port, listens).0;
    if s.enabled && port != 0 && port !in s.bridges {
      if listens {
        assert s'.bridges[port] == s.nextLn;
        forall l | l in s'.open ensures l < s'.nextLn && Held(s', l) {
          if l != s.nextLn {
            assert Held(s, l);
            if p :| p in s.bridges && s.bridges[p] == l {
              assert s'.bridges[p] == l;
            }
          }
        }
      } else {
        StaleSocketRemoved(s, port);
      }
    }
  }

  lemma {:induction false} RetargetKeeps(s: State, port: nat, target: string)
    requires Inv(s) && port in s.forwards
    ensures Inv(s.(forwards := s.forwards[port := s.forwards[port].(path := target)]))
  {
    var s' := s.(forwards := s.forwards[port := s.forwards[port].(path := target)]);
    forall l | l in s'.open ensures Held(s', l) {
      assert Held(s, l);
      if p :| p in s.forwards && s.forwards[p].ln == l {
        assert s'.forwards[p].ln == l;
      }
    }
  }

  function WithForward(s: State, port: nat, target: string): State {
    s.(forwards := s.forwards[port := Target(s.nextLn, target)], open := s.open + {s.nextLn}, nextLn := s.nextLn + 1)
  }

  lemma {:induction false} NewForwardHeld(s: State, port: nat, target: string)
    requires AllHeld(s) && port !in s.forwards
    ensures AllHeld(WithForward(s, port, target))
  {
    var s' := WithForward(s, port, target);
    assert s'.forwards[port].ln == s.nextLn;
    forall l | l in s'.open ensures l < s'.nextLn && Held(s', l) {
      if l != s.nextLn {
        assert Held(s, l);
        if p :| p in s.forwards && s.forwards[p].ln == l {
          assert s'.forwards[p].ln == l;
        }
      }
    }
  }

  lemma {:induction false} NewForwardApart(s: State, port: nat, target: string)
    requires Served(s) && AllHeld(s) && Apart(s) && port !in s.forwards
    ensures Apart(WithForward(s, port, target))
  {
    assert s.nextLn !in s.open;
  }

  lemma {:induction false} NewForwardKeeps(s: State, port: nat, target: string)
    requires Inv(s) && port !in s.forwards
    ensures Inv(WithForward(s, port, target))
  {
    NewForwardHeld(s, port, target);
    NewForwardApart(s, port, target);
  }

  lemma {:induction false} ListenKeeps(s: State, port: nat, target: string, listens: bool)
    requires Inv(s)
    ensures Inv(Listen(s, port, target, listens).0)
  {
    if port in s.forwards {
      RetargetKeeps(s, port, target);
    } else {
      NewForwardKeeps(s, port, target);
    }
  }

  lemma {:induction false} CloseKeeps(s: State)
    requires Inv(s)
    ensures Inv(Close(s)) && Close(s).open == {}
  {
    forall l | l in s.open ensures l !in Close(s).open {
      assert Held(s, l);
    }
  }

  /** Across any sequence of operations, failures included. */
  lemma {:induction false} TablesMatchListeners(vmDir: string, enabled: bool, sockets: set<string>, ops: seq<Op>)
    ensures Inv(After(vmDir, enabled, sockets, ops))
    ensures ops != [] && ops[|ops| - 1].CloseAll? ==> After(vmDir, enabled, sockets, ops).open == {}
  {
    if ops != [] {
      TablesMatchListeners(vmDir, enabled, sockets, ops[..|ops| - 1]);
      var s := After(vmDir, enabled, sockets, ops[..|ops| - 1]);
      match ops[|ops| - 1]
      case ConnectBridge(p, listens) => ConnectKeeps(s, p, listens);
      case ListenForward(p, t, listens) => ListenKeeps(s, p, t, listens);
      case CloseAll => CloseKeeps(s);
    }
  }

  // Only an enabled table holds anything, and never for port 0.
  ghost predicate Admitted(s: State) {
    (s.bridges != map[] || s.forwards != map[] ==> s.enabled) && 0 !in s.bridges && 0 !in s.forwards
  }

  lemma {:induction false} OnlyAdmitted(vmDir: string, enabled: bool, sockets: set<string>, ops: seq<Op>)
    ensures Admitted(After(vmDir, enabled, sockets, ops))
  {
    if ops != [] {
      OnlyAdmitted(vmDir, enabled, sockets, ops[..|ops| - 1]);
    }
  }

  // The target a port had before `ops`, or the last absolute one that `ops` asks for it.
  function LastTarget(path: string, ops: seq<Op>, port: nat): string {
    if ops == [] then path else
      match ops[|ops| - 1]
      case ListenForward(p, t, _) =>
        if p == port && "/" <= t then t else LastTarget(path, ops[..|ops| - 1], port)
      case _ => LastTarget(path, ops[..|ops| - 1], port)
  }

  // `port` has kept its listeners from `s` to `s'`, and been retargeted as `ops` asked.
  ghost predicate Kept(s: State, s': State, ops: seq<Op>, port: nat) {
    && (port in s.forwards ==>
          && port in s'.forwards && s'.forwards[port].ln == s.forwards[port].ln
          && s'.forwards[port].path == LastTarget(s.forwards[port].path, ops, port))
    && (port in s.bridges ==> port in s'.bridges && s'.bridges[port] == s.bridges[port])
  }

  lemma {:induction false} StepKeeps(s0: State, s: State, ops: seq<Op>, op: Op, port: nat)
    requires Kept(s0, s, ops, port) && Admitted(s) && !op.CloseAll?
    ensures Kept(s0, Apply(s, op), ops + [op], port)
  {
    assert (ops + [op])[..|ops|] == ops;
  }

  lemma {:induction false} KeptUntilClosed(vmDir: string, enabled: bool, sockets: set<string>, ops: seq<Op>,
                                           more: seq<Op>, port: nat)
    requires forall i :: 0 <= i < |more| ==> !more[i].CloseAll?
    ensures Kept(After(vmDir, enabled, sockets, ops), After(vmDir, enabled, sockets, ops + more), more, port)
    decreases |more|
  {
    if more == [] {
      assert ops + more == ops;
    } else {
      var n := |more| - 1;
      KeptUntilClosed(vmDir, enabled, sockets, ops, more[..n], port);
      OnlyAdmitted(vmDir, enabled, sockets, ops + more[..n]);
      StepKeeps(After(vmDir, enabled, sockets, ops),
                After(vmDir, enabled, sockets, ops + more[..n]), more[..n], more[n], port);
      assert (ops + more)[..|ops| + n] == ops + more[..n] && more[..n] + [more[n]] == more;
    }
  }

  /** Until the table is closed, whatever is asked of it and whatever fails, a forward keeps its
      listener, open, and has the last absolute target asked for, and a bridge keeps its listener. */
  lemma {:induction false} ListenersSurvive(vmDir: string, enabled: bool, sockets: set<string>, ops: seq<Op>,
                                            more: seq<Op>, port: nat)
    requires forall i :: 0 <= i < |more| ==> !more[i].CloseAll?
    ensures var s, s' := After(vmDir, enabled, sockets, ops), After(vmDir, enabled, sockets, ops + more);
            && Kept(s, s', more, port)
            && (port in s.forwards ==> s.forwards[port].ln in s'.open)
            && (port in s.bridges ==> s.bridges[port] in s'.open)
  {
    KeptUntilClosed(vmDir, enabled, sockets, ops, more, port);
    TablesMatchListeners(vmDir, enabled, sockets, ops + more);
  }

  lemma {:induction false} DirectoryStays(vmDir: string, enabled: bool, sockets: set<string>, ops: seq<Op>)
    ensures After(vmDir, enabled, sockets, ops).vmDir == vmDir
  {
    if ops != [] {
      DirectoryStays(vmDir, enabled, sockets, ops[..|ops| - 1]);
    }
  }

  /** A bridge path once answered is, until the table is closed, the socket of that port's listener, which
      stays open whatever else is asked and fails. */
  lemma {:induction false} AnsweredBridgeStaysServed(vmDir: string, enabled: bool, sockets: set<string>, ops: seq<Op>,
                                                     port: nat, listens: bool, more: seq<Op>)
    requires forall i :: 0 <= i < |more| ==> !more[i].CloseAll?
    requires Connect(After(vmDir, enabled, sockets, ops), port, listens).1.Ok?
    ensures var (s, r) := Connect(After(vmDir, enabled, sockets, ops), port, listens);
            var e := After(vmDir, enabled, sockets, ops + [ConnectBridge(port, listens)] + more);
            && r.value == BridgePath(vmDir, port) && r.value in e.sockets
            && port in s.bridges && port in e.bridges && e.bridges[port] == s.bridges[port] && e.bridges[port] in e.open
  {
    var now := ops + [ConnectBridge(port, listens)];
    assert now[..|ops|] == ops;
    KeptUntilClosed(vmDir, enabled, sockets, now, more, port);
    TablesMatchListeners(vmDir, enabled, sockets, now + more);
    DirectoryStays(vmDir, enabled, sockets, ops);
    DirectoryStays(vmDir, enabled, sockets, now + more);
  }

  /** A forward once accepted listens until the table is closed, with the last absolute target asked for. */
  lemma {:induction false} AcceptedForwardStaysServed(vmDir: string, enabled: bool, sockets: set<string>, ops: seq<Op>,
                                                      port: nat, target: string, listens: bool, more: seq<Op>)
    requires forall i :: 0 <= i < |more| ==> !more[i].CloseAll?
    requires Listen(After(vmDir, enabled, sockets, ops), port, target, listens).1.Ok?
    ensures var (s, _) := Listen(After(vmDir, enabled, sockets, ops), port, target, listens);
            var e := After(vmDir, enabled, sockets, ops + [ListenForward(port, target, listens)] + more);
            && port in s.forwards && port in e.forwards
            && e.forwards[port].ln == s.forwards[port].ln && e.forwards[port].ln in e.open
            && e.forwards[port].path == LastTarget(target, more, port)
  {
    var now := ops + [ListenForward(port, target, listens)];
    assert now[..|ops|] == ops;
    KeptUntilClosed(vmDir, enabled, sockets, now, more, port);
    TablesMatchListeners(vmDir, enabled, sockets, now + more);
  }

  // ----- the table as the object it is

  // ----- answers by what came before

  // A listen for the bridge, or the forward, of the port has succeeded since the table was last closed.
  predicate Bridged(ops: seq<Op>, port: nat) {
    if ops == [] then false else
      var before := Bridged(ops[..|ops| - 1], port);
      match ops[|ops| - 1]
      case ConnectBridge(p, listens) => (p == port && listens) || before
      case ListenForward(_, _, _) => before
      case CloseAll => false
  }

  predicate Forwarded(ops: seq<Op>, port: nat) {
    if ops == [] then false else
      var before := Forwarded(ops[..|ops| - 1], port);
      match ops[|ops| - 1]
      case ConnectBridge(_, _) => before
      case ListenForward(p, target, listens) => (p == port && "/" <= target && listens) || before
      case CloseAll => false
  }

  lemma {:induction false} TablesHold(vmDir: string, enabled: bool, sockets: set<string>, ops: seq<Op>, port: nat)
    ensures var s := After(vmDir, enabled, sockets, ops);
            && s.vmDir == vmDir && s.enabled == enabled
            && (port in s.bridges <==> enabled && port != 0 && Bridged(ops, port))
            && (port in s.forwards <==> enabled && port != 0 && Forwarded(ops, port))
    decreases |ops|
  {
    if ops != [] {
      TablesHold(vmDir, enabled, sockets, ops[..|ops| - 1], port);
    }
  }

  /** In any run a connect is answered with the port's bridge path exactly when vsock is enabled, the port is not 0
      and either the listen succeeds or one has since the last close; otherwise it says which of these fails. */
  lemma {:induction false} ConnectAnswers(vmDir: string, enabled: bool, sockets: set<string>, ops: seq<Op>,
                                          port: nat, listens: bool)
    ensures Connect(After(vmDir, enabled, sockets, ops), port, listens).1 ==
            if !enabled then Err(Disabled) else if port == 0 then Err(PortRequired)
            else if Bridged(ops, port) || listens then Ok(BridgePath(vmDir, port)) else Err(ListenFailed)
  {
    TablesHold(vmDir, enabled, sockets, ops, port);
  }

  /** And so for a forward, whose target has to be absolute. */
  lemma {:induction false} ListenAnswers(vmDir: string, enabled: bool, sockets: set<string>, ops: seq<Op>,
                                         port: nat, target: string, listens: bool)
    ensures Listen(After(vmDir, enabled, sockets, ops), port, target, listens).1 ==
            if !enabled then Err(Disabled) else if port == 0 then Err(PortRequired)
            else if !("/" <= target) then Err(NotAbsolute)
            else if Forwarded(ops, port) || listens then Ok(()) else Err(ListenFailed)
  {
    TablesHold(vmDir, enabled, sockets, ops, port);
  }

  // The socket file of the port's bridge is there: left from before, or made and not removed since.
  predicate SocketThere(ops: seq<Op>, port: nat, enabled: bool, initially: bool) {
    if ops == [] then initially else
      var before := ops[..|ops| - 1];
      match ops[|ops| - 1]
      case ConnectBridge(p, listens) =>
        if enabled && p == port && port != 0 then listens || Bridged(before, port)
        else SocketThere(before, port, enabled, initially)
      case ListenForward(_, _, _) => SocketThere(before, port, enabled, initially)
      case CloseAll =>
        !(enabled && port != 0 && Bridged(before, port)) && SocketThere(before, port, enabled, initially)
  }

  lemma {:induction false} ConnectSockets(s: State, p: nat, listens: bool, port: nat)
    requires Inv(s)
    ensures var path, s' := BridgePath(s.vmDir, port), Connect(s, p, listens).0;
            path in s'.sockets <==>
            if s.enabled && p == port && port != 0 then listens || port in s.bridges else path in s.sockets
  {
    if p != port && BridgePath(s.vmDir, p) == BridgePath(s.vmDir, port) {
      PathsDistinct(s.vmDir, p, port);
    }
  }

  lemma {:induction false} CloseSockets(s: State, port: nat)
    ensures var path := BridgePath(s.vmDir, port);
            path in Close(s).sockets <==> path in s.sockets && port !in s.bridges
  {
    var gone := set p | p in s.bridges :: BridgePath(s.vmDir, p);
    if BridgePath(s.vmDir, port) in gone {
      var p :| p in s.bridges && BridgePath(s.vmDir, p) == BridgePath(s.vmDir, port);
      PathsDistinct(s.vmDir, p, port);
    }
  }

  /** A bridge's socket file is there exactly as the operations so far made and removed it. */
  lemma {:induction false} SocketFilesFollow(vmDir: string, enabled: bool, sockets: set<string>, ops: seq<Op>, port: nat)
    ensures var path := BridgePath(vmDir, port);
            path in After(vmDir, enabled, sockets, ops).sockets <==> SocketThere(ops, port, enabled, path in sockets)
    decreases |ops|
  {
    if ops != [] {
      var before := ops[..|ops| - 1];
      var s := After(vmDir, enabled, sockets, before);
      SocketFilesFollow(vmDir, enabled, sockets, before, port);
      TablesHold(vmDir, enabled, sockets, before, port);
      match ops[|ops| - 1]
      case ConnectBridge(p, listens) =>
        TablesMatchListeners(vmDir, enabled, sockets, before);
        ConnectSockets(s, p, listens, port);
      case ListenForward(_, _, _) =>
      case CloseAll => CloseSockets(s, port);
    }
  }

  lemma {:induction false} ListenersGrow(m: map<nat, Target>, ports: set<nat>, p: nat)
    requires p in m
    ensures Listeners(m, ports + {p}) == Listeners(m, ports) + {m[p].ln}
  {
  }

  // A forward is shared with the goroutine that serves it, so retargeting updates it in place.
  class Forward {
    const ln: nat
    var target: string

    constructor (ln: nat, target: string)
      ensures this.ln == ln && this.target == target
    {
      this.ln, this.target := ln, target;
    }

    method SetTarget(t: string)
      modifies this`target
      ensures target == t
    {
      target := t;
    }
  }

  class VsockState {
    const vmDir: string
    const enabled: bool
    var bridges: map<nat, nat>
    var forwards: map<nat, Forward>
    var open: set<nat>
    var sockets: set<string>
    var nextLn: nat

    ghost predicate Valid()
      reads this
    {
      forall p, q :: p in forwards && q in forwards && p != q ==> forwards[p] != forwards[q]
    }

    ghost function View(): State
      reads this, forwards.Values
    {
      State(vmDir, enabled, bridges, map p | p in forwards :: Target(forwards[p].ln, forwards[p].target),
            open, sockets, nextLn)
    }

    constructor (vmDir: string, enabled: bool, stale: set<string>)
      ensures Valid() && View() == After(vmDir, enabled, stale, [])
    {
      this.vmDir, this.enabled := vmDir, enabled;
      bridges, forwards, open, sockets, nextLn := map[], map[], {}, stale, 0;
    }

    method ConnectBridge(port: nat, listens: bool) returns (r: Result<string, Error>)
      requires Valid()
      modifies this`bridges, this`open, this`sockets, this`nextLn
      ensures Valid() && (View(), r) == Connect(old(View()), port, listens)
    {
      if !enabled {
        return Err(Disabled);
      }
      if port == 0 {
        return Err(PortRequired);
      }
      var path := BridgePath(vmDir, port);
      if port in bridges {
        return Ok(path);
      }
      sockets := sockets - {path};
      if !listens {
        assert View().forwards == old(View()).forwards;
        return Err(ListenFailed);
      }
      sockets := sockets + {path};
      open := open + {nextLn};
      bridges := bridges[port := nextLn];
      nextLn := nextLn + 1;
      assert old(sockets) - {path} + {path} == old(sockets) + {path};
      assert View().forwards == old(View()).forwards;
      return Ok(path);
    }

    method ListenForward(port: nat, target: string, listens: bool) returns (r: Result<(), Error>)
      requires Valid()
      modifies this`forwards, this`open, this`nextLn, forwards.Values
      ensures Valid() && (View(), r) == Listen(old(View()), port, target, listens)
      ensures old(port in forwards) ==> forwards == old(forwards) && open == old(open)
    {
      if !enabled {
        return Err(Disabled);
      }
      if port == 0 {
        return Err(PortRequired);
      }
      if !IsAbs(target) {
        return Err(NotAbsolute);
      }
      if port in forwards {
        assert forwards[port] in forwards.Values;
        forwards[port].SetTarget(target);
        assert View().forwards == old(View()).forwards[port := Target(forwards[port].ln, target)];
        return Ok(());
      }
      if !listens {
        return Err(ListenFailed);
      }
      AddForward(port, target);
      return Ok(());
    }

    method AddForward(port: nat, target: string)
      requires Valid() && port !in forwards
      modifies this`forwards, this`open, this`nextLn
      ensures Valid()
      ensures View() == old(View()).(forwards := old(View()).forwards[port := Target(old(nextLn), target)],
                                     open := old(open) + {old(nextLn)}, nextLn := old(nextLn) + 1)
    {
      open := open + {nextLn};
      nextLn := nextLn + 1;
      ghost var before := View();
      var f := new Forward(nextLn - 1, target);
      assert View() == before && f !in forwards.Values;
      Insert(port, f);
    }

    method Insert(port: nat, f: Forward)
      requires Valid() && port !in forwards && f !in forwards.Values
      modifies this`forwards
      ensures Valid()
      ensures View() == old(View()).(forwards := old(View()).forwards[port := Target(f.ln, f.target)])
    {
      forall p | p in forwards ensures forwards[p] != f {
        assert forwards[p] in forwards.Values;
      }
      forwards := forwards[port := f];
    }

    method CloseAll()
      requires Valid()
      modifies this`bridges, this`forwards, this`open, this`sockets
      ensures Valid() && View() == Close(old(View()))
    {
      CloseBridges();
      CloseForwards();
    }

    method CloseBridges()
      requires Valid()
      modifies this`bridges, this`open, this`sockets
      ensures Valid()
      ensures View() == old(View()).(bridges := map[], open := old(open) - old(bridges).Values,
                                     sockets := old(sockets) - (set p | p in old(bridges) :: BridgePath(vmDir, p)))
    {
      var ports := bridges.Keys;
      while ports != {}
        invariant ports <= bridges.Keys && bridges == old(bridges) && forwards == old(forwards) && nextLn == old(nextLn)
        invariant open == old(open) - (set p | p in bridges.Keys - ports :: bridges[p])
        invariant sockets == old(sockets) - (set p | p in bridges.Keys - ports :: BridgePath(vmDir, p))
        decreases |ports|
      {
        var p :| p in ports;
        open := open - {bridges[p]};
        sockets := sockets - {BridgePath(vmDir, p)};
        ports := ports - {p};
      }
      assert (set p | p in bridges.Keys :: bridges[p]) == bridges.Values;
      assert (set p | p in bridges.Keys :: BridgePath(vmDir, p)) == (set p | p in bridges :: BridgePath(vmDir, p));
      bridges := map[];
      assert View().forwards == old(View()).forwards;
    }

    method CloseForwards()
      requires Valid()
      modifies this`forwards, this`open
      ensures Valid()
      ensures var was := old(View());
              View() == was.(forwards := map[], open := was.open - Listeners(was.forwards, was.forwards.Keys))
    {
      CloseForwardListeners(View().forwards);
      forwards := map[];
    }

    method CloseForwardListeners(ghost was: map<nat, Target>)
      requires was.Keys == forwards.Keys && forall p :: p in forwards ==> was[p].ln == forwards[p].ln
      modifies this`open
      ensures open == old(open) - Listeners(was, was.Keys)
    {
      var ports := forwards.Keys;
      while ports != {}
        invariant ports <= forwards.Keys
        invariant open == old(open) - Listeners(was, was.Keys - ports)
        decreases |ports|
      {
        var p :| p in ports;
        ListenersGrow(was, was.Keys - ports, p);
        assert was.Keys - ports + {p} == was.Keys - (ports - {p});
        open := open - {forwards[p].ln};
        ports := ports - {p};
      }
      assert was.Keys - ports == was.Keys;
    }
  }
}
