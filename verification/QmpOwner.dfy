/**
 The connection owner of `internal/qemu/qmp_owner.go` as a step system.

 One socket is shared by QEMU (which answers commands first-in first-out and
 interleaves events), one reader goroutine, and any number of `Execute` callers
 serialised by `cmdMu`. Replies carry no identifier on the wire; the number a
 reply carries here is the position of the command it answers in the send order,
 which no step below reads: it only serves to state the properties.
 */
module QmpOwner {
  import opened Wrappers

  datatype Body = Return(payload: string) | Error(desc: string)

  datatype Reply = Reply(cmd: nat, body: Body)

  // One line read from the socket, as `readLoop` classifies it.
  datatype Line = EventLine(event: string) | ReplyLine(reply: Reply) | JunkLine

  datatype Command = Command(caller: nat, verb: string)

  // Where a caller stands inside `Execute`; a caller outside `Execute` has no program counter.
  // `mark` is how many replies the reader had offered to `respCh` when the caller drained it.
  datatype Pc =
    | Locked
    | Drained(mark: nat)
    | Waiting(own: nat, mark: nat)
    | Returning

  datatype Outcome =
    | Replied(reply: Reply)
    | ConnectionDown(error: string)
    | TimedOut
    | WriteFailed

  // A finished exchange: the number `own` the command has in the send order (the number
  // of commands sent before it), the drain mark, and what `Execute` returned.
  datatype Call = Call(caller: nat, own: nat, mark: nat, outcome: Outcome)

  datatype State = State(
    // shared by the callers
    holder: Option<nat>,
    pcs: map<nat, Pc>,
    // the two directions of the socket
    sent: seq<Command>,
    answers: seq<Body>,
    stream: seq<Line>,
    // the reader: lines dealt with, and whether it has the next one in hand
    pos: nat,
    holding: bool,
    // QMPOwner's fields
    respCh: Option<Reply>,
    hasCallback: bool,
    readErr: Option<string>,
    done: bool,
    // what an observer has seen
    delivered: seq<string>,
    drained: seq<Reply>,
    dropped: seq<Reply>,
    calls: seq<Call>)

  datatype Action =
    | QemuAnswer(body: Body)
    | QemuEvent(event: string)
    | QemuJunk
    | Scan
    | Callback
    | Ignore
    | Offer
    | Skip
    | ReadFails(error: string)
    | CloseDone
    | Lock(c: nat)
    | Drain(c: nat)
    | Write(c: nat, verb: string)
    | WriteFails(c: nat, verb: string, arrived: bool)
    | Receive(c: nat)
    | SeeDone(c: nat)
    | Timeout(c: nat)
    | Unlock(c: nat)

  const ClosedError := "QMP: connection closed"

  function Replies(lines: seq<Line>): seq<Reply> {
    if lines == [] then [] else
      var rest := Replies(lines[..|lines| - 1]);
      match lines[|lines| - 1]
      case ReplyLine(r) => rest + [r]
      case _ => rest
  }

  function Events(lines: seq<Line>): seq<string> {
    if lines == [] then [] else
      var rest := Events(lines[..|lines| - 1]);
      match lines[|lines| - 1]
      case EventLine(e) => rest + [e]
      case _ => rest
  }

  // How many replies the reader has taken off the socket and offered to `respCh`.
  function Offered(s: State): nat
    requires s.pos <= |s.stream|
  {
    |Replies(s.stream[..s.pos])|
  }

  function Init(hasCallback: bool): State {
    State(None, map[], [], [], [], 0, false, None, hasCallback, None, false, [], [], [], [])
  }

  predicate At(s: State, c: nat) {
    s.pos <= |s.stream| && c in s.pcs
  }

  predicate InHand(s: State) {
    s.holding && s.pos < |s.stream|
  }

  // The four ways `readLoop` disposes of a line. The two for a reply are the branches of its
  // select: the send is ready while the slot is empty, the default is for when it is not.
  predicate HandsOver(a: Action) {
    a.Callback? || a.Ignore? || a.Offer? || a.Skip?
  }

  predicate Enabled(s: State, a: Action) {
    s.pos <= |s.stream| &&
    match a
    case QemuAnswer(_) => |s.answers| < |s.sent|
    case QemuEvent(_) => true
    case QemuJunk => true
    case Scan => s.readErr.None? && !s.holding && s.pos < |s.stream|
    case Callback => InHand(s) && s.stream[s.pos].EventLine? && s.hasCallback
    case Ignore => InHand(s) && (s.stream[s.pos].JunkLine? || (s.stream[s.pos].EventLine? && !s.hasCallback))
    case Offer => InHand(s) && s.stream[s.pos].ReplyLine? && s.respCh.None?
    case Skip => InHand(s) && s.stream[s.pos].ReplyLine? && s.respCh.Some?
    case ReadFails(_) => s.readErr.None? && !s.holding
    case CloseDone => s.readErr.Some?
    case Lock(c) => s.holder.None? && c !in s.pcs
    case Drain(c) => At(s, c) && s.pcs[c].Locked?
    case Write(c, _) => At(s, c) && s.pcs[c].Drained?
    case WriteFails(c, _, _) => At(s, c) && s.pcs[c].Drained?
    case Receive(c) => At(s, c) && s.pcs[c].Waiting? && s.respCh.Some?
    case SeeDone(c) => At(s, c) && s.pcs[c].Waiting? && s.done
    case Timeout(c) => At(s, c) && s.pcs[c].Waiting?
    case Unlock(c) => At(s, c) && s.pcs[c].Returning?
  }

  function Finish(s: State, c: nat, own: nat, mark: nat, outcome: Outcome): State {
    s.(pcs := s.pcs[c := Returning], calls := s.calls + [Call(c, own, mark, outcome)])
  }

  function Apply(s: State, a: Action): State
    requires Enabled(s, a)
  {
    match a
    case QemuAnswer(body) =>
      s.(answers := s.answers + [body], stream := s.stream + [ReplyLine(Reply(|s.answers|, body))])
    case QemuEvent(e) => s.(stream := s.stream + [EventLine(e)])
    case QemuJunk => s.(stream := s.stream + [JunkLine])
    case Scan => s.(holding := true)
    case Callback => s.(pos := s.pos + 1, holding := false, delivered := s.delivered + [s.stream[s.pos].event])
    case Ignore => s.(pos := s.pos + 1, holding := false)
    case Offer => s.(pos := s.pos + 1, holding := false, respCh := Some(s.stream[s.pos].reply))
    case Skip => s.(pos := s.pos + 1, holding := false, dropped := s.dropped + [s.stream[s.pos].reply])
    case ReadFails(e) => s.(readErr := Some(e))
    case CloseDone => s.(done := true)
    case Lock(c) => s.(holder := Some(c), pcs := s.pcs[c := Locked])
    case Drain(c) =>
      var s' := s.(respCh := None, pcs := s.pcs[c := Drained(Offered(s))]);
      if s.respCh.Some? then s'.(drained := s.drained + [s.respCh.value]) else s'
    case Write(c, verb) =>
      s.(sent := s.sent + [Command(c, verb)], pcs := s.pcs[c := Waiting(|s.sent|, s.pcs[c].mark)])
    case WriteFails(c, verb, arrived) =>
      var s' := Finish(s, c, |s.sent|, s.pcs[c].mark, WriteFailed);
      if arrived then s'.(sent := s.sent + [Command(c, verb)]) else s'
    case Receive(c) =>
      Finish(s.(respCh := None), c, s.pcs[c].own, s.pcs[c].mark, Replied(s.respCh.value))
    case SeeDone(c) =>
      var err := if s.readErr.Some? then s.readErr.value else ClosedError;
      Finish(s, c, s.pcs[c].own, s.pcs[c].mark, ConnectionDown(err))
    case Timeout(c) => Finish(s, c, s.pcs[c].own, s.pcs[c].mark, TimedOut)
    case Unlock(c) => s.(holder := None, pcs := s.pcs - {c})
  }

  // A run is a sequence of actions, each enabled where it is taken.
  predicate IsRun(cb: bool, run: seq<Action>)
    decreases |run|, 0
  {
    run == [] ||
    (IsRun(cb, run[..|run| - 1]) && Enabled(After(cb, run[..|run| - 1]), run[|run| - 1]))
  }

  function After(cb: bool, run: seq<Action>): State
    requires IsRun(cb, run)
    decreases |run|, 1
  {
    if run == [] then Init(cb) else Apply(After(cb, run[..|run| - 1]), run[|run| - 1])
  }

  // The same from any state on.
  predicate IsPath(s: State, steps: seq<Action>)
    decreases |steps|
  {
    steps == [] || (Enabled(s, steps[0]) && IsPath(Apply(s, steps[0]), steps[1..]))
  }

  function End(s: State, steps: seq<Action>): State
    requires IsPath(s, steps)
    decreases |steps|
  {
    if steps == [] then s else End(Apply(s, steps[0]), steps[1..])
  }

  lemma {:induction false} PathFrom(s: State, a: Action, more: seq<Action>)
    requires Enabled(s, a) && IsPath(Apply(s, a), more)
    ensures IsPath(s, [a] + more) && End(s, [a] + more) == End(Apply(s, a), more)
  {
    assert ([a] + more)[1..] == more;
  }

  lemma {:induction false} Extend(cb: bool, run: seq<Action>, a: Action)
    requires IsRun(cb, run) && Enabled(After(cb, run), a)
    ensures IsRun(cb, run + [a]) && After(cb, run + [a]) == Apply(After(cb, run), a)
  {
    assert (run + [a])[..|run|] == run;
  }

  lemma {:induction false} PathExtends(cb: bool, run: seq<Action>, steps: seq<Action>)
    requires IsRun(cb, run) && IsPath(After(cb, run), steps)
    ensures IsRun(cb, run + steps) && After(cb, run + steps) == End(After(cb, run), steps)
    decreases |steps|
  {
    if steps == [] {
      assert run + steps == run;
    } else {
      Extend(cb, run, steps[0]);
      PathExtends(cb, run + [steps[0]], steps[1..]);
      assert run + [steps[0]] + steps[1..] == run + steps;
    }
  }

  // The states a sequence of steps goes through.
  ghost predicate IsTrail(run: seq<Action>, states: seq<State>) {
    |states| == |run| + 1 && forall i :: 0 <= i < |run| ==> StepAt(run, states, i)
  }

  ghost predicate StepAt(run: seq<Action>, states: seq<State>, i: nat) {
    && i < |run| && i + 1 < |states|
    && Enabled(states[i], run[i]) && states[i + 1] == Apply(states[i], run[i])
  }

  lemma {:induction false} TrailGrows(run: seq<Action>, states: seq<State>, a: Action)
    requires IsTrail(run, states) && Enabled(states[|run|], a)
    ensures IsTrail(run + [a], states + [Apply(states[|run|], a)])
  {
    var run', states' := run + [a], states + [Apply(states[|run|], a)];
    forall i | 0 <= i < |run'| ensures StepAt(run', states', i) {
      if i < |run| {
        assert StepAt(run, states, i);
      }
    }
  }

  lemma {:induction false} TrailIsRun(cb: bool, run: seq<Action>, states: seq<State>)
    requires IsTrail(run, states) && states[0] == Init(cb)
    ensures IsRun(cb, run) && After(cb, run) == states[|run|]
  {
    if run != [] {
      var n := |run| - 1;
      var before, passed := run[..n], states[..n + 1];
      forall i | 0 <= i < n ensures StepAt(before, passed, i) {
        assert StepAt(run, states, i);
      }
      TrailIsRun(cb, before, passed);
      assert StepAt(run, states, n);
    }
  }

  // A step of QEMU or of the reader: what goes on around a caller that holds the lock.
  predicate Background(a: Action) {
    a.QemuAnswer? || a.QemuEvent? || a.QemuJunk? || a.Scan? || HandsOver(a) || a.ReadFails? || a.CloseDone?
  }

  // What no such step touches.
  predicate SameCallers(s: State, s': State) {
    s'.pcs == s.pcs && s'.holder == s.holder && s'.calls == s.calls && s'.sent == s.sent
  }

  lemma {:induction false} BackgroundKeepsCallers(run: seq<Action>, states: seq<State>, i: nat, j: nat)
    requires IsTrail(run, states) && i <= j <= |run| && forall k :: i <= k < j ==> Background(run[k])
    ensures SameCallers(states[i], states[j])
    decreases j
  {
    if i < j {
      BackgroundKeepsCallers(run, states, i, j - 1);
      assert StepAt(run, states, j - 1);
      OneKeepsCallers(states[j - 1], run[j - 1]);
    }
  }

  lemma {:induction false} OneKeepsCallers(s: State, a: Action)
    requires Enabled(s, a) && Background(a)
    ensures SameCallers(s, Apply(s, a))
  {
  }

  // A schedule of one `Execute` of `c` up to its unlocking: lock, drain at `d`, write at `w` and, if that
  // succeeds, one branch of the select at `b`; all other steps are QEMU's and the reader's.
  predicate IsExchange(c: nat, run: seq<Action>, d: nat, w: nat, b: nat) {
    && 0 < d < w <= b < |run| && run[0] == Lock(c) && run[d] == Drain(c)
    && (run[w].Write? || run[w].WriteFails?) && run[w].c == c
    && (if run[w].Write? then w < b && IsBranch(c, run[b]) else w == b)
    && forall k :: 0 < k < |run| && k != d && k != w && k != b ==> Background(run[k])
  }

  predicate IsBranch(c: nat, a: Action) {
    (a.Receive? || a.SeeDone? || a.Timeout?) && a.c == c
  }

  lemma {:induction false} AtWrite(c: nat, run: seq<Action>, path: seq<State>, d: nat, w: nat, b: nat)
    requires IsTrail(run, path) && IsExchange(c, run, d, w, b)
    ensures path[d].pos <= |path[d].stream|
    ensures path[w].pcs == path[d].pcs[c := Drained(Offered(path[d]))]
    ensures path[w].sent == path[d].sent && path[w].calls == path[d].calls == path[0].calls
  {
    assert StepAt(run, path, 0);
    BackgroundKeepsCallers(run, path, 1, d);
    assert StepAt(run, path, d);
    BackgroundKeepsCallers(run, path, d + 1, w);
  }

  lemma {:induction false} AtSelect(c: nat, run: seq<Action>, path: seq<State>, d: nat, w: nat, b: nat)
    requires IsTrail(run, path) && IsExchange(c, run, d, w, b) && run[w].Write?
    ensures path[d].pos <= |path[d].stream|
    ensures var e := path[b];
            && c in e.pcs && e.pcs[c] == Waiting(|path[d].sent|, Offered(path[d])) && e.calls == path[0].calls
  {
    AtWrite(c, run, path, d, w, b);
    assert StepAt(run, path, w);
    BackgroundKeepsCallers(run, path, w + 1, b);
  }

  lemma {:induction false} AtEnd(c: nat, run: seq<Action>, path: seq<State>, d: nat, w: nat, b: nat)
    requires IsTrail(run, path) && IsExchange(c, run, d, w, b)
    ensures Enabled(path[|run|], Unlock(c))
  {
    assert StepAt(run, path, b) && StepAt(run, path, |run| - 1);
    Returns(path[b], run[b], c);
    BackgroundKeepsCallers(run, path, b + 1, |run|);
    StaysInStream(path[|run| - 1], run[|run| - 1]);
  }

  // Nothing but the write itself adds to what is sent.
  lemma {:induction false} SentAtEnd(c: nat, run: seq<Action>, path: seq<State>, d: nat, w: nat, b: nat)
    requires IsTrail(run, path) && IsExchange(c, run, d, w, b) && run[w].Write?
    ensures path[|run|].sent == path[d].sent + [Command(c, run[w].verb)]
  {
    AtWrite(c, run, path, d, w, b);
    assert StepAt(run, path, w) && StepAt(run, path, b);
    BackgroundKeepsCallers(run, path, w + 1, b);
    BranchSendsNothing(path[b], run[b], c);
    BackgroundKeepsCallers(run, path, b + 1, |run|);
  }

  lemma {:induction false} BranchSendsNothing(s: State, a: Action, c: nat)
    requires Enabled(s, a) && IsBranch(c, a)
    ensures Apply(s, a).sent == s.sent
  {
  }

  lemma {:induction false} StaysInStream(s: State, a: Action)
    requires Enabled(s, a)
    ensures Apply(s, a).pos <= |Apply(s, a).stream|
  {
  }

  lemma {:induction false} Returns(s: State, a: Action, c: nat)
    requires Enabled(s, a) && (IsBranch(c, a) || (a.WriteFails? && a.c == c))
    ensures Enabled(Apply(s, a), Unlock(c))
  {
  }

  // What becomes of the line in hand.
  function HandOver(s: State): State
    requires s.pos < |s.stream|
  {
    var s' := s.(pos := s.pos + 1, holding := false);
    match s.stream[s.pos]
    case EventLine(e) => if s.hasCallback then s'.(delivered := s.delivered + [e]) else s'
    case JunkLine => s'
    case ReplyLine(r) => if s.respCh.None? then s'.(respCh := Some(r)) else s'.(dropped := s.dropped + [r])
  }

  lemma {:induction false} HandOverIs(s: State, a: Action)
    requires Enabled(s, a) && HandsOver(a)
    ensures s.pos < |s.stream| && s.holding && Apply(s, a) == HandOver(s)
  {
  }

  // ----- facts about streams

  lemma {:induction false} RepliesOfPrefix(lines: seq<Line>, n: nat)
    requires n <= |lines|
    ensures Replies(lines[..n]) <= Replies(lines)
  {
    if n == |lines| {
      assert lines[..n] == lines;
    } else {
      RepliesOfPrefix(lines[..|lines| - 1], n);
      assert lines[..|lines| - 1][..n] == lines[..n];
    }
  }

  lemma {:induction false} OneMore(lines: seq<Line>, n: nat)
    requires n < |lines|
    ensures lines[..n + 1][..n] == lines[..n]
    ensures Replies(lines[..n + 1]) ==
            if lines[n].ReplyLine? then Replies(lines[..n]) + [lines[n].reply] else Replies(lines[..n])
    ensures Events(lines[..n + 1]) ==
            if lines[n].EventLine? then Events(lines[..n]) + [lines[n].event] else Events(lines[..n])
  {
    assert lines[..n + 1][..n] == lines[..n];
  }

  lemma {:induction false} CountAfter(lines: seq<Line>, n: nat)
    requires n < |lines|
    ensures |Replies(lines[..n + 1])| == |Replies(lines[..n])| + (if lines[n].ReplyLine? then 1 else 0)
    ensures |Replies(lines[..n + 1])| <= |Replies(lines)|
  {
    OneMore(lines, n);
    RepliesOfPrefix(lines, n + 1);
  }

  lemma {:induction false} Appended(lines: seq<Line>, l: Line, pos: nat)
    requires pos <= |lines|
    ensures Replies(lines + [l]) == if l.ReplyLine? then Replies(lines) + [l.reply] else Replies(lines)
    ensures (lines + [l])[..pos] == lines[..pos]
  {
    assert (lines + [l])[..|lines|] == lines;
  }

  // ----- the invariant

  // `cmdMu`: the one caller inside `Execute` is the lock holder.
  ghost predicate MutualExclusion(s: State) {
    s.pcs.Keys == if s.holder.Some? then {s.holder.value} else {}
  }

  // QEMU answers in send order: the i-th reply of the stream is the answer to the i-th command.
  ghost predicate Fifo(s: State) {
    && s.pos <= |s.stream|
    && |Replies(s.stream)| == |s.answers| <= |s.sent|
    && (forall i :: 0 <= i < |s.answers| ==> Replies(s.stream)[i] == Reply(i, s.answers[i]))
  }

  // The slot holds the first reply offered since it was last emptied.
  ghost predicate SlotSince(s: State, mark: nat)
    requires s.pos <= |s.stream|
  {
    && mark <= Offered(s)
    && s.respCh == if mark == Offered(s) then None else Some(Replies(s.stream[..s.pos])[mark])
  }

  // A caller past its drain will get the reply numbered `mark` or none, and every reply
  // already returned has a smaller number.
  ghost predicate PcOk(s: State, c: nat, pc: Pc)
    requires s.pos <= |s.stream|
  {
    match pc
    case Drained(mark) => SlotSince(s, mark) && mark <= |s.sent| && Past(s.calls, mark, |s.sent|)
    case Waiting(own, mark) =>
      && SlotSince(s, mark) && mark <= own && Past(s.calls, mark, own)
      && own + 1 == |s.sent| && s.sent[own].caller == c
    case _ => true
  }

  ghost predicate Past(calls: seq<Call>, mark: nat, own: nat) {
    forall i :: 0 <= i < |calls| && calls[i].outcome.Replied? ==> calls[i].mark < mark && calls[i].own < own
  }

  ghost predicate CallersOk(s: State)
    requires s.pos <= |s.stream|
  {
    && (s.respCh.Some? ==> s.respCh.value in Replies(s.stream[..s.pos]))
    && (forall c :: c in s.pcs ==> PcOk(s, c, s.pcs[c]))
  }

  // What a finished call got is the first reply offered after its drain.
  ghost predicate CallsOk(s: State) {
    && (forall i :: 0 <= i < |s.calls| ==> CallOk(s, s.calls[i]))
    && (forall i, j :: 0 <= i < j < |s.calls| && s.calls[i].outcome.Replied? ==>
          s.calls[i].mark < s.calls[j].mark && s.calls[i].own < s.calls[j].own)
  }

  ghost predicate CallOk(s: State, k: Call)
  {
    && s.pos <= |s.stream|
    && k.mark <= Offered(s)
    && k.mark <= k.own <= |s.sent|
    && (k.outcome.Replied? ==>
          k.mark < Offered(s) && k.own < |s.sent| && k.mark < |s.answers|
          && s.sent[k.own].caller == k.caller
          && k.outcome.reply == Reply(k.mark, s.answers[k.mark]))
    && (k.outcome.ConnectionDown? ==> s.readErr == Some(k.outcome.error))
  }

  ghost predicate ReaderOk(s: State)
    requires s.pos <= |s.stream|
  {
    && (s.done ==> s.readErr.Some?)
    && (s.holding ==> s.readErr.None? && s.pos < |s.stream|)
    && s.delivered == (if s.hasCallback then Events(s.stream[..s.pos]) else [])
  }

  ghost predicate Inv(s: State) {
    && MutualExclusion(s)
    && Fifo(s)
    && CallersOk(s)
    && CallsOk(s)
    && ReaderOk(s)
  }

  // Nothing a later state adds can change what a finished call is known to be.
  lemma {:induction false} CallsStay(s: State, s': State)
    requires CallsOk(s) && s.pos <= |s.stream| && s'.pos <= |s'.stream|
    requires s.calls == s'.calls && s.answers <= s'.answers && s.sent <= s'.sent
    requires Offered(s) <= Offered(s') && (s.readErr.Some? ==> s'.readErr == s.readErr)
    ensures CallsOk(s')
  {
    forall i | 0 <= i < |s'.calls| ensures CallOk(s', s'.calls[i]) {
      assert CallOk(s, s.calls[i]);
    }
  }

  lemma {:induction false} UnreadKeepsCallers(s: State, s': State)
    requires s.pos == s'.pos <= |s.stream| && s'.pos <= |s'.stream| && s'.stream[..s.pos] == s.stream[..s.pos]
    requires s'.pcs == s.pcs && s'.respCh == s.respCh && s'.calls == s.calls && s'.sent == s.sent
    requires CallersOk(s)
    ensures CallersOk(s')
  {
    forall c | c in s.pcs ensures PcOk(s', c, s.pcs[c]) {
      assert PcOk(s, c, s.pcs[c]);
    }
  }

  lemma {:induction false} QemuStepKeepsInv(s: State, a: Action)
    requires Inv(s) && Enabled(s, a) && (a.QemuAnswer? || a.QemuEvent? || a.QemuJunk?)
    ensures Inv(Apply(s, a))
  {
    var s' := Apply(s, a);
    Appended(s.stream, s'.stream[|s.stream|], s.pos);
    UnreadKeepsCallers(s, s');
    CallsStay(s, s');
  }

  lemma {:induction false} HandOverKeepsSlot(s: State, mark: nat)
    requires s.pos < |s.stream| && SlotSince(s, mark)
    ensures SlotSince(HandOver(s), mark)
  {
    OneMore(s.stream, s.pos);
  }

  lemma {:induction false} HandOverKeepsPc(s: State, c: nat, pc: Pc)
    requires s.pos < |s.stream| && PcOk(s, c, pc)
    ensures PcOk(HandOver(s), c, pc)
  {
    match pc
    case Drained(mark) => HandOverKeepsSlot(s, mark);
    case Waiting(_, mark) => HandOverKeepsSlot(s, mark);
    case _ =>
  }

  lemma {:induction false} HandOverKeepsCallers(s: State)
    requires Inv(s) && s.pos < |s.stream|
    ensures CallersOk(HandOver(s))
  {
    OneMore(s.stream, s.pos);
    forall c | c in s.pcs ensures PcOk(HandOver(s), c, s.pcs[c]) {
      HandOverKeepsPc(s, c, s.pcs[c]);
    }
  }

  lemma {:induction false} HandOverKeepsInv(s: State)
    requires Inv(s) && s.pos < |s.stream|
    ensures Inv(HandOver(s))
  {
    OneMore(s.stream, s.pos);
    CallsStay(s, HandOver(s));
    HandOverKeepsCallers(s);
  }

  lemma {:induction false} PastByNow(s: State)
    requires Fifo(s) && CallsOk(s)
    ensures Offered(s) <= |s.sent| && Past(s.calls, Offered(s), |s.sent|)
  {
    RepliesOfPrefix(s.stream, s.pos);
    forall i | 0 <= i < |s.calls| && s.calls[i].outcome.Replied?
      ensures s.calls[i].mark < Offered(s) && s.calls[i].own < |s.sent|
    {
      assert CallOk(s, s.calls[i]);
    }
  }

  lemma {:induction false} DrainKeepsCallers(s: State, c: nat)
    requires MutualExclusion(s) && Fifo(s) && CallsOk(s) && Enabled(s, Drain(c))
    ensures CallersOk(Apply(s, Drain(c))) && MutualExclusion(Apply(s, Drain(c)))
  {
    PastByNow(s);
    assert s.pcs.Keys == {c};
  }

  lemma {:induction false} DrainKeepsInv(s: State, c: nat)
    requires Inv(s) && Enabled(s, Drain(c))
    ensures Inv(Apply(s, Drain(c)))
  {
    DrainKeepsCallers(s, c);
    CallsStay(s, Apply(s, Drain(c)));
  }

  lemma {:induction false} CallAdded(s: State, s': State, k: Call)
    requires CallsOk(s) && s'.calls == s.calls + [k] && CallOk(s', k)
    requires s.pos == s'.pos <= |s.stream| && s.stream == s'.stream && s.answers == s'.answers
    requires s.sent <= s'.sent && s.readErr == s'.readErr
    requires Past(s.calls, k.mark, k.own)
    ensures CallsOk(s')
  {
    CallsStay(s, s'.(calls := s.calls));
    forall i | 0 <= i < |s'.calls| ensures CallOk(s', s'.calls[i]) {
      if i < |s.calls| {
        assert CallOk(s'.(calls := s.calls), s.calls[i]);
      }
    }
  }

  predicate EndsExchange(a: Action) {
    a.Receive? || a.SeeDone? || a.Timeout? || a.WriteFails?
  }

  // `s'` is `s` after the caller's call has ended as `k`.
  ghost predicate EndsCall(s: State, c: nat, k: Call, s': State) {
    && c in s.pcs && k.caller == c
    && s' == s.(pcs := s.pcs[c := Returning], calls := s.calls + [k], respCh := s'.respCh, sent := s'.sent)
    && (s'.respCh == s.respCh || s'.respCh == None) && s.sent <= s'.sent
  }

  lemma {:induction false} EndKeepsInv(s: State, c: nat, k: Call, s': State)
    requires Inv(s) && EndsCall(s, c, k, s') && CallOk(s', k) && Past(s.calls, k.mark, k.own)
    ensures Inv(s')
  {
    CallAdded(s, s', k);
    EndKeepsCallers(s, c, k, s');
  }

  lemma {:induction false} EndKeepsCallers(s: State, c: nat, k: Call, s': State)
    requires MutualExclusion(s) && s.pos <= |s.stream| && CallersOk(s) && EndsCall(s, c, k, s')
    ensures CallersOk(s') && MutualExclusion(s')
  {
    assert s.pcs.Keys == {c} == s'.pcs.Keys;
  }

  // `c` has drained, and perhaps written, with this mark and command number.
  ghost predicate InExchange(s: State, c: nat, mark: nat, own: nat) {
    c in s.pcs && (s.pcs[c] == Waiting(own, mark) || (s.pcs[c] == Drained(mark) && own == |s.sent|))
  }

  // The call a step ends: what it is, and that it is as the invariant wants it.
  lemma {:induction false} EndedCall(s: State, a: Action) returns (k: Call)
    requires Inv(s) && Enabled(s, a) && EndsExchange(a)
    ensures EndsCall(s, a.c, k, Apply(s, a)) && CallOk(Apply(s, a), k) && Past(s.calls, k.mark, k.own)
    ensures InExchange(s, k.caller, k.mark, k.own)
  {
    k := Apply(s, a).calls[|s.calls|];
    assert PcOk(s, a.c, s.pcs[a.c]);
    RepliesOfPrefix(s.stream, s.pos);
  }

  lemma {:induction false} WriteKeepsInv(s: State, a: Action)
    requires Inv(s) && Enabled(s, a) && a.Write?
    ensures Inv(Apply(s, a))
  {
    assert PcOk(s, a.c, s.pcs[a.c]);
    CallsStay(s, Apply(s, a));
  }

  lemma {:induction false} LockKeepsInv(s: State, a: Action)
    requires Inv(s) && Enabled(s, a) && (a.Lock? || a.Unlock?)
    ensures Inv(Apply(s, a))
  {
    CallsStay(s, Apply(s, a));
    assert s.pcs.Keys <= {a.c};
  }

  lemma {:induction false} ReaderKeepsInv(s: State, a: Action)
    requires Inv(s) && Enabled(s, a) && (a.Scan? || a.ReadFails? || a.CloseDone?)
    ensures Inv(Apply(s, a))
  {
    var s' := Apply(s, a);
    UnreadKeepsCallers(s, s');
    CallsStay(s, s');
  }

  lemma {:induction false} StepKeepsInv(s: State, a: Action)
    requires Inv(s) && Enabled(s, a)
    ensures Inv(Apply(s, a))
  {
    if a.QemuAnswer? || a.QemuEvent? || a.QemuJunk? {
      QemuStepKeepsInv(s, a);
    } else if HandsOver(a) {
      HandOverIs(s, a);
      HandOverKeepsInv(s);
    } else if a.Drain? {
      DrainKeepsInv(s, a.c);
    } else if a.Write? {
      WriteKeepsInv(s, a);
    } else if EndsExchange(a) {
      var k := EndedCall(s, a);
      EndKeepsInv(s, a.c, k, Apply(s, a));
    } else if a.Lock? || a.Unlock? {
      LockKeepsInv(s, a);
    } else {
      ReaderKeepsInv(s, a);
    }
  }

  lemma {:induction false} RunKeepsInv(cb: bool, run: seq<Action>)
    requires IsRun(cb, run)
    ensures Inv(After(cb, run))
  {
    if run != [] {
      RunKeepsInv(cb, run[..|run| - 1]);
      StepKeepsInv(After(cb, run[..|run| - 1]), run[|run| - 1]);
    }
  }
}
