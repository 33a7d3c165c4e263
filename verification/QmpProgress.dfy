/**
 What the owner's callers and QEMU can always do: the runs of the step system seen from the other side.
 What was sent is what was asked, no caller is ever stuck, and whoever waits can be given what the reader
 has been sent.
 */
module QmpProgress {
  import opened Wrappers
  import opened QmpOwner
  import opened QmpRuns

  // ----- the two directions of the socket

  // The commands the callers of a run put on the socket, as they gave them.
  function Written(run: seq<Action>): seq<Command> {
    if run == [] then [] else
      var before := Written(run[..|run| - 1]);
      match run[|run| - 1]
      case Write(c, verb) => before + [Command(c, verb)]
      case WriteFails(c, verb, arrived) => if arrived then before + [Command(c, verb)] else before
      case _ => before
  }

  // What QEMU put on it in return: the n-th answer is to the n-th command.
  function Answered(run: seq<Action>): seq<Body> {
    if run == [] then [] else
      var before := Answered(run[..|run| - 1]);
      match run[|run| - 1]
      case QemuAnswer(body) => before + [body]
      case _ => before
  }

  function Put(run: seq<Action>): seq<Line> {
    if run == [] then [] else
      var before := Put(run[..|run| - 1]);
      match run[|run| - 1]
      case QemuAnswer(body) => before + [ReplyLine(Reply(|Answered(run[..|run| - 1])|, body))]
      case QemuEvent(e) => before + [EventLine(e)]
      case QemuJunk => before + [JunkLine]
      case _ => before
  }

  // What one step adds to each.
  lemma {:induction false} StepCarries(s: State, a: Action)
    requires Enabled(s, a)
    ensures var s' := Apply(s, a);
            && s'.sent == s.sent + Written([a]) && s'.answers == s.answers + Answered([a])
            && s'.stream == s.stream + match a
                                       case QemuAnswer(body) => [ReplyLine(Reply(|s.answers|, body))]
                                       case QemuEvent(e) => [EventLine(e)]
                                       case QemuJunk => [JunkLine]
                                       case _ => []
  {
    assert [a][..0] == [];
    assert s.sent + [] == s.sent && s.answers + [] == s.answers && s.stream + [] == s.stream;
  }

  lemma {:induction false} LastAdds(run: seq<Action>)
    requires run != []
    ensures var before, a := run[..|run| - 1], run[|run| - 1];
            && Written(run) == Written(before) + Written([a]) && Answered(run) == Answered(before) + Answered([a])
            && Put(run) == Put(before) + match a
                                         case QemuAnswer(body) => [ReplyLine(Reply(|Answered(before)|, body))]
                                         case QemuEvent(e) => [EventLine(e)]
                                         case QemuJunk => [JunkLine]
                                         case _ => []
  {
    var before, a := run[..|run| - 1], run[|run| - 1];
    assert [a][..0] == [];
    assert Written(before) + [] == Written(before) && Answered(before) + [] == Answered(before)
           && Put(before) + [] == Put(before);
  }

  /** The socket carries what the callers gave and what QEMU answered, in order and unchanged. */
  lemma {:induction false} SocketCarriesWhatWasGiven(cb: bool, run: seq<Action>)
    requires IsRun(cb, run)
    ensures var s := After(cb, run); s.sent == Written(run) && s.answers == Answered(run) && s.stream == Put(run)
  {
    if run != [] {
      var before, a := run[..|run| - 1], run[|run| - 1];
      SocketCarriesWhatWasGiven(cb, before);
      LastAdds(run);
      StepCarries(After(cb, before), a);
      assert After(cb, run) == Apply(After(cb, before), a);
    }
  }

  // Command number `i` is what `c` asked for in step `n`.
  ghost predicate Asked(run: seq<Action>, n: nat, i: nat, c: nat, verb: string) {
    && n < |run| && |Written(run[..n])| == i
    && (run[n] == Write(c, verb) || run[n] == WriteFails(c, verb, true))
  }

  lemma {:induction false} WrittenWasAsked(run: seq<Action>, i: nat) returns (n: nat)
    requires i < |Written(run)|
    ensures Asked(run, n, i, Written(run)[i].caller, Written(run)[i].verb)
  {
    var last := |run| - 1;
    if i < |Written(run[..last])| {
      n := WrittenWasAsked(run[..last], i);
      assert run[..last][..n] == run[..n];
    } else {
      n := last;
    }
  }

  /** The command a call was answered for, if it was, is the one its caller asked for. */
  lemma {:induction false} OwnCommandWasAsked(cb: bool, run: seq<Action>, i: nat) returns (n: nat)
    requires IsRun(cb, run) && i < |After(cb, run).calls| && After(cb, run).calls[i].outcome.Replied?
    ensures var s := After(cb, run);
            var k := s.calls[i];
            k.own < |s.sent| && Asked(run, n, k.own, k.caller, s.sent[k.own].verb)
  {
    SocketCarriesWhatWasGiven(cb, run);
    RunKeepsInv(cb, run);
    var s := After(cb, run);
    assert CallOk(s, s.calls[i]);
    n := WrittenWasAsked(run, s.calls[i].own);
  }

  // ----- callers that wait

  lemma {:induction false} SlotIsFull(s: State, c: nat)
    requires Inv(s) && c in s.pcs && s.pcs[c].Waiting? && s.pos == |s.stream| && s.pcs[c].mark < |s.answers|
    ensures s.respCh == Some(Reply(s.pcs[c].mark, s.answers[s.pcs[c].mark]))
  {
    assert PcOk(s, c, s.pcs[c]);
    assert s.stream[..s.pos] == s.stream;
  }

  /** Whoever waits while QEMU has answered the first command not offered at its drain, its own if nothing was
      outstanding, can be given that answer, result or error, after steps of the reader alone. */
  lemma {:induction false} WaitingCallerIsServed(cb: bool, run: seq<Action>, c: nat) returns (steps: seq<Action>)
    requires IsRun(cb, run)
    requires var s := After(cb, run);
             c in s.pcs && s.pcs[c].Waiting? && s.readErr.None? && s.pcs[c].mark < |s.answers|
    ensures OnlyReader(steps) && IsRun(cb, run + steps + [Receive(c)])
    ensures var s, pc := After(cb, run), After(cb, run).pcs[c];
            After(cb, run + steps + [Receive(c)]).calls ==
            s.calls + [Call(c, pc.own, pc.mark, Replied(Reply(pc.mark, s.answers[pc.mark])))]
    ensures var e := After(cb, run + steps + [Receive(c)]); e.sent == After(cb, run).sent && Enabled(e, Unlock(c))
  {
    steps := ReaderNeedsNobody(cb, run);
    RunKeepsInv(cb, run + steps);
    Served(After(cb, run + steps), c);
    Extend(cb, run + steps, Receive(c));
  }

  lemma {:induction false} Served(s: State, c: nat)
    requires Inv(s) && c in s.pcs && s.pcs[c].Waiting? && s.pos == |s.stream| && s.pcs[c].mark < |s.answers|
    ensures Enabled(s, Receive(c))
    ensures var pc := s.pcs[c];
            Apply(s, Receive(c)).calls ==
            s.calls + [Call(c, pc.own, pc.mark, Replied(Reply(pc.mark, s.answers[pc.mark])))]
    ensures Apply(s, Receive(c)).sent == s.sent && Enabled(Apply(s, Receive(c)), Unlock(c))
  {
    SlotIsFull(s, c);
  }

  /** Whoever waits when the reader has failed can be told its error. */
  lemma {:induction false} WaitingCallerIsTold(cb: bool, run: seq<Action>, c: nat)
    requires IsRun(cb, run)
    requires var s := After(cb, run); c in s.pcs && s.pcs[c].Waiting? && s.readErr.Some?
    ensures IsRun(cb, run + [CloseDone] + [SeeDone(c)])
    ensures var s, pc := After(cb, run), After(cb, run).pcs[c];
            After(cb, run + [CloseDone] + [SeeDone(c)]).calls ==
            s.calls + [Call(c, pc.own, pc.mark, ConnectionDown(s.readErr.value))]
  {
    RunKeepsInv(cb, run);
    Extend(cb, run, CloseDone);
    Extend(cb, run + [CloseDone], SeeDone(c));
  }

  /** And the connection can fail with any error while the reader has no line in hand. */
  lemma {:induction false} FailureReachesTheCaller(cb: bool, run: seq<Action>, c: nat, error: string)
    requires IsRun(cb, run)
    requires var s := After(cb, run); c in s.pcs && s.pcs[c].Waiting? && s.readErr.None? && !s.holding
    ensures var more := run + [ReadFails(error)] + [CloseDone] + [SeeDone(c)];
            && IsRun(cb, more)
            && var s, pc := After(cb, run), After(cb, run).pcs[c];
            After(cb, more).calls == s.calls + [Call(c, pc.own, pc.mark, ConnectionDown(error))]
  {
    RunKeepsInv(cb, run);
    Extend(cb, run, ReadFails(error));
    WaitingCallerIsTold(cb, run + [ReadFails(error)], c);
  }

  /** QEMU can send any event, or anything else, at any time; and while the connection is up the callback can be
      given the event, after all that came before it, by steps of the reader alone. */
  lemma {:induction false} AnyEventIsDelivered(run: seq<Action>, event: string) returns (steps: seq<Action>)
    requires IsRun(true, run) && After(true, run).readErr.None?
    ensures IsRun(true, run + [QemuJunk])
    ensures OnlyReader(steps) && IsRun(true, run + [QemuEvent(event)] + steps)
    ensures After(true, run + [QemuEvent(event)] + steps).delivered == Events(After(true, run).stream) + [event]
  {
    RunKeepsInv(true, run);
    Extend(true, run, QemuJunk);
    Extend(true, run, QemuEvent(event));
    var said := run + [QemuEvent(event)];
    steps := ReaderNeedsNobody(true, said);
    RunKeepsInv(true, said + steps);
    CallbackIsConstant(true, said + steps);
    AllDelivered(After(true, said + steps), After(true, run).stream, event);
  }

  lemma {:induction false} AllDelivered(s: State, before: seq<Line>, event: string)
    requires Inv(s) && s.hasCallback && s.stream == before + [EventLine(event)] && s.pos == |s.stream|
    ensures s.delivered == Events(before) + [event]
  {
    assert s.stream[..s.pos] == s.stream && s.stream[..|before|] == before;
  }

  // ----- no caller is stuck

  // A step of `c` towards the end of its call.
  function NextStep(pc: Pc, c: nat): Action {
    match pc
    case Locked => Drain(c)
    case Drained(_) => Write(c, "")
    case Waiting(_, _) => Timeout(c)
    case Returning => Unlock(c)
  }

  function Ahead(pc: Pc): nat {
    match pc
    case Locked => 3
    case Drained(_) => 2
    case Waiting(_, _) => 1
    case Returning => 0
  }

  ghost predicate StepsOf(steps: seq<Action>, c: nat) {
    forall i :: 0 <= i < |steps| ==>
                  var a := steps[i];
                  a == Drain(c) || (a.Write? && a.c == c) || a == Timeout(c) || a == Unlock(c)
  }

  lemma {:induction false} CallerMoves(s: State, c: nat)
    requires s.pos <= |s.stream| && c in s.pcs
    ensures Enabled(s, NextStep(s.pcs[c], c))
    ensures var s' := Apply(s, NextStep(s.pcs[c], c));
            && s'.pos <= |s'.stream|
            && (if s.pcs[c].Returning? then c !in s'.pcs && s'.holder.None?
                else c in s'.pcs && Ahead(s'.pcs[c]) < Ahead(s.pcs[c]))
  {
  }

  /** Whoever is inside Execute can always get out and leave the lock free, by its own steps alone. */
  lemma {:induction false} NoCallerIsStuck(cb: bool, run: seq<Action>, c: nat) returns (steps: seq<Action>)
    requires IsRun(cb, run) && c in After(cb, run).pcs
    ensures StepsOf(steps, c) && IsRun(cb, run + steps)
    ensures c !in After(cb, run + steps).pcs && After(cb, run + steps).holder.None?
    decreases Ahead(After(cb, run).pcs[c])
  {
    var s := After(cb, run);
    RunKeepsInv(cb, run);
    CallerMoves(s, c);
    var a := NextStep(s.pcs[c], c);
    Extend(cb, run, a);
    if s.pcs[c].Returning? {
      steps := [a];
    } else {
      var more := NoCallerIsStuck(cb, run + [a], c);
      steps := [a] + more;
      Regroup(run, [a], more);
    }
  }

  // ----- every call can succeed

  ghost predicate OnlyAnswers(steps: seq<Action>) {
    forall i :: 0 <= i < |steps| ==> steps[i].QemuAnswer?
  }

  // Nothing is owed: every command has been answered and every line read.
  ghost predicate Settled(s: State) {
    s.holder.None? && s.readErr.None? && |s.answers| == |s.sent| && s.pos == |s.stream| && !s.holding
  }

  ghost predicate SameCalls(s: State, s': State) {
    s'.sent == s.sent && s'.calls == s.calls && s'.holder == s.holder && s'.pcs == s.pcs && s'.readErr == s.readErr
  }

  lemma {:induction false} QemuCatchesUp(cb: bool, run: seq<Action>) returns (steps: seq<Action>)
    requires IsRun(cb, run)
    ensures OnlyAnswers(steps) && IsRun(cb, run + steps)
    ensures SameCalls(After(cb, run), After(cb, run + steps))
    ensures |After(cb, run + steps).answers| == |After(cb, run + steps).sent|
    decreases |After(cb, run).sent| - |After(cb, run).answers|
  {
    RunKeepsInv(cb, run);
    var s := After(cb, run);
    if |s.answers| == |s.sent| {
      steps := [];
      assert run + steps == run;
    } else {
      var a := QemuAnswer(Return(""));
      Extend(cb, run, a);
      var more := QemuCatchesUp(cb, run + [a]);
      steps := [a] + more;
      Regroup(run, [a], more);
    }
  }

  lemma {:induction false} Settles(cb: bool, run: seq<Action>) returns (steps: seq<Action>)
    requires IsRun(cb, run) && After(cb, run).readErr.None? && After(cb, run).holder.None?
    ensures (forall i :: 0 <= i < |steps| ==> Background(steps[i])) && IsRun(cb, run + steps)
    ensures Settled(After(cb, run + steps)) && SameCalls(After(cb, run), After(cb, run + steps))
  {
    var owed := QemuCatchesUp(cb, run);
    var read := ReaderNeedsNobody(cb, run + owed);
    steps := owed + read;
    Regroup(run, owed, read);
  }

  // The start of a call when nothing is owed.
  lemma {:induction false} LocksAndDrains(cb: bool, run: seq<Action>, c: nat)
    requires IsRun(cb, run) && Settled(After(cb, run))
    ensures IsRun(cb, run + [Lock(c)] + [Drain(c)])
    ensures var s, e := After(cb, run), After(cb, run + [Lock(c)] + [Drain(c)]);
            && c in e.pcs && e.pcs[c] == Drained(|s.sent|) && e.readErr.None? && e.calls == s.calls
            && e.sent == s.sent && e.answers == s.answers && e.pos <= |e.stream|
  {
    RunKeepsInv(cb, run);
    var s := After(cb, run);
    assert s.stream[..s.pos] == s.stream;
    Extend(cb, run, Lock(c));
    Extend(cb, run + [Lock(c)], Drain(c));
  }

  lemma {:induction false} AsksAndIsAnswered(cb: bool, run: seq<Action>, c: nat, verb: string, body: Body)
    requires IsRun(cb, run)
    requires var s := After(cb, run);
             s.pos <= |s.stream| && c in s.pcs && s.pcs[c].Drained? && |s.answers| == |s.sent|
    ensures IsRun(cb, run + [Write(c, verb)] + [QemuAnswer(body)])
    ensures var s, e := After(cb, run), After(cb, run + [Write(c, verb)] + [QemuAnswer(body)]);
            && c in e.pcs && e.pcs[c] == Waiting(|s.sent|, s.pcs[c].mark) && e.readErr == s.readErr
            && e.calls == s.calls && e.sent == s.sent + [Command(c, verb)] && e.answers == s.answers + [body]
  {
    Extend(cb, run, Write(c, verb));
    Extend(cb, run + [Write(c, verb)], QemuAnswer(body));
  }

  // A waiting caller served and gone: the run goes on to `more`.
  lemma {:induction false} ServedAndGone(cb: bool, run: seq<Action>, c: nat) returns (more: seq<Action>)
    requires IsRun(cb, run)
    requires var s := After(cb, run);
             c in s.pcs && s.pcs[c].Waiting? && s.readErr.None? && s.pcs[c].mark < |s.answers|
    ensures run <= more && IsRun(cb, more) && After(cb, more).holder.None?
    ensures var s, pc := After(cb, run), After(cb, run).pcs[c];
            && After(cb, more).sent == s.sent
            && After(cb, more).calls == s.calls + [Call(c, pc.own, pc.mark, Replied(Reply(pc.mark, s.answers[pc.mark])))]
  {
    var read := WaitingCallerIsServed(cb, run, c);
    var served := run + read + [Receive(c)];
    Extend(cb, served, Unlock(c));
    more := served + [Unlock(c)];
  }

  lemma {:induction false} SettledCallIsAnswered(cb: bool, run: seq<Action>, c: nat, verb: string, body: Body)
    returns (more: seq<Action>)
    requires IsRun(cb, run) && Settled(After(cb, run))
    ensures run <= more && IsRun(cb, more) && After(cb, more).holder.None?
    ensures var s, e, own := After(cb, run), After(cb, more), |After(cb, run).sent|;
            && e.sent == s.sent + [Command(c, verb)]
            && e.calls == s.calls + [Call(c, own, own, Replied(Reply(own, body)))]
  {
    LocksAndDrains(cb, run, c);
    var drained := run + [Lock(c)] + [Drain(c)];
    AsksAndIsAnswered(cb, drained, c, verb, body);
    more := ServedAndGone(cb, drained + [Write(c, verb)] + [QemuAnswer(body)], c);
  }

  /** While the connection is up and nobody is inside Execute, any caller can run any command, QEMU can answer
      it with any result or error, and that answer is what the caller is given. */
  lemma {:induction false} AnyCallCanBeAnswered(cb: bool, run: seq<Action>, c: nat, verb: string, body: Body)
    returns (more: seq<Action>)
    requires IsRun(cb, run) && After(cb, run).readErr.None? && After(cb, run).holder.None?
    ensures run <= more && IsRun(cb, more) && After(cb, more).holder.None?
    ensures var s, e, own := After(cb, run), After(cb, more), |After(cb, run).sent|;
            && e.sent == s.sent + [Command(c, verb)]
            && e.calls == s.calls + [Call(c, own, own, Replied(Reply(own, body)))]
  {
    var settle := Settles(cb, run);
    more := SettledCallIsAnswered(cb, run + settle, c, verb, body);
  }
}
