/**
 The owner as the mutable object the source has: every atomic piece of `readLoop` and `Execute` is
 a method that updates the fields in place. The ghost history `trace` records the steps taken, and
 every method keeps it a run that ends in the object's state, so each theorem about runs holds of
 the object. `Execute` is composed from the pieces, with any steps of QEMU and the reader between.
 */
module QmpOwnerObject {
  import opened Wrappers
  import opened QmpOwner
  import opened QmpRuns

  class Owner {
    const hasCallback: bool
    var holder: Option<nat>
    var pcs: map<nat, Pc>
    var sent: seq<Command>
    var answers: seq<Body>
    var stream: seq<Line>
    var pos: nat
    var holding: bool
    var respCh: Option<Reply>
    var readErr: Option<string>
    var done: bool
    var delivered: seq<string>
    var drained: seq<Reply>
    var dropped: seq<Reply>
    var calls: seq<Call>
    ghost var trace: seq<Action>
    ghost var states: seq<State>

    function View(): State
      reads this
    {
      State(holder, pcs, sent, answers, stream, pos, holding, respCh, hasCallback, readErr, done,
            delivered, drained, dropped, calls)
    }

    // The history begins with a new owner and ends here.
    ghost predicate Valid()
      reads this
    {
      IsTrail(trace, states) && states[0] == Init(hasCallback) && states[|trace|] == View()
    }

    /** So the object is where a run leaves it, and has that run's invariant. */
    lemma {:induction false} HistoryIsARun()
      requires Valid()
      ensures IsRun(hasCallback, trace) && After(hasCallback, trace) == View() && Inv(View())
    {
      TrailIsRun(hasCallback, trace, states);
      RunKeepsInv(hasCallback, trace);
    }

    // What the last call was given.
    lemma {:induction false} LastOutcome()
      requires Valid() && calls != []
      ensures var last := calls[|calls| - 1];
              && (last.outcome.Replied? ==> AnswersEarlier(View(), last))
              && (last.outcome.ConnectionDown? ==> readErr == Some(last.outcome.error))
    {
      TrailIsRun(hasCallback, trace, states);
      LastCall(hasCallback, trace);
    }

    constructor (onEvent: bool)
      ensures Valid() && hasCallback == onEvent && trace == [] && View() == Init(onEvent)
    {
      hasCallback := onEvent;
      holder, pcs, sent, answers, stream, pos, holding := None, map[], [], [], [], 0, false;
      respCh, readErr, done := None, None, false;
      delivered, drained, dropped, calls := [], [], [], [];
      trace, states := [], [Init(onEvent)];
    }

    // Enters in the history the step just taken.
    ghost method Record(a: Action, before: State)
      requires IsTrail(trace, states) && states[0] == Init(hasCallback) && states[|trace|] == before
      requires Enabled(before, a) && View() == Apply(before, a)
      modifies this`trace, this`states
      ensures Valid() && trace == old(trace) + [a]
    {
      TrailGrows(trace, states, a);
      trace, states := trace + [a], states + [View()];
    }

    // scanner.Scan
    method ScanLine()
      requires Valid() && Enabled(View(), Scan)
      modifies this`holding, this`trace, this`states
      ensures Valid() && trace == old(trace) + [Scan] && View() == Apply(old(View()), Scan)
    {
      ghost var before := View();
      holding := true;
      Record(Scan, before);
    }

    // The rest of a turn of readLoop: classify the line, call back, or hand over without blocking.
    method DisposeOfLine()
      requires Valid() && InHand(View())
      modifies this`pos, this`holding, this`delivered, this`respCh, this`dropped, this`trace, this`states
      ensures Valid() && trace == old(trace) + [Disposal(old(View()))]
      ensures View() == Apply(old(View()), Disposal(old(View())))
    {
      ghost var before := View();
      DisposalIs(before);
      Dispatch();
      Record(Disposal(before), before);
    }

    method Dispatch()
      requires InHand(View())
      modifies this`pos, this`holding, this`delivered, this`respCh, this`dropped
      ensures View() == HandOver(old(View()))
    {
      match stream[pos] {
        case EventLine(ev) =>
          if hasCallback {
            delivered := delivered + [ev];
          }
        case JunkLine =>
        case ReplyLine(resp) =>
          if respCh.None? {
            respCh := Some(resp);
          } else {
            dropped := dropped + [resp];
          }
      }
      pos, holding := pos + 1, false;
    }

    // setReadErr: the first error stays.
    method SetReadErr(err: string)
      requires Valid() && Enabled(View(), ReadFails(err))
      modifies this`readErr, this`trace, this`states
      ensures Valid() && trace == old(trace) + [ReadFails(err)] && View() == Apply(old(View()), ReadFails(err))
    {
      ghost var before := View();
      if readErr.None? {
        readErr := Some(err);
      }
      Record(ReadFails(err), before);
    }

    method CloseDoneCh()
      requires Valid() && Enabled(View(), CloseDone)
      modifies this`done, this`trace, this`states
      ensures Valid() && trace == old(trace) + [CloseDone] && View() == Apply(old(View()), CloseDone)
    {
      ghost var before := View();
      done := true;
      Record(CloseDone, before);
    }

    // readLoop's exit: record the error, then close `done`.
    method StopReading(err: string)
      requires Valid() && Enabled(View(), ReadFails(err))
      modifies this`readErr, this`done, this`trace, this`states
      ensures Valid() && trace == old(trace) + [ReadFails(err)] + [CloseDone]
      ensures done && readErr == Some(err)
    {
      SetReadErr(err);
      CloseDoneCh();
    }

    method Acquire(c: nat)
      requires Valid() && Enabled(View(), Lock(c))
      modifies this`holder, this`pcs, this`trace, this`states
      ensures Valid() && trace == old(trace) + [Lock(c)] && View() == Apply(old(View()), Lock(c))
    {
      ghost var before := View();
      holder, pcs := Some(c), pcs[c := Locked];
      Record(Lock(c), before);
    }

    method DrainStale(c: nat)
      requires Valid() && Enabled(View(), Drain(c))
      modifies this`respCh, this`drained, this`pcs, this`trace, this`states
      ensures Valid() && trace == old(trace) + [Drain(c)] && View() == Apply(old(View()), Drain(c))
      ensures respCh.None?
    {
      ghost var before := View();
      if respCh.Some? {
        drained := drained + [respCh.value];
        respCh := None;
      }
      pcs := pcs[c := Drained(|Replies(stream[..pos])|)];
      Record(Drain(c), before);
    }

    // writeRequest: sent, or failed with the command possibly received all the same.
    method WriteRequest(c: nat, write: Action) returns (ok: bool)
      requires Valid() && Enabled(View(), write)
      requires (write.Write? || write.WriteFails?) && write.c == c
      modifies this`sent, this`pcs, this`calls, this`trace, this`states
      ensures Valid() && trace == old(trace) + [write] && View() == Apply(old(View()), write) && ok == write.Write?
    {
      ghost var before := View();
      ok := write.Write?;
      if ok {
        pcs := pcs[c := Waiting(|sent|, pcs[c].mark)];
        sent := sent + [Command(c, write.verb)];
      } else {
        calls := calls + [Call(c, |sent|, pcs[c].mark, WriteFailed)];
        pcs := pcs[c := Returning];
        if write.arrived {
          sent := sent + [Command(c, write.verb)];
        }
      }
      Record(write, before);
    }

    // The select of Execute: any branch that is ready may be the one taken. A reply received answers
    // the first command whose reply had not been offered when the caller drained, its own or an earlier one.
    method Select(c: nat, branch: Action) returns (outcome: Outcome)
      requires Valid() && IsBranch(c, branch) && Enabled(View(), branch)
      modifies this`respCh, this`pcs, this`calls, this`trace, this`states
      ensures Valid() && trace == old(trace) + [branch] && View() == Apply(old(View()), branch)
      ensures calls == old(calls) + [Call(c, old(pcs)[c].own, old(pcs)[c].mark, outcome)]
      ensures branch.Receive? <==> outcome.Replied?
      ensures outcome.Replied? ==> AnswersEarlier(View(), calls[|old(calls)|]) && outcome.reply.cmd == old(pcs)[c].mark
      ensures outcome.ConnectionDown? ==> readErr == Some(outcome.error)
    {
      ghost var before := View();
      outcome := Choose(c, branch);
      Record(branch, before);
      TrailIsRun(hasCallback, trace, states);
      LastCall(hasCallback, trace);
    }

    method Choose(c: nat, branch: Action) returns (outcome: Outcome)
      requires IsBranch(c, branch) && Enabled(View(), branch)
      modifies this`respCh, this`pcs, this`calls
      ensures View() == Apply(old(View()), branch)
      ensures calls == old(calls) + [Call(c, old(pcs)[c].own, old(pcs)[c].mark, outcome)]
      ensures branch.Receive? <==> outcome.Replied?
    {
      if branch.Receive? {
        outcome := Replied(respCh.value);
        respCh := None;
      } else if branch.SeeDone? {
        outcome := ConnectionDown(if readErr.Some? then readErr.value else ClosedError);
      } else {
        outcome := TimedOut;
      }
      calls := calls + [Call(c, pcs[c].own, pcs[c].mark, outcome)];
      pcs := pcs[c := Returning];
    }

    method Release(c: nat)
      requires Valid() && Enabled(View(), Unlock(c))
      modifies this`holder, this`pcs, this`trace, this`states
      ensures Valid() && trace == old(trace) + [Unlock(c)] && View() == Apply(old(View()), Unlock(c))
    {
      ghost var before := View();
      holder, pcs := None, pcs - {c};
      Record(Unlock(c), before);
    }

    // Steps of QEMU on the other end of the socket.
    method QemuWrites(a: Action)
      requires Valid() && (a.QemuAnswer? || a.QemuEvent? || a.QemuJunk?) && Enabled(View(), a)
      modifies this`answers, this`stream, this`trace, this`states
      ensures Valid() && trace == old(trace) + [a] && View() == Apply(old(View()), a)
    {
      ghost var before := View();
      match a {
        case QemuAnswer(body) =>
          stream := stream + [ReplyLine(Reply(|answers|, body))];
          answers := answers + [body];
        case QemuEvent(e) => stream := stream + [EventLine(e)];
        case QemuJunk => stream := stream + [JunkLine];
      }
      Record(a, before);
    }

    method Happens(a: Action)
      requires Valid() && Background(a) && Enabled(View(), a)
      modifies this
      ensures Valid() && trace == old(trace) + [a] && View() == Apply(old(View()), a)
    {
      if a.Scan? {
        ScanLine();
      } else if HandsOver(a) {
        OneDisposal(View(), a);
        DisposeOfLine();
      } else if a.ReadFails? {
        SetReadErr(a.error);
      } else if a.CloseDone? {
        CloseDoneCh();
      } else {
        QemuWrites(a);
      }
    }

    // What QEMU and the reader do between two steps of a caller: steps i to j of a schedule.
    method Meanwhile(run: seq<Action>, ghost path: seq<State>, i: nat, j: nat)
      requires Valid() && IsTrail(run, path) && i <= j <= |run| && View() == path[i]
      requires forall k :: i <= k < j ==> Background(run[k])
      modifies this
      ensures Valid() && View() == path[j] && trace == old(trace) + run[i..j]
    {
      var k := i;
      while k < j
        invariant i <= k <= j && Valid() && View() == path[k] && trace == old(trace) + run[i..k]
      {
        assert StepAt(run, path, k);
        Happens(run[k]);
        assert run[i..k] + [run[k]] == run[i..k + 1];
        k := k + 1;
      }
    }

    // The schedule up to its drain.
    method ReachDrain(c: nat, run: seq<Action>, ghost path: seq<State>, d: nat, w: nat, b: nat)
      requires Valid() && IsTrail(run, path) && View() == path[0] && IsExchange(c, run, d, w, b)
      modifies this
      ensures Valid() && View() == path[d] && trace == old(trace) + run[..d]
    {
      assert StepAt(run, path, 0);
      Acquire(c);
      Meanwhile(run, path, 1, d);
      assert run[..d] == [run[0]] + run[1..d];
    }

    // And from there to its write.
    method ReachWrite(c: nat, run: seq<Action>, ghost path: seq<State>, d: nat, w: nat, b: nat)
      requires Valid() && IsTrail(run, path) && IsExchange(c, run, d, w, b) && View() == path[d]
      modifies this
      ensures Valid() && View() == path[w] && trace == old(trace) + run[d..w]
    {
      assert StepAt(run, path, d);
      DrainStale(c);
      Meanwhile(run, path, d + 1, w);
      assert run[d..w] == [run[d]] + run[d + 1..w];
    }

    // The schedule up to its write.
    method Prepare(c: nat, run: seq<Action>, ghost path: seq<State>, d: nat, w: nat, b: nat)
      requires Valid() && IsTrail(run, path) && View() == path[0] && IsExchange(c, run, d, w, b)
      modifies this
      ensures Valid() && View() == path[w] && trace == old(trace) + run[..w]
    {
      ReachDrain(c, run, path, d, w, b);
      ReachWrite(c, run, path, d, w, b);
      assert run[..d] + run[d..w] == run[..w];
    }

    // The schedule after a write that succeeded, up to its branch of the select.
    method Await(c: nat, run: seq<Action>, ghost path: seq<State>, d: nat, w: nat, b: nat) returns (outcome: Outcome)
      requires Valid() && IsTrail(run, path) && IsExchange(c, run, d, w, b) && run[w].Write? && View() == path[w + 1]
      modifies this
      ensures Valid() && View() == path[b + 1] && trace == old(trace) + run[w + 1..b + 1]
      ensures path[d].pos <= |path[d].stream|
      ensures calls == path[0].calls + [Call(c, |path[d].sent|, Offered(path[d]), outcome)]
      ensures outcome.Replied? ==> outcome.reply.cmd == Offered(path[d])
    {
      Meanwhile(run, path, w + 1, b);
      assert StepAt(run, path, b);
      AtSelect(c, run, path, d, w, b);
      outcome := Select(c, run[b]);
      assert run[w + 1..b + 1] == run[w + 1..b] + [run[b]];
    }

    // From the write to the end of the call, with its outcome.
    method Conclude(c: nat, run: seq<Action>, ghost path: seq<State>, d: nat, w: nat, b: nat) returns (outcome: Outcome)
      requires Valid() && IsTrail(run, path) && IsExchange(c, run, d, w, b) && View() == path[w]
      modifies this
      ensures Valid() && View() == path[b + 1] && trace == old(trace) + run[w..b + 1]
      ensures path[d].pos <= |path[d].stream|
      ensures calls == path[0].calls + [Call(c, |path[d].sent|, Offered(path[d]), outcome)]
      ensures outcome.Replied? ==> outcome.reply.cmd == Offered(path[d])
    {
      AtWrite(c, run, path, d, w, b);
      assert StepAt(run, path, w);
      var ok := WriteRequest(c, run[w]);
      if ok {
        outcome := Await(c, run, path, d, w, b);
        assert run[w..b + 1] == [run[w]] + run[w + 1..b + 1];
      } else {
        outcome := WriteFailed;
        assert run[w..b + 1] == [run[w]];
      }
    }

    // From there to the unlocking.
    method Linger(c: nat, run: seq<Action>, ghost path: seq<State>, d: nat, w: nat, b: nat)
      requires Valid() && IsTrail(run, path) && IsExchange(c, run, d, w, b) && View() == path[b + 1] && calls != []
      modifies this
      ensures Valid() && View() == path[|run|] && trace == old(trace) + run[b + 1..] && calls == old(calls)
      ensures var last := calls[|calls| - 1];
              && (last.outcome.Replied? ==> AnswersEarlier(View(), last))
              && (last.outcome.ConnectionDown? ==> readErr == Some(last.outcome.error))
    {
      BackgroundKeepsCallers(run, path, b + 1, |run|);
      Meanwhile(run, path, b + 1, |run|);
      assert run[b + 1..|run|] == run[b + 1..];
      LastOutcome();
    }

    // The whole schedule.
    method Exchange(c: nat, run: seq<Action>, ghost path: seq<State>, d: nat, w: nat, b: nat) returns (outcome: Outcome)
      requires Valid() && IsTrail(run, path) && IsExchange(c, run, d, w, b) && View() == path[0]
      modifies this
      ensures Valid() && View() == path[|run|] && trace == old(trace) + run
      ensures path[d].pos <= |path[d].stream|
      ensures calls == path[0].calls + [Call(c, |path[d].sent|, Offered(path[d]), outcome)]
      ensures outcome.Replied? ==> AnswersEarlier(View(), calls[|calls| - 1]) && outcome.reply.cmd == Offered(path[d])
      ensures outcome.ConnectionDown? ==> readErr == Some(outcome.error)
    {
      Prepare(c, run, path, d, w, b);
      outcome := Conclude(c, run, path, d, w, b);
      Linger(c, run, path, d, w, b);
      assert run[..w] + run[w..b + 1] + run[b + 1..] == run;
    }

    /** Execute, under any schedule of QEMU and the reader around it. The command is sent as given, the call
        is added to the finished ones, and the lock is free again. A reply it returns carries what QEMU answered to the first
        command whose reply had not been offered when it drained `respCh`: so to its own command if and
        only if every command sent before had its reply offered by then. */
    method Execute(c: nat, run: seq<Action>, ghost path: seq<State>, d: nat, w: nat, b: nat) returns (outcome: Outcome)
      requires Valid() && IsTrail(run, path) && View() == path[0] && IsExchange(c, run, d, w, b)
      modifies this
      ensures Valid() && trace == old(trace) + run + [Unlock(c)] && holder.None? && c !in pcs
      ensures path[d].pos <= |path[d].stream|
      ensures calls == old(calls) + [Call(c, |path[d].sent|, Offered(path[d]), outcome)]
      ensures run[w].Write? ==> sent == path[d].sent + [Command(c, run[w].verb)]
      ensures outcome.Replied? ==> AnswersEarlier(View(), calls[|old(calls)|])
      ensures outcome.Replied? ==>
                && outcome.reply.cmd == Offered(path[d])
                && (outcome.reply.cmd == calls[|old(calls)|].own <==> Offered(path[d]) == |path[d].sent|)
      ensures outcome.ConnectionDown? ==> readErr == Some(outcome.error)
    {
      outcome := Exchange(c, run, path, d, w, b);
      AtEnd(c, run, path, d, w, b);
      if run[w].Write? {
        SentAtEnd(c, run, path, d, w, b);
      }
      Release(c);
    }
  }
}
