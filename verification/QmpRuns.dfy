// What holds of every run of the QMP connection owner, whatever the interleaving, timeouts and failures.
module QmpRuns {
  import opened Wrappers
  import opened QmpOwner

  /** Every reply returned answers a command no later than the caller's own and carries exactly what
      QEMU answered to it, and successive calls are given the answers to distinct commands, in send order. */
  lemma {:induction false} RepliesReturnedInOrder(cb: bool, run: seq<Action>)
    requires IsRun(cb, run)
    ensures var s := After(cb, run);
            && (forall i :: 0 <= i < |s.calls| && s.calls[i].outcome.Replied? ==> AnswersEarlier(s, s.calls[i]))
            && (forall i, j :: 0 <= i < j < |s.calls| && s.calls[i].outcome.Replied? && s.calls[j].outcome.Replied? ==>
                  s.calls[i].outcome.reply.cmd < s.calls[j].outcome.reply.cmd)
  {
    RunKeepsInv(cb, run);
    var s := After(cb, run);
    forall i | 0 <= i < |s.calls| && s.calls[i].outcome.Replied?
      ensures AnswersEarlier(s, s.calls[i]) && s.calls[i].outcome.reply.cmd == s.calls[i].mark
    {
      assert CallOk(s, s.calls[i]);
    }
  }

  // The reply a call was given: to a command up to the caller's own, as QEMU answered it.
  ghost predicate AnswersEarlier(s: State, k: Call)
    requires k.outcome.Replied?
  {
    var r := k.outcome.reply;
    && r.cmd <= k.own < |s.sent| && s.sent[k.own].caller == k.caller
    && r.cmd < |s.answers| && r.body == s.answers[r.cmd]
  }

  // What the last call of a run was given.
  lemma {:induction false} LastCall(cb: bool, run: seq<Action>)
    requires IsRun(cb, run) && After(cb, run).calls != []
    ensures var s := After(cb, run);
            var k := s.calls[|s.calls| - 1];
            && (k.outcome.Replied? ==> AnswersEarlier(s, k) && k.outcome.reply.cmd == k.mark)
            && (k.outcome.ConnectionDown? ==> s.readErr == Some(k.outcome.error))
  {
    RunKeepsInv(cb, run);
    var s := After(cb, run);
    assert CallOk(s, s.calls[|s.calls| - 1]);
  }

  // The drain of `c` that belongs to exchange number `i`, the one made when `i` exchanges were over,
  // happened when `mark` replies had been offered and `own` commands sent.
  ghost predicate DrainSeen(cb: bool, run: seq<Action>, c: nat, mark: nat, own: nat, i: nat)
    requires IsRun(cb, run)
  {
    exists n: nat :: DrainAt(cb, run, n, c, mark, own, i)
  }

  ghost predicate DrainAt(cb: bool, run: seq<Action>, n: nat, c: nat, mark: nat, own: nat, i: nat)
  {
    && n < |run| && run[n] == Drain(c)
    && IsRun(cb, run[..n])
    && var d := After(cb, run[..n]);
    && d.pos <= |d.stream| && Offered(d) == mark && |d.sent| == own && |d.calls| == i
  }

  // Every caller past its drain, and every finished call, has a drain in the run to point at.
  ghost predicate DrainsRecorded(cb: bool, run: seq<Action>)
    requires IsRun(cb, run)
  {
    CallersRecorded(cb, run, After(cb, run)) && CallsRecorded(cb, run, After(cb, run).calls)
  }

  ghost predicate CallersRecorded(cb: bool, run: seq<Action>, s: State)
    requires IsRun(cb, run)
  {
    && (forall c :: c in s.pcs && s.pcs[c].Drained? ==>
          DrainSeen(cb, run, c, s.pcs[c].mark, |s.sent|, |s.calls|))
    && (forall c :: c in s.pcs && s.pcs[c].Waiting? ==>
          DrainSeen(cb, run, c, s.pcs[c].mark, s.pcs[c].own, |s.calls|))
  }

  ghost predicate CallsRecorded(cb: bool, run: seq<Action>, calls: seq<Call>)
    requires IsRun(cb, run)
  {
    forall i :: 0 <= i < |calls| ==> DrainSeen(cb, run, calls[i].caller, calls[i].mark, calls[i].own, i)
  }

  lemma {:induction false} DrainStaysSeen(cb: bool, run: seq<Action>, c: nat, mark: nat, own: nat, i: nat)
    requires run != [] && IsRun(cb, run) && DrainSeen(cb, run[..|run| - 1], c, mark, own, i)
    ensures DrainSeen(cb, run, c, mark, own, i)
  {
    var n: nat :| DrainAt(cb, run[..|run| - 1], n, c, mark, own, i);
    assert run[..|run| - 1][..n] == run[..n];
    assert DrainAt(cb, run, n, c, mark, own, i);
  }

  // A caller's mark comes from its own drain and is carried to the end of the exchange.
  ghost predicate Carried(s: State, a: Action, s': State) {
    && (forall c :: c in s'.pcs && s'.pcs[c].Drained? && a != Drain(c) ==>
          c in s.pcs && s.pcs[c] == s'.pcs[c] && |s.sent| == |s'.sent| && |s.calls| == |s'.calls|)
    && (forall c :: c in s'.pcs && s'.pcs[c].Waiting? ==>
          InExchange(s, c, s'.pcs[c].mark, s'.pcs[c].own) && |s.calls| == |s'.calls|)
    && s.calls <= s'.calls && |s'.calls| <= |s.calls| + 1
    && (forall i :: |s.calls| <= i < |s'.calls| ==>
          InExchange(s, s'.calls[i].caller, s'.calls[i].mark, s'.calls[i].own))
  }

  lemma {:induction false} CallerCarries(s: State, a: Action)
    requires MutualExclusion(s) && Enabled(s, a) && (a.Drain? || a.Write?)
    ensures Carried(s, a, Apply(s, a))
  {
    assert s.pcs.Keys == {a.c};
  }

  lemma {:induction false} EndCarries(s: State, a: Action, c: nat, k: Call, s': State)
    requires MutualExclusion(s) && EndsCall(s, c, k, s') && InExchange(s, k.caller, k.mark, k.own)
    ensures Carried(s, a, s')
  {
    assert s'.pcs.Keys == {c};
  }

  lemma {:induction false} MarksAreCarried(s: State, a: Action)
    requires Inv(s) && Enabled(s, a)
    ensures Carried(s, a, Apply(s, a))
  {
    if a.Drain? || a.Write? {
      CallerCarries(s, a);
    } else if EndsExchange(a) {
      var k := EndedCall(s, a);
      EndCarries(s, a, a.c, k, Apply(s, a));
    } else if a.Lock? || a.Unlock? {
      LockCarries(s, a);
    } else {
      OneKeepsCallers(s, a);
      StillCarries(s, a, Apply(s, a));
    }
  }

  lemma {:induction false} StillCarries(s: State, a: Action, s': State)
    requires SameCallers(s, s')
    ensures Carried(s, a, s')
  {
  }

  lemma {:induction false} LockCarries(s: State, a: Action)
    requires MutualExclusion(s) && Enabled(s, a) && (a.Lock? || a.Unlock?)
    ensures Carried(s, a, Apply(s, a))
  {
    assert s.pcs.Keys <= {a.c};
  }

  lemma {:induction false} RunRecordsDrains(cb: bool, run: seq<Action>)
    requires IsRun(cb, run)
    ensures DrainsRecorded(cb, run)
  {
    if run != [] {
      var before, a := run[..|run| - 1], run[|run| - 1];
      RunRecordsDrains(cb, before);
      RunKeepsInv(cb, before);
      var s, s' := After(cb, before), After(cb, run);
      MarksAreCarried(s, a);
      if a.Drain? {
        DrainRecorded(cb, run, s, a.c, s');
      }
      CallersExtended(cb, run, s, a, s');
      CallsExtended(cb, run, s, a, s');
    }
  }

  lemma {:induction false} DrainRecorded(cb: bool, run: seq<Action>, s: State, c: nat, s': State)
    requires run != [] && IsRun(cb, run) && s == After(cb, run[..|run| - 1]) && s' == After(cb, run)
    requires run[|run| - 1] == Drain(c)
    ensures c in s'.pcs && s'.pcs[c].Drained? && DrainSeen(cb, run, c, s'.pcs[c].mark, |s'.sent|, |s'.calls|)
  {
    assert DrainAt(cb, run, |run| - 1, c, Offered(s), |s.sent|, |s.calls|);
  }

  lemma {:induction false} CallersExtended(cb: bool, run: seq<Action>, s: State, a: Action, s': State)
    requires run != [] && IsRun(cb, run) && CallersRecorded(cb, run[..|run| - 1], s) && Carried(s, a, s')
    requires a.Drain? ==> a.c in s'.pcs && s'.pcs[a.c].Drained?
                          && DrainSeen(cb, run, a.c, s'.pcs[a.c].mark, |s'.sent|, |s'.calls|)
    ensures CallersRecorded(cb, run, s')
  {
    forall c | c in s'.pcs && s'.pcs[c].Drained?
      ensures DrainSeen(cb, run, c, s'.pcs[c].mark, |s'.sent|, |s'.calls|)
    {
      if a != Drain(c) {
        DrainStaysSeen(cb, run, c, s.pcs[c].mark, |s.sent|, |s.calls|);
      }
    }
    forall c | c in s'.pcs && s'.pcs[c].Waiting?
      ensures DrainSeen(cb, run, c, s'.pcs[c].mark, s'.pcs[c].own, |s'.calls|)
    {
      DrainStaysSeen(cb, run, c, s'.pcs[c].mark, s'.pcs[c].own, |s.calls|);
    }
  }

  lemma {:induction false} CallsExtended(cb: bool, run: seq<Action>, s: State, a: Action, s': State)
    requires run != [] && IsRun(cb, run) && Carried(s, a, s')
    requires CallersRecorded(cb, run[..|run| - 1], s) && CallsRecorded(cb, run[..|run| - 1], s.calls)
    ensures CallsRecorded(cb, run, s'.calls)
  {
    forall i | 0 <= i < |s'.calls|
      ensures DrainSeen(cb, run, s'.calls[i].caller, s'.calls[i].mark, s'.calls[i].own, i)
    {
      assert i < |s.calls| ==> s.calls[i] == s'.calls[i];
      DrainStaysSeen(cb, run, s'.calls[i].caller, s'.calls[i].mark, s'.calls[i].own, i);
    }
  }

  /** A call that gets a reply gets the oldest one not yet offered when that call drained `respCh`.
      So it gets its own reply if and only if, at that drain, the reply to every command sent
      before had already been offered. */
  lemma {:induction false} OwnReplyExactlyWhenNothingOutstanding(cb: bool, run: seq<Action>, i: nat)
    requires IsRun(cb, run)
    requires i < |After(cb, run).calls| && After(cb, run).calls[i].outcome.Replied?
    ensures var k := After(cb, run).calls[i];
            exists n: nat :: DrainAt(cb, run, n, k.caller, k.outcome.reply.cmd, k.own, i)
                        && (k.outcome.reply.cmd == k.own <==>
                            Offered(After(cb, run[..n])) == |After(cb, run[..n]).sent|)
  {
    RunKeepsInv(cb, run);
    RunRecordsDrains(cb, run);
    var k := After(cb, run).calls[i];
    assert CallOk(After(cb, run), k);
    assert DrainSeen(cb, run, k.caller, k.mark, k.own, i);
    var n: nat :| DrainAt(cb, run, n, k.caller, k.mark, k.own, i);
  }

  // Every drain of the run happened with no reply outstanding.
  ghost predicate Prompt(cb: bool, run: seq<Action>)
    requires IsRun(cb, run)
    decreases |run|
  {
    run == [] ||
    var before := run[..|run| - 1];
    && Prompt(cb, before)
    && (run[|run| - 1].Drain? ==> Offered(After(cb, before)) == |After(cb, before).sent|)
  }

  ghost predicate PromptInv(s: State)
    requires s.pos <= |s.stream|
  {
    && s.dropped == []
    && |s.sent| <= Offered(s) + 1
    && (s.respCh.Some? ==> Offered(s) == |s.sent|)
    && (forall c :: c in s.pcs ==> PromptPc(s, s.pcs[c]))
    && OwnReplies(s.calls)
  }

  ghost predicate PromptPc(s: State, pc: Pc)
    requires s.pos <= |s.stream|
  {
    match pc
    case Drained(mark) => mark == Offered(s) == |s.sent|
    case Waiting(own, mark) => own == mark
    case _ => true
  }

  ghost predicate OwnReplies(calls: seq<Call>) {
    forall i :: 0 <= i < |calls| && calls[i].outcome.Replied? ==> calls[i].own == calls[i].mark
  }

  lemma {:induction false} OfferedAfter(s: State)
    requires Fifo(s) && s.pos < |s.stream|
    ensures Offered(HandOver(s)) == Offered(s) + (if s.stream[s.pos].ReplyLine? then 1 else 0) <= |s.sent|
  {
    CountAfter(s.stream, s.pos);
  }

  lemma {:induction false} PromptHandOver(s: State)
    requires Inv(s) && s.pos < |s.stream| && PromptInv(s)
    ensures PromptInv(HandOver(s))
  {
    OfferedAfter(s);
    forall c | c in s.pcs ensures PromptPc(HandOver(s), s.pcs[c]) {
      assert PromptPc(s, s.pcs[c]);
    }
  }

  lemma {:induction false} PromptDrain(s: State, c: nat)
    requires MutualExclusion(s) && Enabled(s, Drain(c)) && PromptInv(s) && Offered(s) == |s.sent|
    ensures PromptInv(Apply(s, Drain(c)))
  {
    assert s.pcs.Keys == {c};
  }

  lemma {:induction false} PromptWrite(s: State, c: nat, verb: string)
    requires MutualExclusion(s) && CallerOk(s, c) && Enabled(s, Write(c, verb)) && PromptInv(s)
    ensures PromptInv(Apply(s, Write(c, verb)))
  {
    assert s.pcs.Keys == {c};
    assert PromptPc(s, s.pcs[c]);
  }

  // What the invariant says of one caller.
  ghost predicate CallerOk(s: State, c: nat) {
    s.pos <= |s.stream| && c in s.pcs && PcOk(s, c, s.pcs[c])
  }

  lemma {:induction false} PromptEnd(s: State, c: nat, k: Call, s': State)
    requires MutualExclusion(s) && EndsCall(s, c, k, s') && s.pos <= |s.stream| && PromptInv(s)
    requires |s'.sent| <= Offered(s) + 1 && (s'.respCh.Some? ==> Offered(s) == |s'.sent|)
    requires k.outcome.Replied? ==> k.own == k.mark
    ensures PromptInv(s')
  {
    assert s'.pcs.Keys == {c};
  }

  lemma {:induction false} PromptEnded(s: State, a: Action, k: Call)
    requires Enabled(s, a) && PromptInv(s) && EndsExchange(a) && CallerOk(s, a.c)
    requires EndsCall(s, a.c, k, Apply(s, a))
    ensures var s' := Apply(s, a);
            && |s'.sent| <= Offered(s) + 1 && (s'.respCh.Some? ==> Offered(s) == |s'.sent|)
            && (k.outcome.Replied? ==> k.own == k.mark)
  {
    assert PromptPc(s, s.pcs[a.c]);
    assert k == Apply(s, a).calls[|s.calls|];
  }

  lemma {:induction false} PromptStep(s: State, a: Action)
    requires Inv(s) && Enabled(s, a) && PromptInv(s)
    requires a.Drain? ==> Offered(s) == |s.sent|
    ensures PromptInv(Apply(s, a))
  {
    if HandsOver(a) {
      HandOverIs(s, a);
      PromptHandOver(s);
    } else if a.Drain? {
      PromptDrain(s, a.c);
    } else if a.Write? {
      PromptWrite(s, a.c, a.verb);
    } else if EndsExchange(a) {
      var k := EndedCall(s, a);
      PromptEnded(s, a, k);
      PromptEnd(s, a.c, k, Apply(s, a));
    } else {
      PromptOther(s, a);
    }
  }

  lemma {:induction false} PromptOther(s: State, a: Action)
    requires MutualExclusion(s) && Enabled(s, a) && PromptInv(s)
    requires a.Lock? || a.Unlock? || (Background(a) && !HandsOver(a))
    ensures PromptInv(Apply(s, a))
  {
    var s' := Apply(s, a);
    assert s'.stream[..s'.pos] == s.stream[..s.pos];
    forall c | c in s'.pcs ensures PromptPc(s', s'.pcs[c]) {
      assert c in s.pcs ==> PromptPc(s, s.pcs[c]);
    }
  }

  /** If every earlier reply was offered before each drain, the reader never drops a reply and
      every reply returned is the caller's own. */
  lemma {:induction false} PromptRunsReturnOwnReplies(cb: bool, run: seq<Action>)
    requires IsRun(cb, run) && Prompt(cb, run)
    ensures var s := After(cb, run);
            && s.dropped == []
            && forall i :: 0 <= i < |s.calls| && s.calls[i].outcome.Replied? ==>
                             s.calls[i].outcome.reply.cmd == s.calls[i].own
  {
    PromptRunKeeps(cb, run);
    RunKeepsInv(cb, run);
    var s := After(cb, run);
    forall i | 0 <= i < |s.calls| && s.calls[i].outcome.Replied?
      ensures s.calls[i].outcome.reply.cmd == s.calls[i].own
    {
      assert CallOk(s, s.calls[i]);
    }
  }

  lemma {:induction false} PromptRunKeeps(cb: bool, run: seq<Action>)
    requires IsRun(cb, run) && Prompt(cb, run)
    ensures After(cb, run).pos <= |After(cb, run).stream| && PromptInv(After(cb, run))
  {
    RunKeepsInv(cb, run);
    if run != [] {
      PromptRunKeeps(cb, run[..|run| - 1]);
      RunKeepsInv(cb, run[..|run| - 1]);
      PromptStep(After(cb, run[..|run| - 1]), run[|run| - 1]);
    }
  }

  // No call gave up on a command QEMU may still answer.
  ghost predicate NoneAbandoned(run: seq<Action>) {
    forall i :: 0 <= i < |run| ==> !run[i].Timeout? && (run[i].WriteFails? ==> !run[i].arrived)
  }

  // Once the reader has stopped, nothing more is offered, so what a new caller finds stays empty.
  ghost predicate NoTimeoutPc(s: State, pc: Pc) {
    match pc
    case Drained(mark) => mark == |s.sent| || (s.readErr.Some? && s.respCh.None?)
    case Waiting(own, mark) => mark == own || (s.readErr.Some? && s.respCh.None?)
    case _ => true
  }

  ghost predicate SomeoneWaits(s: State) {
    exists c :: c in s.pcs && s.pcs[c].Waiting?
  }

  ghost predicate NoTimeoutInv(s: State)
    requires s.pos <= |s.stream|
  {
    && s.dropped == []
    && (s.readErr.None? && !SomeoneWaits(s) ==> Offered(s) == |s.sent| && s.respCh.None?)
    && (forall c :: c in s.pcs ==> NoTimeoutPc(s, s.pcs[c]))
    && OwnReplies(s.calls)
  }

  lemma {:induction false} NoTimeoutHandOver(s: State)
    requires Inv(s) && s.pos < |s.stream| && s.readErr.None? && NoTimeoutInv(s)
    ensures NoTimeoutInv(HandOver(s))
  {
    OneMore(s.stream, s.pos);
    RepliesOfPrefix(s.stream, s.pos + 1);
    var s' := HandOver(s);
    forall c | c in s.pcs ensures PcOk(s, c, s.pcs[c]) && NoTimeoutPc(s', s.pcs[c]) {
      assert NoTimeoutPc(s, s.pcs[c]);
    }
    assert SomeoneWaits(s) == SomeoneWaits(s');
  }

  lemma {:induction false} NoTimeoutDrain(s: State, c: nat)
    requires MutualExclusion(s) && Fifo(s) && Enabled(s, Drain(c)) && NoTimeoutInv(s)
    ensures NoTimeoutInv(Apply(s, Drain(c)))
  {
    assert s.pcs.Keys == {c};
    assert !SomeoneWaits(s) && !SomeoneWaits(Apply(s, Drain(c)));
  }

  lemma {:induction false} NoTimeoutWrite(s: State, c: nat, verb: string)
    requires MutualExclusion(s) && Enabled(s, Write(c, verb)) && NoTimeoutInv(s)
    ensures NoTimeoutInv(Apply(s, Write(c, verb)))
  {
    var s' := Apply(s, Write(c, verb));
    assert s.pcs.Keys == {c} && NoTimeoutPc(s, s.pcs[c]);
    assert s'.pcs[c].Waiting?;
    assert SomeoneWaits(s');
  }

  lemma {:induction false} NoTimeoutEnd(s: State, c: nat, k: Call, s': State)
    requires MutualExclusion(s) && EndsCall(s, c, k, s') && s.pos <= |s.stream| && NoTimeoutInv(s)
    requires k.outcome.Replied? ==> k.own == k.mark
    requires s.readErr.None? ==> Offered(s) == |s'.sent| && s'.respCh.None?
    ensures NoTimeoutInv(s')
  {
    assert s'.pcs.Keys == {c};
  }

  lemma {:induction false} NoTimeoutEnded(s: State, a: Action, k: Call)
    requires MutualExclusion(s) && Fifo(s) && ReaderOk(s) && Enabled(s, a) && NoTimeoutInv(s) && EndsExchange(a)
    requires CallerOk(s, a.c) && EndsCall(s, a.c, k, Apply(s, a)) && !a.Timeout? && (a.WriteFails? ==> !a.arrived)
    ensures k.outcome.Replied? ==> k.own == k.mark
    ensures s.readErr.None? ==> Offered(s) == |Apply(s, a).sent| && Apply(s, a).respCh.None?
  {
    assert NoTimeoutPc(s, s.pcs[a.c]) && s.pcs.Keys == {a.c};
    assert k == Apply(s, a).calls[|s.calls|];
    RepliesOfPrefix(s.stream, s.pos);
    assert a.WriteFails? ==> !SomeoneWaits(s);
  }

  lemma {:induction false} NoTimeoutStep(s: State, a: Action)
    requires Inv(s) && Enabled(s, a) && NoTimeoutInv(s)
    requires !a.Timeout? && (a.WriteFails? ==> !a.arrived)
    ensures NoTimeoutInv(Apply(s, a))
  {
    if HandsOver(a) {
      HandOverIs(s, a);
      NoTimeoutHandOver(s);
    } else if a.Drain? {
      NoTimeoutDrain(s, a.c);
    } else if a.Write? {
      NoTimeoutWrite(s, a.c, a.verb);
    } else if EndsExchange(a) {
      var k := EndedCall(s, a);
      NoTimeoutEnded(s, a, k);
      NoTimeoutEnd(s, a.c, k, Apply(s, a));
    } else {
      NoTimeoutOther(s, a);
    }
  }

  lemma {:induction false} NoTimeoutOther(s: State, a: Action)
    requires MutualExclusion(s) && Enabled(s, a) && NoTimeoutInv(s)
    requires a.Lock? || a.Unlock? || (Background(a) && !HandsOver(a))
    ensures NoTimeoutInv(Apply(s, a))
  {
    var s' := Apply(s, a);
    assert s'.stream[..s'.pos] == s.stream[..s.pos];
    forall c | c in s'.pcs ensures NoTimeoutPc(s', s'.pcs[c]) {
      assert c in s.pcs ==> NoTimeoutPc(s, s.pcs[c]);
    }
    if SomeoneWaits(s) {
      var c :| c in s.pcs && s.pcs[c].Waiting?;
      assert c in s'.pcs && s'.pcs[c].Waiting?;
    }
  }

  lemma {:induction false} NoTimeoutRunKeeps(cb: bool, run: seq<Action>)
    requires IsRun(cb, run) && NoneAbandoned(run)
    ensures After(cb, run).pos <= |After(cb, run).stream| && NoTimeoutInv(After(cb, run))
  {
    RunKeepsInv(cb, run);
    if run != [] {
      NoTimeoutRunKeeps(cb, run[..|run| - 1]);
      RunKeepsInv(cb, run[..|run| - 1]);
      NoTimeoutStep(After(cb, run[..|run| - 1]), run[|run| - 1]);
    }
  }

  /** In particular it is so in every run in which no call timed out, whatever else failed. */
  lemma {:induction false} RunsWithoutTimeoutsReturnOwnReplies(cb: bool, run: seq<Action>)
    requires IsRun(cb, run) && NoneAbandoned(run)
    ensures var s := After(cb, run);
            && s.dropped == []
            && forall i :: 0 <= i < |s.calls| && s.calls[i].outcome.Replied? ==>
                             s.calls[i].outcome.reply.cmd == s.calls[i].own
  {
    NoTimeoutRunKeeps(cb, run);
    RunKeepsInv(cb, run);
    var s := After(cb, run);
    forall i | 0 <= i < |s.calls| && s.calls[i].outcome.Replied?
      ensures s.calls[i].outcome.reply.cmd == s.calls[i].own
    {
      assert CallOk(s, s.calls[i]);
    }
  }

  // Caller 0 gives up on its command; caller 1 drains an empty slot and then gets the late reply.
  const StaleRun: seq<Action> :=
    [Lock(0), Drain(0), Write(0, "query-block"), Timeout(0), Unlock(0),
     Lock(1), Drain(1), Write(1, "query-status"), QemuAnswer(Return("late")), Scan, Offer, Receive(1)]

  // The states it goes through.
  function StaleState(n: nat): State
    requires n <= 12
  {
    var sent0, late := [Command(0, "query-block")], Reply(0, Return("late"));
    var calls0 := [Call(0, 0, 0, TimedOut)];
    var second := Init(true).(holder := Some(1), sent := sent0, calls := calls0);
    var sent1 := sent0 + [Command(1, "query-status")];
    var waiting := second.(pcs := map[1 := Waiting(1, 0)], sent := sent1);
    var answered := waiting.(answers := [Return("late")], stream := [ReplyLine(late)]);
    match n
    case 0 => Init(true)
    case 1 => Init(true).(holder := Some(0), pcs := map[0 := Locked])
    case 2 => Init(true).(holder := Some(0), pcs := map[0 := Drained(0)])
    case 3 => Init(true).(holder := Some(0), pcs := map[0 := Waiting(0, 0)], sent := sent0)
    case 4 => Init(true).(holder := Some(0), pcs := map[0 := Returning], sent := sent0, calls := calls0)
    case 5 => Init(true).(sent := sent0, calls := calls0)
    case 6 => second.(pcs := map[1 := Locked])
    case 7 => second.(pcs := map[1 := Drained(0)])
    case 8 => waiting
    case 9 => answered
    case 10 => answered.(holding := true)
    case 11 => answered.(pos := 1, respCh := Some(late))
    case 12 => answered.(pos := 1, pcs := map[1 := Returning], calls := calls0 + [Call(1, 1, 0, Replied(late))])
  }

  lemma {:induction false} StaleStep(n: nat)
    requires n < 12
    ensures Enabled(StaleState(n), StaleRun[n]) && StaleState(n + 1) == Apply(StaleState(n), StaleRun[n])
  {
    if n < 2 {
      FirstSteps(n);
    } else if n < 5 {
      TimeoutSteps(n);
    } else if n < 8 {
      SecondSteps(n);
    } else if n < 10 {
      AnswerSteps(n);
    } else {
      LastSteps(n);
    }
  }

  lemma {:induction false} FirstSteps(n: nat)
    requires n < 2
    ensures Enabled(StaleState(n), StaleRun[n]) && StaleState(n + 1) == Apply(StaleState(n), StaleRun[n])
  {
    assert n == 0 || n == 1;
  }

  lemma {:induction false} TimeoutSteps(n: nat)
    requires 2 <= n < 5
    ensures Enabled(StaleState(n), StaleRun[n]) && StaleState(n + 1) == Apply(StaleState(n), StaleRun[n])
  {
    assert n == 2 || n == 3 || n == 4;
  }

  lemma {:induction false} SecondSteps(n: nat)
    requires 5 <= n < 8
    ensures Enabled(StaleState(n), StaleRun[n]) && StaleState(n + 1) == Apply(StaleState(n), StaleRun[n])
  {
    assert n == 5 || n == 6 || n == 7;
  }

  lemma {:induction false} AnswerSteps(n: nat)
    requires 8 <= n < 10
    ensures Enabled(StaleState(n), StaleRun[n]) && StaleState(n + 1) == Apply(StaleState(n), StaleRun[n])
  {
    assert n == 8 || n == 9;
  }

  lemma {:induction false} LastSteps(n: nat)
    requires 10 <= n < 12
    ensures Enabled(StaleState(n), StaleRun[n]) && StaleState(n + 1) == Apply(StaleState(n), StaleRun[n])
  {
    assert n == 10 || n == 11;
  }

  /** The stale-reply drain of `Execute` does not keep a late reply from being mistaken for the
      next command's: here is a run in which it is. */
  lemma {:induction false} StaleReplyCanBeReturned()
    ensures IsRun(true, StaleRun)
    ensures After(true, StaleRun).calls ==
            [Call(0, 0, 0, TimedOut), Call(1, 1, 0, Replied(Reply(0, Return("late"))))]
  {
    var states := seq(13, n requires 0 <= n < 13 => StaleState(n));
    forall i | 0 <= i < 12 ensures StepAt(StaleRun, states, i) {
      StaleStep(i);
    }
    TrailIsRun(true, StaleRun, states);
  }

  // Where the replies taken off the socket have gone.
  datatype Ledger = Ledger(all: seq<Reply>, returned: seq<Reply>, drained: seq<Reply>, dropped: seq<Reply>,
                           slot: Option<Reply>)

  function LedgerOf(s: State): Ledger
    requires s.pos <= |s.stream|
  {
    Ledger(Replies(s.stream[..s.pos]), Returned(s.calls), s.drained, s.dropped, s.respCh)
  }

  // Each reply of `all` is in exactly one of the three lists or in the slot.
  ghost predicate Balanced(l: Ledger) {
    multiset(l.all) == multiset(l.returned) + multiset(l.drained) + multiset(l.dropped)
                       + (if l.slot.Some? then multiset{l.slot.value} else multiset{})
  }

  function Returned(calls: seq<Call>): seq<Reply> {
    if calls == [] then [] else
      var rest := Returned(calls[..|calls| - 1]);
      match calls[|calls| - 1].outcome
      case Replied(r) => rest + [r]
      case _ => rest
  }

  // What a step may do to the ledger.
  ghost predicate Entry(l: Ledger, l': Ledger) {
    || l' == l
    || (exists r :: l.slot.None? && l' == l.(all := l.all + [r], slot := Some(r)))
    || (exists r :: l.slot.Some? && l' == l.(all := l.all + [r], dropped := l.dropped + [r]))
    || (l.slot.Some? && l' == l.(returned := l.returned + [l.slot.value], slot := None))
    || (l.slot.Some? && l' == l.(drained := l.drained + [l.slot.value], slot := None))
  }

  lemma {:induction false} EntryBalances(l: Ledger, l': Ledger)
    requires Balanced(l) && Entry(l, l')
    ensures Balanced(l')
  {
  }

  lemma {:induction false} HandOverMakesEntry(s: State)
    requires s.pos < |s.stream|
    ensures Entry(LedgerOf(s), LedgerOf(HandOver(s)))
  {
    OneMore(s.stream, s.pos);
    if s.stream[s.pos].ReplyLine? {
      var l, r := LedgerOf(s), s.stream[s.pos].reply;
      assert LedgerOf(HandOver(s)) == if l.slot.None? then l.(all := l.all + [r], slot := Some(r))
                                      else l.(all := l.all + [r], dropped := l.dropped + [r]);
    }
  }

  lemma {:induction false} CallerMakesEntry(s: State, a: Action)
    requires Enabled(s, a) && (a.Receive? || a.SeeDone? || a.Timeout? || a.WriteFails?)
    ensures Entry(LedgerOf(s), LedgerOf(Apply(s, a)))
  {
    assert Apply(s, a).calls[..|s.calls|] == s.calls;
  }

  lemma {:induction false} StepMakesEntry(s: State, a: Action)
    requires Enabled(s, a)
    ensures Entry(LedgerOf(s), LedgerOf(Apply(s, a)))
  {
    if HandsOver(a) {
      HandOverIs(s, a);
      HandOverMakesEntry(s);
    } else if a.Receive? || a.SeeDone? || a.Timeout? || a.WriteFails? {
      CallerMakesEntry(s, a);
    } else if a.QemuAnswer? || a.QemuEvent? || a.QemuJunk? {
      assert Apply(s, a).stream[..s.pos] == s.stream[..s.pos];
    }
  }

  /** Events reach a non-nil callback once each, in stream order; every reply the reader took off
      the socket was returned to a caller, drained, dropped or is still in the slot, exactly one
      of these; and a caller told that the connection is down is told the error that ended the reader. */
  lemma {:induction false} EveryLineAccountedFor(cb: bool, run: seq<Action>)
    requires IsRun(cb, run)
    ensures var s := After(cb, run);
            && s.pos <= |s.stream|
            && s.delivered == (if cb then Events(s.stream[..s.pos]) else [])
            && Balanced(LedgerOf(s))
            && forall i :: 0 <= i < |s.calls| && s.calls[i].outcome.ConnectionDown? ==>
                             s.readErr == Some(s.calls[i].outcome.error)
  {
    RunKeepsInv(cb, run);
    var s := After(cb, run);
    forall i | 0 <= i < |s.calls| && s.calls[i].outcome.ConnectionDown?
      ensures s.readErr == Some(s.calls[i].outcome.error)
    {
      assert CallOk(s, s.calls[i]);
    }
    CallbackIsConstant(cb, run);
    if run != [] {
      RunKeepsInv(cb, run[..|run| - 1]);
      EveryLineAccountedFor(cb, run[..|run| - 1]);
      StepMakesEntry(After(cb, run[..|run| - 1]), run[|run| - 1]);
      EntryBalances(LedgerOf(After(cb, run[..|run| - 1])), LedgerOf(s));
    }
  }

  /** The reader never waits to hand a line over: whatever the callers have done and whatever the slot
      holds, exactly one way to dispose of the line in hand is open, and for a line that is no reply
      it leaves the slot as it was. */
  lemma {:induction false} HandOverNeverBlocks(cb: bool, run: seq<Action>)
    requires IsRun(cb, run) && After(cb, run).holding
    ensures var s := After(cb, run);
            && s.pos < |s.stream|
            && (exists a :: HandsOver(a) && Enabled(s, a))
            && (forall a, b :: HandsOver(a) && HandsOver(b) && Enabled(s, a) && Enabled(s, b) ==> a == b)
            && (forall a :: HandsOver(a) && Enabled(s, a) && !s.stream[s.pos].ReplyLine? ==>
                  Apply(s, a).respCh == s.respCh)
  {
    RunKeepsInv(cb, run);
    var s := After(cb, run);
    var a := Disposal(s);
    assert HandsOver(a) && Enabled(s, a);
  }

  function Disposal(s: State): Action
    requires s.pos < |s.stream|
  {
    match s.stream[s.pos]
    case EventLine(_) => if s.hasCallback then Callback else Ignore
    case JunkLine => Ignore
    case ReplyLine(_) => if s.respCh.None? then Offer else Skip
  }

  lemma {:induction false} DisposalIs(s: State)
    requires InHand(s)
    ensures Enabled(s, Disposal(s)) && Apply(s, Disposal(s)) == HandOver(s)
  {
  }

  lemma {:induction false} OneDisposal(s: State, a: Action)
    requires Enabled(s, a) && HandsOver(a)
    ensures InHand(s) && a == Disposal(s)
  {
  }

  function ReaderStep(s: State): Action
    requires s.pos < |s.stream|
  {
    if s.holding then Disposal(s) else Scan
  }

  function Left(s: State): nat {
    if s.pos >= |s.stream| then 0 else 2 * (|s.stream| - s.pos) - (if s.holding then 1 else 0)
  }

  // Only the reader has moved between `s` and `s'`.
  ghost predicate OthersStill(s: State, s': State) {
    && s'.stream == s.stream && s'.readErr == s.readErr && s'.pcs == s.pcs && s'.holder == s.holder
    && s'.calls == s.calls && s'.sent == s.sent && s'.answers == s.answers
  }

  lemma {:induction false} ReaderMoves(s: State)
    requires s.readErr.None? && s.pos < |s.stream|
    ensures Enabled(s, ReaderStep(s)) && Left(Apply(s, ReaderStep(s))) < Left(s)
    ensures OthersStill(s, Apply(s, ReaderStep(s)))
  {
  }

  ghost predicate OnlyReader(steps: seq<Action>) {
    forall i :: 0 <= i < |steps| ==> steps[i].Scan? || HandsOver(steps[i])
  }

  lemma {:induction false} ReadsOut(s: State) returns (steps: seq<Action>)
    requires s.readErr.None? && s.pos <= |s.stream| && (s.holding ==> s.pos < |s.stream|)
    ensures OnlyReader(steps) && IsPath(s, steps)
    ensures var e := End(s, steps); OthersStill(s, e) && e.pos == |s.stream| && !e.holding
    decreases Left(s)
  {
    if s.pos == |s.stream| {
      steps := [];
    } else {
      ReaderMoves(s);
      var a := ReaderStep(s);
      var more := ReadsOut(Apply(s, a));
      PathFrom(s, a, more);
      steps := [a] + more;
    }
  }

  /** From any point of any run, until it has failed, the reader can read the stream to its end by its
      own steps alone, no caller having to move. */
  lemma {:induction false} ReaderNeedsNobody(cb: bool, run: seq<Action>) returns (steps: seq<Action>)
    requires IsRun(cb, run) && After(cb, run).readErr.None?
    ensures OnlyReader(steps) && IsRun(cb, run + steps) && OthersStill(After(cb, run), After(cb, run + steps))
    ensures After(cb, run + steps).pos == |After(cb, run).stream| && !After(cb, run + steps).holding
  {
    RunKeepsInv(cb, run);
    steps := ReadsOut(After(cb, run));
    PathExtends(cb, run, steps);
  }

  lemma {:induction false} CallbackIsConstant(cb: bool, run: seq<Action>)
    requires IsRun(cb, run)
    ensures After(cb, run).hasCallback == cb
  {
    if run != [] {
      CallbackIsConstant(cb, run[..|run| - 1]);
      StepKeepsCallback(After(cb, run[..|run| - 1]), run[|run| - 1]);
    }
  }

  lemma {:induction false} StepKeepsCallback(s: State, a: Action)
    requires Enabled(s, a)
    ensures Apply(s, a).hasCallback == s.hasCallback
  {
  }
}
