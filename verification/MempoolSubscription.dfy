/**
 The process-wide subscription: a slot for one run, polled and stopped from other
 threads while its reader keeps sending.
 */
module MempoolSubscription {
  import opened Wrappers
  import opened MempoolReader

  /** `sent` is the whole log of the reader, `taken` how much of it has been dequeued. */
  datatype Run = Run(sent: seq<Event>, taken: nat, cancelled: bool, phase: Phase)

  /** Runs are numbered in the order they start; `stopping` are those whose stop has left the lock. */
  datatype State = State(runs: seq<Run>, slot: Option<nat>, stopping: set<nat>)

  datatype Step =
    | Start(accepted: bool)
    | Poll(answer: Option<Event>)
    | Take(run: nat)
    | Cancel(run: nat)
    | StopReturns(run: nat)
    | Reader(run: nat, action: Action)

  datatype Action =
    | NewEpoch(height: nat)
    | StreamOpened
    | NewTx(tx: Event)
    | StreamEnds
    | SeesCancel
    | Fails(error: string)
    | Unwinds

  function ReaderMoves(r: Run, a: Action): Option<Run> {
    match a
    case NewEpoch(h) => if r.phase.Loading? then Some(r.(sent := r.sent + [Epoch(h)], phase := Opening)) else None
    case StreamOpened => if r.phase.Opening? then Some(r.(phase := Streaming)) else None
    case NewTx(tx) => if r.phase.Streaming? && tx.Unconfirmed? then Some(r.(sent := r.sent + [tx])) else None
    case StreamEnds => if r.phase.Streaming? then Some(r.(phase := Loading)) else None
    case SeesCancel =>
      if r.cancelled
      && (r.phase.Opening? || r.phase.Streaming?) then Some(r.(sent := r.sent + [Ended(None)], phase := Over)) else None
    case Fails(e) => if !r.phase.Over? then Some(r.(sent := r.sent + [Ended(Some(e))], phase := Over)) else None
    case Unwinds => if !r.phase.Over? then Some(r.(sent := r.sent + [Ended(Some(PANICKED))], phase := Over)) else None
  }

  /**
   What a poll of the slot's run can answer: the next event, a timeout while the reader lives, or a
   plain end of a closed queue.
   */
  predicate Answers(r: Run, answer: Option<Event>) {
    if r.taken < |r.sent| then answer == Some(r.sent[r.taken])
    else if r.phase.Over? then answer == Some(Ended(None))
    else answer == None
  }

  ghost predicate Next(s: State, step: Step, s': State) {
    match step
    case Start(accepted) =>
      && accepted == s.slot.None?
      && s' == if accepted then s.(runs := s.runs + [Run([], 0, false, Loading)], slot := Some(|s.runs|)) else s
    case Poll(answer) =>
      if s.slot.None? then answer == Some(Ended(None)) && s' == s
      else
        var k := s.slot.value;
        && k < |s.runs| && Answers(s.runs[k], answer)
        && s' ==
             s.(runs := s.runs[k := s.runs[k].(taken := if s.runs[k].taken < |s.runs[k].sent|
                 then s.runs[k].taken + 1 else s.runs[k].taken)])
    case Take(k) => s.slot == Some(k) && s' == s.(slot := None, stopping := s.stopping + {k})
    case Cancel(k) => k in s.stopping && k < |s.runs| && s' == s.(runs := s.runs[k := s.runs[k].(cancelled := true)])
    case StopReturns(k) =>
      k in s.stopping && k < |s.runs| && s.runs[k].cancelled && s.runs[k].phase.Over?
      && s' == s.(stopping := s.stopping - {k})
    case Reader(k, action) =>
      k < |s.runs| && ReaderMoves(s.runs[k], action).Some?
      && s' == s.(runs := s.runs[k := ReaderMoves(s.runs[k], action).value])
  }

  ghost predicate Execution(states: seq<State>, steps: seq<Step>) {
    && |states| == |steps| + 1 && states[0] == State([], None, {})
    && forall i | 0 <= i < |steps| :: Next(states[i], steps[i], states[i + 1])
  }

  // ---------------------------------------------------------------------
  // Invariants
  // ---------------------------------------------------------------------

  ghost predicate RunOk(r: Run) {
    && r.taken <= |r.sent|
    && (if r.phase.Over? then Finished(r.sent) else Observation(r.sent))
    && (r.phase.Opening? || r.phase.Streaming? ==> r.sent != [])
    && (r.phase.Over? && r.sent[|r.sent| - 1] == Ended(None) ==> r.cancelled)
  }

  /** Only the run in the slot and the runs being stopped can still have a live reader. */
  ghost predicate Sound(s: State) {
    && (forall k | 0 <= k < |s.runs| :: RunOk(s.runs[k]))
    && (s.slot.Some? ==> s.slot.value < |s.runs| && s.slot.value !in s.stopping && !s.runs[s.slot.value].cancelled)
    && (forall k | k in s.stopping :: k < |s.runs|)
    && (forall k: nat | k < |s.runs| && !s.runs[k].phase.Over? :: s.slot == Some(k) || k in s.stopping)
    && (s.slot.Some? ==> s.slot.value == |s.runs| - 1)
  }

  lemma ReaderKeepsRunOk(r: Run, a: Action)
    requires RunOk(r) && ReaderMoves(r, a).Some?
    ensures RunOk(ReaderMoves(r, a).value) && r.sent <= ReaderMoves(r, a).value.sent
    ensures !r.phase.Over? && ReaderMoves(r, a).value.cancelled == r.cancelled
            && ReaderMoves(r, a).value.taken == r.taken
  {
    hide Observation;
    var r' := ReaderMoves(r, a).value;
    match a
    case NewEpoch(h) => EpochObserved(r.sent, h);
    case NewTx(tx) => TxObserved(r.sent, tx);
    case StreamOpened =>
    case StreamEnds =>
    case _ => assert r'.sent[..|r'.sent| - 1] == r.sent;
  }

  lemma StepOk(s: State, step: Step, s': State)
    requires Sound(s) && Next(s, step, s')
    ensures Sound(s')
  {
    hide Observation, Finished, RunOk;
    match step
    case Start(_) => FreshRunOk();
    case Poll(_) => if s.slot.Some? { PolledRunOk(s.runs[s.slot.value]); }
    case Cancel(k) => CancelledRunOk(s.runs[k]);
    case Reader(k, a) => ReaderKeepsRunOk(s.runs[k], a);
    case _ =>
  }

  lemma FreshRunOk()
    ensures RunOk(Run([], 0, false, Loading))
  {
    NothingObserved();
  }

  lemma PolledRunOk(r: Run)
    requires RunOk(r)
    ensures RunOk(r.(taken := if r.taken < |r.sent| then r.taken + 1 else r.taken))
  {
    hide Observation, Finished;
  }

  lemma CancelledRunOk(r: Run)
    requires RunOk(r)
    ensures RunOk(r.(cancelled := true))
  {
    hide Observation, Finished;
  }

  lemma {:induction false} ExecutionOk(states: seq<State>, steps: seq<Step>)
    requires Execution(states, steps)
    ensures forall i | 0 <= i < |states| :: Sound(states[i])
  {
    hide Sound, Next;
    if steps == [] {
      assert Sound(State([], None, {})) by { NothingStarted(); }
    } else {
      var n := |steps| - 1;
      assert states[..n + 1][n] == states[n];
      ExecutionOk(states[..n + 1], steps[..n]);
      StepOk(states[n], steps[n], states[n + 1]);
      forall i | 0 <= i < |states| ensures Sound(states[i]) {
        if i <= n { assert states[..n + 1][i] == states[i]; }
      }
    }
  }

  lemma NothingStarted()
    ensures Sound(State([], None, {}))
  {
  }

  // ---------------------------------------------------------------------
  // The reader's loop is such a reader
  // ---------------------------------------------------------------------

  /** The step an answer makes the reader take; `tx` is the event made from a transaction. */
  function ActionOf(a: Input, tx: Event): Action {
    match a
    case Height(h) => NewEpoch(h)
    case Opened => StreamOpened
    case Tx(_, _) => NewTx(tx)
    case StreamEnd => StreamEnds
    case Cancelled => SeesCancel
    case Failed(e) => Fails(e)
    case Panics => Unwinds
  }

  function Played(r: Run, actions: seq<Action>): Option<Run> {
    if actions == [] then Some(r)
    else
      match Played(r, actions[..|actions| - 1])
      case None => None
      case Some(r') => ReaderMoves(r', actions[|actions| - 1])
  }

  lemma PlayOneMore(r: Run, actions: seq<Action>, a: Action, r': Run)
    requires Played(r, actions) == Some(r')
    ensures Played(r, actions + [a]) == ReaderMoves(r', a)
  {
    assert (actions + [a])[..|actions|] == actions;
  }

  /** Whatever the loop has sent while it lives, a reader of the state machine can have sent, in the same phase. */
  lemma {:induction false} LoopIsAReader(log: seq<Event>, answers: seq<Input>, used: nat, r: Run)
    returns (actions: seq<Action>)
    requires Transcribed(log, answers, used) && r.phase.Loading? && r.sent == []
    requires forall i | 0 <= i < |log| :: !log[i].Ended?
    ensures Played(r, actions) == Some(r.(sent := log, phase := PhaseAfter(answers[..used])))
    decreases used
  {
    if used == 0 {
      assert |Origins(log)| == 0;
      actions := [];
    } else {
      var a, n := answers[used - 1], used - 1;
      PhaseStep(answers, n);
      assert answers[..used][..n] == answers[..n];
      var told := a.Height? || a.Tx?;
      var before := if told then log[..|log| - 1] else log;
      if told {
        assert Origins(log)[|log| - 1] == a && Origins(before) == Origins(log)[..|log| - 1];
      }
      var done := LoopIsAReader(before, answers, n, r);
      var action := ActionOf(a, if told then log[|log| - 1] else Epoch(0));
      actions := done + [action];
      PlayOneMore(r, done, action, r.(sent := before, phase := PhaseAfter(answers[..n])));
      if told {
        assert before + [log[|log| - 1]] == log;
      }
    }
  }

  /** And it ends as the state machine's reader can: cleanly only when cancelled. */
  lemma LoopEndsLikeAReader(r: Run, a: Input, outcome: Outcome) returns (action: Action)
    requires EndsWith(r.phase, a, outcome) && !r.phase.Over? && (outcome == Returned(None) ==> r.cancelled)
    ensures ReaderMoves(r, action) == Some(r.(sent := r.sent + [VerdictOf(outcome)], phase := Over))
  {
    action := match outcome
    case Unwound => Unwinds
    case Returned(None) => SeesCancel
    case Returned(Some(e)) => Fails(e)
    case Waiting => Unwinds;
  }

  // ---------------------------------------------------------------------
  // What a consumer sees
  // ---------------------------------------------------------------------

  /** The events polls took from the queue of run `k`, in order; synthetic ends and timeouts are not among them. */
  function Delivered(states: seq<State>, steps: seq<Step>, k: nat): seq<Event>
    requires |states| == |steps| + 1
  {
    if steps == [] then []
    else
      var n := |steps| - 1;
      Delivered(states[..n + 1], steps[..n], k) + if Dequeues(states[n], steps[n], k) then [steps[n].answer.value]
        else []
  }

  predicate Dequeues(s: State, step: Step, k: nat) {
    step.Poll? && step.answer.Some? && s.slot == Some(k) && k < |s.runs| && s.runs[k].taken < |s.runs[k].sent|
  }

  /** Runs are only appended, and logs only grow. */
  lemma StepGrows(s: State, step: Step, s': State, k: nat)
    requires Sound(s) && Next(s, step, s') && k < |s.runs|
    ensures k < |s'.runs| && s.runs[k].sent <= s'.runs[k].sent
    ensures s'.runs[k].taken == if Dequeues(s, step, k) then s.runs[k].taken + 1 else s.runs[k].taken
    ensures Dequeues(s, step, k) ==> step.answer == Some(s.runs[k].sent[s.runs[k].taken])
    ensures s.runs[k].phase.Over? ==> s'.runs[k].phase.Over? && s'.runs[k].sent == s.runs[k].sent
  {
    hide Observation, Finished, RunOk;
    if step.Reader? && step.run == k {
      ReaderKeepsRunOk(s.runs[k], step.action);
    }
  }

  /** Polls deliver a prefix of the run's own log, each event once and in order. */
  lemma {:induction false} DeliveredIsPrefix(states: seq<State>, steps: seq<Step>, k: nat)
    requires Execution(states, steps)
    ensures var s := states[|steps|];
            if k < |s.runs| then s.runs[k].taken <= |s.runs[k].sent|
            && Delivered(states, steps, k) == s.runs[k].sent[..s.runs[k].taken]
            else Delivered(states, steps, k) == []
  {
    ExecutionOk(states, steps);
    if steps != [] {
      var n := |steps| - 1;
      DeliveredIsPrefix(states[..n + 1], steps[..n], k);
      assert states[..n + 1][n] == states[n];
      DeliverStep(states[n], steps[n], states[n + 1], k, Delivered(states[..n + 1], steps[..n], k));
    }
  }

  lemma DeliverStep(s: State, step: Step, s': State, k: nat, before: seq<Event>)
    requires Sound(s) && Next(s, step, s') && Sound(s')
    requires if k < |s.runs| then s.runs[k].taken <= |s.runs[k].sent|
             && before == s.runs[k].sent[..s.runs[k].taken] else before == []
    ensures var after := before + if Dequeues(s, step, k) then [step.answer.value] else [];
            if k < |s'.runs| then s'.runs[k].taken <= |s'.runs[k].sent|
            && after == s'.runs[k].sent[..s'.runs[k].taken] else after == []
  {
    hide Observation, Finished;
    if k < |s.runs| {
      StepGrows(s, step, s', k);
      assert RunOk(s'.runs[k]);
    } else if k < |s'.runs| {
      assert s'.runs[k] == Run([], 0, false, Loading);
    }
  }

  /**
   In every interleaving of start, next, stop and the readers: a reader that is over
   has sent (Epoch Unconfirmed*)* Ended, and one that is not has sent no Ended yet.
   */
  lemma LogsAreWellFormed(states: seq<State>, steps: seq<Step>, k: nat)
    requires Execution(states, steps) && k < |states[|steps|].runs|
    ensures var r := states[|steps|].runs[k];
            && (if r.phase.Over? then Finished(r.sent) else Observation(r.sent))
            && (r.phase.Over? ==> forall i | 0 <= i < |r.sent| :: r.sent[i].Ended? <==> i == |r.sent| - 1)
            && (!r.phase.Over? ==> forall i | 0 <= i < |r.sent| :: !r.sent[i].Ended?)
  {
    ExecutionOk(states, steps);
    assert RunOk(states[|steps|].runs[k]);
    OneEnd(states[|steps|].runs[k].sent);
  }

  lemma EndAnswered(s: State, answer: Option<Event>, s': State)
    requires Sound(s) && Next(s, Poll(answer), s') && s.slot.Some? && answer.Some? && answer.value.Ended?
    ensures var r := s.runs[s.slot.value];
            && r.phase.Over? && Finished(r.sent)
            && (if Dequeues(s, Poll(answer), s.slot.value) then r.taken == |r.sent| - 1 else r.taken == |r.sent|)
  {
    var r := s.runs[s.slot.value];
    assert RunOk(r);
    OneEnd(r.sent);
  }

  /**
   In every execution a poll answers Ended only when the slot is empty or the run in it is
   over; and a plain end that no reader sent comes only after the verdict has been delivered.
   */
  lemma EndIsNeverInvented(states: seq<State>, steps: seq<Step>, i: nat)
    requires Execution(states, steps) && i < |steps| && steps[i].Poll? && states[i].slot.Some?
    requires steps[i].answer.Some? && steps[i].answer.value.Ended?
    ensures states[i].slot.value < |states[i].runs|
    ensures var k := states[i].slot.value; var r := states[i].runs[k];
            && r.phase.Over? && Finished(r.sent)
            && (!Dequeues(states[i], steps[i], k) ==> Delivered(states[..i + 1], steps[..i], k) == r.sent)
  {
    var k := states[i].slot.value;
    StepAt(states, steps, i);
    SlotInRange(states[i]);
    EndAnswered(states[i], steps[i].answer, states[i + 1]);
    assert states[..i + 1][i] == states[i];
    ExecutionUpTo(states, steps, i);
    hide Sound, Next, Finished;
    DeliveredIsPrefix(states[..i + 1], steps[..i], k);
  }

  lemma SlotInRange(s: State)
    requires Sound(s) && s.slot.Some?
    ensures s.slot.value < |s.runs|
  {
  }

  lemma ExecutionUpTo(states: seq<State>, steps: seq<Step>, i: nat)
    requires Execution(states, steps) && i <= |steps|
    ensures Execution(states[..i + 1], steps[..i])
  {
    hide Next;
  }

  /**
   In every execution: no event is withheld, and a poll times out only while the run in the slot
   lives and all it has sent has been delivered. Without a run the answer is a plain end.
   */
  lemma PollMeans(states: seq<State>, steps: seq<Step>, i: nat)
    requires Execution(states, steps) && i < |steps| && steps[i].Poll?
    ensures var s, answer := states[i], steps[i].answer;
            if s.slot.None? then answer == Some(Ended(None))
            else
              && s.slot.value < |s.runs|
              && var k := s.slot.value;
                 var r, got := s.runs[k], Delivered(states[..i + 1], steps[..i], k);
                 if got == r.sent then answer == if r.phase.Over? then Some(Ended(None)) else None
                 else answer.Some? && got + [answer.value] <= r.sent
  {
    StepAt(states, steps, i);
    if states[i].slot.Some? {
      var k := states[i].slot.value;
      SlotInRange(states[i]);
      assert states[..i + 1][i] == states[i];
      ExecutionUpTo(states, steps, i);
      hide Sound, Execution;
      DeliveredIsPrefix(states[..i + 1], steps[..i], k);
    }
  }

  /** A closed queue needs no panic: after a reader that merely failed, the second poll finds one. */
  lemma ClosedQueueWithoutPanic(error: string)
    ensures var end := Ended(Some(error));
            var s0, s1 := State([], None, {}), State([Run([], 0, false, Loading)], Some(0), {});
            var s2, s3 := State([Run([end], 0, false, Over)], Some(0), {}),
                State([Run([end], 1, false, Over)], Some(0), {});
            Execution([s0, s1, s2, s3, s3],
                [Start(true), Reader(0, Fails(error)), Poll(Some(end)), Poll(Some(Ended(None)))])
  {
    var end := Ended(Some(error));
    var s0, s1 := State([], None, {}), State([Run([], 0, false, Loading)], Some(0), {});
    var s2, s3 := State([Run([end], 0, false, Over)], Some(0), {}), State([Run([end], 1, false, Over)], Some(0), {});
    assert s1.runs[0 := s2.runs[0]] == s2.runs && s2.runs[0 := s3.runs[0]] == s3.runs
           && s3.runs[0 := s3.runs[0]] == s3.runs;
    assert [] + [end] == [end];
    assert Next(s0, Start(true), s1) && Next(s1, Reader(0, Fails(error)), s2);
    assert Next(s2, Poll(Some(end)), s3) && Next(s3, Poll(Some(Ended(None))), s3);
  }

  /** The reader's own verdict is clean only if the run was cancelled. */
  lemma CleanEndMeansCancelled(states: seq<State>, steps: seq<Step>, k: nat)
    requires Execution(states, steps) && k < |states[|steps|].runs| && Ended(None) in states[|steps|].runs[k].sent
    ensures states[|steps|].runs[k].cancelled
  {
    ExecutionOk(states, steps);
    var r := states[|steps|].runs[k];
    assert RunOk(r);
    OneEnd(r.sent);
    var i :| 0 <= i < |r.sent| && r.sent[i] == Ended(None);
  }

  ghost predicate Gone(s: State, k: nat, log: seq<Event>) {
    k < |s.runs| && s.runs[k].phase.Over? && s.slot != Some(k) && s.runs[k].sent == log
  }

  lemma GoneForGood(s: State, step: Step, s': State, k: nat, log: seq<Event>)
    requires Sound(s) && Next(s, step, s') && Gone(s, k, log)
    ensures Gone(s', k, log)
  {
    StepGrows(s, step, s', k);
    hide RunOk;
  }

  lemma StopReturnsGone(s: State, step: Step, s': State)
    requires Sound(s) && Next(s, step, s') && step.StopReturns?
    ensures step.run < |s.runs| && Gone(s', step.run, s.runs[step.run].sent)
  {
    hide RunOk;
  }

  /** A stop that returns leaves a reader that is over for good: no event of its run is sent or delivered any more. */
  lemma {:induction false} StopLeavesNoReader(states: seq<State>, steps: seq<Step>, i: nat)
    requires Execution(states, steps) && i < |steps| && steps[i].StopReturns?
    ensures steps[i].run < |states[i].runs| && Gone(states[|steps|], steps[i].run, states[i].runs[steps[i].run].sent)
    decreases |steps|
  {
    var n := |steps| - 1;
    StepAt(states, steps, n);
    StepAt(states, steps, i);
    ExecutionPrefix(states, steps);
    hide *;
    if i == n {
      StopReturnsGone(states[n], steps[n], states[n + 1]);
    } else {
      StopLeavesNoReader(states[..n + 1], steps[..n], i);
      GoneForGood(states[n], steps[n], states[n + 1], steps[i].run, states[i].runs[steps[i].run].sent);
    }
  }

  lemma StepAt(states: seq<State>, steps: seq<Step>, i: nat)
    requires Execution(states, steps) && i < |steps|
    ensures |states| == |steps| + 1 && Sound(states[i]) && Next(states[i], steps[i], states[i + 1])
    ensures steps[i].StopReturns? ==> steps[i].run < |states[i].runs|
  {
    ExecutionOk(states, steps);
    hide Sound;
  }

  lemma ExecutionPrefix(states: seq<State>, steps: seq<Step>)
    requires Execution(states, steps) && steps != []
    ensures Execution(states[..|steps|], steps[..|steps| - 1])
  {
    hide Next;
  }

  /**
   A stop is never stuck: once it has cancelled the run it took, a reader that opens or drains the
   stream can end cleanly, and then the stop can return, whatever other runs do.
   */
  lemma StopCanFinish(s: State, k: nat) returns (s1: State, s2: State, s3: State)
    requires k in s.stopping && k < |s.runs| && (s.runs[k].phase.Opening? || s.runs[k].phase.Streaming?)
    ensures Next(s, Cancel(k), s1) && Next(s1, Reader(k, SeesCancel), s2) && Next(s2, StopReturns(k), s3)
    ensures s3.runs[k].sent == s.runs[k].sent + [Ended(None)] && k !in s3.stopping && s3.slot == s.slot
    ensures |s3.runs| == |s.runs| && forall j | 0 <= j < |s.runs| && j != k :: s3.runs[j] == s.runs[j]
  {
    var r := s.runs[k];
    s1 := s.(runs := s.runs[k := r.(cancelled := true)]);
    s2 := s1.(runs := s1.runs[k := Run(r.sent + [Ended(None)], r.taken, true, Over)]);
    s3 := s2.(stopping := s2.stopping - {k});
  }

  /** Two readers can live at once: stop empties the slot before the old reader is gone. */
  lemma StopAndStartOverlap()
    ensures var s0, live := State([], None, {}), Run([], 0, false, Loading);
            var s1, s2, s3 := State([live], Some(0), {}), State([live], None, {0}), State([live, live], Some(1), {0});
            Execution([s0, s1, s2, s3], [Start(true), Take(0), Start(true)])
  {
  }

  // ---------------------------------------------------------------------
  // The entry points; each is one critical section, and a stop is two with a wait
  // ---------------------------------------------------------------------

  class Subscription {
    var state: State

    constructor ()
      ensures state == State([], None, {})
    {
      state := State([], None, {});
    }

    /** Fails when a run is already active. */
    method StartRun() returns (accepted: bool)
      modifies this
      ensures Next(old(state), Start(accepted), state)
    {
      if state.slot.Some? {
        return false;
      }
      state := State(state.runs + [Run([], 0, false, Loading)], Some(|state.runs|), state.stopping);
      return true;
    }

    method NextEvent() returns (answer: Option<Event>)
      requires Sound(state)
      modifies this
      ensures Next(old(state), Poll(answer), state)
    {
      hide RunOk;
      if state.slot.None? {
        return Some(Ended(None));
      }
      var k := state.slot.value;
      var r := state.runs[k];
      if r.taken < |r.sent| {
        answer := Some(r.sent[r.taken]);
        state := state.(runs := state.runs[k := r.(taken := r.taken + 1)]);
      } else {
        answer := if r.phase.Over? then Some(Ended(None)) else None;
        assert r.(taken := r.taken) == r && state.runs[k := r] == state.runs;
      }
    }

    /** The locked half of a stop: empties the slot. */
    method TakeRun() returns (run: Option<nat>)
      modifies this
      ensures run == old(state).slot
      ensures if run.Some? then Next(old(state), Take(run.value), state) else state == old(state)
    {
      run := state.slot;
      if run.Some? {
        state := state.(slot := None, stopping := state.stopping + {run.value});
      }
    }

    /** The other half: cancels the run taken; the stop then waits for the reader. */
    method CancelRun(run: nat)
      requires Sound(state) && run in state.stopping
      modifies this
      ensures Next(old(state), Cancel(run), state)
    {
      state := state.(runs := state.runs[run := state.runs[run].(cancelled := true)]);
    }
  }
}
