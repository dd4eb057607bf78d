/**
 End to end: once both the announcement and the execution of a request have been accepted, its
 row is Done - however the result goroutine of the own transaction interleaves.
 */
module XCallComplete {
  import opened Wrappers
  import opened XCallStore
  import opened XCallMachine
  import opened XCallSafety
  import opened XCallUnique
  import opened XCallOutcome

  ghost predicate DoneRow<E>(s: Store<E>, network: string, key: nat) {
    exists id :: DoneIn(s, id) && For(s.rows[id], network, key)
  }

  // ----- calls

  /** `b` executes the request that `a` announces. */
  predicate ExecutesCall(a: Accepted, b: Accepted) {
    && a.network == b.network && a.event.CallMessage? && b.event.CallExecuted?
    && a.event.reqId == b.event.reqId >= 1
  }

  ghost predicate CallsAreDone(s: State) {
    forall i, j | 0 <= i < j < |s.world.log| && ExecutesCall(s.world.log[i], s.world.log[j]) ::
      DoneRow(s.calls, s.world.log[j].network, s.world.log[j].event.reqId)
  }

  ghost predicate HeldDone(s: State, phase: Phase) {
    phase.HoldsCall? && phase.call.Some? && phase.call.value.body.state == StateDone ==>
      DoneIn(s.calls, phase.call.value.id)
  }

  ghost predicate CompleteOk(s: State) {
    && CallsAreDone(s)
    && forall h | 0 <= h < |s.handlers| :: HeldDone(s, s.handlers[h].phase)
  }

  /** Everything known about a state of a run with single monitors in which new requests are inserted. */
  ghost predicate Sound(s: State) {
    IdsOk(s) && UniqueOk(s) && AcceptedKnown(s)
  }

  lemma DoneRowStays(s: State, s': State, network: string, key: nat)
    requires DoneRow(s.calls, network, key) && Unique(s.calls) && Unique(s'.calls) && s.calls.issued <= s'.calls.issued
    requires forall id | DoneIn(s.calls, id) :: DoneIn(s'.calls, id)
    ensures DoneRow(s'.calls, network, key)
  {
    var id :| DoneIn(s.calls, id) && For(s.calls.rows[id], network, key);
    assert Tied(s.calls, id, s.calls.rows[id]) && DoneIn(s'.calls, id) && Tied(s'.calls, id, s'.calls.rows[id]);
    assert For(s'.calls.rows[id], network, key);
  }

  /** Accepting the execution of a request that has been announced leaves its row Done. */
  lemma ActMakesDone(c: Config, s: State, l: Label, s': State, a: Accepted)
    requires Sound(s) && Next(c, s, l, s') && l.ActCall? && s'.world != s.world && Unique(s'.calls)
    requires HeldDone(s, s.handlers[l.h].phase) && a in s.world.log
    requires ExecutesCall(a, Accepted(s.handlers[l.h].network, s.handlers[l.h].phase.event))
    ensures DoneRow(s'.calls, a.network, a.event.reqId)
  {
    var h := s.handlers[l.h];
    assert ReadOk(s, h) && HandlerOk(s, h) && Known(s.calls, h.network, h.phase.event.reqId);
    var found := h.phase.call.value;
    AcceptedExecution(c, s, l, s');
    CallActKeeps(s.calls, h.network, h.phase.event, h.phase.call, l.invoked, l.ok);
    assert Tied(s'.calls, found.id, s'.calls.rows[found.id]);
    assert For(s'.calls.rows[found.id], h.network, a.event.reqId);
  }

  /** Accepting an execution event makes the row it was read for Done, unless it was when read. */
  lemma AcceptedExecution(c: Config, s: State, l: Label, s': State)
    requires Next(c, s, l, s') && l.ActCall? && s'.world != s.world
    requires s.handlers[l.h].phase.event.CallExecuted? && s.handlers[l.h].phase.call.Some?
    requires s.handlers[l.h].phase.call.value.id >= 1
    ensures var found := s.handlers[l.h].phase.call.value;
            if found.body.state == StateDone then s'.calls == s.calls else DoneIn(s'.calls, found.id)
  {
    var h := s.handlers[l.h];
    assert OnCall(s.calls, h.network, h.phase.event, h.phase.call, l.invoked, l.ok).verdict == Accept;
  }

  lemma HandlerStepKeepsHeld(c: Config, s: State, l: Label, s': State, h: nat)
    requires Next(c, s, l, s') && l.IsHandlerStep() && h < |s'.handlers|
    requires HeldDone(s, s.handlers[h].phase)
    requires forall id | DoneIn(s.calls, id) :: DoneIn(s'.calls, id)
    ensures HeldDone(s', s'.handlers[h].phase)
  {
    if h == l.h {
      assert s'.handlers[h].phase.HoldsCall? ==> l.ReadCall? && s'.calls == s.calls;
    } else {
      assert s'.handlers[h] == s.handlers[h];
    }
  }

  /** Steps that are not a handler's, but a drop: the handlers hold what they held, nothing is accepted. */
  lemma OtherStepKeepsHandlers(c: Config, s: State, l: Label, s': State)
    requires IdsOk(s) && Next(c, s, l, s') && !l.IsDrop() && !l.IsHandlerStep() && !l.Start?
    ensures s'.world.log == s.world.log && |s'.handlers| == |s.handlers|
    ensures forall h | 0 <= h < |s.handlers| :: SameButNext(s.handlers[h], s'.handlers[h])
  {
    if l.Branch? {
      BranchKeepsHeld(c, s, l, s');
    } else if l.FinalizeCalls? && l.pass.Finalized? {
      CallPassEffect(s, l.network, l.height, l.oracle, 0, l.pass, s');
    } else if l.FinalizeRollbacks? && l.pass.Finalized? {
      RollbackPassEffect(s, l.network, l.height, l.oracle, 0, l.pass, s');
    }
  }

  lemma StartKeepsHeld(c: Config, s: State, l: Label, s': State)
    requires Next(c, s, l, s') && l.Start?
    requires forall h | 0 <= h < |s.handlers| :: HeldDone(s, s.handlers[h].phase)
    ensures forall h | 0 <= h < |s'.handlers| :: HeldDone(s', s'.handlers[h].phase)
  {
    StartKeeps(c, s, l, s');
    forall h | 0 <= h < |s'.handlers| ensures HeldDone(s', s'.handlers[h].phase) {
      assert StartsOrStays(s, s'.handlers[h], h);
    }
  }

  lemma OtherStepKeepsHeld(c: Config, s: State, l: Label, s': State)
    requires IdsOk(s) && Next(c, s, l, s') && !l.IsDrop() && !l.IsHandlerStep() && !l.Start?
    requires forall id | DoneIn(s.calls, id) :: DoneIn(s'.calls, id)
    requires forall h | 0 <= h < |s.handlers| :: HeldDone(s, s.handlers[h].phase)
    ensures forall h | 0 <= h < |s'.handlers| :: HeldDone(s', s'.handlers[h].phase)
  {
    OtherStepKeepsHandlers(c, s, l, s');
    forall h | 0 <= h < |s'.handlers| ensures HeldDone(s', s'.handlers[h].phase) {
      assert HeldDone(s, s.handlers[h].phase) && SameButNext(s.handlers[h], s'.handlers[h]);
    }
  }

  lemma StepKeepsHeld(c: Config, s: State, l: Label, s': State)
    requires IdsOk(s) && Next(c, s, l, s') && !l.IsDrop()
    requires forall id | DoneIn(s.calls, id) :: DoneIn(s'.calls, id)
    requires forall h | 0 <= h < |s.handlers| :: HeldDone(s, s.handlers[h].phase)
    ensures forall h | 0 <= h < |s'.handlers| :: HeldDone(s', s'.handlers[h].phase)
  {
    if l.IsHandlerStep() {
      forall h | 0 <= h < |s'.handlers| ensures HeldDone(s', s'.handlers[h].phase) {
        HandlerStepKeepsHeld(c, s, l, s', h);
      }
    } else if l.Start? {
      StartKeepsHeld(c, s, l, s');
    } else {
      OtherStepKeepsHeld(c, s, l, s');
    }
  }

  /** The only thing a step can accept is the event its handler was at. */
  lemma NewlyAccepted(c: Config, s: State, l: Label, s': State)
    requires IdsOk(s) && Next(c, s, l, s') && !l.IsDrop()
    ensures s'.world.log == s.world.log || |s'.world.log| == |s.world.log| + 1
    ensures s.world.log <= s'.world.log
    ensures s'.world.log != s.world.log && !l.Ignore? ==>
              && (l.ActCall? || l.ActRollback?)
              && s'.world.log[|s.world.log|] == Accepted(s.handlers[l.h].network, s.handlers[l.h].phase.event)
    ensures s'.world.log != s.world.log && l.Ignore? ==> s'.world.log[|s.world.log|].event.OtherEvent?
  {
    if !l.IsHandlerStep() && !l.Start? {
      OtherStepKeepsHandlers(c, s, l, s');
    }
  }

  /** Both events were accepted before. */
  lemma OldExecutionDone(s: State, s': State, i: nat, j: nat)
    requires Sound(s) && Sound(s') && CompleteOk(s) && s.world.log <= s'.world.log && s.calls.issued <= s'.calls.issued
    requires forall id | DoneIn(s.calls, id) :: DoneIn(s'.calls, id)
    requires i < j < |s.world.log| && ExecutesCall(s'.world.log[i], s'.world.log[j])
    ensures DoneRow(s'.calls, s'.world.log[j].network, s'.world.log[j].event.reqId)
  {
    assert s'.world.log[i] == s.world.log[i] && s'.world.log[j] == s.world.log[j];
    DoneRowStays(s, s', s.world.log[j].network, s.world.log[j].event.reqId);
  }

  /** The execution is accepted in this step. */
  lemma NewExecutionDone(c: Config, s: State, l: Label, s': State, i: nat)
    requires Sound(s) && Unique(s'.calls) && CompleteOk(s) && Next(c, s, l, s') && !l.IsDrop()
    requires i < |s.world.log| < |s'.world.log| && ExecutesCall(s'.world.log[i], s'.world.log[|s.world.log|])
    ensures var a := s'.world.log[|s.world.log|]; DoneRow(s'.calls, a.network, a.event.reqId)
  {
    NewlyAccepted(c, s, l, s');
    assert s'.world.log[i] == s.world.log[i];
    ActMakesDone(c, s, l, s', s.world.log[i]);
  }

  lemma ExecutionDone(c: Config, s: State, l: Label, s': State, i: nat, j: nat)
    requires Sound(s) && Sound(s') && CompleteOk(s) && Next(c, s, l, s') && !l.IsDrop()
    requires s.calls.issued <= s'.calls.issued && forall id | DoneIn(s.calls, id) :: DoneIn(s'.calls, id)
    requires i < j < |s'.world.log| && ExecutesCall(s'.world.log[i], s'.world.log[j])
    ensures DoneRow(s'.calls, s'.world.log[j].network, s'.world.log[j].event.reqId)
  {
    NewlyAccepted(c, s, l, s');
    if j < |s.world.log| {
      OldExecutionDone(s, s', i, j);
    } else {
      NewExecutionDone(c, s, l, s', i);
    }
  }

  lemma ExecutionsDone(c: Config, s: State, l: Label, s': State)
    requires Sound(s) && Sound(s') && CompleteOk(s) && Next(c, s, l, s') && !l.IsDrop()
    requires s.calls.issued <= s'.calls.issued && forall id | DoneIn(s.calls, id) :: DoneIn(s'.calls, id)
    ensures CallsAreDone(s')
  {
    forall i, j | 0 <= i < j < |s'.world.log| && ExecutesCall(s'.world.log[i], s'.world.log[j])
      ensures DoneRow(s'.calls, s'.world.log[j].network, s'.world.log[j].event.reqId)
    {
      ExecutionDone(c, s, l, s', i, j);
    }
  }

  lemma StepComplete(c: Config, s: State, l: Label, s': State)
    requires Sound(s) && Sound(s') && CompleteOk(s) && Next(c, s, l, s') && !l.IsDrop()
    requires s.calls.issued <= s'.calls.issued && forall id | DoneIn(s.calls, id) :: DoneIn(s'.calls, id)
    ensures CompleteOk(s')
  {
    StepKeepsHeld(c, s, l, s');
    ExecutionsDone(c, s, l, s');
  }

  // ----- runs

  lemma RunSound(c: Config, r: Run, k: nat)
    requires ValidConfig(c) && IsRun(c, r) && k < |r.states| && forall i | 0 <= i < k :: InsertsAllAt(c, r, i)
    ensures Sound(r.states[k])
  {
    RunKeepsIds(c, r, k);
    RunKnows(c, r, k);
  }

  lemma CompleteAt(c: Config, r: Run, i: nat)
    requires ValidConfig(c) && IsRun(c, r) && i < |r.labels| && InsertsAllAt(c, r, i)
    requires Sound(r.states[i]) && Sound(r.states[i + 1]) && CompleteOk(r.states[i])
    ensures CompleteOk(r.states[i + 1])
  {
    assert Takes(c, r, i);
    StepKeepsDone(c, r.states[i], r.labels[i], r.states[i + 1]);
    StepUnique(c, r.states[i], r.labels[i], r.states[i + 1]);
    StepComplete(c, r.states[i], r.labels[i], r.states[i + 1]);
  }

  lemma {:induction false} RunComplete(c: Config, r: Run, k: nat)
    requires ValidConfig(c) && IsRun(c, r) && k < |r.states| && forall i | 0 <= i < k :: InsertsAllAt(c, r, i)
    ensures CompleteOk(r.states[k])
  {
    if k > 0 {
      RunComplete(c, r, k - 1);
      RunSound(c, r, k - 1);
      RunSound(c, r, k);
      CompleteAt(c, r, k - 1);
    }
  }

  /** In runs in which no monitor is started while others go on and new requests are inserted: after the
      execution event of a request accepted before has been accepted, the request's Call row is Done. */
  lemma ExecutedRequestsAreDone(c: Config, r: Run, k: nat, i: nat, j: nat)
    requires ValidConfig(c) && IsRun(c, r) && k < |r.states| && forall m | 0 <= m < k :: InsertsAllAt(c, r, m)
    requires var log := r.states[k].world.log; i < j < |log| && ExecutesCall(log[i], log[j])
    ensures DoneRow(r.states[k].calls, r.states[k].world.log[i].network, r.states[k].world.log[i].event.reqId)
  {
    RunComplete(c, r, k);
  }
}
