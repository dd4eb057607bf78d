/**
 An execution that is accepted leaves its row Done until the next drop, in any run: after earlier drops,
 beside other monitors, after restarts and with failing saves. What it takes is that the row the handler
 has read was in the table since the last drop.
 */
module XCallDone {
  import opened Wrappers
  import opened XCallStore
  import opened XCallMachine
  import opened XCallSafety
  import opened XCallUnique
  import opened XCallOutcome
  import opened XCallComplete
  import opened XCallRows

  // ----- keys are never issued twice

  lemma IssuesAt(c: Config, r: Run, i: nat)
    requires IsRun(c, r) && i < |r.labels|
    ensures r.states[i].calls.issued <= r.states[i + 1].calls.issued
    ensures r.states[i].rollbacks.issued <= r.states[i + 1].rollbacks.issued
  {
    assert Takes(c, r, i);
    if IsPass(r.labels[i]) {
      PassIssues(c, r.states[i], r.labels[i], r.states[i + 1]);
    } else {
      StepWrites(c, r.states[i], r.labels[i], r.states[i + 1]);
    }
  }

  lemma {:induction false} RunIssues(c: Config, r: Run, i: nat, j: nat)
    requires IsRun(c, r) && i <= j < |r.states|
    ensures r.states[i].calls.issued <= r.states[j].calls.issued
    ensures r.states[i].rollbacks.issued <= r.states[j].rollbacks.issued
    decreases j - i
  {
    if i < j {
      RunIssues(c, r, i, j - 1);
      IssuesAt(c, r, j - 1);
    }
  }

  // ----- calls

  /** At step `j` a handler accepts event `e`, for which it has read `found`. */
  ghost predicate AcceptsCall(c: Config, r: Run, j: nat, e: Event, found: Record<CallData>)
    requires IsRun(c, r) && j < |r.labels|
  {
    var s, l := r.states[j], r.labels[j];
    && l.ActCall? && l.h < |s.handlers| && s.handlers[l.h].phase.HoldsCall?
    && s.handlers[l.h].phase.event == e && s.handlers[l.h].phase.call == Some(found)
    && r.states[j + 1].world != s.world
  }

  /** Copies are for the request of the event they were read for. */
  lemma CallHeldAt(c: Config, r: Run, j: nat, e: Event, found: Record<CallData>)
    requires ValidConfig(c) && PositiveRun(r) && IsRun(c, r) && j < |r.labels|
    requires AcceptsCall(c, r, j, e, found) && e.CallExecuted?
    ensures Tied(r.states[j].calls, found.id, found.body) && found.body.key == e.reqId
    ensures found.body.network == r.states[j].handlers[r.labels[j].h].network
  {
    RunTrue(c, r, j);
    assert HeldTrue(r.states[j], r.states[j].handlers[r.labels[j].h]);
  }

  lemma CallCompletesAt(c: Config, r: Run, j: nat, e: Event, found: Record<CallData>)
    requires ValidConfig(c) && PositiveRun(r) && IsRun(c, r) && j < |r.labels|
    requires AcceptsCall(c, r, j, e, found) && e.CallExecuted? && found.body.state != StateDone
    ensures DoneIn(r.states[j + 1].calls, found.id)
  {
    CallHeldAt(c, r, j, e, found);
    assert Takes(c, r, j);
    AcceptedExecution(c, r.states[j], r.labels[j], r.states[j + 1]);
  }

  /** A row keeps its request. */
  lemma CallKeepsRequest(c: Config, r: Run, j: nat, k: nat, id: nat, body: Call)
    requires ValidConfig(c) && PositiveRun(r) && IsRun(c, r) && j <= k < |r.states|
    requires Tied(r.states[j].calls, id, body) && id in r.states[k].calls.rows
    ensures For(r.states[k].calls.rows[id], body.network, body.key)
  {
    RunIssues(c, r, j, k);
    RunTied(c, r, k);
    assert Tied(r.states[k].calls, id, r.states[k].calls.rows[id]);
  }

  /** In every run: when a handler accepts the execution of a request, and the row it has read was in the
      table at `i` with no drop since, the row of the request is Done, until the next drop. */
  lemma AcceptedExecutionStaysDone(c: Config, r: Run, i: nat, j: nat, k: nat, e: Event, found: Record<CallData>)
    requires ValidConfig(c) && PositiveRun(r) && IsRun(c, r) && i <= j < k < |r.states| && NoDrop(r, i, k)
    requires AcceptsCall(c, r, j, e, found) && e.CallExecuted?
    requires found.id in r.states[i].calls.rows && r.states[i].calls.rows[found.id] == found.body
    ensures DoneIn(r.states[k].calls, found.id)
    ensures For(r.states[k].calls.rows[found.id], r.states[j].handlers[r.labels[j].h].network, e.reqId)
  {
    CallHeldAt(c, r, j, e, found);
    if found.body.state == StateDone {
      DoneCallsStayDone(c, r, i, k, found.id);
    } else {
      CallCompletesAt(c, r, j, e, found);
      DoneCallsStayDone(c, r, j + 1, k, found.id);
    }
    CallKeepsRequest(c, r, j, k, found.id, found.body);
  }

  // ----- rollbacks

  ghost predicate AcceptsRollback(c: Config, r: Run, j: nat, e: Event, found: Record<RollbackData>)
    requires IsRun(c, r) && j < |r.labels|
  {
    var s, l := r.states[j], r.labels[j];
    && l.ActRollback? && l.h < |s.handlers| && s.handlers[l.h].phase.HoldsRollback?
    && s.handlers[l.h].phase.event == e && s.handlers[l.h].phase.rollback == Some(found)
    && r.states[j + 1].world != s.world
  }

  lemma RollbackHeldAt(c: Config, r: Run, j: nat, e: Event, found: Record<RollbackData>)
    requires ValidConfig(c) && PositiveRun(r) && IsRun(c, r) && j < |r.labels|
    requires AcceptsRollback(c, r, j, e, found) && e.RollbackExecuted?
    ensures Tied(r.states[j].rollbacks, found.id, found.body) && found.body.key == e.sn
    ensures found.body.network == r.states[j].handlers[r.labels[j].h].network
  {
    RunTrue(c, r, j);
    assert HeldTrue(r.states[j], r.states[j].handlers[r.labels[j].h]);
  }

  /** Accepting a rollback makes the row it was read for Done, unless it was when read. */
  lemma AcceptedRollback(c: Config, s: State, l: Label, s': State)
    requires Next(c, s, l, s') && l.ActRollback? && s'.world != s.world
    requires s.handlers[l.h].phase.event.RollbackExecuted? && s.handlers[l.h].phase.rollback.Some?
    requires s.handlers[l.h].phase.rollback.value.id >= 1
    ensures var found := s.handlers[l.h].phase.rollback.value;
            found.body.state != StateDone ==> DoneIn(s'.rollbacks, found.id)
  {
    var h := s.handlers[l.h];
    assert OnRollback(s.rollbacks, h.network, h.phase.event, h.phase.rollback, l.invoked, l.ok).verdict == Accept;
  }

  lemma RollbackCompletesAt(c: Config, r: Run, j: nat, e: Event, found: Record<RollbackData>)
    requires ValidConfig(c) && PositiveRun(r) && IsRun(c, r) && j < |r.labels|
    requires AcceptsRollback(c, r, j, e, found) && e.RollbackExecuted? && found.body.state != StateDone
    ensures DoneIn(r.states[j + 1].rollbacks, found.id)
  {
    RollbackHeldAt(c, r, j, e, found);
    assert Takes(c, r, j);
    AcceptedRollback(c, r.states[j], r.labels[j], r.states[j + 1]);
  }

  lemma RollbackKeepsRequest(c: Config, r: Run, j: nat, k: nat, id: nat, body: Rollback)
    requires ValidConfig(c) && PositiveRun(r) && IsRun(c, r) && j <= k < |r.states|
    requires Tied(r.states[j].rollbacks, id, body) && id in r.states[k].rollbacks.rows
    ensures For(r.states[k].rollbacks.rows[id], body.network, body.key)
  {
    RunIssues(c, r, j, k);
    RunTied(c, r, k);
    assert Tied(r.states[k].rollbacks, id, r.states[k].rollbacks.rows[id]);
  }

  /** The same for the rollback of a serial number, as long as no serial number has been both answered
      with success and executed. */
  lemma AcceptedRollbackStaysDone(c: Config, r: Run, i: nat, j: nat, k: nat, e: Event, found: Record<RollbackData>)
    requires ValidConfig(c) && PositiveRun(r) && IsRun(c, r) && i <= j < k < |r.states| && NoDrop(r, i, k)
    requires AcceptsRollback(c, r, j, e, found) && e.RollbackExecuted? && Consistent(r.states[k].world.log)
    requires found.id in r.states[i].rollbacks.rows && r.states[i].rollbacks.rows[found.id] == found.body
    ensures DoneIn(r.states[k].rollbacks, found.id)
    ensures For(r.states[k].rollbacks.rows[found.id], r.states[j].handlers[r.labels[j].h].network, e.sn)
  {
    RollbackHeldAt(c, r, j, e, found);
    if found.body.state == StateDone {
      DoneRollbacksStayDoneIfConsistent(c, r, i, k, found.id);
    } else {
      RollbackCompletesAt(c, r, j, e, found);
      DoneRollbacksStayDoneIfConsistent(c, r, j + 1, k, found.id);
    }
    RollbackKeepsRequest(c, r, j, k, found.id, found.body);
  }
}
