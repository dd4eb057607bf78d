/**
 The same end to end for Rollbacks: once the message of a serial number and its rollback have
 both been accepted, its row is Done. No save has to succeed for that: what is not saved is not
 accepted, and a rollback that must not happen panics instead.
 */
module XCallRolledBack {
  import opened Wrappers
  import opened XCallStore
  import opened XCallMachine
  import opened XCallSafety
  import opened XCallUnique
  import opened XCallOutcome
  import opened XCallComplete

  /** Rows are exactly the issued keys; rows and copies keep the network and request of theirs. */
  ghost predicate Anchored<E>(s: Store<E>) {
    && (forall id :: id in s.rows <==> 1 <= id <= |s.issued|)
    && (forall id | id in s.rows :: Tied(s, id, s.rows[id]))
    && (forall j | 0 <= j < |s.jobs| && s.jobs[j].Some? :: Tied(s, s.jobs[j].value.id, s.jobs[j].value.body))
  }

  lemma SaveAnchored<E>(s: Store<E>, r: Record<E>)
    requires Anchored(s) && (r.id == 0 || Tied(s, r.id, r.body))
    ensures Anchored(Save(s, r)) && s.issued <= Save(s, r).issued
    ensures r.id != 0 ==> Save(s, r).issued == s.issued
  {
    var s', id := Save(s, r), SavedId(s, r);
    forall other | other in s.rows ensures Tied(s', other, s.rows[other]) {
      assert Tied(s, other, s.rows[other]);
    }
    assert Tied(s', id, r.body);
  }

  lemma SpawnAnchored<E>(s: Store<E>, r: Record<E>)
    requires Anchored(s) && Tied(s, r.id, r.body)
    ensures Anchored(Spawn(s, r))
  {
  }

  lemma ExecuteAnchored<E>(s: Store<E>, r: Record<E>, invoked: Invoked, skips: set<string>, ok: bool)
    requires Anchored(s) && Tied(s, r.id, r.body)
    ensures Anchored(Execute(s, r, invoked, skips, ok)) && Execute(s, r, invoked, skips, ok).issued == s.issued
  {
    match invoked
    case Refused(error) => SaveAnchored(s, Failed(r, error, skips));
    case Submitted(txId) =>
      var sent := r.(body := r.body.(state := StateSending, txId := txId));
      SaveAnchored(s, sent);
      SpawnAnchored(SaveIfNotDone(s, sent, ok), sent);
  }

  lemma ResultAnchored<E>(s: Store<E>, j: nat, result: TxResult, invoked: Invoked, skips: set<string>, ok: bool)
    requires Anchored(s) && j < |s.jobs| && s.jobs[j].Some?
    ensures Anchored(Result(s, j, result, invoked, skips, ok))
            && Result(s, j, result, invoked, skips, ok).issued == s.issued
  {
    var r, ended := s.jobs[j].value, End(s, j);
    assert Anchored(ended);
    match result
    case NotAvailable =>
    case UnknownTransaction => ExecuteAnchored(ended, r.(body := r.body.(txId := "")), invoked, skips, ok);
    case Reverted(error) => SaveAnchored(ended, Failed(r, error, skips));
    case Executed(height, blockId) =>
      SaveAnchored(ended, r.(body := r.body.(state := StateSent, blockHeight := height, blockId := blockId)));
  }

  // ----- what is known

  predicate ExecutesRollback(a: Accepted, b: Accepted) {
    && a.network == b.network && a.event.CallMessageSent? && b.event.RollbackExecuted?
    && a.event.sn == b.event.sn >= 1
  }

  ghost predicate SentKnown(s: State) {
    forall a | a in s.world.log && a.event.CallMessageSent? && a.event.sn >= 1 ::
        Known(s.rollbacks, a.network, a.event.sn)
  }

  ghost predicate RollbacksAreDone(s: State) {
    forall i, j | 0 <= i < j < |s.world.log| && ExecutesRollback(s.world.log[i], s.world.log[j]) ::
      DoneRow(s.rollbacks, s.world.log[j].network, s.world.log[j].event.sn)
  }

  /** What a handler knows from its read: the row of the event's serial number, or that there is none. */
  ghost predicate FoundOk(s: Store<RollbackData>, network: string, e: Event, found: Option<Record<RollbackData>>) {
    e.IsRollback() ==>
      match found
      case None => e.sn >= 1 ==> !Known(s, network, e.sn)
      case Some(r) =>
        && Tied(s, r.id, r.body) && (e.sn >= 1 ==> For(r.body, network, e.sn))
        && (r.body.state == StateDone ==> DoneIn(s, r.id))
  }

  ghost predicate HeldFoundOk(s: State, h: Handler) {
    h.phase.HoldsRollback? ==> FoundOk(s.rollbacks, h.network, h.phase.event, h.phase.rollback)
  }

  ghost predicate RolledBackOk(s: State) {
    && Anchored(s.rollbacks) && OneHandlerEach(s) && SentKnown(s) && RollbacksAreDone(s)
    && forall h | 0 <= h < |s.handlers| :: HeldFoundOk(s, s.handlers[h])
  }

  lemma KnownIssued<E>(s: Store<E>, s': Store<E>, network: string, key: nat)
    requires s.issued <= s'.issued && Known(s, network, key)
    ensures Known(s', network, key)
  {
    var a :| 0 <= a < |s.issued| && For(s.issued[a], network, key);
    assert For(s'.issued[a], network, key);
  }

  /** An insert makes at most its own request known. */
  lemma InsertKnown<E>(s: Store<E>, body: Row<E>)
    requires Anchored(s)
    ensures Known(Save(s, Record(0, body)), body.network, body.key)
    ensures forall n, key: nat | Known(Save(s, Record(0, body)), n, key) && (n, key) != (body.network, body.key) ::
              Known(s, n, key)
  {
    var s' := Save(s, Record(0, body));
    assert For(s'.issued[|s.issued|], body.network, body.key);
    forall n, key: nat | Known(s', n, key) && (n, key) != (body.network, body.key) ensures Known(s, n, key) {
      var a :| 0 <= a < |s'.issued| && For(s'.issued[a], n, key);
      assert s'.issued[a] == s.issued[a];
    }
  }

  // ----- one callback

  ghost predicate ActOk(s: Store<RollbackData>, network: string, e: Event, acted: Acted<RollbackData>) {
    && Anchored(acted.store) && s.issued <= acted.store.issued
    && (forall n, key: nat | n != network && Known(acted.store, n, key) :: Known(s, n, key))
    && (acted.verdict == Accept && e.CallMessageSent? && e.sn >= 1 ==> Known(acted.store, network, e.sn))
  }

  lemma SentActOk(s: Store<RollbackData>, network: string, e: Event, found: Option<Record<RollbackData>>,
                  invoked: Invoked, ok: bool)
    requires Anchored(s) && e.CallMessageSent? && FoundOk(s, network, e, found)
    ensures ActOk(s, network, e, OnRollback(s, network, e, found, invoked, ok))
  {
    var rm := NewRollback(network, e);
    SaveAnchored(s, Record(0, rm));
    InsertKnown(s, rm);
    if found.Some? && e.sn >= 1 {
      assert For(s.issued[found.value.id - 1], network, e.sn);
    }
  }

  lemma RollbackActOk(s: Store<RollbackData>, network: string, e: Event, found: Option<Record<RollbackData>>,
                      invoked: Invoked, ok: bool)
    requires Anchored(s) && e.IsRollback() && FoundOk(s, network, e, found)
    requires found.Some? ==>
               found.value.body.network == network && (e.ResponseMessage? ==> e.sn == found.value.body.key)
    ensures ActOk(s, network, e, OnRollback(s, network, e, found, invoked, ok))
  {
    var rm := NewRollback(network, e);
    if e.CallMessageSent? {
      SentActOk(s, network, e, found, invoked, ok);
    } else if found.Some? {
      if e.ResponseMessage? {
        SaveAnchored(s, Answered(found.value, rm));
        SpawnAnchored(s, found.value);
        ExecuteAnchored(s, Answered(found.value, rm), invoked, ROLLBACK_SKIPS, ok);
      } else {
        SaveAnchored(s, Completed(found.value, rm));
      }
    }
  }

  /** An accepted rollback of a known serial number leaves its row Done. */
  lemma ExecutedRowDone(s: Store<RollbackData>, network: string, e: Event, found: Option<Record<RollbackData>>,
                        invoked: Invoked, ok: bool)
    requires Anchored(s) && e.RollbackExecuted? && e.sn >= 1 && FoundOk(s, network, e, found) && Known(s, network, e.sn)
    requires OnRollback(s, network, e, found, invoked, ok).verdict == Accept
    ensures DoneRow(OnRollback(s, network, e, found, invoked, ok).store, network, e.sn)
  {
    var s', id := OnRollback(s, network, e, found, invoked, ok).store, found.value.id;
    assert Tied(s, id, found.value.body) && DoneIn(s', id);
    if found.value.body.state == StateDone {
      assert Tied(s, id, s.rows[id]);
    }
    assert For(s'.rows[id], network, e.sn);
  }

  // ----- steps

  /** The Rollback that a handler holds is one of its network and event. */
  lemma ActRollbackOk(c: Config, s: State, l: Label, s': State)
    requires TrueOk(s) && RolledBackOk(s) && Next(c, s, l, s') && l.ActRollback?
    ensures var h := s.handlers[l.h];
            ActOk(s.rollbacks, h.network, h.phase.event,
                  OnRollback(s.rollbacks, h.network, h.phase.event, h.phase.rollback, l.invoked, l.ok))
  {
    var h := s.handlers[l.h];
    assert HeldTrue(s, h) && HeldFoundOk(s, h);
    RollbackActOk(s.rollbacks, h.network, h.phase.event, h.phase.rollback, l.invoked, l.ok);
  }

  ghost predicate DoneKept(s: State, s': State) {
    forall id | DoneIn(s.rollbacks, id) :: DoneIn(s'.rollbacks, id)
  }

  /** The other handlers' knowledge survives what is issued for another network. */
  lemma FoundStays(s: State, s': State, h: Handler, network: string)
    requires HeldFoundOk(s, h) && h.network != network && DoneKept(s, s') && s.rollbacks.issued <= s'.rollbacks.issued
    requires forall n, key: nat | n != network && Known(s'.rollbacks, n, key) :: Known(s.rollbacks, n, key)
    ensures HeldFoundOk(s', h)
  {
  }

  lemma ActStepFound(c: Config, s: State, l: Label, s': State)
    requires TrueOk(s) && RolledBackOk(s) && Next(c, s, l, s') && l.ActRollback? && DoneKept(s, s')
    ensures Anchored(s'.rollbacks) && s.rollbacks.issued <= s'.rollbacks.issued
    ensures forall k | 0 <= k < |s'.handlers| :: HeldFoundOk(s', s'.handlers[k])
  {
    ActRollbackOk(c, s, l, s');
    forall k | 0 <= k < |s'.handlers| ensures HeldFoundOk(s', s'.handlers[k]) {
      if k != l.h {
        assert s'.handlers[k] == s.handlers[k] && s.handlers[k].network != s.handlers[l.h].network;
        FoundStays(s, s', s.handlers[k], s.handlers[l.h].network);
      }
    }
  }

  lemma KnownHasRow<E>(s: Store<E>, network: string, key: nat)
    requires Anchored(s)
    ensures Known(s, network, key) ==> exists id :: id in s.rows && For(s.rows[id], network, key)
  {
    if Known(s, network, key) {
      var a :| 0 <= a < |s.issued| && For(s.issued[a], network, key);
      assert a + 1 in s.rows && Tied(s, a + 1, s.rows[a + 1]);
    }
  }

  lemma ReadFound(s: Store<RollbackData>, network: string, e: Event, found: Option<Record<RollbackData>>)
    requires Anchored(s) && network != "" && e.IsRollback() && IsFirst(s, network, e.Key(), found)
    ensures FoundOk(s, network, e, found)
  {
    if found.None? {
      KnownHasRow(s, network, e.sn);
    }
  }

  lemma MonitorStepFound(c: Config, s: State, l: Label, s': State)
    requires ValidConfig(c) && RolledBackOk(s) && Next(c, s, l, s') && l.IsHandlerStep() && !l.ActRollback?
    ensures s'.rollbacks == s.rollbacks
    ensures forall k | 0 <= k < |s'.handlers| :: HeldFoundOk(s', s'.handlers[k])
  {
    if l.ReadRollback? {
      var h := s.handlers[l.h];
      ReadFound(s.rollbacks, h.network, s.world.chain[h.network][h.phase.next], l.rollback);
    }
    forall k | 0 <= k < |s'.handlers| ensures HeldFoundOk(s', s'.handlers[k]) {
      assert k != l.h ==> s'.handlers[k] == s.handlers[k] && HeldFoundOk(s, s.handlers[k]);
    }
  }

  lemma FlaggedAnchored(s: State, t: State)
    requires Anchored(s.rollbacks) && (CallsFlagged(s, t) || RollbacksFlagged(s, t))
    ensures Anchored(t.rollbacks) && t.rollbacks.issued == s.rollbacks.issued
  {
  }

  lemma FinalityAnchored(c: Config, s: State, l: Label, s': State)
    requires Anchored(s.rollbacks) && Next(c, s, l, s') && (l.FinalizeCalls? || l.FinalizeRollbacks?)
             && l.pass.Finalized?
    ensures Anchored(s'.rollbacks) && s'.rollbacks.issued == s.rollbacks.issued
  {
    if l.FinalizeCalls? {
      CallPassEffect(s, l.network, l.height, l.oracle, 0, l.pass, s');
    } else {
      RollbackPassEffect(s, l.network, l.height, l.oracle, 0, l.pass, s');
    }
    FlaggedAnchored(s, s');
  }

  lemma OtherStepAnchored(c: Config, s: State, l: Label, s': State)
    requires RolledBackOk(s) && Next(c, s, l, s') && !l.IsHandlerStep() && !l.IsDrop()
    ensures Anchored(s'.rollbacks) && s'.rollbacks.issued == s.rollbacks.issued
  {
    if l.Start? {
      StartKeeps(c, s, l, s');
    } else if l.RollbackResult? {
      ResultAnchored(s.rollbacks, l.j, l.result, l.invoked, ROLLBACK_SKIPS, l.ok);
    } else if (l.FinalizeCalls? || l.FinalizeRollbacks?) && l.pass.Finalized? {
      FinalityAnchored(c, s, l, s');
    }
  }

  lemma StartFound(c: Config, s: State, l: Label, s': State)
    requires RolledBackOk(s) && Next(c, s, l, s') && l.Start?
    ensures forall k | 0 <= k < |s'.handlers| :: HeldFoundOk(s', s'.handlers[k])
  {
    StartKeeps(c, s, l, s');
    SameIssued(s.rollbacks, s'.rollbacks);
    forall k | 0 <= k < |s'.handlers| ensures HeldFoundOk(s', s'.handlers[k]) {
      assert StartsOrStays(s, s'.handlers[k], k);
      assert k < |s.handlers| ==> HeldFoundOk(s, s.handlers[k]);
    }
  }

  lemma OtherStepFound(c: Config, s: State, l: Label, s': State)
    requires IdsOk(s) && RolledBackOk(s) && Next(c, s, l, s') && DoneKept(s, s')
    requires !l.IsHandlerStep() && !l.IsDrop() && !l.Start? && s'.rollbacks.issued == s.rollbacks.issued
    ensures forall k | 0 <= k < |s'.handlers| :: HeldFoundOk(s', s'.handlers[k])
  {
    SameIssued(s.rollbacks, s'.rollbacks);
    OtherStepKeepsHandlers(c, s, l, s');
    forall k | 0 <= k < |s'.handlers| ensures HeldFoundOk(s', s'.handlers[k]) {
      assert HeldFoundOk(s, s.handlers[k]) && SameButNext(s.handlers[k], s'.handlers[k]);
    }
  }

  /** The rows and what the handlers know of them. */
  lemma StepFound(c: Config, s: State, l: Label, s': State)
    requires ValidConfig(c) && IdsOk(s) && TrueOk(s) && RolledBackOk(s) && Next(c, s, l, s') && !l.IsDrop()
             && DoneKept(s, s')
    ensures Anchored(s'.rollbacks) && s.rollbacks.issued <= s'.rollbacks.issued
    ensures forall k | 0 <= k < |s'.handlers| :: HeldFoundOk(s', s'.handlers[k])
  {
    if l.ActRollback? {
      ActStepFound(c, s, l, s');
    } else if l.IsHandlerStep() {
      MonitorStepFound(c, s, l, s');
    } else {
      OtherStepAnchored(c, s, l, s');
      if l.Start? {
        StartFound(c, s, l, s');
      } else {
        OtherStepFound(c, s, l, s');
      }
    }
  }

  lemma StepSentKnown(c: Config, s: State, l: Label, s': State)
    requires IdsOk(s) && TrueOk(s) && RolledBackOk(s) && Next(c, s, l, s') && !l.IsDrop()
    requires s.rollbacks.issued <= s'.rollbacks.issued
    ensures SentKnown(s')
  {
    NewlyAccepted(c, s, l, s');
    forall a | a in s'.world.log && a.event.CallMessageSent? && a.event.sn >= 1
      ensures Known(s'.rollbacks, a.network, a.event.sn)
    {
      if a in s.world.log {
        KnownIssued(s.rollbacks, s'.rollbacks, a.network, a.event.sn);
      } else {
        assert a == s'.world.log[|s.world.log|];
        ActRollbackOk(c, s, l, s');
      }
    }
  }

  lemma RowStaysDone(s: State, s': State, network: string, key: nat)
    requires DoneRow(s.rollbacks, network, key) && Anchored(s.rollbacks) && Anchored(s'.rollbacks)
    requires s.rollbacks.issued <= s'.rollbacks.issued && DoneKept(s, s')
    ensures DoneRow(s'.rollbacks, network, key)
  {
    var id :| DoneIn(s.rollbacks, id) && For(s.rollbacks.rows[id], network, key);
    assert DoneIn(s'.rollbacks, id);
    assert Tied(s.rollbacks, id, s.rollbacks.rows[id]) && Tied(s'.rollbacks, id, s'.rollbacks.rows[id]);
    assert For(s'.rollbacks.rows[id], network, key);
  }

  /** Acting on the rollback of a serial number whose message has been accepted. */
  lemma ActRollsBack(c: Config, s: State, l: Label, s': State, a: Accepted)
    requires RolledBackOk(s) && Next(c, s, l, s') && l.ActRollback? && a in s.world.log && s'.world.log != s.world.log
    requires ExecutesRollback(a, Accepted(s.handlers[l.h].network, s.handlers[l.h].phase.event))
    ensures DoneRow(s'.rollbacks, a.network, a.event.sn)
  {
    var h := s.handlers[l.h];
    assert HeldFoundOk(s, h);
    ExecutedRowDone(s.rollbacks, h.network, h.phase.event, h.phase.rollback, l.invoked, l.ok);
  }

  lemma RollbackDone(c: Config, s: State, l: Label, s': State, i: nat, j: nat)
    requires IdsOk(s) && RolledBackOk(s) && Next(c, s, l, s') && !l.IsDrop() && DoneKept(s, s')
    requires Anchored(s'.rollbacks) && s.rollbacks.issued <= s'.rollbacks.issued
    requires i < j < |s'.world.log| && ExecutesRollback(s'.world.log[i], s'.world.log[j])
    ensures DoneRow(s'.rollbacks, s'.world.log[j].network, s'.world.log[j].event.sn)
  {
    NewlyAccepted(c, s, l, s');
    assert s'.world.log[i] == s.world.log[i];
    if j < |s.world.log| {
      assert s'.world.log[j] == s.world.log[j];
      RowStaysDone(s, s', s.world.log[j].network, s.world.log[j].event.sn);
    } else {
      ActRollsBack(c, s, l, s', s.world.log[i]);
    }
  }

  lemma StepRollsBack(c: Config, s: State, l: Label, s': State)
    requires IdsOk(s) && RolledBackOk(s) && Next(c, s, l, s') && !l.IsDrop() && DoneKept(s, s')
    requires Anchored(s'.rollbacks) && s.rollbacks.issued <= s'.rollbacks.issued
    ensures RollbacksAreDone(s')
  {
    forall i, j | 0 <= i < j < |s'.world.log| && ExecutesRollback(s'.world.log[i], s'.world.log[j])
      ensures DoneRow(s'.rollbacks, s'.world.log[j].network, s'.world.log[j].event.sn)
    {
      RollbackDone(c, s, l, s', i, j);
    }
  }

  /** Everything known about a state of a run with single monitors. */
  ghost predicate SoundRollbacks(s: State) {
    OpenOk(s) && TrueOk(s) && RolledBackOk(s)
  }

  lemma StepRolledBackOk(c: Config, s: State, l: Label, s': State)
    requires ValidConfig(c) && SoundRollbacks(s) && Next(c, s, l, s') && !l.AddsMonitor()
    ensures RolledBackOk(s')
  {
    StepKeepsDone(c, s, l, s');
    StepKeepsOpen(c, s, l, s');
    StepFound(c, s, l, s');
    StepSentKnown(c, s, l, s');
    StepRollsBack(c, s, l, s');
  }

  lemma RollsBackAt(c: Config, r: Run, i: nat)
    requires ValidConfig(c) && IsRun(c, r) && i < |r.labels| && !r.labels[i].AddsMonitor()
    requires SoundRollbacks(r.states[i])
    ensures RolledBackOk(r.states[i + 1])
  {
    assert Takes(c, r, i);
    StepRolledBackOk(c, r.states[i], r.labels[i], r.states[i + 1]);
  }

  lemma {:induction false} RunRollsBack(c: Config, r: Run, k: nat)
    requires ValidConfig(c) && PositiveRun(r) && IsRun(c, r) && k < |r.states| && Solo(r, k)
    ensures RolledBackOk(r.states[k])
  {
    if k > 0 {
      RunRollsBack(c, r, k - 1);
      RunKeepsOpen(c, r, k - 1);
      RunTrue(c, r, k - 1);
      RollsBackAt(c, r, k - 1);
    }
  }

  /** In runs in which no monitor is started while others go on: after the rollback of a serial number
      whose message was accepted before has been accepted - its handler did not panic - the Rollback row
      is Done. */
  lemma RolledBackRequestsAreDone(c: Config, r: Run, k: nat, i: nat, j: nat)
    requires ValidConfig(c) && PositiveRun(r) && IsRun(c, r) && k < |r.states| && Solo(r, k)
    requires var log := r.states[k].world.log; i < j < |log| && ExecutesRollback(log[i], log[j])
    ensures DoneRow(r.states[k].rollbacks, r.states[k].world.log[i].network, r.states[k].world.log[i].event.sn)
  {
    RunRollsBack(c, r, k);
  }
}
