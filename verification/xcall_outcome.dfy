/**
 What Done means: a Done row records the transaction, block and result of an accepted event
 that reported the execution of its own request. It follows that Rollbacks stay Done even with
 a second event monitor running, as long as no serial number is ever both answered with
 success and rolled back - on one branch or on two.
 */
module XCallOutcome {
  import opened Wrappers
  import opened XCallStore
  import opened XCallMachine
  import opened XCallSafety
  import opened XCallUnique

  datatype Kind = CallKind | RollbackKind

  /** What a row says about the execution of its request. */
  datatype Outcome = Outcome(network: string, key: nat, txId: string, blockHeight: int, blockId: string, code: int,
                             msg: string)

  function OutcomeOf<E>(r: Row<E>): Outcome {
    Outcome(r.network, r.key, r.txId, r.blockHeight, r.blockId, r.execResultCode, r.execResultMsg)
  }

  ghost predicate Reports(e: Event, kind: Kind, o: Outcome) {
    match kind
    case CallKind =>
      e.CallExecuted? && o == Outcome(o.network, e.reqId, e.txId, e.height, e.blockId, e.code, e.msg)
    case RollbackKind =>
      e.RollbackExecuted? && o == Outcome(o.network, e.sn, e.txId, e.height, e.blockId, e.code, e.msg)
  }

  /** Some accepted event of the row's network, on whichever branch, reports exactly this outcome. */
  ghost predicate Reported(log: seq<Accepted>, kind: Kind, o: Outcome) {
    exists a :: a in log && a.network == o.network && Reports(a.event, kind, o)
  }

  /** Request ids and serial numbers are positive, on every branch. */
  ghost predicate PositiveKeys(w: World) {
    forall n, i | n in w.chain && 0 <= i < |w.chain[n]| && (w.chain[n][i].IsCall() || w.chain[n][i].IsRollback()) ::
      w.chain[n][i].Key() >= 1
  }

  ghost predicate PositiveRun(r: Run) {
    forall k | 0 <= k < |r.states| :: PositiveKeys(r.states[k].world)
  }

  /** Rows and copies keep network and request of their key; every Done row records a reported outcome. */
  ghost predicate TrueStore<E>(log: seq<Accepted>, kind: Kind, s: Store<E>) {
    && (forall id | id in s.rows :: Tied(s, id, s.rows[id]))
    && (forall id | DoneIn(s, id) :: Reported(log, kind, OutcomeOf(s.rows[id])))
    && (forall j | 0 <= j < |s.jobs| && s.jobs[j].Some? ::
          s.jobs[j].value.id == 0 || Tied(s, s.jobs[j].value.id, s.jobs[j].value.body))
  }

  /** What a handler holds is the row of the request its event is about. */
  ghost predicate HeldTrue(s: State, h: Handler) {
    match h.phase
    case HoldsCall(_, e, Some(r)) => HeldFor(s.calls, r, h.network, e)
    case HoldsRollback(_, e, Some(r)) => HeldFor(s.rollbacks, r, h.network, e)
    case _ => true
  }

  ghost predicate HeldFor<E>(s: Store<E>, r: Record<E>, network: string, e: Event) {
    && Tied(s, r.id, r.body) && r.body.network == network
    && (e.IsCall() || e.IsRollback()) && r.body.key == e.Key()
  }

  ghost predicate TrueOk(s: State) {
    && TrueStore(s.world.log, CallKind, s.calls) && TrueStore(s.world.log, RollbackKind, s.rollbacks)
    && forall h | 0 <= h < |s.handlers| :: HeldTrue(s, s.handlers[h])
  }

  lemma MoreAccepted<E>(log: seq<Accepted>, log': seq<Accepted>, kind: Kind, s: Store<E>)
    requires TrueStore(log, kind, s) && log <= log'
    ensures TrueStore(log', kind, s)
  {
    forall id | DoneIn(s, id) ensures Reported(log', kind, OutcomeOf(s.rows[id])) {
      var a :| a in log && a.network == s.rows[id].network && Reports(a.event, kind, OutcomeOf(s.rows[id]));
      assert a in log';
    }
  }

  lemma SaveTrue<E>(log: seq<Accepted>, kind: Kind, s: Store<E>, r: Record<E>)
    requires TrueStore(log, kind, s) && (r.id == 0 || Tied(s, r.id, r.body))
    requires r.body.state == StateDone ==> Reported(log, kind, OutcomeOf(r.body))
    ensures TrueStore(log, kind, Save(s, r)) && s.issued <= Save(s, r).issued
    ensures Tied(Save(s, r), SavedId(s, r), r.body)
  {
  }

  lemma SpawnTrue<E>(log: seq<Accepted>, kind: Kind, s: Store<E>, r: Record<E>)
    requires TrueStore(log, kind, s) && (r.id == 0 || Tied(s, r.id, r.body))
    ensures TrueStore(log, kind, Spawn(s, r))
  {
  }

  lemma ExecuteTrue<E>(log: seq<Accepted>, kind: Kind, s: Store<E>, r: Record<E>, invoked: Invoked,
                       skips: set<string>, ok: bool)
    requires TrueStore(log, kind, s) && (r.id == 0 || Tied(s, r.id, r.body))
    ensures var s' := Execute(s, r, invoked, skips, ok); TrueStore(log, kind, s') && s.issued <= s'.issued
  {
    match invoked
    case Refused(error) => SaveTrue(log, kind, s, Failed(r, error, skips));
    case Submitted(txId) =>
      var sent := r.(body := r.body.(state := StateSending, txId := txId));
      SaveTrue(log, kind, s, sent);
      SpawnTrue(log, kind, SaveIfNotDone(s, sent, ok), sent.(id := SavedIfId(s, sent, ok)));
  }

  lemma ResultTrue<E>(log: seq<Accepted>, kind: Kind, s: Store<E>, j: nat, result: TxResult, invoked: Invoked,
                      skips: set<string>, ok: bool)
    requires TrueStore(log, kind, s) && j < |s.jobs| && s.jobs[j].Some?
    ensures var s' := Result(s, j, result, invoked, skips, ok); TrueStore(log, kind, s') && s.issued <= s'.issued
  {
    var r, ended := s.jobs[j].value, End(s, j);
    assert TrueStore(log, kind, ended);
    match result
    case NotAvailable =>
    case UnknownTransaction => ExecuteTrue(log, kind, ended, r.(body := r.body.(txId := "")), invoked, skips, ok);
    case Reverted(error) => SaveTrue(log, kind, ended, Failed(r, error, skips));
    case Executed(height, blockId) =>
      SaveTrue(log, kind, ended, r.(body := r.body.(state := StateSent, blockHeight := height, blockId := blockId)));
  }

  lemma CompletedReported<E>(log: seq<Accepted>, kind: Kind, found: Record<E>, executed: Row<E>, a: Accepted)
    requires executed.network == found.body.network && executed.key == found.body.key
    requires a in log && a.network == found.body.network && Reports(a.event, kind, OutcomeOf(executed))
    ensures Reported(log, kind, OutcomeOf(Completed(found, executed).body))
  {
    assert OutcomeOf(Completed(found, executed).body) == OutcomeOf(executed);
  }

  lemma CallActTrue(log: seq<Accepted>, s: Store<CallData>, a: Accepted, found: Option<Record<CallData>>,
                    invoked: Invoked, ok: bool)
    requires TrueStore(log, CallKind, s) && a in log && a.event.IsCall()
    requires found.Some? ==> HeldFor(s, found.value, a.network, a.event)
    ensures var s' := OnCall(s, a.network, a.event, found, invoked, ok).store;
            TrueStore(log, CallKind, s') && s.issued <= s'.issued
  {
    var cm := NewCall(a.network, a.event);
    if a.event.CallMessage? {
      ExecuteTrue(log, CallKind, s, Record(if found.Some? then found.value.id else 0, cm), invoked, CALL_SKIPS, ok);
      if found.Some? {
        SpawnTrue(log, CallKind, s, found.value);
      }
    } else if found.Some? {
      CompletedReported(log, CallKind, found.value, cm, a);
      SaveTrue(log, CallKind, s, Completed(found.value, cm));
    }
  }

  lemma ResponseTrue(log: seq<Accepted>, s: Store<RollbackData>, network: string, e: Event,
                     found: Record<RollbackData>, invoked: Invoked, ok: bool)
    requires TrueStore(log, RollbackKind, s) && e.ResponseMessage? && HeldFor(s, found, network, e)
    ensures var s' := OnRollback(s, network, e, Some(found), invoked, ok).store;
            TrueStore(log, RollbackKind, s') && s.issued <= s'.issued
  {
    var answered := Answered(found, NewRollback(network, e));
    match found.body.state
    case StateNone =>
      SaveTrue(log, RollbackKind, s, answered);
      ExecuteTrue(log, RollbackKind, s, answered, invoked, ROLLBACK_SKIPS, ok);
    case StateSending => SpawnTrue(log, RollbackKind, s, found);
    case _ =>
  }

  lemma RollbackActTrue(log: seq<Accepted>, s: Store<RollbackData>, a: Accepted, found: Option<Record<RollbackData>>,
                        invoked: Invoked, ok: bool)
    requires TrueStore(log, RollbackKind, s) && a in log && a.event.IsRollback()
    requires found.Some? ==> HeldFor(s, found.value, a.network, a.event)
    ensures var s' := OnRollback(s, a.network, a.event, found, invoked, ok).store;
            TrueStore(log, RollbackKind, s') && s.issued <= s'.issued
  {
    var rm := NewRollback(a.network, a.event);
    if a.event.CallMessageSent? {
      SaveTrue(log, RollbackKind, s, Record(0, rm));
    } else if found.Some? {
      if a.event.ResponseMessage? {
        ResponseTrue(log, s, a.network, a.event, found.value, invoked, ok);
      } else {
        CompletedReported(log, RollbackKind, found.value, rm, a);
        SaveTrue(log, RollbackKind, s, Completed(found.value, rm));
      }
    }
  }

  lemma HeldStayTrue(s: State, s': State)
    requires TrueOk(s) && s.calls.issued <= s'.calls.issued && s.rollbacks.issued <= s'.rollbacks.issued
    ensures forall h | 0 <= h < |s.handlers| :: HeldTrue(s', s.handlers[h])
  {
    forall h | 0 <= h < |s.handlers| ensures HeldTrue(s', s.handlers[h]) {
      assert HeldTrue(s, s.handlers[h]);
    }
  }

  lemma ReadTrue<E>(log: seq<Accepted>, kind: Kind, s: Store<E>, network: string, e: Event, found: Option<Record<E>>)
    requires TrueStore(log, kind, s) && network != "" && (e.IsCall() || e.IsRollback()) && e.Key() >= 1
    requires IsFirst(s, network, e.Key(), found) && found.Some?
    ensures HeldFor(s, found.value, network, e)
  {
    assert Tied(s, found.value.id, s.rows[found.value.id]);
  }

  lemma ActStoresTrue(c: Config, s: State, l: Label, s': State)
    requires TrueOk(s) && Next(c, s, l, s') && (l.ActCall? || l.ActRollback?)
    ensures TrueStore(s'.world.log, CallKind, s'.calls) && TrueStore(s'.world.log, RollbackKind, s'.rollbacks)
    ensures s.calls.issued <= s'.calls.issued && s.rollbacks.issued <= s'.rollbacks.issued
  {
    var h, log := s.handlers[l.h], s'.world.log;
    if s'.world == s.world {
      FailedActWritesNothing(c, s, l, s');
    } else {
      AcceptedActIsLogged(c, s, l, s');
      assert HeldTrue(s, h);
      MoreAccepted(s.world.log, log, CallKind, s.calls);
      MoreAccepted(s.world.log, log, RollbackKind, s.rollbacks);
      var a := Accepted(h.network, h.phase.event);
      assert a in log;
      if l.ActCall? {
        CallActTrue(log, s.calls, a, h.phase.call, l.invoked, l.ok);
      } else {
        RollbackActTrue(log, s.rollbacks, a, h.phase.rollback, l.invoked, l.ok);
      }
    }
  }

  lemma ActStepTrue(c: Config, s: State, l: Label, s': State)
    requires TrueOk(s) && Next(c, s, l, s') && (l.ActCall? || l.ActRollback?)
    ensures TrueOk(s')
  {
    ActStoresTrue(c, s, l, s');
    HeldStayTrue(s, s');
    forall k | 0 <= k < |s'.handlers| ensures HeldTrue(s', s'.handlers[k]) {
      assert k != l.h ==> s'.handlers[k] == s.handlers[k];
    }
  }

  lemma MonitorStepTrue(c: Config, s: State, l: Label, s': State)
    requires ValidConfig(c) && PositiveKeys(s.world) && TrueOk(s) && Next(c, s, l, s')
    requires l.IsHandlerStep() && !l.ActCall? && !l.ActRollback?
    ensures TrueOk(s')
  {
    var h := s.handlers[l.h];
    HeldStayTrue(s, s');
    MoreAccepted(s.world.log, s'.world.log, CallKind, s.calls);
    MoreAccepted(s.world.log, s'.world.log, RollbackKind, s.rollbacks);
    if l.ReadCall? && l.call.Some? {
      ReadTrue(s.world.log, CallKind, s.calls, h.network, s.world.chain[h.network][h.phase.next], l.call);
    } else if l.ReadRollback? && l.rollback.Some? {
      ReadTrue(s.world.log, RollbackKind, s.rollbacks, h.network, s.world.chain[h.network][h.phase.next], l.rollback);
    }
    forall k | 0 <= k < |s'.handlers| ensures HeldTrue(s', s'.handlers[k]) {
      assert k != l.h ==> s'.handlers[k] == s.handlers[k];
    }
  }

  lemma FlaggedTrue(s: State, t: State)
    requires TrueOk(s) && (CallsFlagged(s, t) || RollbacksFlagged(s, t))
    ensures TrueOk(t)
  {
    HeldStayTrue(s, t);
    SameOutcomes(s.world.log, CallKind, s.calls, t.calls);
    SameOutcomes(s.world.log, RollbackKind, s.rollbacks, t.rollbacks);
  }

  /** Rows that keep their identity, and their outcome while they are Done, stay true. */
  lemma SameOutcomes<E>(log: seq<Accepted>, kind: Kind, s: Store<E>, t: Store<E>)
    requires TrueStore(log, kind, s) && t == s.(rows := t.rows) && t.rows.Keys <= s.rows.Keys
    requires forall id | id in t.rows :: t.rows[id].network == s.rows[id].network && t.rows[id].key == s.rows[id].key
    requires forall id | DoneIn(t, id) :: DoneIn(s, id) && OutcomeOf(t.rows[id]) == OutcomeOf(s.rows[id])
    ensures TrueStore(log, kind, t)
  {
  }

  lemma DropTrue(s: State, network: string, height: int)
    requires TrueOk(s)
    ensures TrueOk(DropBlock(s, network, height))
  {
    var t := DropBlock(s, network, height);
    HeldStayTrue(s, t);
    SameOutcomes(s.world.log, CallKind, s.calls, t.calls);
    SameOutcomes(s.world.log, RollbackKind, s.rollbacks, t.rollbacks);
  }

  lemma FinalityTrue(c: Config, s: State, l: Label, s': State)
    requires TrueOk(s) && Next(c, s, l, s') && (l.FinalizeCalls? || l.FinalizeRollbacks?)
    ensures TrueOk(s')
  {
    if !l.pass.Aborted? {
      if l.FinalizeCalls? {
        CallPassEffect(s, l.network, l.height, l.oracle, 0, l.pass, s');
      } else {
        RollbackPassEffect(s, l.network, l.height, l.oracle, 0, l.pass, s');
      }
      if l.pass.Finalized? {
        FlaggedTrue(s, s');
      } else {
        var t :| (CallsFlagged(s, t) || RollbacksFlagged(s, t)) && s' == DropBlock(t, l.network, l.pass.height);
        FlaggedTrue(s, t);
        DropTrue(t, l.network, l.pass.height);
      }
    }
  }

  lemma BranchTrue(c: Config, s: State, l: Label, s': State)
    requires TrueOk(s) && Next(c, s, l, s') && l.Branch?
    ensures TrueOk(s')
  {
    BranchKeepsHeld(c, s, l, s');
    forall h | 0 <= h < |s'.handlers| ensures HeldTrue(s', s'.handlers[h]) {
      assert HeldTrue(s, s.handlers[h]) && SameButNext(s.handlers[h], s'.handlers[h]);
    }
  }

  lemma StartTrue(c: Config, s: State, l: Label, s': State)
    requires TrueOk(s) && Next(c, s, l, s') && l.Start?
    ensures TrueOk(s')
  {
    StartKeeps(c, s, l, s');
    forall h | 0 <= h < |s'.handlers| ensures HeldTrue(s', s'.handlers[h]) {
      assert StartsOrStays(s, s'.handlers[h], h);
      assert h < |s.handlers| ==> HeldTrue(s, s.handlers[h]);
    }
  }

  lemma StepTrue(c: Config, s: State, l: Label, s': State)
    requires ValidConfig(c) && PositiveKeys(s.world) && TrueOk(s) && Next(c, s, l, s')
    ensures TrueOk(s')
  {
    if l.ActCall? || l.ActRollback? {
      ActStepTrue(c, s, l, s');
    } else if l.IsHandlerStep() {
      MonitorStepTrue(c, s, l, s');
    } else if l.CallResult? {
      ResultTrue(s.world.log, CallKind, s.calls, l.j, l.result, l.invoked, CALL_SKIPS, l.ok);
      HeldStayTrue(s, s');
    } else if l.RollbackResult? {
      ResultTrue(s.world.log, RollbackKind, s.rollbacks, l.j, l.result, l.invoked, ROLLBACK_SKIPS, l.ok);
      HeldStayTrue(s, s');
    } else if l.Branch? {
      BranchTrue(c, s, l, s');
    } else if l.Start? {
      StartTrue(c, s, l, s');
    } else {
      FinalityTrue(c, s, l, s');
    }
  }

  lemma TrueAt(c: Config, r: Run, i: nat)
    requires ValidConfig(c) && PositiveRun(r) && IsRun(c, r) && i < |r.labels| && TrueOk(r.states[i])
    ensures TrueOk(r.states[i + 1])
  {
    assert Takes(c, r, i);
    assert PositiveKeys(r.states[i].world);
    StepTrue(c, r.states[i], r.labels[i], r.states[i + 1]);
  }

  lemma {:induction false} RunTrue(c: Config, r: Run, k: nat)
    requires ValidConfig(c) && PositiveRun(r) && IsRun(c, r) && k < |r.states|
    ensures TrueOk(r.states[k])
  {
    if k > 0 {
      RunTrue(c, r, k - 1);
      TrueAt(c, r, k - 1);
    }
  }

  /** In every run - drops, replaced branches and second monitors included - a Done row records an
      accepted execution event of its own network and request: no stale copy ever mixes into it. */
  lemma DoneRowsRecordTheirExecution(c: Config, r: Run, k: nat, id: nat)
    requires ValidConfig(c) && PositiveRun(r) && IsRun(c, r) && k < |r.states|
    ensures DoneIn(r.states[k].calls, id) ==>
              Reported(r.states[k].world.log, CallKind, OutcomeOf(r.states[k].calls.rows[id]))
    ensures DoneIn(r.states[k].rollbacks, id) ==>
              Reported(r.states[k].world.log, RollbackKind, OutcomeOf(r.states[k].rollbacks.rows[id]))
  {
    RunTrue(c, r, k);
  }

  /** No serial number has been both answered with success and executed, on any branch. */
  ghost predicate Consistent(log: seq<Accepted>) {
    forall a, b | a in log && b in log && a.network == b.network
                  && a.event.ResponseMessage? && a.event.code == EXECUTE_RESULT_CODE_SUCCESS
                     && b.event.RollbackExecuted? ::
      a.event.sn != b.event.sn
  }

  /** The step that takes a Rollback out of Done accepts a success response to a serial number
      whose execution has been accepted. */
  lemma LosingIsInconsistent(c: Config, s: State, l: Label, s': State, id: nat)
    requires TrueOk(s) && Next(c, s, l, s') && DoneIn(s.rollbacks, id) && LosesDone(s, l, id)
    ensures !Consistent(s'.world.log)
  {
    var h := s.handlers[l.h];
    assert HeldTrue(s, h);
    var row := s.rollbacks.rows[id];
    assert Tied(s.rollbacks, id, row);
    var b :| b in s.world.log && b.network == row.network && Reports(b.event, RollbackKind, OutcomeOf(row));
    var a := Accepted(h.network, h.phase.event);
    assert s'.world.log == s.world.log + [a];
    assert a in s'.world.log && b in s'.world.log && a.event.sn == b.event.sn;
  }

  lemma ConsistentKeeps(c: Config, s: State, l: Label, s': State, id: nat)
    requires TrueOk(s) && Next(c, s, l, s') && DoneIn(s.rollbacks, id) && Consistent(s'.world.log)
    ensures !LosesDone(s, l, id)
  {
    if LosesDone(s, l, id) {
      LosingIsInconsistent(c, s, l, s', id);
    }
  }

  lemma LogGrows(c: Config, s: State, l: Label, s': State)
    requires Next(c, s, l, s')
    ensures s.world.log <= s'.world.log
  {
    if (l.FinalizeCalls? || l.FinalizeRollbacks?) && !l.pass.Aborted? {
      if l.FinalizeCalls? {
        CallPassEffect(s, l.network, l.height, l.oracle, 0, l.pass, s');
      } else {
        RollbackPassEffect(s, l.network, l.height, l.oracle, 0, l.pass, s');
      }
    }
  }

  lemma ConsistentBefore(log: seq<Accepted>, log': seq<Accepted>)
    requires log <= log' && Consistent(log')
    ensures Consistent(log)
  {
    assert forall a | a in log :: a in log';
  }

  lemma ConsistentStepKeepsDone(c: Config, s: State, l: Label, s': State)
    requires ValidConfig(c) && IdsOk(s) && TrueOk(s) && Next(c, s, l, s') && Consistent(s'.world.log)
    ensures Consistent(s.world.log)
    ensures !l.IsDrop() ==> forall id | DoneIn(s.rollbacks, id) :: DoneIn(s'.rollbacks, id)
  {
    LogGrows(c, s, l, s');
    ConsistentBefore(s.world.log, s'.world.log);
    StepKeepsDone(c, s, l, s');
    forall id | DoneIn(s.rollbacks, id) ensures !LosesDone(s, l, id) {
      ConsistentKeeps(c, s, l, s', id);
    }
  }

  lemma ConsistentAt(c: Config, r: Run, i: nat)
    requires ValidConfig(c) && PositiveRun(r) && IsRun(c, r) && i < |r.labels|
    requires Consistent(r.states[i + 1].world.log)
    ensures Consistent(r.states[i].world.log)
    ensures !r.labels[i].IsDrop() ==>
              forall id | DoneIn(r.states[i].rollbacks, id) :: DoneIn(r.states[i + 1].rollbacks, id)
  {
    RunKeepsIds(c, r, i);
    RunTrue(c, r, i);
    assert Takes(c, r, i);
    ConsistentStepKeepsDone(c, r.states[i], r.labels[i], r.states[i + 1]);
  }

  /** In every run, however many monitors, drops and branches there have been: as long as no serial
      number has been both answered with success and executed, a Rollback that is Done stays Done
      until the next drop. */
  lemma {:induction false} DoneRollbacksStayDoneIfConsistent(c: Config, r: Run, i: nat, j: nat, id: nat)
    requires ValidConfig(c) && PositiveRun(r) && IsRun(c, r) && i <= j < |r.states| && NoDrop(r, i, j)
    requires Consistent(r.states[j].world.log) && DoneIn(r.states[i].rollbacks, id)
    ensures DoneIn(r.states[j].rollbacks, id)
    decreases j - i
  {
    if i < j {
      ConsistentAt(c, r, j - 1);
      DoneRollbacksStayDoneIfConsistent(c, r, i, j - 1, id);
    }
  }
}
