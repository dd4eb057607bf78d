/**
 Safety of the auto-caller over every run: between drops a Done row stays Done. For Calls
 this holds however many event monitors a network has; for Rollbacks it needs one each,
 and a concrete run shows what goes wrong with two.
 */
module XCallSafety {
  import opened Wrappers
  import opened XCallStore
  import opened XCallMachine

  // ----- what a finality pass can do to the tables

  /** Only flags of Call rows differ. */
  ghost predicate CallsFlagged(s: State, t: State) {
    && t == s.(calls := s.calls.(rows := t.calls.rows))
    && t.calls.rows.Keys == s.calls.rows.Keys
    && forall id | id in s.calls.rows ::
         var r := t.calls.rows[id];
         r == s.calls.rows[id].(eventFinalized := r.eventFinalized, finalized := r.finalized)
  }

  ghost predicate RollbacksFlagged(s: State, t: State) {
    && t == s.(rollbacks := s.rollbacks.(rows := t.rollbacks.rows))
    && t.rollbacks.rows.Keys == s.rollbacks.rows.Keys
    && forall id | id in s.rollbacks.rows ::
         var r := t.rollbacks.rows[id];
         r == s.rollbacks.rows[id].(eventFinalized := r.eventFinalized, finalized := r.finalized,
                data := s.rollbacks.rows[id].data.(triggerFinalized := r.data.triggerFinalized))
  }

  lemma CallsFlaggedTwice(s: State, ids: set<nat>, c: Column, u: State)
    requires CallsFlagged(s.(calls := s.calls.(rows := FlagCalls(s.calls.rows, ids, c))), u)
    ensures CallsFlagged(s, u)
  {
    forall id | id in s.calls.rows
      ensures var r := u.calls.rows[id];
              r == s.calls.rows[id].(eventFinalized := r.eventFinalized, finalized := r.finalized)
    {
      assert id in FlagCalls(s.calls.rows, ids, c);
    }
  }

  lemma {:induction false} CallPassEffect(s: State, network: string, height: int, oracle: Oracle, k: nat, pass: Pass,
                                          s': State)
    requires k <= |CALL_COLUMNS| && !pass.Aborted?
    requires CallPass(s, network, height, oracle, k, pass, s')
    ensures pass.Finalized? ==> CallsFlagged(s, s')
    ensures pass.Dropped? ==> exists t :: CallsFlagged(s, t) && s' == DropBlock(t, network, pass.height)
    decreases |CALL_COLUMNS| - k
  {
    if k < |CALL_COLUMNS| {
      var c := CALL_COLUMNS[k];
      var ids := PendingCalls(s.calls.rows, network, c, height);
      if pass.Dropped? && Scan(ids, CallMarks(s.calls.rows, c), oracle, pass)
         && s' == DropBlock(s, network, pass.height) {
        assert CallsFlagged(s, s);
      } else {
        var t := s.(calls := s.calls.(rows := FlagCalls(s.calls.rows, ids, c)));
        CallPassEffect(t, network, height, oracle, k + 1, pass, s');
        if pass.Dropped? {
          var u :| CallsFlagged(t, u) && s' == DropBlock(u, network, pass.height);
          CallsFlaggedTwice(s, ids, c, u);
        } else {
          CallsFlaggedTwice(s, ids, c, s');
        }
      }
    }
  }

  lemma RollbacksFlaggedTwice(s: State, ids: set<nat>, c: Column, u: State)
    requires RollbacksFlagged(s.(rollbacks := s.rollbacks.(rows := FlagRollbacks(s.rollbacks.rows, ids, c))), u)
    ensures RollbacksFlagged(s, u)
  {
    forall id | id in s.rollbacks.rows
      ensures var r, was := u.rollbacks.rows[id], s.rollbacks.rows[id];
              r == was.(eventFinalized := r.eventFinalized, finalized := r.finalized,
                        data := was.data.(triggerFinalized := r.data.triggerFinalized))
    {
      assert id in FlagRollbacks(s.rollbacks.rows, ids, c);
    }
  }

  lemma {:induction false} RollbackPassEffect(s: State, network: string, height: int, oracle: Oracle, k: nat,
                                              pass: Pass, s': State)
    requires k <= |ROLLBACK_COLUMNS| && !pass.Aborted?
    requires RollbackPass(s, network, height, oracle, k, pass, s')
    ensures pass.Finalized? ==> RollbacksFlagged(s, s')
    ensures pass.Dropped? ==> exists t :: RollbacksFlagged(s, t) && s' == DropBlock(t, network, pass.height)
    decreases |ROLLBACK_COLUMNS| - k
  {
    if k < |ROLLBACK_COLUMNS| {
      var c := ROLLBACK_COLUMNS[k];
      var ids := PendingRollbacks(s.rollbacks.rows, network, c, height);
      if pass.Dropped? && Scan(ids, RollbackMarks(s.rollbacks.rows, c), oracle, pass)
         && s' == DropBlock(s, network, pass.height) {
        assert RollbacksFlagged(s, s);
      } else {
        var t := s.(rollbacks := s.rollbacks.(rows := FlagRollbacks(s.rollbacks.rows, ids, c)));
        RollbackPassEffect(t, network, height, oracle, k + 1, pass, s');
        if pass.Dropped? {
          var u :| RollbacksFlagged(t, u) && s' == DropBlock(u, network, pass.height);
          RollbacksFlaggedTwice(s, ids, c, u);
        } else {
          RollbacksFlaggedTwice(s, ids, c, s');
        }
      }
    }
  }

  // ----- keys

  /** A row held by a handler has an issued key and belongs to the handler's network. */
  ghost predicate HeldOk<E>(s: Store<E>, network: string, held: Option<Record<E>>) {
    held.Some? ==> Issued(s, held.value.id, held.value.body) && held.value.body.network == network
  }

  ghost predicate HandlerOk(s: State, h: Handler) {
    match h.phase
    case HoldsCall(_, _, held) => HeldOk(s.calls, h.network, held)
    case HoldsRollback(_, _, held) => HeldOk(s.rollbacks, h.network, held)
    case _ => true
  }

  ghost predicate IdsOk(s: State) {
    && KeysOk(s.calls) && KeysOk(s.rollbacks)
    && forall h | 0 <= h < |s.handlers| :: HandlerOk(s, s.handlers[h])
  }

  /** More keys may have been issued; handlers keep what they hold. */
  lemma HandlersStayOk(s: State, s': State)
    requires IdsOk(s) && s.calls.issued <= s'.calls.issued && s.rollbacks.issued <= s'.rollbacks.issued
    ensures forall h | 0 <= h < |s.handlers| :: HandlerOk(s', s.handlers[h])
  {
    forall h | 0 <= h < |s.handlers| ensures HandlerOk(s', s.handlers[h]) {
      assert HandlerOk(s, s.handlers[h]);
    }
  }

  /** What a callback may do to the Call table: keys are only added, and Done rows stay Done. */
  ghost predicate DoneKept(s: Store<CallData>, s': Store<CallData>) {
    KeysOk(s') && s.issued <= s'.issued && forall id | DoneIn(s, id) :: DoneIn(s', id)
  }

  lemma CompletionKeeps(s: Store<CallData>, network: string, found: Record<CallData>, executed: Call, ok: bool)
    requires KeysOk(s) && HeldOk(s, network, Some(found)) && executed.state == StateDone
    ensures DoneKept(s, SaveOrReject(s, Completed(found, executed), ok).store)
  {
  }

  lemma CallActKeeps(s: Store<CallData>, network: string, e: Event, found: Option<Record<CallData>>, invoked: Invoked,
                     ok: bool)
    requires e.IsCall() && KeysOk(s) && HeldOk(s, network, found)
    ensures DoneKept(s, OnCall(s, network, e, found, invoked, ok).store)
  {
    var cm := NewCall(network, e);
    if e.CallMessage? {
      var id := if found.Some? then found.value.id else 0;
      ExecuteKeeps(s, Record(id, cm), invoked, CALL_SKIPS, ok);
      if found.Some? {
        SpawnKeeps(s, found.value);
      }
    } else if found.Some? {
      CompletionKeeps(s, network, found.value, cm, ok);
    }
  }

  /** The one write that takes a Rollback out of Done: saving a success response over a row
      that was read while it was still in state None. */
  ghost predicate Overwrites(e: Event, found: Option<Record<RollbackData>>, ok: bool, id: nat) {
    && e.ResponseMessage? && e.code == EXECUTE_RESULT_CODE_SUCCESS && ok
    && found.Some? && found.value.id == id && found.value.body.state == StateNone
  }

  /** What one callback may do to the Rollback table. */
  ghost predicate ActEffect(s: Store<RollbackData>, e: Event, found: Option<Record<RollbackData>>, ok: bool,
                            s': Store<RollbackData>)
  {
    && KeysOk(s') && s.issued <= s'.issued
    && forall id | DoneIn(s, id) :: DoneIn(s', id) <==> !Overwrites(e, found, ok, id)
  }

  lemma ResponseKeeps(s: Store<RollbackData>, network: string, e: Event, found: Option<Record<RollbackData>>,
                      invoked: Invoked, ok: bool)
    requires e.ResponseMessage? && found.Some? && KeysOk(s) && HeldOk(s, network, found)
    ensures ActEffect(s, e, found, ok, OnRollback(s, network, e, found, invoked, ok).store)
  {
    var answered := Answered(found.value, NewRollback(network, e));
    match found.value.body.state
    case StateNone =>
      SaveEffect(s, answered, ok);
      ExecuteKeeps(s, answered, invoked, ROLLBACK_SKIPS, ok);
    case StateSending => SpawnKeeps(s, found.value);
    case _ =>
  }

  lemma RollbackActKeeps(s: Store<RollbackData>, network: string, e: Event, found: Option<Record<RollbackData>>,
                         invoked: Invoked, ok: bool)
    requires e.IsRollback() && KeysOk(s) && HeldOk(s, network, found)
    ensures ActEffect(s, e, found, ok, OnRollback(s, network, e, found, invoked, ok).store)
  {
    if e.CallMessageSent? {
      SaveEffect(s, Record(0, NewRollback(network, e)), ok);
    } else if found.Some? {
      if e.ResponseMessage? {
        ResponseKeeps(s, network, e, found, invoked, ok);
      } else {
        SaveEffect(s, Completed(found.value, NewRollback(network, e)), ok);
      }
    }
  }

  /** The unguarded save changes the saved key only. */
  lemma SaveEffect<E>(s: Store<E>, r: Record<E>, ok: bool)
    requires KeysOk(s) && (r.id == 0 || Issued(s, r.id, r.body))
    ensures var s' := SaveOrReject(s, r, ok).store;
            && KeysOk(s') && s.issued <= s'.issued
            && (forall id | DoneIn(s, id) :: DoneIn(s', id) <==> !(ok && id == r.id && r.body.state != StateDone))
  {
  }

  lemma DropKeepsIds(s: State, network: string, height: int)
    requires IdsOk(s)
    ensures IdsOk(DropBlock(s, network, height))
  {
    HandlersStayOk(s, DropBlock(s, network, height));
  }

  lemma FlaggedKeepsIds(s: State, t: State)
    requires IdsOk(s) && (CallsFlagged(s, t) || RollbacksFlagged(s, t))
    ensures IdsOk(t)
    ensures forall id :: DoneIn(s.calls, id) <==> DoneIn(t.calls, id)
    ensures forall id :: DoneIn(s.rollbacks, id) <==> DoneIn(t.rollbacks, id)
  {
    HandlersStayOk(s, t);
  }

  lemma FinalityKeepsIds(c: Config, s: State, l: Label, s': State)
    requires IdsOk(s) && Next(c, s, l, s') && (l.FinalizeCalls? || l.FinalizeRollbacks?)
    ensures IdsOk(s')
    ensures !l.IsDrop() ==> (forall id | DoneIn(s.calls, id) :: DoneIn(s'.calls, id))
                            && (forall id :: DoneIn(s.rollbacks, id) <==> DoneIn(s'.rollbacks, id))
                            && s'.handlers == s.handlers
  {
    if !l.pass.Aborted? {
      if l.FinalizeCalls? {
        CallPassEffect(s, l.network, l.height, l.oracle, 0, l.pass, s');
      } else {
        RollbackPassEffect(s, l.network, l.height, l.oracle, 0, l.pass, s');
      }
      if l.pass.Finalized? {
        FlaggedKeepsIds(s, s');
      } else {
        var t :| (CallsFlagged(s, t) || RollbacksFlagged(s, t)) && s' == DropBlock(t, l.network, l.pass.height);
        FlaggedKeepsIds(s, t);
        DropKeepsIds(t, l.network, l.pass.height);
      }
    }
  }

  /** A new branch changes no row, nothing accepted and nothing a handler holds. */
  lemma BranchKeepsHeld(c: Config, s: State, l: Label, s': State)
    requires Next(c, s, l, s') && l.Branch?
    ensures s'.calls == s.calls && s'.rollbacks == s.rollbacks && s'.world.log == s.world.log
    ensures |s'.handlers| == |s.handlers|
    ensures forall h | 0 <= h < |s.handlers| :: SameButNext(s.handlers[h], s'.handlers[h])
  {
  }

  lemma BranchKeepsIds(c: Config, s: State, l: Label, s': State)
    requires IdsOk(s) && Next(c, s, l, s') && l.Branch?
    ensures IdsOk(s')
  {
    BranchKeepsHeld(c, s, l, s');
    forall h | 0 <= h < |s.handlers| ensures HandlerOk(s', s'.handlers[h]) {
      assert HandlerOk(s, s.handlers[h]) && SameButNext(s.handlers[h], s'.handlers[h]);
    }
  }

  ghost predicate SameButNext(h: Handler, h': Handler) {
    h' == h || (h.phase.Live() && h'.phase.Live() && h' == h.(phase := h.phase.(next := h'.phase.next)))
  }

  /** A callback that does not end with nil has written nothing. */
  lemma FailedActWritesNothing(c: Config, s: State, l: Label, s': State)
    requires Next(c, s, l, s') && (l.ActCall? || l.ActRollback?) && s'.world == s.world
    ensures s'.calls == s.calls && s'.rollbacks == s.rollbacks
  {
    var h := s.handlers[l.h];
    assert |s.world.log + [Accepted(h.network, h.phase.event)]| == |s.world.log| + 1;
    if l.ActCall? {
      assert OnCall(s.calls, h.network, h.phase.event, h.phase.call, l.invoked, l.ok).verdict != Accept;
    } else {
      assert OnRollback(s.rollbacks, h.network, h.phase.event, h.phase.rollback, l.invoked, l.ok).verdict != Accept;
    }
  }

  /** A callback that ends with nil adds its event to the log. */
  lemma AcceptedActIsLogged(c: Config, s: State, l: Label, s': State)
    requires Next(c, s, l, s') && (l.ActCall? || l.ActRollback?) && s'.world != s.world
    ensures s'.world.log == s.world.log + [Accepted(s.handlers[l.h].network, s.handlers[l.h].phase.event)]
  {
  }

  /** Starting again changes no row, and what is not new is gone or as it was. */
  lemma StartKeeps(c: Config, s: State, l: Label, s': State)
    requires Next(c, s, l, s') && l.Start?
    ensures s'.calls == s.calls.(jobs := s'.calls.jobs) && s'.rollbacks == s.rollbacks.(jobs := s'.rollbacks.jobs)
    ensures s'.calls.jobs in {s.calls.jobs, []} && s'.rollbacks.jobs in {s.rollbacks.jobs, []}
    ensures s'.world == s.world
    ensures forall h | 0 <= h < |s'.handlers| :: StartsOrStays(s, s'.handlers[h], h)
  {
  }

  ghost predicate StartsOrStays(s: State, h': Handler, h: nat) {
    h'.phase == Stopped || (h < |s.handlers| && h' == s.handlers[h])
  }

  lemma StartKeepsIds(c: Config, s: State, l: Label, s': State)
    requires IdsOk(s) && Next(c, s, l, s') && l.Start?
    ensures IdsOk(s')
  {
    StartKeeps(c, s, l, s');
    forall h | 0 <= h < |s'.handlers| ensures HandlerOk(s', s'.handlers[h]) {
      assert StartsOrStays(s, s'.handlers[h], h);
      assert h < |s.handlers| ==> HandlerOk(s, s.handlers[h]);
    }
  }

  // ----- one step

  /** The step is a handler's write that takes Rollback `id` out of Done. */
  ghost predicate LosesDone(s: State, l: Label, id: nat) {
    && l.ActRollback? && l.h < |s.handlers| && s.handlers[l.h].phase.HoldsRollback?
    && Overwrites(s.handlers[l.h].phase.event, s.handlers[l.h].phase.rollback, l.ok, id)
  }

  lemma CallStepKeeps(c: Config, s: State, l: Label, s': State)
    requires ValidConfig(c) && IdsOk(s) && Next(c, s, l, s') && l.ActCall?
    ensures IdsOk(s') && s'.rollbacks == s.rollbacks
    ensures forall id | DoneIn(s.calls, id) :: DoneIn(s'.calls, id)
  {
    var h := s.handlers[l.h];
    assert HandlerOk(s, h);
    CallActKeeps(s.calls, h.network, h.phase.event, h.phase.call, l.invoked, l.ok);
    HandlersStayOk(s, s');
  }

  lemma RollbackStepKeeps(c: Config, s: State, l: Label, s': State)
    requires ValidConfig(c) && IdsOk(s) && Next(c, s, l, s') && l.ActRollback?
    ensures IdsOk(s') && s'.calls == s.calls
    ensures forall id | DoneIn(s.rollbacks, id) :: DoneIn(s'.rollbacks, id) <==> !LosesDone(s, l, id)
  {
    var h := s.handlers[l.h];
    assert HandlerOk(s, h);
    RollbackActKeeps(s.rollbacks, h.network, h.phase.event, h.phase.rollback, l.invoked, l.ok);
    HandlersStayOk(s, s');
  }

  lemma HandlerStepKeeps(c: Config, s: State, l: Label, s': State)
    requires ValidConfig(c) && IdsOk(s) && Next(c, s, l, s') && l.IsHandlerStep()
    ensures IdsOk(s')
    ensures forall id | DoneIn(s.calls, id) :: DoneIn(s'.calls, id)
    ensures forall id | DoneIn(s.rollbacks, id) :: DoneIn(s'.rollbacks, id) <==> !LosesDone(s, l, id)
  {
    if l.ActCall? {
      CallStepKeeps(c, s, l, s');
    } else if l.ActRollback? {
      RollbackStepKeeps(c, s, l, s');
    } else {
      HandlersStayOk(s, s');
    }
  }

  lemma JobStepKeeps(c: Config, s: State, l: Label, s': State)
    requires IdsOk(s) && Next(c, s, l, s') && (l.CallResult? || l.RollbackResult?)
    ensures IdsOk(s')
    ensures forall id :: DoneIn(s.calls, id) <==> DoneIn(s'.calls, id)
    ensures forall id :: DoneIn(s.rollbacks, id) <==> DoneIn(s'.rollbacks, id)
  {
    if l.CallResult? {
      ResultKeeps(s.calls, l.j, l.result, l.invoked, CALL_SKIPS, l.ok);
    } else {
      ResultKeeps(s.rollbacks, l.j, l.result, l.invoked, ROLLBACK_SKIPS, l.ok);
    }
    HandlersStayOk(s, s');
  }

  /** Every step keeps the keys in order. Every step but a drop keeps each Call row that is
      Done; it takes a Rollback row out of Done exactly when it is the one unguarded write. */
  lemma StepKeepsDone(c: Config, s: State, l: Label, s': State)
    requires ValidConfig(c) && IdsOk(s) && Next(c, s, l, s')
    ensures IdsOk(s')
    ensures !l.IsDrop() ==> forall id | DoneIn(s.calls, id) :: DoneIn(s'.calls, id)
    ensures !l.IsDrop() ==> forall id | DoneIn(s.rollbacks, id) :: DoneIn(s'.rollbacks, id) <==> !LosesDone(s, l, id)
  {
    if l.IsHandlerStep() {
      HandlerStepKeeps(c, s, l, s');
    } else if l.CallResult? || l.RollbackResult? {
      JobStepKeeps(c, s, l, s');
    } else if l.Branch? {
      BranchKeepsHeld(c, s, l, s');
      BranchKeepsIds(c, s, l, s');
    } else if l.Start? {
      StartKeeps(c, s, l, s');
      StartKeepsIds(c, s, l, s');
    } else {
      FinalityKeepsIds(c, s, l, s');
    }
  }

  // ----- a single monitor per network never makes that write

  /** While a handler holds an open Rollback row, the table's row is not Done. */
  ghost predicate HeldStaysOpen(s: State) {
    forall h | 0 <= h < |s.handlers| :: OpenIn(s, s.handlers[h].phase)
  }

  ghost predicate OpenIn(s: State, phase: Phase) {
    (phase.HoldsRollback? && phase.rollback.Some? && phase.rollback.value.body.state != StateDone) ==>
      !DoneIn(s.rollbacks, phase.rollback.value.id)
  }

  /** A handler of one network makes no row of another network Done. */
  lemma ActCompletesOnlyItsOwn(s: Store<RollbackData>, network: string, e: Event, found: Option<Record<RollbackData>>,
                               invoked: Invoked, ok: bool, id: nat, body: Rollback)
    requires e.IsRollback() && KeysOk(s) && HeldOk(s, network, found)
    requires Issued(s, id, body) && body.network != network && !DoneIn(s, id)
    ensures !DoneIn(OnRollback(s, network, e, found, invoked, ok).store, id)
  {
    if e.ResponseMessage? && found.Some? {
      ExecuteKeeps(s, Answered(found.value, NewRollback(network, e)), invoked, ROLLBACK_SKIPS, ok);
      SpawnKeeps(s, found.value);
    }
  }

  lemma RollbackStepKeepsOpen(c: Config, s: State, l: Label, s': State, k: nat)
    requires ValidConfig(c) && IdsOk(s) && OneHandlerEach(s)
    requires Next(c, s, l, s') && l.ActRollback? && k < |s.handlers| && k != l.h
    requires OpenIn(s, s.handlers[k].phase)
    ensures OpenIn(s', s.handlers[k].phase)
  {
    var h, phase := s.handlers[l.h], s.handlers[k].phase;
    assert HandlerOk(s, h) && HandlerOk(s, s.handlers[k]);
    assert s.handlers[k].network != h.network;
    if phase.HoldsRollback? && phase.rollback.Some? && phase.rollback.value.body.state != StateDone {
      ActCompletesOnlyItsOwn(s.rollbacks, h.network, h.phase.event, h.phase.rollback,
                             l.invoked, l.ok, phase.rollback.value.id, phase.rollback.value.body);
    }
  }

  lemma MonitorStepOpens(c: Config, s: State, l: Label, s': State)
    requires IdsOk(s) && Next(c, s, l, s') && l.IsHandlerStep()
    ensures OpenIn(s', s'.handlers[l.h].phase)
  {
  }

  lemma HandlerStepKeepsOthers(c: Config, s: State, l: Label, s': State)
    requires OneHandlerEach(s) && Next(c, s, l, s') && l.IsHandlerStep()
    ensures OneHandlerEach(s') && |s'.handlers| == |s.handlers|
    ensures forall k | 0 <= k < |s.handlers| && k != l.h :: s'.handlers[k] == s.handlers[k]
  {
  }

  lemma HandlerStepKeepsOpen(c: Config, s: State, l: Label, s': State)
    requires ValidConfig(c) && IdsOk(s) && OneHandlerEach(s) && HeldStaysOpen(s)
    requires Next(c, s, l, s') && l.IsHandlerStep()
    ensures OneHandlerEach(s') && HeldStaysOpen(s')
  {
    HandlerStepKeepsOthers(c, s, l, s');
    MonitorStepOpens(c, s, l, s');
    forall k | 0 <= k < |s'.handlers| && k != l.h ensures OpenIn(s', s'.handlers[k].phase) {
      assert OpenIn(s, s.handlers[k].phase);
      if l.ActRollback? {
        RollbackStepKeepsOpen(c, s, l, s', k);
      }
    }
  }

  lemma BranchKeepsOpen(c: Config, s: State, l: Label, s': State)
    requires IdsOk(s) && OneHandlerEach(s) && HeldStaysOpen(s) && Next(c, s, l, s') && l.Branch?
    ensures OneHandlerEach(s') && HeldStaysOpen(s')
  {
    BranchKeepsHeld(c, s, l, s');
    forall k | 0 <= k < |s'.handlers| ensures OpenIn(s', s'.handlers[k].phase) {
      assert OpenIn(s, s.handlers[k].phase) && SameButNext(s.handlers[k], s'.handlers[k]);
    }
    forall h, k | 0 <= h < k < |s'.handlers| ensures s'.handlers[h].network != s'.handlers[k].network {
      assert SameButNext(s.handlers[h], s'.handlers[h]) && SameButNext(s.handlers[k], s'.handlers[k]);
    }
  }

  lemma QuietStepKeepsOpen(c: Config, s: State, l: Label, s': State)
    requires IdsOk(s) && OneHandlerEach(s) && HeldStaysOpen(s)
    requires Next(c, s, l, s') && !l.IsDrop() && !l.IsHandlerStep() && !l.Branch? && !l.Start?
    ensures OneHandlerEach(s') && HeldStaysOpen(s')
  {
    if l.CallResult? || l.RollbackResult? {
      JobStepKeeps(c, s, l, s');
    } else {
      FinalityKeepsIds(c, s, l, s');
    }
    assert s'.handlers == s.handlers;
    forall k | 0 <= k < |s'.handlers| ensures OpenIn(s', s'.handlers[k].phase) {
      assert OpenIn(s, s.handlers[k].phase);
    }
  }

  lemma StartKeepsOpen(c: Config, s: State, l: Label, s': State)
    requires Next(c, s, l, s') && l.Start? && l.anew
    ensures OneHandlerEach(s') && HeldStaysOpen(s')
  {
  }

  lemma StepKeepsOpen(c: Config, s: State, l: Label, s': State)
    requires ValidConfig(c) && IdsOk(s) && OneHandlerEach(s) && HeldStaysOpen(s)
    requires Next(c, s, l, s') && !l.AddsMonitor()
    ensures OneHandlerEach(s') && HeldStaysOpen(s')
    ensures forall id :: !(DoneIn(s.rollbacks, id) && LosesDone(s, l, id))
  {
    if l.IsHandlerStep() {
      HandlerStepKeepsOpen(c, s, l, s');
      assert l.ActRollback? ==> OpenIn(s, s.handlers[l.h].phase);
    } else if l.Branch? {
      BranchKeepsOpen(c, s, l, s');
    } else if l.Start? {
      StartKeepsOpen(c, s, l, s');
    } else {
      QuietStepKeepsOpen(c, s, l, s');
    }
  }

  // ----- runs

  lemma KeepsIdsAt(c: Config, r: Run, i: nat)
    requires ValidConfig(c) && IsRun(c, r) && i < |r.labels| && IdsOk(r.states[i])
    ensures IdsOk(r.states[i + 1])
  {
    assert Takes(c, r, i);
    StepKeepsDone(c, r.states[i], r.labels[i], r.states[i + 1]);
  }

  lemma {:induction false} RunKeepsIds(c: Config, r: Run, i: nat)
    requires ValidConfig(c) && IsRun(c, r) && i < |r.states|
    ensures IdsOk(r.states[i])
  {
    if i > 0 {
      RunKeepsIds(c, r, i - 1);
      KeepsIdsAt(c, r, i - 1);
    }
  }

  /** One monitor per network, which holds open rows. */
  ghost predicate OpenOk(s: State) {
    IdsOk(s) && OneHandlerEach(s) && HeldStaysOpen(s)
  }

  lemma KeepsOpenAt(c: Config, r: Run, i: nat)
    requires ValidConfig(c) && IsRun(c, r) && i < |r.labels| && !r.labels[i].AddsMonitor() && OpenOk(r.states[i])
    ensures OpenOk(r.states[i + 1])
    ensures forall id | DoneIn(r.states[i].rollbacks, id) :: DoneIn(r.states[i + 1].rollbacks, id)
  {
    assert Takes(c, r, i);
    StepKeepsDone(c, r.states[i], r.labels[i], r.states[i + 1]);
    StepKeepsOpen(c, r.states[i], r.labels[i], r.states[i + 1]);
  }

  lemma {:induction false} RunKeepsOpen(c: Config, r: Run, i: nat)
    requires ValidConfig(c) && IsRun(c, r) && i < |r.states| && Solo(r, i)
    ensures OpenOk(r.states[i])
  {
    if i > 0 {
      RunKeepsOpen(c, r, i - 1);
      KeepsOpenAt(c, r, i - 1);
    }
  }

  lemma CallsStayDoneAt(c: Config, r: Run, i: nat)
    requires ValidConfig(c) && IsRun(c, r) && i < |r.labels| && !r.labels[i].IsDrop()
    ensures forall id | DoneIn(r.states[i].calls, id) :: DoneIn(r.states[i + 1].calls, id)
  {
    RunKeepsIds(c, r, i);
    assert Takes(c, r, i);
    StepKeepsDone(c, r.states[i], r.labels[i], r.states[i + 1]);
  }

  /** In every run, a Call that is Done stays Done until the next drop, whatever the
      interleaving of monitors and stale result goroutines. */
  lemma {:induction false} DoneCallsStayDone(c: Config, r: Run, i: nat, j: nat, id: nat)
    requires ValidConfig(c) && IsRun(c, r) && i <= j < |r.states| && NoDrop(r, i, j)
    requires DoneIn(r.states[i].calls, id)
    ensures DoneIn(r.states[j].calls, id)
    decreases j - i
  {
    if i < j {
      DoneCallsStayDone(c, r, i, j - 1, id);
      CallsStayDoneAt(c, r, j - 1);
    }
  }

  /** In every run in which no monitor is started while others go on - not by a drop, and not by
      starting again in the same process - a Rollback that is Done stays Done. */
  lemma {:induction false} DoneRollbacksStayDone(c: Config, r: Run, i: nat, j: nat, id: nat)
    requires ValidConfig(c) && IsRun(c, r) && i <= j < |r.states| && Solo(r, j)
    requires DoneIn(r.states[i].rollbacks, id)
    ensures DoneIn(r.states[j].rollbacks, id)
    decreases j - i
  {
    if i < j {
      DoneRollbacksStayDone(c, r, i, j - 1, id);
      RunKeepsOpen(c, r, j - 1);
      KeepsOpenAt(c, r, j - 1);
    }
  }
}
