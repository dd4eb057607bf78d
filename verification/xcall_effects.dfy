/**
 What is in the tables after every step that writes a task: row by row and field by field, from the event,
 the record that was read and what the outside answered.
 */
module XCallEffects {
  import opened Wrappers
  import opened XCallStore
  import opened XCallMachine
  import opened XCallSafety

  datatype Task = CallTask | RollbackTask

  // ----- saving

  /** The key a record without one gets is the next. */
  function KeyFor<E>(s: Store<E>, id: nat): nat {
    if id == 0 then |s.issued| + 1 else id
  }

  /** `body` is in the table under the key `id`, or a new one; all other rows are as they were. */
  ghost predicate Wrote<E>(s: Store<E>, id: nat, body: Row<E>, s': Store<E>) {
    && s'.rows == s.rows[KeyFor(s, id) := body]
    && s'.issued == if id == 0 then s.issued + [body] else s.issued
  }

  ghost predicate WroteNothing<E>(s: Store<E>, s': Store<E>) {
    s'.rows == s.rows && s'.issued == s.issued
  }

  /** A guarded save is made: it succeeds, and there is no row with its key that is Done. */
  predicate Passes<E>(s: Store<E>, id: nat, ok: bool) {
    ok && !(id != 0 && id in s.rows && s.rows[id].state == StateDone)
  }

  ghost predicate WroteGuarded<E>(s: Store<E>, id: nat, body: Row<E>, ok: bool, s': Store<E>) {
    if Passes(s, id, ok) then Wrote(s, id, body, s') else WroteNothing(s, s')
  }

  // ----- refused and reverted transactions

  /** The estimate of the transaction's cost fails for a reason that says it need not be sent. */
  predicate IsSkipped(task: Task, error: CallError) {
    && error.EstimateError?
    && match task
       case CallTask => error.reason == "InvalidRequestId"
       case RollbackTask => error.reason == "InvalidSerialNum" || error.reason == "RollbackNotEnabled"
  }

  /** Skipped tasks lose their transaction; others keep it, and are in error with its message. Nothing else
      of the record changes. */
  ghost predicate IsFailure<E>(task: Task, error: CallError, body: Row<E>, after: Row<E>) {
    && after == body.(state := after.state, txId := after.txId, failure := after.failure)
    && after.state == (if IsSkipped(task, error) then StateSkip else StateError)
    && after.txId == (if IsSkipped(task, error) then "" else body.txId)
    && after.failure == (if IsSkipped(task, error) then body.failure else error.message)
  }

  /** After the guarded save of a failed task. */
  ghost predicate FailureStored<E>(task: Task, s: Store<E>, r: Record<E>, error: CallError, ok: bool, s': Store<E>) {
    && s'.jobs == s.jobs
    && if Passes(s, r.id, ok) then
         && KeyFor(s, r.id) in s'.rows
         && IsFailure(task, error, r.body, s'.rows[KeyFor(s, r.id)])
         && Wrote(s, r.id, s'.rows[KeyFor(s, r.id)], s')
       else WroteNothing(s, s')
  }

  // ----- submissions and results

  /** A submitted task is Sending, with the transaction, and the new goroutine has a copy of it: with the key
      it was stored under, or none if it is new and was not stored. */
  ghost predicate Submission<E>(task: Task, s: Store<E>, r: Record<E>, invoked: Invoked, ok: bool, s': Store<E>) {
    match invoked
    case Refused(error) => FailureStored(task, s, r, error, ok, s')
    case Submitted(txId) =>
      var sending := r.body.(state := StateSending, txId := txId);
      && WroteGuarded(s, r.id, sending, ok, s')
      && s'.jobs == s.jobs + [Some(Record(if ok then KeyFor(s, r.id) else r.id, sending))]
  }

  /** A goroutine asks again as long as there is no result, and otherwise ends: a transaction that is not
      known is submitted again, a reverted one has failed, an executed one leaves the record Sent with its
      block, until the execution event comes. */
  ghost predicate Attempt<E>(task: Task, s: Store<E>, j: nat, result: TxResult, invoked: Invoked, ok: bool,
                             s': Store<E>)
    requires j < |s.jobs| && s.jobs[j].Some?
  {
    var r, ended := s.jobs[j].value, s.(jobs := s.jobs[j := None]);
    match result
    case NotAvailable => s' == s
    case UnknownTransaction => Submission(task, ended, r.(body := r.body.(txId := "")), invoked, ok, s')
    case Reverted(error) => FailureStored(task, ended, r, error, ok, s')
    case Executed(height, blockId) =>
      && WroteGuarded(s, r.id, r.body.(state := StateSent, blockHeight := height, blockId := blockId), ok, s')
      && s'.jobs == ended.jobs
  }

  function SkipsOf(task: Task): set<string> {
    if task == CallTask then CALL_SKIPS else ROLLBACK_SKIPS
  }

  lemma SkipsAre(task: Task, error: CallError)
    ensures error.EstimateError? && error.reason in SkipsOf(task) <==> IsSkipped(task, error)
  {
  }

  lemma FailedStored<E>(task: Task, s: Store<E>, r: Record<E>, error: CallError, ok: bool)
    ensures FailureStored(task, s, r, error, ok, SaveIfNotDone(s, Failed(r, error, SkipsOf(task)), ok))
  {
    SkipsAre(task, error);
    var failed := Failed(r, error, SkipsOf(task));
    assert IsFailure(task, error, r.body, failed.body);
  }

  lemma SubmissionStored<E>(task: Task, s: Store<E>, r: Record<E>, invoked: Invoked, ok: bool)
    ensures Submission(task, s, r, invoked, ok, Execute(s, r, invoked, SkipsOf(task), ok))
  {
    match invoked
    case Refused(error) => FailedStored(task, s, r, error, ok);
    case Submitted(txId) =>
  }

  lemma AttemptStored<E>(task: Task, s: Store<E>, j: nat, result: TxResult, invoked: Invoked, ok: bool)
    requires j < |s.jobs| && s.jobs[j].Some?
    ensures Attempt(task, s, j, result, invoked, ok, Result(s, j, result, invoked, SkipsOf(task), ok))
  {
    var r, ended := s.jobs[j].value, End(s, j);
    match result
    case NotAvailable =>
    case UnknownTransaction => SubmissionStored(task, ended, r.(body := r.body.(txId := "")), invoked, ok);
    case Reverted(error) => FailedStored(task, ended, r, error, ok);
    case Executed(height, blockId) =>
  }

  // ----- events

  /** Nothing is recorded of a transaction, its block or its result. */
  predicate Unsent<E>(r: Row<E>) {
    && r.txId == "" && r.blockHeight == 0 && r.blockId == "" && !r.finalized && r.failure == ""
    && r.execResultCode == 0 && r.execResultMsg == ""
  }

  predicate Unanswered<E>(r: Row<E>) {
    r.eventHeight == 0 && r.eventBlockId == "" && !r.eventFinalized
  }

  /** A request as its message announces it. */
  predicate IsNewCall(r: Call, network: string, e: Event) {
    && e.CallMessage? && r.network == network && r.key == e.reqId && r.state == StateNone && r.data == e.call
    && r.eventHeight == e.height && r.eventBlockId == e.blockId && !r.eventFinalized && Unsent(r)
  }

  /** A request that has been sent, and has no answer yet. */
  predicate IsNewRollback(r: Rollback, network: string, e: Event) {
    && e.CallMessageSent? && r.network == network && r.key == e.sn && r.state == StateNone
    && r.data == RollbackData(e.from, e.to, e.height, e.blockId, false) && Unanswered(r) && Unsent(r)
  }

  /** The answer to a request: who sent it to whom and where it was sent is kept, but not that the block of
      the sending is final. A success means there is nothing to roll back. */
  predicate IsAnswered(r: Rollback, found: Rollback, network: string, e: Event) {
    && e.ResponseMessage? && r.network == network && r.key == e.sn
    && r.state == (if e.code == 0 then StateNotApplicable else StateNone)
    && r.eventHeight == e.height && r.eventBlockId == e.blockId && !r.eventFinalized
    && r.data == found.data.(triggerFinalized := false) && Unsent(r)
  }

  /** Done, with the transaction, block and result that the event reports; everything else is kept. */
  ghost predicate IsDone<E>(r: Row<E>, found: Row<E>, e: Event) {
    && (e.CallExecuted? || e.RollbackExecuted?)
    && r == found.(state := StateDone, txId := e.txId, blockHeight := e.height, blockId := e.blockId,
                   execResultCode := e.code, execResultMsg := e.msg)
  }

  /** A message is acted on when its request is new or waits in state None, and followed again when its
      transaction is under way. An execution is recorded unless it was, or the request is not known. */
  ghost predicate CallEffect(s: Store<CallData>, network: string, e: Event, found: Option<Record<CallData>>,
                             invoked: Invoked, ok: bool, s': Store<CallData>, verdict: Verdict)
    requires e.IsCall()
  {
    if e.CallMessage? then
      && verdict == Accept
      && if found.None? || found.value.body.state == StateNone then
           exists cm: Call | IsNewCall(cm, network, e) ::
             Submission(CallTask, s, Record(if found.None? then 0 else found.value.id, cm), invoked, ok, s')
         else if found.value.body.state == StateSending then s' == s.(jobs := s.jobs + [found])
         else s' == s
    else if found.None? || found.value.body.state == StateDone then s' == s && verdict == Accept
    else if !ok then s' == s && verdict == Reject
    else
      && verdict == Accept && s'.jobs == s.jobs
      && exists row: Call | IsDone(row, found.value.body, e) :: Wrote(s, found.value.id, row, s')
  }

  ghost predicate SavedOrRejected<E>(s: Store<E>, id: nat, body: Row<E>, ok: bool, s': Store<E>, verdict: Verdict) {
    if ok then verdict == Accept && s'.jobs == s.jobs && Wrote(s, id, body, s')
    else verdict == Reject && s' == s
  }

  /** An answer to a request in state None: of success it is stored as it is, otherwise the rollback is sent. */
  ghost predicate AnswerEffect(s: Store<RollbackData>, network: string, e: Event, found: Record<RollbackData>,
                               invoked: Invoked, ok: bool, s': Store<RollbackData>, verdict: Verdict)
    requires e.ResponseMessage?
  {
    exists rm: Rollback | IsAnswered(rm, found.body, network, e) ::
      if e.code == 0 then SavedOrRejected(s, found.id, rm, ok, s', verdict)
      else verdict == Accept && Submission(RollbackTask, s, Record(found.id, rm), invoked, ok, s')
  }

  /** Sending a request adds a row, unless there is one between the same two. What comes for an unknown
      request is passed over. A rollback that must not have happened ends the handler. */
  ghost predicate RollbackEffect(s: Store<RollbackData>, network: string, e: Event,
                                 found: Option<Record<RollbackData>>, invoked: Invoked, ok: bool,
                                 s': Store<RollbackData>, verdict: Verdict)
    requires e.IsRollback()
  {
    if e.CallMessageSent? then
      if found.Some? && found.value.body.data.from == e.from && found.value.body.data.to == e.to
      then s' == s && verdict == Accept
      else exists rm: Rollback | IsNewRollback(rm, network, e) :: SavedOrRejected(s, 0, rm, ok, s', verdict)
    else if found.None? then s' == s && verdict == Accept
    else if e.ResponseMessage? then
      if found.value.body.state == StateNone then
        AnswerEffect(s, network, e, found.value, invoked, ok, s', verdict)
      else
        && verdict == Accept
        && s' == if found.value.body.state == StateSending then s.(jobs := s.jobs + [found]) else s
    else if found.value.body.state == StateDone then s' == s && verdict == Accept
    else if found.value.body.state == StateNotApplicable then s' == s && verdict == Panic
    else exists row: Rollback | IsDone(row, found.value.body, e) ::
        SavedOrRejected(s, found.value.id, row, ok, s', verdict)
  }

  lemma CallStored(s: Store<CallData>, network: string, e: Event, found: Option<Record<CallData>>, invoked: Invoked,
                   ok: bool)
    requires e.IsCall()
    ensures var acted := OnCall(s, network, e, found, invoked, ok);
            CallEffect(s, network, e, found, invoked, ok, acted.store, acted.verdict)
  {
    var cm := NewCall(network, e);
    if e.CallMessage? {
      assert IsNewCall(cm, network, e);
      SubmissionStored(CallTask, s, Record(if found.None? then 0 else found.value.id, cm), invoked, ok);
    } else if found.Some? {
      assert IsDone(Completed(found.value, cm).body, found.value.body, e);
    }
  }

  lemma RollbackStored(s: Store<RollbackData>, network: string, e: Event, found: Option<Record<RollbackData>>,
                       invoked: Invoked, ok: bool)
    requires e.IsRollback()
    ensures var acted := OnRollback(s, network, e, found, invoked, ok);
            RollbackEffect(s, network, e, found, invoked, ok, acted.store, acted.verdict)
  {
    var rm := NewRollback(network, e);
    if e.CallMessageSent? {
      assert IsNewRollback(rm, network, e);
    } else if found.Some? {
      if e.ResponseMessage? {
        var answered := Answered(found.value, rm);
        assert IsAnswered(answered.body, found.value.body, network, e);
        SubmissionStored(RollbackTask, s, answered, invoked, ok);
      } else {
        assert IsDone(Completed(found.value, rm).body, found.value.body, e);
      }
    }
  }

  // ----- steps

  /** Where a handler is after its callback: behind the event, out of the stream, or nowhere. */
  function PhaseAfter(phase: Phase, verdict: Verdict): Phase
    requires phase.Holds()
  {
    match verdict
    case Accept => Streaming(phase.next)
    case Reject => Stopped
    case Panic => Crashed
  }

  /** Only what has been accepted is in the log. */
  ghost predicate HandlerEnds(s: State, h: nat, verdict: Verdict, s': State) {
    && h < |s.handlers| && s.handlers[h].phase.Holds()
    && s'.handlers == s.handlers[h := s.handlers[h].(phase := PhaseAfter(s.handlers[h].phase, verdict))]
    && s'.world.log == s.world.log
                       + if verdict == Accept then [Accepted(s.handlers[h].network, s.handlers[h].phase.event)] else []
  }

  /** Every step in which a handler acts on a call event it has read a row for. */
  lemma CallEventsAreRecorded(c: Config, s: State, l: Label, s': State) returns (verdict: Verdict)
    requires Next(c, s, l, s') && l.ActCall?
    ensures HandlerEnds(s, l.h, verdict, s') && s'.rollbacks == s.rollbacks
    ensures var h := s.handlers[l.h];
            && h.phase.HoldsCall? && h.phase.event.IsCall()
            && CallEffect(s.calls, h.network, h.phase.event, h.phase.call, l.invoked, l.ok, s'.calls, verdict)
  {
    var h := s.handlers[l.h];
    CallStored(s.calls, h.network, h.phase.event, h.phase.call, l.invoked, l.ok);
    verdict := OnCall(s.calls, h.network, h.phase.event, h.phase.call, l.invoked, l.ok).verdict;
  }

  lemma RollbackEventsAreRecorded(c: Config, s: State, l: Label, s': State) returns (verdict: Verdict)
    requires Next(c, s, l, s') && l.ActRollback?
    ensures HandlerEnds(s, l.h, verdict, s') && s'.calls == s.calls
    ensures var h := s.handlers[l.h];
            && h.phase.HoldsRollback? && h.phase.event.IsRollback()
            && RollbackEffect(s.rollbacks, h.network, h.phase.event, h.phase.rollback, l.invoked, l.ok, s'.rollbacks,
                              verdict)
  {
    var h := s.handlers[l.h];
    RollbackStored(s.rollbacks, h.network, h.phase.event, h.phase.rollback, l.invoked, l.ok);
    verdict := OnRollback(s.rollbacks, h.network, h.phase.event, h.phase.rollback, l.invoked, l.ok).verdict;
  }

  /** Every step in which a goroutine asks for the result of its transaction. */
  lemma ResultsAreRecorded(c: Config, s: State, l: Label, s': State)
    requires Next(c, s, l, s') && (l.CallResult? || l.RollbackResult?)
    ensures s'.handlers == s.handlers && s'.world == s.world
    ensures l.CallResult? ==>
              && s'.rollbacks == s.rollbacks && l.j < |s.calls.jobs| && s.calls.jobs[l.j].Some?
              && Attempt(CallTask, s.calls, l.j, l.result, l.invoked, l.ok, s'.calls)
    ensures l.RollbackResult? ==>
              && s'.calls == s.calls && l.j < |s.rollbacks.jobs| && s.rollbacks.jobs[l.j].Some?
              && Attempt(RollbackTask, s.rollbacks, l.j, l.result, l.invoked, l.ok, s'.rollbacks)
  {
    if l.CallResult? {
      AttemptStored(CallTask, s.calls, l.j, l.result, l.invoked, l.ok);
    } else {
      AttemptStored(RollbackTask, s.rollbacks, l.j, l.result, l.invoked, l.ok);
    }
  }
}
