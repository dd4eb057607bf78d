/**
 When every request has one row, in any run: drops, branches, second monitors, restarts and failing
 saves included. Rows stay unique exactly as long as whatever adds a row does so for a request without
 one - be it an insert, or a save that puts a dropped row back.
 */
module XCallRows {
  import opened Wrappers
  import opened XCallStore
  import opened XCallMachine
  import opened XCallSafety
  import opened XCallUnique
  import opened XCallOutcome
  import opened XCallFinality

  // ----- what a step is about to write

  /** The record that the guarded save writes, if it does. */
  function Guarded<E>(s: Store<E>, r: Record<E>, ok: bool): Option<Record<E>> {
    if !ok || (r.id != 0 && DoneIn(s, r.id)) then None else Some(r)
  }

  function ExecuteWrite<E>(s: Store<E>, r: Record<E>, invoked: Invoked, skips: set<string>, ok: bool): Option<Record<E>>
  {
    match invoked
    case Refused(error) => Guarded(s, Failed(r, error, skips), ok)
    case Submitted(txId) => Guarded(s, r.(body := r.body.(state := StateSending, txId := txId)), ok)
  }

  function ResultWrite<E>(s: Store<E>, j: nat, result: TxResult, invoked: Invoked, skips: set<string>, ok: bool):
    Option<Record<E>>
    requires j < |s.jobs| && s.jobs[j].Some?
  {
    var r := s.jobs[j].value;
    match result
    case NotAvailable => None
    case UnknownTransaction => ExecuteWrite(s, r.(body := r.body.(txId := "")), invoked, skips, ok)
    case Reverted(error) => Guarded(s, Failed(r, error, skips), ok)
    case Executed(height, blockId) =>
      Guarded(s, r.(body := r.body.(state := StateSent, blockHeight := height, blockId := blockId)), ok)
  }

  function CallWrite(s: Store<CallData>, network: string, e: Event, found: Option<Record<CallData>>,
                     invoked: Invoked, ok: bool): Option<Record<CallData>>
    requires e.IsCall()
  {
    var cm := NewCall(network, e);
    if e.CallMessage? then
      if found.None? then ExecuteWrite(s, Record(0, cm), invoked, CALL_SKIPS, ok)
      else if found.value.body.state == StateNone then
        ExecuteWrite(s, Record(found.value.id, cm), invoked, CALL_SKIPS, ok)
      else None
    else if found.None? || found.value.body.state == StateDone || !ok then None
    else Some(Completed(found.value, cm))
  }

  function RollbackWrite(s: Store<RollbackData>, network: string, e: Event, found: Option<Record<RollbackData>>,
                         invoked: Invoked, ok: bool): Option<Record<RollbackData>>
    requires e.IsRollback()
  {
    var rm := NewRollback(network, e);
    if e.CallMessageSent? then
      if !ok || (found.Some? && found.value.body.data.to == rm.data.to && found.value.body.data.from == rm.data.from)
      then None
      else Some(Record(0, rm))
    else if found.None? then None
    else if e.ResponseMessage? then
      var answered := Answered(found.value, rm);
      if found.value.body.state != StateNone then None
      else if rm.state != StateNotApplicable then ExecuteWrite(s, answered, invoked, ROLLBACK_SKIPS, ok)
      else if ok then Some(answered) else None
    else if !ok || found.value.body.state in {StateDone, StateNotApplicable} then None
    else Some(Completed(found.value, rm))
  }

  function WrittenCall(s: State, l: Label): Option<Record<CallData>> {
    match l
    case ActCall(h, invoked, ok) =>
      if h < |s.handlers| && s.handlers[h].phase.HoldsCall? && s.handlers[h].phase.event.IsCall()
      then CallWrite(s.calls, s.handlers[h].network, s.handlers[h].phase.event, s.handlers[h].phase.call, invoked, ok)
      else None
    case CallResult(j, result, invoked, ok) =>
      if j < |s.calls.jobs| && s.calls.jobs[j].Some? then ResultWrite(s.calls, j, result, invoked, CALL_SKIPS, ok)
      else None
    case _ => None
  }

  function WrittenRollback(s: State, l: Label): Option<Record<RollbackData>> {
    match l
    case ActRollback(h, invoked, ok) =>
      if h < |s.handlers| && s.handlers[h].phase.HoldsRollback? && s.handlers[h].phase.event.IsRollback()
      then RollbackWrite(s.rollbacks, s.handlers[h].network, s.handlers[h].phase.event, s.handlers[h].phase.rollback,
                         invoked, ok)
      else None
    case RollbackResult(j, result, invoked, ok) =>
      if j < |s.rollbacks.jobs| && s.rollbacks.jobs[j].Some?
      then ResultWrite(s.rollbacks, j, result, invoked, ROLLBACK_SKIPS, ok)
      else None
    case _ => None
  }

  /** The table after the write; goroutines aside. */
  ghost predicate Writes<E>(s: Store<E>, w: Option<Record<E>>, s': Store<E>) {
    s' == (if w.None? then s else Save(s, w.value)).(jobs := s'.jobs)
  }

  lemma ExecuteWrites<E>(s: Store<E>, r: Record<E>, invoked: Invoked, skips: set<string>, ok: bool)
    ensures Writes(s, ExecuteWrite(s, r, invoked, skips, ok), Execute(s, r, invoked, skips, ok))
  {
  }

  lemma ResultWrites<E>(s: Store<E>, j: nat, result: TxResult, invoked: Invoked, skips: set<string>, ok: bool)
    requires j < |s.jobs| && s.jobs[j].Some?
    ensures Writes(s, ResultWrite(s, j, result, invoked, skips, ok), Result(s, j, result, invoked, skips, ok))
  {
    if result.UnknownTransaction? {
      ExecuteWrites(End(s, j), s.jobs[j].value.(body := s.jobs[j].value.body.(txId := "")), invoked, skips, ok);
    }
  }

  lemma CallWrites(s: Store<CallData>, network: string, e: Event, found: Option<Record<CallData>>,
                   invoked: Invoked, ok: bool)
    requires e.IsCall()
    ensures Writes(s, CallWrite(s, network, e, found, invoked, ok), OnCall(s, network, e, found, invoked, ok).store)
  {
    if e.CallMessage? {
      var id := if found.Some? then found.value.id else 0;
      ExecuteWrites(s, Record(id, NewCall(network, e)), invoked, CALL_SKIPS, ok);
    }
  }

  lemma RollbackWrites(s: Store<RollbackData>, network: string, e: Event, found: Option<Record<RollbackData>>,
                       invoked: Invoked, ok: bool)
    requires e.IsRollback()
    ensures Writes(s, RollbackWrite(s, network, e, found, invoked, ok),
                   OnRollback(s, network, e, found, invoked, ok).store)
  {
    if e.ResponseMessage? && found.Some? {
      ExecuteWrites(s, Answered(found.value, NewRollback(network, e)), invoked, ROLLBACK_SKIPS, ok);
    }
  }

  predicate IsPass(l: Label) {
    l.FinalizeCalls? || l.FinalizeRollbacks?
  }

  lemma StepWrites(c: Config, s: State, l: Label, s': State)
    requires Next(c, s, l, s') && !IsPass(l)
    ensures Writes(s.calls, WrittenCall(s, l), s'.calls) && Writes(s.rollbacks, WrittenRollback(s, l), s'.rollbacks)
  {
    match l
    case ActCall(h, invoked, ok) =>
      var phase := s.handlers[h].phase;
      CallWrites(s.calls, s.handlers[h].network, phase.event, phase.call, invoked, ok);
    case ActRollback(h, invoked, ok) =>
      var phase := s.handlers[h].phase;
      RollbackWrites(s.rollbacks, s.handlers[h].network, phase.event, phase.rollback, invoked, ok);
    case CallResult(j, result, invoked, ok) =>
      ResultWrites(s.calls, j, result, invoked, CALL_SKIPS, ok);
    case RollbackResult(j, result, invoked, ok) =>
      ResultWrites(s.rollbacks, j, result, invoked, ROLLBACK_SKIPS, ok);
    case Start(_, _) => StartKeeps(c, s, l, s');
    case Branch(_, _, _, _) => BranchKeepsHeld(c, s, l, s');
    case _ =>
  }

  // ----- one row each

  ghost predicate HasRow<E>(s: Store<E>, network: string, key: nat) {
    exists id :: id in s.rows && For(s.rows[id], network, key)
  }

  /** No request has two rows. */
  ghost predicate OneRowEach<E>(s: Store<E>) {
    forall id, network: string, key: nat | id in s.rows && For(s.rows[id], network, key) ::
      forall other | other in s.rows && For(s.rows[other], network, key) :: other == id
  }

  /** What is written adds a row: it has no key, or one that is not in the table any more. */
  predicate AddsRow<E>(s: Store<E>, w: Option<Record<E>>) {
    w.Some? && (w.value.id == 0 || w.value.id !in s.rows)
  }

  /** What adds a row is for a request without one. */
  ghost predicate AddsNew<E>(s: Store<E>, w: Option<Record<E>>) {
    AddsRow(s, w) ==> !HasRow(s, w.value.body.network, w.value.body.key)
  }

  /** Rows have the network and request their key was issued for. */
  ghost predicate AllTied<E>(s: Store<E>) {
    forall id | id in s.rows :: Tied(s, id, s.rows[id])
  }

  lemma SameRequest<E>(s: Store<E>, s': Store<E>, id: nat)
    requires AllTied(s) && AllTied(s') && s.issued <= s'.issued && id in s.rows && id in s'.rows
    ensures forall network, key: nat :: For(s'.rows[id], network, key) <==> For(s.rows[id], network, key)
  {
    assert Tied(s, id, s.rows[id]) && Tied(s', id, s'.rows[id]);
  }

  lemma FewerRowsUnique<E>(s: Store<E>, s': Store<E>)
    requires AllTied(s) && AllTied(s') && s.issued <= s'.issued && s'.rows.Keys <= s.rows.Keys && OneRowEach(s)
    ensures OneRowEach(s')
  {
    forall id | id in s'.rows
      ensures forall network, key: nat :: For(s'.rows[id], network, key) <==> For(s.rows[id], network, key)
    {
      SameRequest(s, s', id);
    }
  }

  lemma AddedRowIsFirst<E>(s: Store<E>, id: nat, body: Row<E>, s': Store<E>)
    requires OneRowEach(s) && id !in s.rows && s'.rows == s.rows[id := body]
    ensures OneRowEach(s') <==> !HasRow(s, body.network, body.key)
  {
    assert For(s'.rows[id], body.network, body.key);
    if HasRow(s, body.network, body.key) {
      var other :| other in s.rows && For(s.rows[other], body.network, body.key);
      assert other in s'.rows && For(s'.rows[other], body.network, body.key) && other != id;
    } else {
      forall row, network: string, key: nat | row in s'.rows && For(s'.rows[row], network, key)
        ensures forall other | other in s'.rows && For(s'.rows[other], network, key) :: other == row
      {
        assert row != id ==> row in s.rows && For(s.rows[row], network, key);
      }
    }
  }

  lemma WriteUniqueExactly<E>(s: Store<E>, w: Option<Record<E>>, s': Store<E>)
    requires AllTied(s) && AllTied(s') && Writes(s, w, s') && OneRowEach(s)
    ensures OneRowEach(s') <==> AddsNew(s, w)
  {
    if AddsRow(s, w) {
      forall id | id in s.rows ensures id <= |s.issued| {
        assert Tied(s, id, s.rows[id]);
      }
      AddedRowIsFirst(s, SavedId(s, w.value), w.value.body, s');
    } else {
      FewerRowsUnique(s, s');
    }
  }

  /** Rows are never merged: without a drop, a request with two rows keeps them. */
  lemma DuplicatesStay<E>(s: Store<E>, s': Store<E>)
    requires AllTied(s) && AllTied(s') && s.issued <= s'.issued && s.rows.Keys <= s'.rows.Keys && OneRowEach(s')
    ensures OneRowEach(s)
  {
    forall id | id in s.rows
      ensures forall network, key: nat :: For(s'.rows[id], network, key) <==> For(s.rows[id], network, key)
    {
      SameRequest(s, s', id);
    }
  }

  // ----- steps

  lemma PassIssues(c: Config, s: State, l: Label, s': State)
    requires Next(c, s, l, s') && IsPass(l)
    ensures s'.calls.issued == s.calls.issued && s'.rollbacks.issued == s.rollbacks.issued
    ensures !l.IsDrop() ==> s'.calls.rows.Keys == s.calls.rows.Keys && s'.rollbacks.rows.Keys == s.rollbacks.rows.Keys
  {
    if !l.pass.Aborted? {
      if l.FinalizeCalls? {
        CallPassEffect(s, l.network, l.height, l.oracle, 0, l.pass, s');
      } else {
        RollbackPassEffect(s, l.network, l.height, l.oracle, 0, l.pass, s');
      }
    }
  }

  ghost predicate TablesTied(s: State) {
    AllTied(s.calls) && AllTied(s.rollbacks)
  }

  lemma StepUniqueExactly(c: Config, s: State, l: Label, s': State)
    requires TablesTied(s) && TablesTied(s') && Next(c, s, l, s')
    ensures OneRowEach(s.calls) ==> (OneRowEach(s'.calls) <==> AddsNew(s.calls, WrittenCall(s, l)))
    ensures OneRowEach(s.rollbacks) ==> (OneRowEach(s'.rollbacks) <==> AddsNew(s.rollbacks, WrittenRollback(s, l)))
  {
    if IsPass(l) {
      PassIssues(c, s, l, s');
      PassFlagsOnlyConfirmed(c, s, l, s');
      if OneRowEach(s.calls) {
        FewerRowsUnique(s.calls, s'.calls);
      }
      if OneRowEach(s.rollbacks) {
        FewerRowsUnique(s.rollbacks, s'.rollbacks);
      }
    } else {
      StepWrites(c, s, l, s');
      if OneRowEach(s.calls) {
        WriteUniqueExactly(s.calls, WrittenCall(s, l), s'.calls);
      }
      if OneRowEach(s.rollbacks) {
        WriteUniqueExactly(s.rollbacks, WrittenRollback(s, l), s'.rollbacks);
      }
    }
  }

  lemma StepKeepsDuplicates(c: Config, s: State, l: Label, s': State)
    requires TablesTied(s) && TablesTied(s') && Next(c, s, l, s') && !l.IsDrop()
    ensures OneRowEach(s'.calls) ==> OneRowEach(s.calls)
    ensures OneRowEach(s'.rollbacks) ==> OneRowEach(s.rollbacks)
  {
    if IsPass(l) {
      PassIssues(c, s, l, s');
    } else {
      StepWrites(c, s, l, s');
    }
    if OneRowEach(s'.calls) {
      DuplicatesStay(s.calls, s'.calls);
    }
    if OneRowEach(s'.rollbacks) {
      DuplicatesStay(s.rollbacks, s'.rollbacks);
    }
  }

  // ----- runs

  /** Step `i` adds a Call row only for a request without one. */
  ghost predicate AddsNewCall(c: Config, r: Run, i: nat)
    requires IsRun(c, r) && i < |r.labels|
  {
    AddsNew(r.states[i].calls, WrittenCall(r.states[i], r.labels[i]))
  }

  ghost predicate AddsNewRollback(c: Config, r: Run, i: nat)
    requires IsRun(c, r) && i < |r.labels|
  {
    AddsNew(r.states[i].rollbacks, WrittenRollback(r.states[i], r.labels[i]))
  }

  ghost predicate OneCallEach(c: Config, r: Run, i: nat)
    requires IsRun(c, r) && i < |r.states|
  {
    OneRowEach(r.states[i].calls)
  }

  ghost predicate OneRollbackEach(c: Config, r: Run, i: nat)
    requires IsRun(c, r) && i < |r.states|
  {
    OneRowEach(r.states[i].rollbacks)
  }

  lemma RunTied(c: Config, r: Run, i: nat)
    requires ValidConfig(c) && PositiveRun(r) && IsRun(c, r) && i < |r.states|
    ensures TablesTied(r.states[i])
  {
    RunTrue(c, r, i);
  }

  lemma UniqueExactlyAt(c: Config, r: Run, i: nat)
    requires ValidConfig(c) && PositiveRun(r) && IsRun(c, r) && i < |r.labels|
    ensures OneCallEach(c, r, i) ==> (OneCallEach(c, r, i + 1) <==> AddsNewCall(c, r, i))
    ensures OneRollbackEach(c, r, i) ==> (OneRollbackEach(c, r, i + 1) <==> AddsNewRollback(c, r, i))
    ensures !r.labels[i].IsDrop() ==> (OneCallEach(c, r, i + 1) ==> OneCallEach(c, r, i))
    ensures !r.labels[i].IsDrop() ==> (OneRollbackEach(c, r, i + 1) ==> OneRollbackEach(c, r, i))
  {
    var s, l, s' := r.states[i], r.labels[i], r.states[i + 1];
    RunTied(c, r, i);
    RunTied(c, r, i + 1);
    assert Takes(c, r, i);
    StepUniqueExactly(c, s, l, s');
    if !l.IsDrop() {
      StepKeepsDuplicates(c, s, l, s');
    }
  }

  lemma {:induction false} CallRowsUniqueExactly(c: Config, r: Run, n: nat)
    requires ValidConfig(c) && PositiveRun(r) && IsRun(c, r) && n <= |r.labels|
    ensures (forall i | 0 <= i <= n :: OneCallEach(c, r, i)) <==> (forall i | 0 <= i < n :: AddsNewCall(c, r, i))
    ensures NoDrop(r, 0, n) ==> (OneCallEach(c, r, n) <==> forall i | 0 <= i < n :: AddsNewCall(c, r, i))
  {
    if n == 0 {
      assert OneCallEach(c, r, 0);
    } else {
      CallRowsUniqueExactly(c, r, n - 1);
      UniqueExactlyAt(c, r, n - 1);
    }
  }

  lemma {:induction false} RollbackRowsUniqueExactly(c: Config, r: Run, n: nat)
    requires ValidConfig(c) && PositiveRun(r) && IsRun(c, r) && n <= |r.labels|
    ensures (forall i | 0 <= i <= n :: OneRollbackEach(c, r, i))
            <==> (forall i | 0 <= i < n :: AddsNewRollback(c, r, i))
    ensures NoDrop(r, 0, n) ==> (OneRollbackEach(c, r, n) <==> forall i | 0 <= i < n :: AddsNewRollback(c, r, i))
  {
    if n == 0 {
      assert OneRollbackEach(c, r, 0);
    } else {
      RollbackRowsUniqueExactly(c, r, n - 1);
      UniqueExactlyAt(c, r, n - 1);
    }
  }
}
