/**
 Finalized flags over whole runs: which of them are backed by a confirmation of the block their row
 records, in every run or exactly as long as no block is written under a flag that is already set.
 */
module XCallFlags {
  import opened Wrappers
  import opened XCallStore
  import opened XCallMachine
  import opened XCallSafety
  import opened XCallFinality

  datatype Block = Block(network: string, height: int, blockId: string)

  /** A pass of the block's network looks at a row that records the block, and the monitor confirms it. */
  ghost predicate Confirms(s: State, l: Label, b: Block) {
    && (l.FinalizeCalls? || l.FinalizeRollbacks?)
    && l.network == b.network && l.oracle(b.height, b.blockId) == Confirmed
    && if l.FinalizeCalls? then exists id, c | id in s.calls.rows :: LooksAtCall(s.calls.rows[id], c, l.height, b)
       else exists id, c | id in s.rollbacks.rows :: LooksAtRollback(s.rollbacks.rows[id], c, l.height, b)
  }

  predicate LooksAtCall(r: Call, c: Column, height: int, b: Block) {
    var m := CallMark(r, c);
    r.network == b.network && Pending(m, height) && m.height == b.height && m.blockId == b.blockId
  }

  predicate LooksAtRollback(r: Rollback, c: Column, height: int, b: Block) {
    var m := RollbackMark(r, c);
    r.network == b.network && Pending(m, height) && m.height == b.height && m.blockId == b.blockId
  }

  ghost predicate IsConfirmed(r: Run, i: nat, b: Block)
    requires i <= |r.labels| < |r.states|
  {
    exists k :: 0 <= k < i && Confirms(r.states[k], r.labels[k], b)
  }

  /** The blocks confirmed in the first `i` steps. */
  ghost function ConfirmedBlocks(r: Run, i: nat): iset<Block>
    requires i <= |r.labels| < |r.states|
  {
    iset b: Block | IsConfirmed(r, i, b)
  }

  /** A flag of a recorded block - heights start at 1 - is backed by a confirmation. */
  ghost predicate Backed(network: string, m: Mark, g: iset<Block>) {
    m.finalized && m.height >= 1 ==> Block(network, m.height, m.blockId) in g
  }

  /** The flags of an event, and of a request that was sent. */
  const EVENT_COLUMNS: set<Column> := {EventColumn, TriggerColumn}

  const ALL_COLUMNS: set<Column> := {EventColumn, BlockColumn, TriggerColumn}

  ghost function BackedCalls(g: iset<Block>, columns: set<Column>): iset<Call> {
    iset r: Call | forall c | c in columns :: Backed(r.network, CallMark(r, c), g)
  }

  ghost function BackedRollbacks(g: iset<Block>, columns: set<Column>): iset<Rollback> {
    iset r: Rollback | forall c | c in columns :: Backed(r.network, RollbackMark(r, c), g)
  }

  ghost predicate RowsBacked(s: State, g: iset<Block>, columns: set<Column>) {
    && (forall id | id in s.calls.rows :: s.calls.rows[id] in BackedCalls(g, columns))
    && (forall id | id in s.rollbacks.rows :: s.rollbacks.rows[id] in BackedRollbacks(g, columns))
  }

  // ----- what is written under a flag

  /** The block that is about to be recorded on a record whose flag is set already: by an executed
      event, or by a result goroutine. */
  function Recorded(s: State, l: Label): Option<Block> {
    match l
    case ActCall(h, _, ok) =>
      if h < |s.handlers| && s.handlers[h].phase.HoldsCall? && s.handlers[h].phase.event.CallExecuted?
         && s.handlers[h].phase.call.Some? && s.handlers[h].phase.call.value.body.state != StateDone
      then WrittenUnder(s.handlers[h].phase.call.value.body, s.handlers[h].phase.event.height,
                        s.handlers[h].phase.event.blockId, ok)
      else None
    case ActRollback(h, _, ok) =>
      if h < |s.handlers| && s.handlers[h].phase.HoldsRollback? && s.handlers[h].phase.event.RollbackExecuted?
         && s.handlers[h].phase.rollback.Some?
         && CanComplete(s.handlers[h].phase.rollback.value.body)
      then WrittenUnder(s.handlers[h].phase.rollback.value.body, s.handlers[h].phase.event.height,
                        s.handlers[h].phase.event.blockId, ok)
      else None
    case CallResult(j, Executed(height, blockId), _, ok) => RecordedResult(s.calls, j, height, blockId, ok)
    case RollbackResult(j, Executed(height, blockId), _, ok) => RecordedResult(s.rollbacks, j, height, blockId, ok)
    case _ => None
  }

  function RecordedResult<E>(s: Store<E>, j: nat, height: int, blockId: string, ok: bool): Option<Block> {
    if j < |s.jobs| && s.jobs[j].Some? && !(s.jobs[j].value.id != 0 && DoneIn(s, s.jobs[j].value.id))
    then WrittenUnder(s.jobs[j].value.body, height, blockId, ok)
    else None
  }

  function WrittenUnder<E>(r: Row<E>, height: int, blockId: string, ok: bool): Option<Block> {
    if ok && r.finalized && height >= 1 then Some(Block(r.network, height, blockId)) else None
  }

  ghost predicate UnderIn<E>(r: Row<E>, height: int, blockId: string, ok: bool, g: iset<Block>) {
    ok && r.finalized && height >= 1 ==> Block(r.network, height, blockId) in g
  }

  predicate CanComplete(r: Rollback) {
    r.state != StateDone && r.state != StateNotApplicable
  }

  ghost predicate RecordedIn(s: State, l: Label, g: iset<Block>) {
    Recorded(s, l).Some? ==> Recorded(s, l).value in g
  }

  // ----- what every step keeps

  ghost predicate Within<E(!new)>(s: Store<E>, v: iset<Row<E>>) {
    && (forall id | id in s.rows :: s.rows[id] in v)
    && (forall j | 0 <= j < |s.jobs| && s.jobs[j].Some? :: s.jobs[j].value.body in v)
  }

  ghost predicate HeldBacked(h: Handler, g: iset<Block>, columns: set<Column>) {
    match h.phase
    case HoldsCall(_, _, Some(r)) => r.body in BackedCalls(g, columns)
    case HoldsRollback(_, _, Some(r)) => r.body in BackedRollbacks(g, columns)
    case _ => true
  }

  /** Rows, goroutines' copies and held records. */
  ghost predicate FlagsOk(s: State, g: iset<Block>, columns: set<Column>) {
    && Within(s.calls, BackedCalls(g, columns)) && Within(s.rollbacks, BackedRollbacks(g, columns))
    && forall h | 0 <= h < |s.handlers| :: HeldBacked(s.handlers[h], g, columns)
  }

  lemma MoreBacked(s: State, g: iset<Block>, g': iset<Block>, columns: set<Column>)
    requires FlagsOk(s, g, columns) && g <= g'
    ensures FlagsOk(s, g', columns)
    ensures BackedCalls(g, columns) <= BackedCalls(g', columns)
            && BackedRollbacks(g, columns) <= BackedRollbacks(g', columns)
  {
    forall h | 0 <= h < |s.handlers| ensures HeldBacked(s.handlers[h], g', columns) {
      assert HeldBacked(s.handlers[h], g, columns);
    }
  }

  /** Everything a flag is about is the same. */
  ghost predicate SameMarks<E>(r: Row<E>, r': Row<E>) {
    r' == r.(state := r'.state, txId := r'.txId, failure := r'.failure,
             execResultCode := r'.execResultCode, execResultMsg := r'.execResultMsg)
  }

  ghost predicate Closed<E(!new)>(v: iset<Row<E>>) {
    forall r, r' | r in v && SameMarks(r, r') :: r' in v
  }

  lemma BackedIsClosed(g: iset<Block>, columns: set<Column>)
    ensures Closed(BackedCalls(g, columns)) && Closed(BackedRollbacks(g, columns))
  {
    forall r, r' | r in BackedCalls(g, columns) && SameMarks(r, r') ensures r' in BackedCalls(g, columns) {
      assert forall c | c in columns :: Backed(r.network, CallMark(r, c), g) && CallMark(r', c) == CallMark(r, c);
    }
    forall r, r' | r in BackedRollbacks(g, columns) && SameMarks(r, r') ensures r' in BackedRollbacks(g, columns) {
      assert forall c | c in columns ::
               Backed(r.network, RollbackMark(r, c), g) && RollbackMark(r', c) == RollbackMark(r, c);
    }
  }

  lemma SaveWithin<E(!new)>(s: Store<E>, r: Record<E>, v: iset<Row<E>>)
    requires Within(s, v) && r.body in v
    ensures Within(Save(s, r), v) && Within(Spawn(s, r), v)
  {
  }

  lemma ExecuteWithin<E(!new)>(s: Store<E>, r: Record<E>, invoked: Invoked, skips: set<string>, ok: bool,
                               v: iset<Row<E>>)
    requires Within(s, v) && Closed(v) && r.body in v
    ensures Within(Execute(s, r, invoked, skips, ok), v)
  {
    match invoked
    case Refused(error) =>
      assert SameMarks(r.body, Failed(r, error, skips).body);
      SaveWithin(s, Failed(r, error, skips), v);
    case Submitted(txId) =>
      var sent := r.(body := r.body.(state := StateSending, txId := txId));
      assert SameMarks(r.body, sent.body);
      SaveWithin(s, sent, v);
      SaveWithin(SaveIfNotDone(s, sent, ok), sent.(id := SavedIfId(s, sent, ok)), v);
  }

  /** A result goroutine keeps to `v` unless it records a block that leads out of it. */
  lemma ResultWithin<E(!new)>(s: Store<E>, j: nat, result: TxResult, invoked: Invoked, skips: set<string>, ok: bool,
                              v: iset<Row<E>>)
    requires Within(s, v) && Closed(v) && j < |s.jobs| && s.jobs[j].Some?
    requires result.Executed? && ok && !(s.jobs[j].value.id != 0 && DoneIn(s, s.jobs[j].value.id)) ==>
               s.jobs[j].value.body.(state := StateSent, blockHeight := result.blockHeight,
                                     blockId := result.blockId) in v
    ensures Within(Result(s, j, result, invoked, skips, ok), v)
  {
    var r, ended := s.jobs[j].value, End(s, j);
    assert Within(ended, v);
    match result
    case NotAvailable =>
    case UnknownTransaction =>
      assert SameMarks(r.body, r.body.(txId := ""));
      ExecuteWithin(ended, r.(body := r.body.(txId := "")), invoked, skips, ok, v);
    case Reverted(error) =>
      assert SameMarks(r.body, Failed(r, error, skips).body);
      SaveWithin(ended, Failed(r, error, skips), v);
    case Executed(height, blockId) =>
      if ok && !(r.id != 0 && DoneIn(s, r.id)) {
        SaveWithin(ended, r.(body := r.body.(state := StateSent, blockHeight := height, blockId := blockId)), v);
      }
  }

  /** Recording another block keeps the flags of the other columns, and that of the block if it was not set. */
  lemma CallBlockBacked(r: Call, r': Call, g: iset<Block>, columns: set<Column>)
    requires r in BackedCalls(g, columns)
    requires SameMarks(r, r'.(blockHeight := r.blockHeight, blockId := r.blockId))
    requires BlockColumn in columns && r.finalized && r'.blockHeight >= 1 ==>
               Block(r.network, r'.blockHeight, r'.blockId) in g
    ensures r' in BackedCalls(g, columns)
  {
    forall c | c in columns ensures Backed(r'.network, CallMark(r', c), g) {
      assert Backed(r.network, CallMark(r, c), g);
    }
  }

  lemma RollbackBlockBacked(r: Rollback, r': Rollback, g: iset<Block>, columns: set<Column>)
    requires r in BackedRollbacks(g, columns)
    requires SameMarks(r, r'.(blockHeight := r.blockHeight, blockId := r.blockId))
    requires BlockColumn in columns && r.finalized && r'.blockHeight >= 1 ==>
               Block(r.network, r'.blockHeight, r'.blockId) in g
    ensures r' in BackedRollbacks(g, columns)
  {
    forall c | c in columns ensures Backed(r'.network, RollbackMark(r', c), g) {
      assert Backed(r.network, RollbackMark(r, c), g);
    }
  }

  // ----- events

  lemma CallActBacked(s: Store<CallData>, network: string, e: Event, found: Option<Record<CallData>>,
                      invoked: Invoked, ok: bool, g: iset<Block>, columns: set<Column>)
    requires e.IsCall() && Within(s, BackedCalls(g, columns))
    requires found.Some? ==> found.value.body in BackedCalls(g, columns)
    requires BlockColumn in columns && e.CallExecuted? && found.Some? && found.value.body.state != StateDone ==>
               UnderIn(found.value.body, e.height, e.blockId, ok, g)
    ensures Within(OnCall(s, network, e, found, invoked, ok).store, BackedCalls(g, columns))
  {
    var v, cm := BackedCalls(g, columns), NewCall(network, e);
    BackedIsClosed(g, columns);
    if e.CallMessage? {
      assert cm in v;
      ExecuteWithin(s, Record(if found.Some? then found.value.id else 0, cm), invoked, CALL_SKIPS, ok, v);
      if found.Some? {
        SaveWithin(s, found.value, v);
      }
    } else if found.Some? && found.value.body.state != StateDone && ok {
      CallBlockBacked(found.value.body, Completed(found.value, cm).body, g, columns);
      SaveWithin(s, Completed(found.value, cm), v);
    }
  }

  lemma ResponseBacked(s: Store<RollbackData>, network: string, e: Event, found: Record<RollbackData>,
                       invoked: Invoked, ok: bool, g: iset<Block>, columns: set<Column>)
    requires e.ResponseMessage? && Within(s, BackedRollbacks(g, columns)) && found.body in BackedRollbacks(g, columns)
    ensures Within(OnRollback(s, network, e, Some(found), invoked, ok).store, BackedRollbacks(g, columns))
  {
    var v, answered := BackedRollbacks(g, columns), Answered(found, NewRollback(network, e));
    BackedIsClosed(g, columns);
    assert answered.body in v;
    SaveWithin(s, answered, v);
    SaveWithin(s, found, v);
    ExecuteWithin(s, answered, invoked, ROLLBACK_SKIPS, ok, v);
  }

  lemma RollbackActBacked(s: Store<RollbackData>, network: string, e: Event, found: Option<Record<RollbackData>>,
                          invoked: Invoked, ok: bool, g: iset<Block>, columns: set<Column>)
    requires e.IsRollback() && Within(s, BackedRollbacks(g, columns))
    requires found.Some? ==> found.value.body in BackedRollbacks(g, columns)
    requires BlockColumn in columns && e.RollbackExecuted? && found.Some? && CanComplete(found.value.body) ==>
               UnderIn(found.value.body, e.height, e.blockId, ok, g)
    ensures Within(OnRollback(s, network, e, found, invoked, ok).store, BackedRollbacks(g, columns))
  {
    var v, rm := BackedRollbacks(g, columns), NewRollback(network, e);
    if e.CallMessageSent? {
      assert rm in v;
      SaveWithin(s, Record(0, rm), v);
    } else if found.Some? {
      if e.ResponseMessage? {
        ResponseBacked(s, network, e, found.value, invoked, ok, g, columns);
      } else if CanComplete(found.value.body) && ok {
        RollbackBlockBacked(found.value.body, Completed(found.value, rm).body, g, columns);
        SaveWithin(s, Completed(found.value, rm), v);
      }
    }
  }

  // ----- steps

  lemma ActStepBacked(c: Config, s: State, l: Label, s': State, g: iset<Block>, columns: set<Column>)
    requires FlagsOk(s, g, columns) && Next(c, s, l, s') && (l.ActCall? || l.ActRollback?)
    requires BlockColumn in columns ==> RecordedIn(s, l, g)
    ensures FlagsOk(s', g, columns)
  {
    var h := s.handlers[l.h];
    assert HeldBacked(h, g, columns);
    if l.ActCall? {
      CallActBacked(s.calls, h.network, h.phase.event, h.phase.call, l.invoked, l.ok, g, columns);
    } else {
      RollbackActBacked(s.rollbacks, h.network, h.phase.event, h.phase.rollback, l.invoked, l.ok, g, columns);
    }
    forall k | 0 <= k < |s'.handlers| ensures HeldBacked(s'.handlers[k], g, columns) {
      assert k != l.h ==> s'.handlers[k] == s.handlers[k];
    }
  }

  lemma MonitorStepBacked(c: Config, s: State, l: Label, s': State, g: iset<Block>, columns: set<Column>)
    requires FlagsOk(s, g, columns) && Next(c, s, l, s') && l.IsHandlerStep() && !l.ActCall? && !l.ActRollback?
    ensures FlagsOk(s', g, columns)
  {
    forall k | 0 <= k < |s'.handlers| ensures HeldBacked(s'.handlers[k], g, columns) {
      assert k != l.h ==> s'.handlers[k] == s.handlers[k];
    }
  }

  lemma BranchBacked(c: Config, s: State, l: Label, s': State, g: iset<Block>, columns: set<Column>)
    requires FlagsOk(s, g, columns) && Next(c, s, l, s') && l.Branch?
    ensures FlagsOk(s', g, columns)
  {
    BranchKeepsHeld(c, s, l, s');
    forall k | 0 <= k < |s'.handlers| ensures HeldBacked(s'.handlers[k], g, columns) {
      assert HeldBacked(s.handlers[k], g, columns) && SameButNext(s.handlers[k], s'.handlers[k]);
    }
  }

  lemma StartBacked(c: Config, s: State, l: Label, s': State, g: iset<Block>, columns: set<Column>)
    requires FlagsOk(s, g, columns) && Next(c, s, l, s') && l.Start?
    ensures FlagsOk(s', g, columns)
  {
    StartKeeps(c, s, l, s');
    forall h | 0 <= h < |s'.handlers| ensures HeldBacked(s'.handlers[h], g, columns) {
      assert StartsOrStays(s, s'.handlers[h], h);
      assert h < |s.handlers| ==> HeldBacked(s.handlers[h], g, columns);
    }
  }

  lemma CallResultBacked(c: Config, s: State, l: Label, s': State, g: iset<Block>, columns: set<Column>)
    requires FlagsOk(s, g, columns) && Next(c, s, l, s') && l.CallResult?
    requires BlockColumn in columns ==> RecordedIn(s, l, g)
    ensures FlagsOk(s', g, columns)
  {
    var r := s.calls.jobs[l.j].value;
    BackedIsClosed(g, columns);
    if l.result.Executed? && l.ok && !(r.id != 0 && DoneIn(s.calls, r.id)) {
      CallBlockBacked(r.body, r.body.(state := StateSent, blockHeight := l.result.blockHeight,
                                      blockId := l.result.blockId), g, columns);
    }
    ResultWithin(s.calls, l.j, l.result, l.invoked, CALL_SKIPS, l.ok, BackedCalls(g, columns));
  }

  lemma RollbackResultBacked(c: Config, s: State, l: Label, s': State, g: iset<Block>, columns: set<Column>)
    requires FlagsOk(s, g, columns) && Next(c, s, l, s') && l.RollbackResult?
    requires BlockColumn in columns ==> RecordedIn(s, l, g)
    ensures FlagsOk(s', g, columns)
  {
    var r := s.rollbacks.jobs[l.j].value;
    BackedIsClosed(g, columns);
    if l.result.Executed? && l.ok && !(r.id != 0 && DoneIn(s.rollbacks, r.id)) {
      RollbackBlockBacked(r.body,
                          r.body.(state := StateSent, blockHeight := l.result.blockHeight,
                                  blockId := l.result.blockId), g, columns);
    }
    ResultWithin(s.rollbacks, l.j, l.result, l.invoked, ROLLBACK_SKIPS, l.ok, BackedRollbacks(g, columns));
  }

  // ----- passes

  ghost predicate ConfirmedWith(s: State, l: Label, g: iset<Block>, g': iset<Block>) {
    g <= g' && forall b | Confirms(s, l, b) :: b in g'
  }

  /** A mark after a pass is backed by what was confirmed before, or in the pass. */
  lemma MarkBacked(network: string, m: Mark, m': Mark, q: Query, asked: bool, g: iset<Block>, g': iset<Block>)
    requires MarkStep(network, m, m', q, asked) && Backed(network, m, g) && g <= g'
    requires network == q.network && asked && Pending(m, q.height) && q.oracle(m.height, m.blockId) == Confirmed
             ==> Block(network, m.height, m.blockId) in g'
    ensures Backed(network, m', g')
  {
  }

  lemma CallPassBacked(s: State, l: Label, id: nat, r': Call, q: Query, g: iset<Block>, g': iset<Block>,
                       columns: set<Column>)
    requires id in s.calls.rows && s.calls.rows[id] in BackedCalls(g, columns) && ConfirmedWith(s, l, g, g')
    requires (l.FinalizeCalls? || l.FinalizeRollbacks?) && q == Query(l.FinalizeCalls?, l.network, l.height, l.oracle)
    requires CallStep(s.calls.rows[id], r', q)
    ensures r' in BackedCalls(g', columns)
  {
    var r := s.calls.rows[id];
    forall c | c in columns ensures Backed(r'.network, CallMark(r', c), g') {
      var m := CallMark(r, c);
      var b := Block(r.network, m.height, m.blockId);
      assert r.network == q.network && q.calls && Pending(m, q.height) ==>
               LooksAtCall(s.calls.rows[id], c, l.height, b);
      MarkBacked(r.network, m, CallMark(r', c), q, q.calls, g, g');
    }
  }

  lemma RollbackPassBacked(s: State, l: Label, id: nat, r': Rollback, q: Query, g: iset<Block>, g': iset<Block>,
                           columns: set<Column>)
    requires id in s.rollbacks.rows && s.rollbacks.rows[id] in BackedRollbacks(g, columns) && ConfirmedWith(s, l, g, g')
    requires (l.FinalizeCalls? || l.FinalizeRollbacks?) && q == Query(l.FinalizeCalls?, l.network, l.height, l.oracle)
    requires RollbackStep(s.rollbacks.rows[id], r', q)
    ensures r' in BackedRollbacks(g', columns)
  {
    var r := s.rollbacks.rows[id];
    forall c | c in columns ensures Backed(r'.network, RollbackMark(r', c), g') {
      var m := RollbackMark(r, c);
      var b := Block(r.network, m.height, m.blockId);
      assert r.network == q.network && !q.calls && Pending(m, q.height) ==>
               LooksAtRollback(s.rollbacks.rows[id], c, l.height, b);
      MarkBacked(r.network, m, RollbackMark(r', c), q, !q.calls, g, g');
    }
  }

  lemma PassBacked(c: Config, s: State, l: Label, s': State, g: iset<Block>, g': iset<Block>, columns: set<Column>)
    requires FlagsOk(s, g, columns) && ConfirmedWith(s, l, g, g')
    requires (l.FinalizeCalls? || l.FinalizeRollbacks?) && Next(c, s, l, s')
    ensures FlagsOk(s', g', columns)
  {
    var q := Query(l.FinalizeCalls?, l.network, l.height, l.oracle);
    PassFlagsOnlyConfirmed(c, s, l, s');
    PassKeepsCopies(c, s, l, s');
    MoreBacked(s, g, g', columns);
    forall id | id in s'.calls.rows ensures s'.calls.rows[id] in BackedCalls(g', columns) {
      CallPassBacked(s, l, id, s'.calls.rows[id], q, g, g', columns);
    }
    forall id | id in s'.rollbacks.rows ensures s'.rollbacks.rows[id] in BackedRollbacks(g', columns) {
      RollbackPassBacked(s, l, id, s'.rollbacks.rows[id], q, g, g', columns);
    }
  }

  /** A pass leaves goroutines and monitors as they are; a drop adds a monitor that is not streaming yet. */
  lemma PassKeepsCopies(c: Config, s: State, l: Label, s': State)
    requires (l.FinalizeCalls? || l.FinalizeRollbacks?) && Next(c, s, l, s')
    ensures s'.calls.jobs == s.calls.jobs && s'.rollbacks.jobs == s.rollbacks.jobs && s.handlers <= s'.handlers
    ensures forall h | |s.handlers| <= h < |s'.handlers| :: s'.handlers[h].phase == Stopped
  {
    if !l.pass.Aborted? {
      if l.FinalizeCalls? {
        CallPassEffect(s, l.network, l.height, l.oracle, 0, l.pass, s');
      } else {
        RollbackPassEffect(s, l.network, l.height, l.oracle, 0, l.pass, s');
      }
    }
  }

  lemma StepBacked(c: Config, s: State, l: Label, s': State, g: iset<Block>, g': iset<Block>, columns: set<Column>)
    requires FlagsOk(s, g, columns) && ConfirmedWith(s, l, g, g') && Next(c, s, l, s')
    requires BlockColumn in columns ==> RecordedIn(s, l, g)
    ensures FlagsOk(s', g', columns)
  {
    if l.FinalizeCalls? || l.FinalizeRollbacks? {
      PassBacked(c, s, l, s', g, g', columns);
    } else {
      if l.ActCall? || l.ActRollback? {
        ActStepBacked(c, s, l, s', g, columns);
      } else if l.CallResult? {
        CallResultBacked(c, s, l, s', g, columns);
      } else if l.RollbackResult? {
        RollbackResultBacked(c, s, l, s', g, columns);
      } else if l.Branch? {
        BranchBacked(c, s, l, s', g, columns);
      } else if l.Start? {
        StartBacked(c, s, l, s', g, columns);
      } else {
        MonitorStepBacked(c, s, l, s', g, columns);
      }
      MoreBacked(s', g, g', columns);
    }
  }

  // ----- runs

  lemma ConfirmedGrow(r: Run, i: nat)
    requires i < |r.labels| < |r.states|
    ensures ConfirmedWith(r.states[i], r.labels[i], ConfirmedBlocks(r, i), ConfirmedBlocks(r, i + 1))
    ensures !r.labels[i].FinalizeCalls? && !r.labels[i].FinalizeRollbacks? ==>
              ConfirmedBlocks(r, i + 1) <= ConfirmedBlocks(r, i)
  {
  }

  /** Step `i` records no block under a flag, or a confirmed one. */
  ghost predicate RecordsConfirmed(c: Config, r: Run, i: nat)
    requires IsRun(c, r) && i < |r.labels|
  {
    RecordedIn(r.states[i], r.labels[i], ConfirmedBlocks(r, i))
  }

  lemma BackedAt(c: Config, r: Run, i: nat, columns: set<Column>)
    requires IsRun(c, r) && i < |r.labels| && (BlockColumn in columns ==> RecordsConfirmed(c, r, i))
    requires FlagsOk(r.states[i], ConfirmedBlocks(r, i), columns)
    ensures FlagsOk(r.states[i + 1], ConfirmedBlocks(r, i + 1), columns)
  {
    assert Takes(c, r, i);
    ConfirmedGrow(r, i);
    StepBacked(c, r.states[i], r.labels[i], r.states[i + 1], ConfirmedBlocks(r, i), ConfirmedBlocks(r, i + 1), columns);
  }

  lemma {:induction false} RunBacked(c: Config, r: Run, n: nat, columns: set<Column>)
    requires IsRun(c, r) && n <= |r.labels|
    requires BlockColumn in columns ==> forall i | 0 <= i < n :: RecordsConfirmed(c, r, i)
    ensures FlagsOk(r.states[n], ConfirmedBlocks(r, n), columns)
  {
    if n > 0 {
      RunBacked(c, r, n - 1, columns);
      BackedAt(c, r, n - 1, columns);
    }
  }

  /** In one of the first `n` steps a pass of the network asked for the block, and was told it is final. */
  ghost predicate WasConfirmed(r: Run, n: nat, network: string, height: int, blockId: string)
    requires n <= |r.labels|
  {
    exists k | 0 <= k < n :: ConfirmedBy(r.labels[k], network, height, blockId)
  }

  predicate ConfirmedBy(l: Label, network: string, height: int, blockId: string) {
    && (l.FinalizeCalls? || l.FinalizeRollbacks?) && l.network == network && 1 <= height <= l.height
    && l.oracle(height, blockId) == Confirmed
  }

  /** The event flags, and sending flags, of all rows that record such a block. */
  ghost predicate EventFlagsConfirmed(r: Run, n: nat)
    requires n <= |r.labels| < |r.states|
  {
    && (forall id | id in r.states[n].calls.rows ::
          var row := r.states[n].calls.rows[id];
          row.eventFinalized && row.eventHeight >= 1 ==>
            WasConfirmed(r, n, row.network, row.eventHeight, row.eventBlockId))
    && (forall id | id in r.states[n].rollbacks.rows ::
          var row := r.states[n].rollbacks.rows[id];
          && (row.eventFinalized && row.eventHeight >= 1 ==>
                WasConfirmed(r, n, row.network, row.eventHeight, row.eventBlockId))
          && (row.data.triggerFinalized && row.data.triggerHeight >= 1 ==>
                WasConfirmed(r, n, row.network, row.data.triggerHeight, row.data.triggerBlockId)))
  }

  ghost predicate BlockFlagsConfirmed(r: Run, n: nat)
    requires n <= |r.labels| < |r.states|
  {
    && (forall id | id in r.states[n].calls.rows ::
          var row := r.states[n].calls.rows[id];
          row.finalized && row.blockHeight >= 1 ==> WasConfirmed(r, n, row.network, row.blockHeight, row.blockId))
    && (forall id | id in r.states[n].rollbacks.rows ::
          var row := r.states[n].rollbacks.rows[id];
          row.finalized && row.blockHeight >= 1 ==> WasConfirmed(r, n, row.network, row.blockHeight, row.blockId))
  }

  lemma ConfirmedBlockWasConfirmed(r: Run, n: nat, network: string, m: Mark)
    requires n <= |r.labels| < |r.states| && Backed(network, m, ConfirmedBlocks(r, n)) && m.finalized && m.height >= 1
    ensures WasConfirmed(r, n, network, m.height, m.blockId)
  {
    var k :| 0 <= k < n && Confirms(r.states[k], r.labels[k], Block(network, m.height, m.blockId));
    assert ConfirmedBy(r.labels[k], network, m.height, m.blockId);
  }

  lemma BackedEventFlags(r: Run, n: nat, columns: set<Column>)
    requires n <= |r.labels| < |r.states| && EVENT_COLUMNS <= columns
    requires RowsBacked(r.states[n], ConfirmedBlocks(r, n), columns)
    ensures EventFlagsConfirmed(r, n)
  {
    var s, g := r.states[n], ConfirmedBlocks(r, n);
    forall id | id in s.calls.rows && s.calls.rows[id].eventFinalized && s.calls.rows[id].eventHeight >= 1
      ensures WasConfirmed(r, n, s.calls.rows[id].network, s.calls.rows[id].eventHeight, s.calls.rows[id].eventBlockId)
    {
      ConfirmedBlockWasConfirmed(r, n, s.calls.rows[id].network, CallMark(s.calls.rows[id], EventColumn));
    }
    forall id | id in s.rollbacks.rows && s.rollbacks.rows[id].eventFinalized && s.rollbacks.rows[id].eventHeight >= 1
      ensures WasConfirmed(r, n, s.rollbacks.rows[id].network, s.rollbacks.rows[id].eventHeight,
                           s.rollbacks.rows[id].eventBlockId)
    {
      ConfirmedBlockWasConfirmed(r, n, s.rollbacks.rows[id].network, RollbackMark(s.rollbacks.rows[id], EventColumn));
    }
    forall id | id in s.rollbacks.rows && s.rollbacks.rows[id].data.triggerFinalized
                && s.rollbacks.rows[id].data.triggerHeight >= 1
      ensures WasConfirmed(r, n, s.rollbacks.rows[id].network, s.rollbacks.rows[id].data.triggerHeight,
                           s.rollbacks.rows[id].data.triggerBlockId)
    {
      ConfirmedBlockWasConfirmed(r, n, s.rollbacks.rows[id].network, RollbackMark(s.rollbacks.rows[id], TriggerColumn));
    }
  }

  lemma BackedBlockFlags(r: Run, n: nat)
    requires n <= |r.labels| < |r.states|
    requires RowsBacked(r.states[n], ConfirmedBlocks(r, n), ALL_COLUMNS)
    ensures BlockFlagsConfirmed(r, n)
  {
    var s := r.states[n];
    forall id | id in s.calls.rows && s.calls.rows[id].finalized && s.calls.rows[id].blockHeight >= 1
      ensures WasConfirmed(r, n, s.calls.rows[id].network, s.calls.rows[id].blockHeight, s.calls.rows[id].blockId)
    {
      ConfirmedBlockWasConfirmed(r, n, s.calls.rows[id].network, CallMark(s.calls.rows[id], BlockColumn));
    }
    forall id | id in s.rollbacks.rows && s.rollbacks.rows[id].finalized && s.rollbacks.rows[id].blockHeight >= 1
      ensures WasConfirmed(r, n, s.rollbacks.rows[id].network, s.rollbacks.rows[id].blockHeight,
                           s.rollbacks.rows[id].blockId)
    {
      ConfirmedBlockWasConfirmed(r, n, s.rollbacks.rows[id].network, RollbackMark(s.rollbacks.rows[id], BlockColumn));
    }
  }

  /** In every run - drops, branches, stale copies and second monitors included - the flag of an event,
      and of a request that was sent, is backed by a confirmation of the very block its row records. */
  lemma EventFlagsAreBacked(c: Config, r: Run, n: nat)
    requires IsRun(c, r) && n <= |r.labels|
    ensures RowsBacked(r.states[n], ConfirmedBlocks(r, n), EVENT_COLUMNS)
    ensures EventFlagsConfirmed(r, n)
  {
    RunBacked(c, r, n, EVENT_COLUMNS);
    BackedEventFlags(r, n, EVENT_COLUMNS);
  }

  /** What is recorded under a flag ends up in a row. */
  lemma RecordedShows(c: Config, s: State, l: Label, s': State, g: iset<Block>)
    requires Next(c, s, l, s') && Recorded(s, l).Some? && RowsBacked(s', g, ALL_COLUMNS)
    ensures Recorded(s, l).value in g
  {
    match l
    case ActCall(h, invoked, ok) =>
      var phase := s.handlers[h].phase;
      var done := Completed(phase.call.value, NewCall(s.handlers[h].network, phase.event));
      assert s'.calls.rows[SavedId(s.calls, done)] == done.body;
      assert Backed(done.body.network, CallMark(done.body, BlockColumn), g);
    case ActRollback(h, invoked, ok) =>
      var phase := s.handlers[h].phase;
      var done := Completed(phase.rollback.value, NewRollback(s.handlers[h].network, phase.event));
      assert s'.rollbacks.rows[SavedId(s.rollbacks, done)] == done.body;
      assert Backed(done.body.network, RollbackMark(done.body, BlockColumn), g);
    case CallResult(j, result, invoked, ok) =>
      var r := s.calls.jobs[j].value;
      var sent := r.(body := r.body.(state := StateSent, blockHeight := result.blockHeight, blockId := result.blockId));
      assert s'.calls.rows[SavedId(s.calls, sent)] == sent.body;
      assert Backed(sent.body.network, CallMark(sent.body, BlockColumn), g);
    case RollbackResult(j, result, invoked, ok) =>
      var r := s.rollbacks.jobs[j].value;
      var sent := r.(body := r.body.(state := StateSent, blockHeight := result.blockHeight, blockId := result.blockId));
      assert s'.rollbacks.rows[SavedId(s.rollbacks, sent)] == sent.body;
      assert Backed(sent.body.network, RollbackMark(sent.body, BlockColumn), g);
    case _ =>
  }

  /** In state `i` every flag is backed. */
  ghost predicate AllBacked(c: Config, r: Run, i: nat)
    requires IsRun(c, r) && i <= |r.labels|
  {
    RowsBacked(r.states[i], ConfirmedBlocks(r, i), ALL_COLUMNS)
  }

  lemma BackedRecordsConfirmed(c: Config, r: Run, i: nat)
    requires IsRun(c, r) && i < |r.labels| && AllBacked(c, r, i + 1)
    ensures RecordsConfirmed(c, r, i)
  {
    var s, l, s' := r.states[i], r.labels[i], r.states[i + 1];
    assert Takes(c, r, i);
    ConfirmedGrow(r, i);
    if Recorded(s, l).Some? {
      RecordedShows(c, s, l, s', ConfirmedBlocks(r, i + 1));
    }
  }

  /** All flags are backed throughout a run exactly when every block that was recorded under a flag
      had been confirmed before. */
  lemma FlagsBackedExactly(c: Config, r: Run)
    requires IsRun(c, r)
    ensures (forall i | 0 <= i <= |r.labels| :: AllBacked(c, r, i))
            <==> (forall i | 0 <= i < |r.labels| :: RecordsConfirmed(c, r, i))
    ensures forall i | 0 <= i <= |r.labels| && AllBacked(c, r, i) ::
              EventFlagsConfirmed(r, i) && BlockFlagsConfirmed(r, i)
  {
    forall i | 0 <= i <= |r.labels| && AllBacked(c, r, i)
      ensures EventFlagsConfirmed(r, i) && BlockFlagsConfirmed(r, i)
    {
      BackedEventFlags(r, i, ALL_COLUMNS);
      BackedBlockFlags(r, i);
    }
    if forall i | 0 <= i <= |r.labels| :: AllBacked(c, r, i) {
      forall i | 0 <= i < |r.labels| ensures RecordsConfirmed(c, r, i) {
        BackedRecordsConfirmed(c, r, i);
      }
    }
    if forall i | 0 <= i < |r.labels| :: RecordsConfirmed(c, r, i) {
      forall i | 0 <= i <= |r.labels| ensures AllBacked(c, r, i) {
        RunBacked(c, r, i, ALL_COLUMNS);
      }
    }
  }
}
