/**
 The auto-caller's own code: records assigned field by field, tables rewritten, query
 results walked in whatever order the database returns them. Each method is proved
 against the step functions the runs are made of. What the outside answers (submitting,
 results, the finality monitor, whether a save succeeds) comes in as parameters.
 */
module XCallAutoCaller {
  import opened Wrappers
  import opened XCallStore
  import opened XCallMachine
  import opened XCallEffects

  /** The row of the network for the key; an empty network, or a key of 0, does not restrict the query. */
  predicate IsOf<E>(row: Row<E>, network: string, key: nat) {
    (network != "" ==> row.network == network) && (key != 0 ==> row.key == key)
  }

  /** The matching row with the lowest key. */
  method FindOne<E>(s: Store<E>, network: string, key: nat) returns (found: Option<Record<E>>)
    ensures IsFirst(s, network, key, found)
    ensures found.Some? <==> exists id | id in s.rows :: IsOf(s.rows[id], network, key)
    ensures found.Some? ==> found.value.id in s.rows && s.rows[found.value.id] == found.value.body
                            && IsOf(found.value.body, network, key)
    ensures found.Some? ==> forall id | id in s.rows && IsOf(s.rows[id], network, key) :: found.value.id <= id
  {
    found := None;
    var todo := s.rows.Keys;
    while todo != {}
      invariant todo <= s.rows.Keys
      invariant found.None? ==> forall id | id in s.rows && id !in todo :: !Matches(s.rows[id], network, key)
      invariant found.Some? ==>
                  var r := found.value;
                  && r.id in s.rows && s.rows[r.id] == r.body && Matches(r.body, network, key)
                  && forall id | id in s.rows && id !in todo && Matches(s.rows[id], network, key) :: r.id <= id
      decreases todo
    {
      var id :| id in todo;
      todo := todo - {id};
      if Matches(s.rows[id], network, key) && (found.None? || id < found.value.id) {
        found := Some(Record(id, s.rows[id]));
      }
    }
  }

  /** A row of the network with the highest event height. */
  method FindTop<E>(s: Store<E>, network: string) returns (found: Option<Record<E>>)
    ensures IsTop(s, network, found)
    ensures found.Some? <==> exists id | id in s.rows :: IsOf(s.rows[id], network, 0)
    ensures found.Some? ==> found.value.id in s.rows && s.rows[found.value.id] == found.value.body
                            && IsOf(found.value.body, network, 0)
    ensures found.Some? ==> forall id | id in s.rows && IsOf(s.rows[id], network, 0) ::
                s.rows[id].eventHeight <= found.value.body.eventHeight
  {
    found := None;
    var todo := s.rows.Keys;
    while todo != {}
      invariant todo <= s.rows.Keys
      invariant found.None? ==> forall id | id in s.rows && id !in todo :: !Matches(s.rows[id], network, 0)
      invariant found.Some? ==>
                  var r := found.value;
                  && r.id in s.rows && s.rows[r.id] == r.body && Matches(r.body, network, 0)
                  && forall id | id in s.rows && id !in todo && Matches(s.rows[id], network, 0) ::
                       s.rows[id].eventHeight <= r.body.eventHeight
      decreases todo
    {
      var id :| id in todo;
      todo := todo - {id};
      if Matches(s.rows[id], network, 0) && (found.None? || found.value.body.eventHeight < s.rows[id].eventHeight) {
        found := Some(Record(id, s.rows[id]));
      }
    }
  }

  /** Asks the monitor about each pending row until one is not confirmed. */
  method Check(ids: set<nat>, marks: map<nat, Mark>, oracle: Oracle) returns (pass: Pass)
    requires ids <= marks.Keys
    ensures Scan(ids, marks, oracle, pass)
  {
    var todo := ids;
    while todo != {}
      invariant todo <= ids
      invariant forall id | id in ids && id !in todo :: oracle(marks[id].height, marks[id].blockId) == Confirmed
      decreases todo
    {
      var id :| id in todo;
      match oracle(marks[id].height, marks[id].blockId) {
        case Confirmed => todo := todo - {id};
        case NotFound => return Dropped(marks[id].height);
        case NotYet => return Aborted;
        case Unreachable => return Aborted;
      }
    }
    return Finalized;
  }

  // ----- what Calls and Rollbacks have in common

  /** The guarded save. */
  method SaveTask<E>(s: Store<E>, r: Record<E>, ok: bool) returns (s': Store<E>, saved: Record<E>)
    ensures s' == SaveIfNotDone(s, r, ok) && saved == r.(id := SavedIfId(s, r, ok))
    ensures WroteGuarded(s, r.id, r.body, ok, s') && s'.jobs == s.jobs
    ensures saved == Record(if ok then KeyFor(s, r.id) else r.id, r.body)
  {
    s', saved := s, r;
    if !ok {
      return;
    }
    if r.id == 0 {
      saved := r.(id := |s.issued| + 1);
      s' := Save(s, r);
    } else {
      var guarded := r.id in s.rows && s.rows[r.id].state == StateDone;
      if !guarded {
        s' := Save(s, r);
      }
    }
  }

  method OnTaskError<E>(task: Task, s: Store<E>, r: Record<E>, error: CallError, ok: bool) returns (s': Store<E>)
    ensures s' == SaveIfNotDone(s, Failed(r, error, SkipsOf(task)), ok)
    ensures FailureStored(task, s, r, error, ok, s')
  {
    FailedStored(task, s, r, error, ok);
    var body := r.body;
    if error.EstimateError? && error.reason in SkipsOf(task) {
      body := body.(state := StateSkip);
      body := body.(txId := "");
    } else {
      body := body.(state := StateError);
      body := body.(failure := error.message);
    }
    var saved;
    s', saved := SaveTask(s, r.(body := body), ok);
  }

  method ExecuteTask<E>(task: Task, s: Store<E>, r: Record<E>, invoked: Invoked, ok: bool) returns (s': Store<E>)
    ensures s' == Execute(s, r, invoked, SkipsOf(task), ok)
    ensures Submission(task, s, r, invoked, ok, s')
  {
    if invoked.Refused? {
      s' := OnTaskError(task, s, r, invoked.error, ok);
      return;
    }
    var body := r.body;
    body := body.(state := StateSending);
    body := body.(txId := invoked.txId);
    var saved;
    s', saved := SaveTask(s, r.(body := body), ok);
    s' := Spawn(s', saved);
  }

  /** One attempt of a result goroutine. */
  method TaskResult<E>(task: Task, s: Store<E>, j: nat, result: TxResult, invoked: Invoked, ok: bool)
    returns (s': Store<E>)
    requires j < |s.jobs| && s.jobs[j].Some?
    ensures s' == Result(s, j, result, invoked, SkipsOf(task), ok)
    ensures Attempt(task, s, j, result, invoked, ok, s')
  {
    var r := s.jobs[j].value;
    if result.NotAvailable? {
      return s;
    }
    s' := End(s, j);
    match result {
      case UnknownTransaction => s' := ExecuteTask(task, s', r.(body := r.body.(txId := "")), invoked, ok);
      case Reverted(error) => s' := OnTaskError(task, s', r, error, ok);
      case Executed(height, blockId) =>
        var body := r.body;
        body := body.(state := StateSent);
        body := body.(blockId := blockId);
        body := body.(blockHeight := height);
        var saved;
        s', saved := SaveTask(s', r.(body := body), ok);
    }
  }

  /** The found record is Done now, as the executed event says. */
  method CompleteTask<E>(s: Store<E>, found: Record<E>, executed: Row<E>, ok: bool)
    returns (s': Store<E>, verdict: Verdict)
    ensures SaveOrReject(s, Completed(found, executed), ok) == Acted(s', verdict)
  {
    var body := found.body;
    body := body.(state := StateDone);
    body := body.(txId := executed.txId);
    body := body.(blockHeight := executed.blockHeight);
    body := body.(blockId := executed.blockId);
    body := body.(execResultCode := executed.execResultCode);
    body := body.(execResultMsg := executed.execResultMsg);
    if !ok {
      return s, Reject;
    }
    return Save(s, found.(body := body)), Accept;
  }

  // ----- the statements of dropBlock, each over the whole table

  function DeleteCalls(rows: map<nat, Call>, network: string, height: int): map<nat, Call> {
    map id | id in rows && !(rows[id].network == network && rows[id].eventHeight >= height) :: rows[id]
  }

  function DeleteRollbacks(rows: map<nat, Rollback>, network: string, height: int): map<nat, Rollback> {
    map id | id in rows && !(rows[id].network == network && rows[id].data.triggerHeight >= height) :: rows[id]
  }

  function UpdateExecutions<E>(rows: map<nat, Row<E>>, network: string, height: int): map<nat, Row<E>> {
    map id | id in rows :: ResetExecution(rows[id], network, height)
  }

  function UpdateEvents<E>(rows: map<nat, Row<E>>, network: string, height: int): map<nat, Row<E>> {
    map id | id in rows :: ResetEvent(rows[id], network, height)
  }

  lemma DropCallsInSteps(rows: map<nat, Call>, network: string, height: int)
    ensures UpdateExecutions(DeleteCalls(rows, network, height), network, height) == DropCalls(rows, network, height)
  {
  }

  lemma DropRollbacksInSteps(rows: map<nat, Rollback>, network: string, height: int)
    ensures UpdateExecutions(UpdateEvents(DeleteRollbacks(rows, network, height), network, height), network, height)
            == DropRollbacks(rows, network, height)
  {
    var kept := DeleteRollbacks(rows, network, height);
    var reset := UpdateEvents(kept, network, height);
    assert forall id | id in kept :: reset[id] == ResetEvent(kept[id], network, height);
  }

  class AutoCaller {
    const networks: seq<string>
    var running: bool
    var calls: Store<CallData>
    var rollbacks: Store<RollbackData>
    var handlers: seq<Handler>
    ghost var world: World

    ghost function AsState(): State
      reads this
    {
      State(calls, rollbacks, handlers, world)
    }

    constructor (networks: seq<string>, ghost world: World)
      ensures this.networks == networks && this.world == world && !running
      ensures calls == EmptyStore() && rollbacks == EmptyStore() && handlers == []
    {
      this.networks, running := networks, false;
      calls, rollbacks, handlers, this.world := EmptyStore(), EmptyStore(), [], world;
    }

    /** A monitor for every network, beside whatever has not ended since it was stopped. */
    method Start() returns (ok: bool)
      modifies `running, `handlers
      ensures ok == !old(running) && running
      ensures AsState() == old(AsState()).(handlers := handlers)
      ensures handlers == if ok then old(handlers) + Monitors(networks) else old(handlers)
      ensures ok ==> forall c: Config | IsConfig(c) :: StartStep(c, old(AsState()), networks, false, AsState())
    {
      if running {
        return false;
      }
      running := true;
      var k := 0;
      while k < |networks|
        invariant 0 <= k <= |networks| && running && handlers == old(handlers) + Monitors(networks[..k])
      {
        handlers := handlers + [Handler(networks[k], Stopped)];
        k := k + 1;
        assert Monitors(networks[..k]) == Monitors(networks[..k - 1]) + [Handler(networks[k - 1], Stopped)];
      }
      assert networks[..k] == networks;
      return true;
    }

    /** Cancels contexts; what is running ends by itself, or not at all. */
    method Stop() returns (ok: bool)
      modifies `running
      ensures ok == old(running) && !running
    {
      ok := running;
      running := false;
    }

    /** The configured networks, each once. */
    ghost predicate IsConfig(c: Config)
    {
      && (forall i | 0 <= i < |networks| :: networks[i] in c.initHeight)
      && forall i, j | 0 <= i < j < |networks| :: networks[i] != networks[j]
    }

    method GetMonitorHeight(network: string) returns (height: int)
      ensures exists cm, rm ::
                IsTop(calls, network, cm) && IsTop(rollbacks, network, rm) && height == ResumeHeight(cm, rm)
      ensures forall id | id in calls.rows && IsOf(calls.rows[id], network, 0) :: calls.rows[id].eventHeight <= height
      ensures forall id | id in rollbacks.rows && IsOf(rollbacks.rows[id], network, 0) ::
                rollbacks.rows[id].eventHeight <= height
      ensures || height == 0
              || (exists id | id in calls.rows ::
                    IsOf(calls.rows[id], network, 0) && calls.rows[id].eventHeight == height)
              || exists id | id in rollbacks.rows ::
                   IsOf(rollbacks.rows[id], network, 0) && rollbacks.rows[id].eventHeight == height
    {
      height := 0;
      var cm := FindTop(calls, network);
      var rm := FindTop(rollbacks, network);
      if cm.Some? {
        height := cm.value.body.eventHeight;
      }
      if rm.Some? && height < rm.value.body.eventHeight {
        height := rm.value.body.eventHeight;
      }
    }

    // ----- calls

    method OnCallEvent(network: string, e: Event, invoked: Invoked, ok: bool)
      returns (verdict: Verdict, ghost read: Option<Record<CallData>>)
      requires e.IsCall()
      modifies `calls
      ensures IsFirst(old(calls), network, e.Key(), read)
      ensures OnCall(old(calls), network, e, read, invoked, ok) == Acted(calls, verdict)
      ensures CallEffect(old(calls), network, e, read, invoked, ok, calls, verdict)
    {
      verdict := Accept;
      var cm := Record(0, NewCall(network, e));
      var found := FindOne(calls, network, e.Key());
      read := found;
      CallStored(calls, network, e, found, invoked, ok);
      if e.CallMessage? {
        if found.Some? {
          match found.value.body.state {
            case StateNone => cm := cm.(id := found.value.id);
            case StateSending =>
              calls := Spawn(calls, found.value);
              return;
            case _ => return;
          }
        }
        calls := ExecuteTask(CallTask, calls, cm, invoked, ok);
      } else if found.Some? && found.value.body.state != StateDone {
        calls, verdict := CompleteTask(calls, found.value, cm.body, ok);
      }
    }

    // ----- rollbacks

    method OnRollbackEvent(network: string, e: Event, invoked: Invoked, ok: bool)
      returns (verdict: Verdict, ghost read: Option<Record<RollbackData>>)
      requires e.IsRollback()
      modifies `rollbacks
      ensures IsFirst(old(rollbacks), network, e.Key(), read)
      ensures OnRollback(old(rollbacks), network, e, read, invoked, ok) == Acted(rollbacks, verdict)
      ensures RollbackEffect(old(rollbacks), network, e, read, invoked, ok, rollbacks, verdict)
    {
      verdict := Accept;
      var rm := Record(0, NewRollback(network, e));
      var found := FindOne(rollbacks, network, e.Key());
      read := found;
      RollbackStored(rollbacks, network, e, found, invoked, ok);
      if e.CallMessageSent? {
        if found.Some? && found.value.body.data.to == rm.body.data.to
           && found.value.body.data.from == rm.body.data.from {
          return;
        }
        if !ok {
          return Reject, read;
        }
        rollbacks := Save(rollbacks, rm);
        return;
      }
      if found.None? {
        return;
      }
      var state := found.value.body.state;
      if e.ResponseMessage? {
        var d := found.value.body.data;
        rm := rm.(id := found.value.id);
        rm := rm.(body := rm.body.(data := rm.body.data.(triggerHeight := d.triggerHeight)));
        rm := rm.(body := rm.body.(data := rm.body.data.(triggerBlockId := d.triggerBlockId)));
        rm := rm.(body := rm.body.(data := rm.body.data.(from := d.from)));
        rm := rm.(body := rm.body.(data := rm.body.data.(to := d.to)));
        match state {
          case StateNone =>
            if rm.body.state == StateNotApplicable {
              if !ok {
                return Reject, read;
              }
              rollbacks := Save(rollbacks, rm);
              return;
            }
          case StateSending =>
            rollbacks := Spawn(rollbacks, found.value);
            return;
          case _ => return;
        }
        rollbacks := ExecuteTask(RollbackTask, rollbacks, rm, invoked, ok);
      } else {
        match state {
          case StateDone =>
          case StateNotApplicable => return Panic, read;
          case _ =>
            rollbacks, verdict := CompleteTask(rollbacks, found.value, rm.body, ok);
        }
      }
    }

    // ----- finality

    /** Deletes and resets rows, then starts a new monitor. */
    method DropBlock(network: string, height: int)
      modifies this
      ensures AsState() == XCallMachine.DropBlock(old(AsState()), network, height)
    {
      DropCallsInSteps(calls.rows, network, height);
      DropRollbacksInSteps(rollbacks.rows, network, height);
      calls := calls.(rows := DeleteCalls(calls.rows, network, height));
      calls := calls.(rows := UpdateExecutions(calls.rows, network, height));
      rollbacks := rollbacks.(rows := DeleteRollbacks(rollbacks.rows, network, height));
      rollbacks := rollbacks.(rows := UpdateEvents(rollbacks.rows, network, height));
      rollbacks := rollbacks.(rows := UpdateExecutions(rollbacks.rows, network, height));
      handlers := handlers + [Handler(network, Stopped)];
      world := Undone(world, network, height);
    }

    /** One transaction, column by column: a drop ends it, a roll-back restores the rows. */
    method FinalizeCall(network: string, height: int, oracle: Oracle) returns (pass: Pass)
      modifies this
      ensures FinalizeCallStep(old(AsState()), network, height, oracle, pass, AsState())
    {
      var before := calls;
      ghost var start := AsState();
      var k := 0;
      pass := Finalized;
      while k < |CALL_COLUMNS|
        invariant 0 <= k <= |CALL_COLUMNS| && pass == Finalized
        invariant rollbacks == old(rollbacks) && handlers == old(handlers) && world == old(world)
        invariant forall p, t :: CallPass(AsState(), network, height, oracle, k, p, t)
                                 ==> CallPass(start, network, height, oracle, 0, p, t)
      {
        var c := CALL_COLUMNS[k];
        var ids := PendingCalls(calls.rows, network, c, height);
        ghost var here := AsState();
        pass := Check(ids, CallMarks(calls.rows, c), oracle);
        if pass.Dropped? {
          DropBlock(network, pass.height);
          assert CallPass(here, network, height, oracle, k, pass, AsState());
          return;
        } else if pass.Aborted? {
          assert CallPass(here, network, height, oracle, k, pass, start);
          calls := before;
          return;
        }
        calls := calls.(rows := FlagCalls(calls.rows, ids, c));
        k := k + 1;
      }
    }

    method FinalizeRollback(network: string, height: int, oracle: Oracle) returns (pass: Pass)
      modifies this
      ensures FinalizeRollbackStep(old(AsState()), network, height, oracle, pass, AsState())
    {
      var before := rollbacks;
      ghost var start := AsState();
      var k := 0;
      pass := Finalized;
      while k < |ROLLBACK_COLUMNS|
        invariant 0 <= k <= |ROLLBACK_COLUMNS| && pass == Finalized
        invariant calls == old(calls) && handlers == old(handlers) && world == old(world)
        invariant forall p, t :: RollbackPass(AsState(), network, height, oracle, k, p, t)
                                 ==> RollbackPass(start, network, height, oracle, 0, p, t)
      {
        var c := ROLLBACK_COLUMNS[k];
        var ids := PendingRollbacks(rollbacks.rows, network, c, height);
        ghost var here := AsState();
        pass := Check(ids, RollbackMarks(rollbacks.rows, c), oracle);
        if pass.Dropped? {
          DropBlock(network, pass.height);
          assert RollbackPass(here, network, height, oracle, k, pass, AsState());
          return;
        } else if pass.Aborted? {
          assert RollbackPass(here, network, height, oracle, k, pass, start);
          rollbacks := before;
          return;
        }
        rollbacks := rollbacks.(rows := FlagRollbacks(rollbacks.rows, ids, c));
        k := k + 1;
      }
    }
  }
}
