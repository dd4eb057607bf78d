/**
 Steps of concrete runs: one network, configured to start at height 1.
 */
module XCallRuns {
  import opened Wrappers
  import opened XCallStore
  import opened XCallMachine

  const CONFIG: Config := Config(map["n" := 1])

  /** A run from the start that ends in `s`. */
  ghost predicate RunsTo(r: Run, s: State) {
    IsRun(CONFIG, r) && r.states[|r.states| - 1] == s
  }

  /** Some step of the run drops the blocks from `height` on. */
  ghost predicate DropsAt(r: Run, height: int) {
    exists i :: 0 <= i < |r.labels| && r.labels[i].IsDrop() && r.labels[i].pass == Dropped(height)
  }

  ghost predicate Dropless(r: Run) {
    forall i | 0 <= i < |r.labels| :: !r.labels[i].IsDrop()
  }

  predicate Saves(l: Label) {
    (l.ActCall? || l.ActRollback? || l.CallResult? || l.RollbackResult?) ==> l.ok
  }

  /** No save of the run fails. */
  ghost predicate AllSaved(r: Run) {
    forall i | 0 <= i < |r.labels| :: Saves(r.labels[i])
  }

  /** Some step of the run replaces the network's events. */
  ghost predicate Replaces(r: Run, before: seq<Event>, after: seq<Event>) {
    exists i :: 0 <= i < |r.labels| && i + 1 < |r.states| && r.labels[i].Branch?
                && r.states[i].world.chain == map["n" := before] && r.states[i + 1].world.chain == map["n" := after]
  }

  /** The drops and branches of the one are those of the other. */
  ghost predicate Extends(r: Run, longer: Run) {
    && (forall height | DropsAt(r, height) :: DropsAt(longer, height))
    && (forall before, after | Replaces(r, before, after) :: Replaces(longer, before, after))
  }

  /** The last step of the run is `l`, from state `s`. */
  ghost predicate EndsWith(r: Run, s: State, l: Label) {
    var n := |r.labels|;
    n > 0 && |r.states| == n + 1 && r.labels[n - 1] == l && r.states[n - 1] == s
  }

  ghost function Push(r: Run, l: Label, s: State): Run {
    Run(r.states + [s], r.labels + [l])
  }

  lemma PushRuns(r: Run, s: State, l: Label, s': State) returns (longer: Run)
    requires RunsTo(r, s) && Next(CONFIG, s, l, s')
    ensures longer == Push(r, l, s') && RunsTo(longer, s')
    ensures Extends(r, longer)
    ensures l.IsDrop() ==> DropsAt(longer, l.pass.height)
    ensures EndsWith(longer, s, l)
    ensures Dropless(r) && !l.IsDrop() ==> Dropless(longer)
    ensures AllSaved(r) && Saves(l) ==> AllSaved(longer)
    ensures forall before, after | l.Branch? && s.world.chain == map["n" := before]
            && s'.world.chain == map["n" := after] ::
              Replaces(longer, before, after)
  {
    longer := Push(r, l, s');
    forall i | 0 <= i < |longer.labels| ensures Takes(CONFIG, longer, i) {
      assert i < |r.labels| ==> Takes(CONFIG, r, i);
    }
    forall height | DropsAt(r, height) ensures DropsAt(longer, height) {
      var i :| 0 <= i < |r.labels| && r.labels[i].IsDrop() && r.labels[i].pass == Dropped(height);
      assert longer.labels[i] == r.labels[i];
    }
    forall before, after | Replaces(r, before, after) ensures Replaces(longer, before, after) {
      var i :| 0 <= i < |r.labels| && i + 1 < |r.states| && r.labels[i].Branch?
               && r.states[i].world.chain == map["n" := before] && r.states[i + 1].world.chain == map["n" := after];
      assert longer.labels[i] == r.labels[i] && longer.states[i] == r.states[i]
             && longer.states[i + 1] == r.states[i + 1];
    }
    assert longer.labels[|r.labels|] == l && longer.states[|r.labels|] == s && longer.states[|r.labels| + 1] == s';
  }

  lemma PositionIs(events: seq<Event>, height: int, pos: nat)
    requires pos < |events| && events[pos].height >= height && forall i | 0 <= i < pos :: events[i].height < height
    ensures Position(events, height) == pos
  {
  }

  function Monitor(phase: Phase): Handler {
    Handler("n", phase)
  }

  function StartState(events: seq<Event>): State {
    State(EmptyStore(), EmptyStore(), [Monitor(Stopped)], World(map["n" := events], {}, []))
  }

  /** The first monitor streams from the first event on. */
  function Streams(events: seq<Event>): State {
    StartState(events).(handlers := [Monitor(Streaming(0))])
  }

  lemma RunStreams(events: seq<Event>) returns (r: Run)
    requires Sorted(events) && |events| > 0 && events[0].height >= 1
    ensures RunsTo(r, Streams(events)) && Dropless(r) && AllSaved(r)
  {
    var s := StartState(events);
    r := Run([s], []);
    r := PushRuns(r, s, Open(0, None, None, 0), Streams(events));
  }

  /** Monitor `h` waits for event `e` of the branch. */
  ghost predicate WaitsFor(s: State, h: nat, e: Event) {
    && h < |s.handlers| && s.handlers[h].network == "n" && "n" in s.world.chain && s.handlers[h].phase.Streaming?
    && s.handlers[h].phase.next < |s.world.chain["n"]| && s.world.chain["n"][s.handlers[h].phase.next] == e
  }

  /** Monitor `h` has event `e` of the branch in hand. */
  ghost predicate HoldsEvent(s: State, h: nat, e: Event) {
    h < |s.handlers| && s.handlers[h].network == "n" && "n" in s.world.chain && s.handlers[h].phase.Holds()
    && s.handlers[h].phase.event == e
  }

  lemma RunReadsCall(r: Run, s: State, h: nat, e: Event, found: Option<Record<CallData>>) returns (longer: Run)
    requires RunsTo(r, s) && WaitsFor(s, h, e) && e.IsCall() && IsFirst(s.calls, "n", e.Key(), found)
    ensures RunsTo(longer, At(s, h, HoldsCall(s.handlers[h].phase.next + 1, e, found)))
    ensures Extends(r, longer) && (Dropless(r) ==> Dropless(longer)) && (AllSaved(r) ==> AllSaved(longer))
  {
    longer := PushRuns(r, s, ReadCall(h, found), At(s, h, HoldsCall(s.handlers[h].phase.next + 1, e, found)));
  }

  lemma RunReadsRollback(r: Run, s: State, h: nat, e: Event, found: Option<Record<RollbackData>>) returns (longer: Run)
    requires RunsTo(r, s) && WaitsFor(s, h, e) && e.IsRollback() && IsFirst(s.rollbacks, "n", e.Key(), found)
    ensures RunsTo(longer, At(s, h, HoldsRollback(s.handlers[h].phase.next + 1, e, found)))
    ensures Extends(r, longer)
  {
    longer := PushRuns(r, s, ReadRollback(h, found), At(s, h, HoldsRollback(s.handlers[h].phase.next + 1, e, found)));
  }

  /** The state after monitor `h` has ended its callback with nil and the Call table is `calls`. */
  function CallDone(s: State, h: nat, calls: Store<CallData>): State
    requires h < |s.handlers| && s.handlers[h].phase.Holds()
  {
    Ended(s, h, Accept).(calls := calls)
  }

  function RollbackDone(s: State, h: nat, rollbacks: Store<RollbackData>): State
    requires h < |s.handlers| && s.handlers[h].phase.Holds()
  {
    Ended(s, h, Accept).(rollbacks := rollbacks)
  }

  lemma RunActsOnCall(r: Run, s: State, h: nat, e: Event, invoked: Invoked, ok: bool) returns (longer: Run)
    requires RunsTo(r, s) && HoldsEvent(s, h, e) && e.IsCall() && s.handlers[h].phase.HoldsCall?
    requires OnCall(s.calls, "n", e, s.handlers[h].phase.call, invoked, ok).verdict == Accept
    ensures RunsTo(longer, CallDone(s, h, OnCall(s.calls, "n", e, s.handlers[h].phase.call, invoked, ok).store))
    ensures Extends(r, longer) && (Dropless(r) ==> Dropless(longer)) && (AllSaved(r) && ok ==> AllSaved(longer))
  {
    longer := PushRuns(r, s, ActCall(h, invoked, ok),
                       CallDone(s, h, OnCall(s.calls, "n", e, s.handlers[h].phase.call, invoked, ok).store));
  }

  lemma RunActsOnRollback(r: Run, s: State, h: nat, e: Event, invoked: Invoked, ok: bool) returns (longer: Run)
    requires RunsTo(r, s) && HoldsEvent(s, h, e) && e.IsRollback() && s.handlers[h].phase.HoldsRollback?
    requires OnRollback(s.rollbacks, "n", e, s.handlers[h].phase.rollback, invoked, ok).verdict == Accept
    ensures RunsTo(longer, RollbackDone(s, h,
                                        OnRollback(s.rollbacks, "n", e, s.handlers[h].phase.rollback, invoked,
                                                   ok).store))
    ensures EndsWith(longer, s, ActRollback(h, invoked, ok))
    ensures Extends(r, longer)
  {
    longer := PushRuns(r, s, ActRollback(h, invoked, ok),
                       RollbackDone(s, h, OnRollback(s.rollbacks, "n", e, s.handlers[h].phase.rollback, invoked,
                                                     ok).store));
  }

  lemma RunOpens(r: Run, s: State, h: nat, cm: Option<Record<CallData>>, rm: Option<Record<RollbackData>>)
    returns (longer: Run)
    requires RunsTo(r, s) && h < |s.handlers| && s.handlers[h] == Monitor(Stopped) && "n" in s.world.chain
    requires IsTop(s.calls, "n", cm) && IsTop(s.rollbacks, "n", rm)
    ensures RunsTo(longer, At(s, h, Streaming(Position(s.world.chain["n"], StartHeight(1, ResumeHeight(cm, rm))))))
    ensures Extends(r, longer) && (Dropless(r) ==> Dropless(longer)) && (AllSaved(r) ==> AllSaved(longer))
  {
    var pos := Position(s.world.chain["n"], StartHeight(1, ResumeHeight(cm, rm)));
    longer := PushRuns(r, s, Open(h, cm, rm, pos), At(s, h, Streaming(pos)));
  }

  /** A pass over the Calls that finds a block missing at its first look drops it. */
  lemma RunDropsCalls(r: Run, s: State, height: int, oracle: Oracle, id: nat) returns (longer: Run)
    requires RunsTo(r, s) && id in PendingCalls(s.calls.rows, "n", EventColumn, height)
    requires oracle(s.calls.rows[id].eventHeight, s.calls.rows[id].eventBlockId) == NotFound
    ensures RunsTo(longer, DropBlock(s, "n", s.calls.rows[id].eventHeight))
            && DropsAt(longer, s.calls.rows[id].eventHeight)
    ensures Extends(r, longer) && (AllSaved(r) ==> AllSaved(longer))
  {
    var drop := s.calls.rows[id].eventHeight;
    var ids := PendingCalls(s.calls.rows, "n", EventColumn, height);
    assert CallMarks(s.calls.rows, EventColumn)[id].height == drop;
    assert Scan(ids, CallMarks(s.calls.rows, EventColumn), oracle, Dropped(drop));
    assert CALL_COLUMNS[0] == EventColumn;
    longer := PushRuns(r, s, FinalizeCalls("n", height, oracle, Dropped(drop)), DropBlock(s, "n", drop));
  }

  /** A pass over the Rollbacks that finds a block missing at its first look drops it. */
  lemma RunDropsRollbacks(r: Run, s: State, height: int, oracle: Oracle, id: nat) returns (longer: Run)
    requires RunsTo(r, s) && id in PendingRollbacks(s.rollbacks.rows, "n", TriggerColumn, height)
    requires oracle(s.rollbacks.rows[id].data.triggerHeight, s.rollbacks.rows[id].data.triggerBlockId) == NotFound
    ensures RunsTo(longer, DropBlock(s, "n", s.rollbacks.rows[id].data.triggerHeight))
    ensures DropsAt(longer, s.rollbacks.rows[id].data.triggerHeight) && Extends(r, longer)
  {
    var drop := s.rollbacks.rows[id].data.triggerHeight;
    var ids := PendingRollbacks(s.rollbacks.rows, "n", TriggerColumn, height);
    assert RollbackMarks(s.rollbacks.rows, TriggerColumn)[id].height == drop;
    assert Scan(ids, RollbackMarks(s.rollbacks.rows, TriggerColumn), oracle, Dropped(drop));
    assert ROLLBACK_COLUMNS[0] == TriggerColumn;
    longer := PushRuns(r, s, FinalizeRollbacks("n", height, oracle, Dropped(drop)), DropBlock(s, "n", drop));
  }
}
