/**
 A Rollback that loses its Done after a branch has been replaced: the first monitor still holds the
 success response of the old branch, while the one started by the drop rolls the request back on the
 new one. Neither branch alone has both.
 */
module XCallRace {
  import opened Wrappers
  import opened XCallStore
  import opened XCallMachine
  import opened XCallRuns

  const SENT: Event := CallMessageSent(5, "b5", 1, "f", "t")
  const OTHER: Event := CallMessageSent(6, "a6", 2, "f", "t")
  const SUCCESS: Event := ResponseMessage(7, "a7", 1, 0)
  const FAILURE: Event := ResponseMessage(7, "c7", 1, 1)
  const ROLLED_BACK: Event := RollbackExecuted(8, "c8", "x", 1, 0, "")

  const OLD_BRANCH: seq<Event> := [SENT, OTHER, SUCCESS]
  const NEW_BRANCH: seq<Event> := [SENT, FAILURE, ROLLED_BACK]

  /** No serial number is both answered with success and rolled back. */
  ghost predicate BranchConsistent(events: seq<Event>) {
    forall i, j | 0 <= i < |events| && 0 <= j < |events| && events[i].ResponseMessage?
                  && events[i].code == EXECUTE_RESULT_CODE_SUCCESS && events[j].RollbackExecuted? ::
      events[i].sn != events[j].sn
  }

  const NEW_ROW: Rollback := NewRollback("n", SENT)
  const OTHER_ROW: Rollback := NewRollback("n", OTHER)
  const NOT_ENABLED: CallError := EstimateError("RollbackNotEnabled", "")
  const SKIPPED_ROW: Rollback :=
    Failed(Answered(Record(1, NEW_ROW), NewRollback("n", FAILURE)), NOT_ENABLED, ROLLBACK_SKIPS).body
  const DONE_ROW: Rollback := Completed(Record(1, SKIPPED_ROW), NewRollback("n", ROLLED_BACK)).body
  const LOST_ROW: Rollback := Answered(Record(1, NEW_ROW), NewRollback("n", SUCCESS)).body

  const ANY: Invoked := Refused(NOT_ENABLED)

  function Held(row: Rollback): Option<Record<RollbackData>> {
    Some(Record(1, row))
  }

  function Rows(rows: map<nat, Rollback>): Store<RollbackData> {
    Store(rows, [NEW_ROW, OTHER_ROW], [])
  }

  function Now(rollbacks: Store<RollbackData>, handlers: seq<Handler>, w: World): State {
    State(EmptyStore(), rollbacks, handlers, w)
  }

  function OldWorld(handled: set<(string, nat)>, log: seq<Accepted>): World {
    World(map["n" := OLD_BRANCH], handled, log)
  }

  function NewWorld(handled: set<(string, nat)>, log: seq<Accepted>): World {
    World(map["n" := NEW_BRANCH], handled, log)
  }

  const FIRST_LOG: seq<Accepted> := [Accepted("n", SENT)]
  const SECOND_LOG: seq<Accepted> := FIRST_LOG + [Accepted("n", OTHER)]
  const REDELIVERED: seq<Accepted> := SECOND_LOG + [Accepted("n", SENT)]
  const FAILED_LOG: seq<Accepted> := REDELIVERED + [Accepted("n", FAILURE)]
  const DONE_LOG: seq<Accepted> := FAILED_LOG + [Accepted("n", ROLLED_BACK)]

  // ----- the first monitor, on the old branch

  function SentState(): State {
    Now(Store(map[1 := NEW_ROW], [NEW_ROW], []), [Monitor(Streaming(1))], OldWorld({("n", 0)}, FIRST_LOG))
  }

  lemma RunSent() returns (r: Run)
    ensures RunsTo(r, SentState())
  {
    r := RunStreams(OLD_BRANCH);
    var s := Streams(OLD_BRANCH);
    r := RunReadsRollback(r, s, 0, SENT, None);
    SentIs();
    r := RunActsOnRollback(r, At(s, 0, HoldsRollback(1, SENT, None)), 0, SENT, ANY, true);
  }

  lemma SentIs()
    ensures var s := At(Streams(OLD_BRANCH), 0, HoldsRollback(1, SENT, None));
            var acted := OnRollback(s.rollbacks, "n", SENT, None, ANY, true);
            acted.verdict == Accept && RollbackDone(s, 0, acted.store) == SentState()
  {
    assert Save(EmptyStore(), Record(0, NEW_ROW)) == SentState().rollbacks;
  }

  function BothState(): State {
    Now(Rows(map[1 := NEW_ROW, 2 := OTHER_ROW]), [Monitor(Streaming(2))],
        OldWorld({("n", 0), ("n", 1)}, SECOND_LOG))
  }

  lemma RunBothSent() returns (r: Run)
    ensures RunsTo(r, BothState())
  {
    r := RunSent();
    var s := SentState();
    r := RunReadsRollback(r, s, 0, OTHER, None);
    BothIs();
    r := RunActsOnRollback(r, At(s, 0, HoldsRollback(2, OTHER, None)), 0, OTHER, ANY, true);
  }

  lemma BothIs()
    ensures var s := At(SentState(), 0, HoldsRollback(2, OTHER, None));
            var acted := OnRollback(s.rollbacks, "n", OTHER, None, ANY, true);
            acted.verdict == Accept && RollbackDone(s, 0, acted.store) == BothState()
  {
    assert Save(SentState().rollbacks, Record(0, OTHER_ROW)) == BothState().rollbacks;
  }

  /** Its success response in hand, and the row as it was. */
  const HOLDING: Handler := Monitor(HoldsRollback(3, SUCCESS, Held(NEW_ROW)))

  lemma RunHolds() returns (r: Run)
    ensures RunsTo(r, BothState().(handlers := [HOLDING]))
  {
    r := RunBothSent();
    assert IsFirst(BothState().rollbacks, "n", 1, Held(NEW_ROW));
    r := RunReadsRollback(r, BothState(), 0, SUCCESS, Held(NEW_ROW));
  }

  // ----- the branch is replaced, its block dropped

  lemma RunBranches() returns (r: Run)
    ensures RunsTo(r, Now(Rows(map[1 := NEW_ROW, 2 := OTHER_ROW]), [HOLDING], NewWorld({("n", 0)}, SECOND_LOG)))
            && Replaces(r, OLD_BRANCH, NEW_BRANCH)
  {
    r := RunHolds();
    var s := BothState().(handlers := [HOLDING]);
    var s' := Now(Rows(map[1 := NEW_ROW, 2 := OTHER_ROW]), [HOLDING], NewWorld({("n", 0)}, SECOND_LOG));
    var events := [FAILURE, ROLLED_BACK];
    assert OLD_BRANCH[..1] + events == NEW_BRANCH;
    assert Forget({("n", 0), ("n", 1)}, "n", 1) == {("n", 0)};
    assert AllMoved([HOLDING], "n", 1, [3]) == [HOLDING];
    r := PushRuns(r, s, Branch("n", 1, events, [3]), s');
  }

  /** The block of the other request is not found any more. */
  function Fork(height: int, blockId: string): Answer {
    if blockId == "a6" then NotFound else Confirmed
  }

  function DroppedState(second: Phase): State {
    Now(Rows(map[1 := NEW_ROW]), [HOLDING, Monitor(second)], NewWorld({("n", 0)}, SECOND_LOG))
  }

  lemma RunDrops() returns (r: Run)
    ensures RunsTo(r, DroppedState(Stopped)) && Replaces(r, OLD_BRANCH, NEW_BRANCH)
  {
    r := RunBranches();
    var s := Now(Rows(map[1 := NEW_ROW, 2 := OTHER_ROW]), [HOLDING], NewWorld({("n", 0)}, SECOND_LOG));
    assert 2 in PendingRollbacks(s.rollbacks.rows, "n", TriggerColumn, 10);
    r := RunDropsRollbacks(r, s, 10, Fork, 2);
    DroppedIs();
  }

  lemma DroppedIs()
    ensures DropBlock(Now(Rows(map[1 := NEW_ROW, 2 := OTHER_ROW]), [HOLDING], NewWorld({("n", 0)}, SECOND_LOG)), "n", 6)
            == DroppedState(Stopped)
  {
    assert DropRollbacks(map[1 := NEW_ROW, 2 := OTHER_ROW], "n", 6) == DroppedState(Stopped).rollbacks.rows;
    assert DropCalls(map[], "n", 6) == map[];
    PositionIs(NEW_BRANCH, 6, 1);
    assert Forget({("n", 0)}, "n", 1) == {("n", 0)};
  }

  // ----- the second monitor, on the new branch

  lemma RunReopens() returns (r: Run)
    ensures RunsTo(r, DroppedState(Streaming(0))) && Replaces(r, OLD_BRANCH, NEW_BRANCH)
  {
    r := RunDrops();
    assert IsTop(DroppedState(Stopped).rollbacks, "n", Held(NEW_ROW));
    PositionIs(NEW_BRANCH, 1, 0);
    r := RunOpens(r, DroppedState(Stopped), 1, None, Held(NEW_ROW));
  }

  function RedeliveredState(): State {
    Now(Rows(map[1 := NEW_ROW]), [HOLDING, Monitor(Streaming(1))], NewWorld({("n", 0)}, REDELIVERED))
  }

  lemma RunRedelivers() returns (r: Run)
    ensures RunsTo(r, RedeliveredState()) && Replaces(r, OLD_BRANCH, NEW_BRANCH)
  {
    r := RunReopens();
    var s := DroppedState(Streaming(0));
    assert IsFirst(s.rollbacks, "n", 1, Held(NEW_ROW));
    r := RunReadsRollback(r, s, 1, SENT, Held(NEW_ROW));
    RedeliveredIs();
    r := RunActsOnRollback(r, At(s, 1, HoldsRollback(1, SENT, Held(NEW_ROW))), 1, SENT, ANY, true);
  }

  lemma RedeliveredIs()
    ensures var s := At(DroppedState(Streaming(0)), 1, HoldsRollback(1, SENT, Held(NEW_ROW)));
            var acted := OnRollback(s.rollbacks, "n", SENT, Held(NEW_ROW), ANY, true);
            acted.verdict == Accept && RollbackDone(s, 1, acted.store) == RedeliveredState()
  {
  }

  function FailedState(): State {
    Now(Rows(map[1 := SKIPPED_ROW]), [HOLDING, Monitor(Streaming(2))], NewWorld({("n", 0), ("n", 1)}, FAILED_LOG))
  }

  lemma RunFails() returns (r: Run)
    ensures RunsTo(r, FailedState()) && Replaces(r, OLD_BRANCH, NEW_BRANCH)
  {
    r := RunRedelivers();
    var s := RedeliveredState();
    assert IsFirst(s.rollbacks, "n", 1, Held(NEW_ROW));
    r := RunReadsRollback(r, s, 1, FAILURE, Held(NEW_ROW));
    FailedIs();
    r := RunActsOnRollback(r, At(s, 1, HoldsRollback(2, FAILURE, Held(NEW_ROW))), 1, FAILURE, ANY, true);
  }

  lemma FailedIs()
    ensures var s := At(RedeliveredState(), 1, HoldsRollback(2, FAILURE, Held(NEW_ROW)));
            var acted := OnRollback(s.rollbacks, "n", FAILURE, Held(NEW_ROW), ANY, true);
            acted.verdict == Accept && RollbackDone(s, 1, acted.store) == FailedState()
  {
    var s := RedeliveredState();
    assert OnRollback(s.rollbacks, "n", FAILURE, Held(NEW_ROW), ANY, true).store == FailedState().rollbacks;
  }

  function DoneState(): State {
    Now(Rows(map[1 := DONE_ROW]), [HOLDING, Monitor(Streaming(3))],
        NewWorld({("n", 0), ("n", 1), ("n", 2)}, DONE_LOG))
  }

  lemma RunRollsBack() returns (r: Run)
    ensures RunsTo(r, DoneState()) && Replaces(r, OLD_BRANCH, NEW_BRANCH)
  {
    r := RunFails();
    var s := FailedState();
    assert IsFirst(s.rollbacks, "n", 1, Held(SKIPPED_ROW));
    r := RunReadsRollback(r, s, 1, ROLLED_BACK, Held(SKIPPED_ROW));
    DoneIs();
    r := RunActsOnRollback(r, At(s, 1, HoldsRollback(3, ROLLED_BACK, Held(SKIPPED_ROW))), 1, ROLLED_BACK, ANY, true);
  }

  lemma DoneIs()
    ensures var s := At(FailedState(), 1, HoldsRollback(3, ROLLED_BACK, Held(SKIPPED_ROW)));
            var acted := OnRollback(s.rollbacks, "n", ROLLED_BACK, Held(SKIPPED_ROW), ANY, true);
            acted.verdict == Accept && RollbackDone(s, 1, acted.store) == DoneState()
  {
    var s := FailedState();
    assert OnRollback(s.rollbacks, "n", ROLLED_BACK, Held(SKIPPED_ROW), ANY, true).store == DoneState().rollbacks;
  }

  lemma RunLoses() returns (r: Run)
    ensures RunsTo(r, RollbackDone(DoneState(), 0, Rows(map[1 := LOST_ROW]))) && Replaces(r, OLD_BRANCH, NEW_BRANCH)
    ensures EndsWith(r, DoneState(), ActRollback(0, ANY, true))
  {
    r := RunRollsBack();
    LostRow();
    r := RunActsOnRollback(r, DoneState(), 0, SUCCESS, ANY, true);
  }

  lemma LostRow()
    ensures OnRollback(DoneState().rollbacks, "n", SUCCESS, Held(NEW_ROW), ANY, true) ==
            Acted(Rows(map[1 := LOST_ROW]), Accept)
  {
  }

  /** The last step of the run, not a drop, takes a Rollback out of Done. */
  ghost predicate LosesAtTheEnd(r: Run) {
    var n := |r.labels|;
    && n > 0 && |r.states| == n + 1 && !r.labels[n - 1].IsDrop()
    && DoneIn(r.states[n - 1].rollbacks, 1) && !DoneIn(r.states[n].rollbacks, 1)
  }

  lemma EndLoses(r: Run, s: State, l: Label, s': State)
    requires EndsWith(r, s, l) && r.states[|r.labels|] == s' && !l.IsDrop()
    requires DoneIn(s.rollbacks, 1) && !DoneIn(s'.rollbacks, 1)
    ensures LosesAtTheEnd(r)
  {
  }

  /** A Rollback can lose its Done although no serial number is both answered with success and rolled
      back, neither on the branch there was nor on the one that replaced it. */
  lemma ReplacedBranchLosesDone() returns (r: Run)
    ensures ValidConfig(CONFIG) && IsRun(CONFIG, r) && LosesAtTheEnd(r)
    ensures Replaces(r, OLD_BRANCH, NEW_BRANCH) && BranchConsistent(OLD_BRANCH) && BranchConsistent(NEW_BRANCH)
  {
    r := RunLoses();
    BranchesAreConsistent();
    DoneThenLost();
    EndLoses(r, DoneState(), ActRollback(0, ANY, true), RollbackDone(DoneState(), 0, Rows(map[1 := LOST_ROW])));
  }

  lemma BranchesAreConsistent()
    ensures BranchConsistent(OLD_BRANCH) && BranchConsistent(NEW_BRANCH)
  {
    assert forall i | 0 <= i < |OLD_BRANCH| :: !OLD_BRANCH[i].RollbackExecuted?;
    assert forall i | 0 <= i < |NEW_BRANCH| && NEW_BRANCH[i].ResponseMessage? :: NEW_BRANCH[i] == FAILURE;
  }

  lemma DoneThenLost()
    ensures DoneIn(DoneState().rollbacks, 1)
    ensures !DoneIn(RollbackDone(DoneState(), 0, Rows(map[1 := LOST_ROW])).rollbacks, 1)
  {
  }
}
