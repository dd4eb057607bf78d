/**
 An event that is never delivered: its block has taken the place of one that is dropped, but the monitor
 that was running stores a higher row before the one started by the drop opens its stream.
 */
module XCallLost {
  import opened Wrappers
  import opened XCallStore
  import opened XCallMachine
  import opened XCallRuns

  const DATA: CallData := CallData("f", "t", 1, "d")
  const FIRST: Event := CallMessage(5, "b5", 1, DATA)
  const SECOND: Event := CallMessage(6, "b6", 2, DATA)
  const THIRD: Event := CallMessage(7, "b7", 3, DATA)
  const INSTEAD: Event := CallMessage(6, "c6", 2, DATA)

  const OLD_BRANCH: seq<Event> := [FIRST, SECOND, THIRD]
  const NEW_BRANCH: seq<Event> := [FIRST, INSTEAD, THIRD]

  const INVALID: Invoked := Refused(EstimateError("InvalidRequestId", ""))

  /** The row of an event whose call is refused: skipped. */
  function Skipped(e: Event): Call
    requires e.IsCall()
  {
    NewCall("n", e).(state := StateSkip, txId := "")
  }

  /** Monitor `h` has handled a new request whose call is refused. */
  function SkippedBy(s: State, h: nat, e: Event): State
    requires h < |s.handlers| && s.handlers[h].phase.Streaming? && e.IsCall()
  {
    var next := s.handlers[h].phase.next + 1;
    At(s, h, Streaming(next)).(calls := Save(s.calls, Record(0, Skipped(e))), world := Handled(s.world, "n", next, e))
  }

  lemma RunSkips(r: Run, s: State, h: nat, e: Event) returns (longer: Run)
    requires RunsTo(r, s) && WaitsFor(s, h, e) && e.CallMessage?
    requires forall id | id in s.calls.rows :: !Matches(s.calls.rows[id], "n", e.reqId)
    ensures RunsTo(longer, SkippedBy(s, h, e))
    ensures Extends(r, longer)
  {
    longer := RunReadsCall(r, s, h, e, None);
    var held := At(s, h, HoldsCall(s.handlers[h].phase.next + 1, e, None));
    longer := RunActsOnCall(longer, held, h, e, INVALID, true);
    assert CallDone(held, h, Save(s.calls, Record(0, Skipped(e)))) == SkippedBy(s, h, e);
  }

  function Calls(rows: map<nat, Call>, issued: seq<Call>): Store<CallData> {
    Store(rows, issued, [])
  }

  function Handling(calls: Store<CallData>, handlers: seq<Handler>, events: seq<Event>, handled: set<(string, nat)>,
                    log: seq<Accepted>): State
  {
    State(calls, EmptyStore(), handlers, World(map["n" := events], handled, log))
  }

  const LOG_TWO: seq<Accepted> := [Accepted("n", FIRST), Accepted("n", SECOND)]
  const LOG_THREE: seq<Accepted> := [Accepted("n", FIRST), Accepted("n", SECOND), Accepted("n", THIRD)]

  const BOTH: Store<CallData> :=
    Calls(map[1 := Skipped(FIRST), 2 := Skipped(SECOND)], [Skipped(FIRST), Skipped(SECOND)])
  const ONE_LEFT: Store<CallData> := Calls(map[1 := Skipped(FIRST)], [Skipped(FIRST), Skipped(SECOND)])
  const GAP: Store<CallData> :=
    Calls(map[1 := Skipped(FIRST), 3 := Skipped(THIRD)], [Skipped(FIRST), Skipped(SECOND), Skipped(THIRD)])

  function FirstState(): State {
    Handling(Calls(map[1 := Skipped(FIRST)], [Skipped(FIRST)]), [Monitor(Streaming(1))], OLD_BRANCH, {("n", 0)},
             [Accepted("n", FIRST)])
  }

  function SecondState(): State {
    Handling(BOTH, [Monitor(Streaming(2))], OLD_BRANCH, {("n", 0), ("n", 1)}, LOG_TWO)
  }

  function BranchedState(): State {
    Handling(BOTH, [Monitor(Streaming(2))], NEW_BRANCH, {("n", 0)}, LOG_TWO)
  }

  function DroppedState(): State {
    Handling(ONE_LEFT, [Monitor(Streaming(2)), Monitor(Stopped)], NEW_BRANCH, {("n", 0)}, LOG_TWO)
  }

  function ThirdState(): State {
    Handling(GAP, [Monitor(Streaming(3)), Monitor(Stopped)], NEW_BRANCH, {("n", 0), ("n", 2)}, LOG_THREE)
  }

  lemma FirstIs()
    ensures SkippedBy(Streams(OLD_BRANCH), 0, FIRST) == FirstState()
  {
    assert Save(EmptyStore(), Record(0, Skipped(FIRST))) == FirstState().calls;
  }

  lemma SecondIs()
    ensures SkippedBy(FirstState(), 0, SECOND) == SecondState()
  {
    assert Save(FirstState().calls, Record(0, Skipped(SECOND))) == BOTH;
  }

  lemma BranchedIs()
    ensures BranchStep(SecondState(), "n", 1, [INSTEAD, THIRD], [2], BranchedState())
  {
    assert OLD_BRANCH[..1] + [INSTEAD, THIRD] == NEW_BRANCH;
    assert Forget({("n", 0), ("n", 1)}, "n", 1) == {("n", 0)};
    assert AllMoved([Monitor(Streaming(2))], "n", 1, [2]) == [Monitor(Streaming(2))];
  }

  lemma DroppedIs()
    ensures DropBlock(BranchedState(), "n", 6) == DroppedState()
  {
    assert DropCalls(BOTH.rows, "n", 6) == ONE_LEFT.rows;
    PositionIs(NEW_BRANCH, 6, 1);
    assert Forget({("n", 0)}, "n", 1) == {("n", 0)};
  }

  lemma ThirdIs()
    ensures SkippedBy(DroppedState(), 0, THIRD) == ThirdState()
  {
    assert Save(ONE_LEFT, Record(0, Skipped(THIRD))) == GAP;
  }

  /** The second event's block is not found any more. */
  function Fork(height: int, blockId: string): Answer {
    if blockId == "b6" then NotFound else Confirmed
  }

  lemma RunBoth() returns (r: Run)
    ensures RunsTo(r, SecondState())
  {
    r := RunStreams(OLD_BRANCH);
    r := RunSkips(r, Streams(OLD_BRANCH), 0, FIRST);
    FirstIs();
    r := RunSkips(r, FirstState(), 0, SECOND);
    SecondIs();
  }

  lemma RunBranched() returns (r: Run)
    ensures RunsTo(r, BranchedState()) && Replaces(r, OLD_BRANCH, NEW_BRANCH)
  {
    r := RunBoth();
    BranchedIs();
    r := PushRuns(r, SecondState(), Branch("n", 1, [INSTEAD, THIRD], [2]), BranchedState());
  }

  lemma RunDropped() returns (r: Run)
    ensures RunsTo(r, DroppedState()) && DropsAt(r, 6) && Replaces(r, OLD_BRANCH, NEW_BRANCH)
  {
    r := RunBranched();
    assert 2 in PendingCalls(BOTH.rows, "n", EventColumn, 10);
    r := RunDropsCalls(r, BranchedState(), 10, Fork, 2);
    DroppedIs();
  }

  lemma RunThird() returns (r: Run)
    ensures RunsTo(r, ThirdState()) && DropsAt(r, 6) && Replaces(r, OLD_BRANCH, NEW_BRANCH)
  {
    r := RunDropped();
    r := RunSkips(r, DroppedState(), 0, THIRD);
    ThirdIs();
  }

  /** Both monitors are past the new second event, nothing is left to wait for, and the event is neither
      handled nor has its request a row. */
  ghost predicate SecondIsLost(s: State) {
    && (forall h | 0 <= h < |s.handlers| :: s.handlers[h].phase.Streaming? && s.handlers[h].phase.next > 1)
    && "n" in s.world.chain && s.world.chain["n"] == NEW_BRANCH && ("n", 1) !in s.world.handled
    && (forall id | id in s.calls.rows :: s.calls.rows[id].key != 2)
    && s.calls.jobs == [] && s.rollbacks.jobs == []
  }

  function LostState(): State {
    ThirdState().(handlers := [Monitor(Streaming(3)), Monitor(Streaming(2))])
  }

  lemma RunReopened() returns (r: Run)
    ensures RunsTo(r, LostState()) && DropsAt(r, 6) && Replaces(r, OLD_BRANCH, NEW_BRANCH)
  {
    r := RunThird();
    var top := Some(Record(3, Skipped(THIRD)));
    assert IsTop(GAP, "n", top);
    PositionIs(NEW_BRANCH, 7, 2);
    r := RunOpens(r, ThirdState(), 1, top, None);
    assert At(ThirdState(), 1, Streaming(2)) == LostState();
  }

  /** The monitor started by a drop at 6 resumes at 7, and the event that took the place is lost. */
  lemma DroppedEventIsLost() returns (r: Run)
    ensures ValidConfig(CONFIG) && IsRun(CONFIG, r) && SecondIsLost(r.states[|r.labels|])
    ensures Replaces(r, OLD_BRANCH, NEW_BRANCH) && DropsAt(r, 6)
  {
    r := RunReopened();
    assert SecondIsLost(LostState());
  }
}
