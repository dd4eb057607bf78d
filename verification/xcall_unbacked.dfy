/**
 A flag that nothing backs: the block of a transaction's result is confirmed, and then the executed
 event reports another one, which is recorded under the flag and never asked about again.
 */
module XCallUnbacked {
  import opened Wrappers
  import opened XCallStore
  import opened XCallMachine
  import opened XCallFlags
  import opened XCallRuns

  const MESSAGE: Event := CallMessage(5, "b5", 1, CallData("f", "t", 1, "d"))
  const EXECUTED: Event := CallExecuted(8, "b8", "y", 1, 0, "")
  const EVENTS: seq<Event> := [MESSAGE, EXECUTED]

  const SENDING: Call := NewCall("n", MESSAGE).(state := StateSending, txId := "x")
  const SENT: Call := SENDING.(state := StateSent, blockHeight := 7, blockId := "b7")
  const FLAGGED: Call := SENT.(eventFinalized := true, finalized := true)
  const DONE: Call := Completed(Record(1, FLAGGED), NewCall("n", EXECUTED)).body

  const ANY: Invoked := Submitted("x")

  /** Blocks up to 7 are confirmed, later ones do not exist. */
  function Early(height: int, blockId: string): Answer {
    if height <= 7 then Confirmed else NotFound
  }

  function Now(calls: Store<CallData>, phase: Phase, handled: set<(string, nat)>, log: seq<Accepted>): State {
    State(calls, EmptyStore(), [Monitor(phase)], World(map["n" := EVENTS], handled, log))
  }

  function Row1(row: Call, job: Option<Record<CallData>>): Store<CallData> {
    Store(map[1 := row], [SENDING], [job])
  }

  const READ: State := Now(EmptyStore(), HoldsCall(1, MESSAGE, None), {}, [])
  const FOLLOWED: State := Now(Row1(SENDING, Some(Record(1, SENDING))), Streaming(1), {("n", 0)},
                               [Accepted("n", MESSAGE)])
  const RESULT: State := FOLLOWED.(calls := Row1(SENT, None))
  const PASSED: State := FOLLOWED.(calls := Row1(FLAGGED, None))
  const FOUND: State := At(PASSED, 0, HoldsCall(2, EXECUTED, Some(Record(1, FLAGGED))))
  const END: State := Now(Row1(DONE, None), Streaming(2), {("n", 0), ("n", 1)},
                          [Accepted("n", MESSAGE), Accepted("n", EXECUTED)])

  /** No monitor confirms block 8 in the run. */
  ghost predicate Denied(r: Run) {
    forall k | 0 <= k < |r.labels| :: Denies(r.labels[k])
  }

  ghost predicate Denies(l: Label) {
    l.FinalizeCalls? || l.FinalizeRollbacks? ==> l.oracle(8, "b8") != Confirmed
  }

  lemma Pushes(r: Run, s: State, l: Label, s': State) returns (longer: Run)
    requires RunsTo(r, s) && Denied(r) && Next(CONFIG, s, l, s') && Denies(l)
    ensures RunsTo(longer, s') && Denied(longer)
  {
    longer := PushRuns(r, s, l, s');
  }

  lemma FollowedIs()
    ensures var acted := OnCall(READ.calls, "n", MESSAGE, None, ANY, true);
            acted.verdict == Accept && CallDone(READ, 0, acted.store) == FOLLOWED
  {
    assert OnCall(READ.calls, "n", MESSAGE, None, ANY, true).store == FOLLOWED.calls;
  }

  lemma ResultIs()
    ensures Result(FOLLOWED.calls, 0, TxResult.Executed(7, "b7"), ANY, CALL_SKIPS, true) == RESULT.calls
  {
    assert Save(End(FOLLOWED.calls, 0), Record(1, SENT)) == RESULT.calls;
  }

  /** Both blocks the row records are confirmed. */
  lemma PassedIs()
    ensures CallPass(RESULT, "n", 10, Early, 0, Finalized, PASSED)
  {
    var once := SENT.(eventFinalized := true);
    var t := RESULT.(calls := Row1(once, None));
    assert PendingCalls(RESULT.calls.rows, "n", EventColumn, 10) == {1};
    assert PendingCalls(t.calls.rows, "n", BlockColumn, 10) == {1};
    assert FlagCalls(RESULT.calls.rows, {1}, EventColumn) == t.calls.rows;
    assert FlagCalls(t.calls.rows, {1}, BlockColumn) == PASSED.calls.rows;
    assert CallPass(PASSED, "n", 10, Early, 2, Finalized, PASSED);
    assert CallPass(t, "n", 10, Early, 1, Finalized, PASSED);
  }

  lemma EndIs()
    ensures var acted := OnCall(FOUND.calls, "n", EXECUTED, Some(Record(1, FLAGGED)), ANY, true);
            acted.verdict == Accept && CallDone(FOUND, 0, acted.store) == END
  {
    assert OnCall(FOUND.calls, "n", EXECUTED, Some(Record(1, FLAGGED)), ANY, true).store == END.calls;
  }

  lemma RunOpens() returns (r: Run)
    ensures RunsTo(r, Streams(EVENTS)) && Denied(r)
  {
    r := Run([StartState(EVENTS)], []);
    r := Pushes(r, StartState(EVENTS), Open(0, None, None, 0), Streams(EVENTS));
  }

  lemma RunReads() returns (r: Run)
    ensures RunsTo(r, READ) && Denied(r)
  {
    r := RunOpens();
    r := Pushes(r, Streams(EVENTS), ReadCall(0, None), READ);
  }

  lemma RunFollows() returns (r: Run)
    ensures RunsTo(r, FOLLOWED) && Denied(r)
  {
    r := RunReads();
    FollowedIs();
    r := Pushes(r, READ, ActCall(0, ANY, true), FOLLOWED);
  }

  lemma RunPasses() returns (r: Run)
    ensures RunsTo(r, PASSED) && Denied(r)
  {
    r := RunFollows();
    ResultIs();
    r := Pushes(r, FOLLOWED, CallResult(0, TxResult.Executed(7, "b7"), ANY, true), RESULT);
    PassedIs();
    r := Pushes(r, RESULT, FinalizeCalls("n", 10, Early, Finalized), PASSED);
  }

  lemma RunEnds() returns (r: Run)
    ensures RunsTo(r, END) && Denied(r)
  {
    r := RunPasses();
    assert IsFirst(PASSED.calls, "n", 1, Some(Record(1, FLAGGED)));
    r := Pushes(r, PASSED, ReadCall(0, Some(Record(1, FLAGGED))), FOUND);
    EndIs();
    r := Pushes(r, FOUND, ActCall(0, ANY, true), END);
  }

  /** A run at whose end a row is flagged with a block that no pass has confirmed. */
  lemma FlagWithoutConfirmation() returns (r: Run)
    ensures ValidConfig(CONFIG) && IsRun(CONFIG, r)
    ensures !RowsBacked(r.states[|r.labels|], ConfirmedBlocks(r, |r.labels|), ALL_COLUMNS)
  {
    r := RunEnds();
    assert forall k | 0 <= k < |r.labels| :: Denies(r.labels[k]);
    assert Block("n", 8, "b8") !in ConfirmedBlocks(r, |r.labels|);
    assert !Backed("n", CallMark(END.calls.rows[1], BlockColumn), ConfirmedBlocks(r, |r.labels|));
  }
}
