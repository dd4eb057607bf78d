/**
 Two rows for one request: after a failed insert, when the goroutine that follows the transaction has a
 copy without a key, the event is delivered again, and both insert; and after a drop with every save
 succeeding, when a goroutine puts the dropped row back beside the one made since.
 */
module XCallDoubled {
  import opened Wrappers
  import opened XCallStore
  import opened XCallMachine
  import opened XCallUnique
  import opened XCallRuns

  const MESSAGE: Event := CallMessage(5, "b5", 1, CallData("f", "t", 1, "d"))
  const SENDING: Call := NewCall("n", MESSAGE).(state := StateSending, txId := "x")
  const EXECUTED: Call := SENDING.(state := StateSent, blockHeight := 9, blockId := "b9")
  const ANY: Invoked := Submitted("x")

  const LOG: seq<Accepted> := [Accepted("n", MESSAGE)]

  function Now(calls: Store<CallData>, phase: Phase, log: seq<Accepted>): State {
    State(calls, EmptyStore(), [Monitor(phase)], World(map["n" := [MESSAGE]], {("n", 0)}, log))
  }

  const FAILED: Store<CallData> := Store(map[], [], [Some(Record(0, SENDING))])
  const SAVED: Store<CallData> := Store(map[1 := SENDING], [SENDING],
                                        [Some(Record(0, SENDING)), Some(Record(1, SENDING))])
  const DOUBLED: Store<CallData> :=
    Store(map[1 := SENDING, 2 := EXECUTED], [SENDING, EXECUTED], [None, Some(Record(1, SENDING))])

  lemma FailedIs()
    ensures var s := At(Streams([MESSAGE]), 0, HoldsCall(1, MESSAGE, None));
            var acted := OnCall(s.calls, "n", MESSAGE, None, ANY, false);
            acted.verdict == Accept && CallDone(s, 0, acted.store) == Now(FAILED, Streaming(1), LOG)
  {
  }

  lemma SavedIs()
    ensures var s := At(Now(FAILED, Streaming(0), LOG), 0, HoldsCall(1, MESSAGE, None));
            var acted := OnCall(s.calls, "n", MESSAGE, None, ANY, true);
            acted.verdict == Accept && CallDone(s, 0, acted.store) == Now(SAVED, Streaming(1), LOG + LOG)
  {
    assert OnCall(FAILED, "n", MESSAGE, None, ANY, true).store == SAVED;
  }

  lemma DoubledIs()
    ensures Result(SAVED, 0, TxResult.Executed(9, "b9"), ANY, CALL_SKIPS, true) == DOUBLED
  {
    assert Save(End(SAVED, 0), Record(0, EXECUTED)) == DOUBLED;
  }

  lemma RunFailedInsert() returns (r: Run)
    ensures RunsTo(r, Now(FAILED, Streaming(1), LOG)) && Dropless(r)
  {
    r := RunStreams([MESSAGE]);
    var s := Streams([MESSAGE]);
    r := RunReadsCall(r, s, 0, MESSAGE, None);
    FailedIs();
    r := RunActsOnCall(r, At(s, 0, HoldsCall(1, MESSAGE, None)), 0, MESSAGE, ANY, false);
  }

  lemma RunReopened() returns (r: Run)
    ensures RunsTo(r, Now(FAILED, Streaming(0), LOG)) && Dropless(r)
  {
    r := RunFailedInsert();
    r := PushRuns(r, Now(FAILED, Streaming(1), LOG), Close(0), Now(FAILED, Stopped, LOG));
    PositionIs([MESSAGE], 1, 0);
    r := RunOpens(r, Now(FAILED, Stopped, LOG), 0, None, None);
  }

  lemma RunRedelivered() returns (r: Run)
    ensures RunsTo(r, Now(SAVED, Streaming(1), LOG + LOG)) && Dropless(r)
  {
    r := RunReopened();
    var s := Now(FAILED, Streaming(0), LOG);
    r := RunReadsCall(r, s, 0, MESSAGE, None);
    SavedIs();
    r := RunActsOnCall(r, At(s, 0, HoldsCall(1, MESSAGE, None)), 0, MESSAGE, ANY, true);
  }

  /** A run without a drop at whose end a request has two rows: one save has failed. */
  lemma FailedInsertDoubles() returns (r: Run)
    ensures ValidConfig(CONFIG) && IsRun(CONFIG, r) && Dropless(r)
    ensures var rows := r.states[|r.labels|].calls.rows;
            1 in rows && 2 in rows && For(rows[1], "n", 1) && For(rows[2], "n", 1)
  {
    r := RunRedelivered();
    DoubledIs();
    var s := Now(SAVED, Streaming(1), LOG + LOG);
    r := PushRuns(r, s, CallResult(0, TxResult.Executed(9, "b9"), ANY, true), s.(calls := DOUBLED));
  }

  // ----- a dropped row that is put back

  const REPLACED: Event := CallMessage(5, "c5", 1, CallData("f", "t", 1, "d"))
  const AGAIN: Call := NewCall("n", REPLACED).(state := StateSending, txId := "x")

  const ONE: Store<CallData> := Store(map[1 := SENDING], [SENDING], [Some(Record(1, SENDING))])
  const DROPPED: Store<CallData> := Store(map[], [SENDING], [Some(Record(1, SENDING))])
  const INSERTED: Store<CallData> :=
    Store(map[2 := AGAIN], [SENDING, AGAIN], [Some(Record(1, SENDING)), Some(Record(2, AGAIN))])
  const PUT_BACK: Store<CallData> :=
    Store(map[1 := EXECUTED, 2 := AGAIN], [SENDING, AGAIN], [None, Some(Record(2, AGAIN))])

  function At5(calls: Store<CallData>, handlers: seq<Handler>, e: Event, handled: set<(string, nat)>,
               log: seq<Accepted>): State {
    State(calls, EmptyStore(), handlers, World(map["n" := [e]], handled, log))
  }

  const FIRST: Handler := Monitor(Streaming(1))
  const BOTH: seq<Accepted> := LOG + [Accepted("n", REPLACED)]

  const SENT_ONE: State := At5(ONE, [FIRST], MESSAGE, {("n", 0)}, LOG)
  const BRANCHED: State := At5(ONE, [FIRST], REPLACED, {}, LOG)
  const AFTER_DROP: State := At5(DROPPED, [FIRST, Monitor(Stopped)], REPLACED, {}, LOG)
  const OPENED: State := AFTER_DROP.(handlers := [FIRST, Monitor(Streaming(0))])
  const READ: State := AFTER_DROP.(handlers := [FIRST, Monitor(HoldsCall(1, REPLACED, None))])
  const SENT_AGAIN: State := At5(INSERTED, [FIRST, FIRST], REPLACED, {("n", 0)}, BOTH)

  /** The replaced block is not found any more. */
  function Fork(height: int, blockId: string): Answer {
    if blockId == "b5" then NotFound else Confirmed
  }

  lemma SentOneIs()
    ensures var s := At(Streams([MESSAGE]), 0, HoldsCall(1, MESSAGE, None));
            var acted := OnCall(s.calls, "n", MESSAGE, None, ANY, true);
            acted.verdict == Accept && CallDone(s, 0, acted.store) == SENT_ONE
  {
    assert OnCall(EmptyStore(), "n", MESSAGE, None, ANY, true).store == ONE;
  }

  lemma BranchedIs()
    ensures BranchStep(SENT_ONE, "n", 0, [REPLACED], [1], BRANCHED)
  {
    assert [MESSAGE][..0] + [REPLACED] == [REPLACED];
    assert Forget({("n", 0)}, "n", 0) == {};
    assert AllMoved([FIRST], "n", 0, [1]) == [FIRST];
  }

  lemma AfterDropIs()
    ensures DropBlock(BRANCHED, "n", 5) == AFTER_DROP
  {
    assert DropCalls(map[1 := SENDING], "n", 5) == map[];
    assert DropRollbacks(map[], "n", 5) == map[];
    PositionIs([REPLACED], 5, 0);
    assert Forget({}, "n", 0) == {};
  }

  lemma SentAgainIs()
    ensures var acted := OnCall(DROPPED, "n", REPLACED, None, ANY, true);
            acted.verdict == Accept && CallDone(READ, 1, acted.store) == SENT_AGAIN
  {
    assert OnCall(DROPPED, "n", REPLACED, None, ANY, true).store == INSERTED;
  }

  lemma PutBackIs()
    ensures Result(INSERTED, 0, TxResult.Executed(9, "b9"), ANY, CALL_SKIPS, true) == PUT_BACK
  {
    assert Save(End(INSERTED, 0), Record(1, EXECUTED)) == PUT_BACK;
  }

  lemma RunSentOne() returns (r: Run)
    ensures RunsTo(r, SENT_ONE) && AllSaved(r)
  {
    r := RunStreams([MESSAGE]);
    var s := Streams([MESSAGE]);
    r := RunReadsCall(r, s, 0, MESSAGE, None);
    SentOneIs();
    r := RunActsOnCall(r, At(s, 0, HoldsCall(1, MESSAGE, None)), 0, MESSAGE, ANY, true);
  }

  lemma RunDropped() returns (r: Run)
    ensures RunsTo(r, AFTER_DROP) && DropsAt(r, 5) && AllSaved(r)
  {
    r := RunSentOne();
    BranchedIs();
    r := PushRuns(r, SENT_ONE, Branch("n", 0, [REPLACED], [1]), BRANCHED);
    assert 1 in PendingCalls(BRANCHED.calls.rows, "n", EventColumn, 10);
    r := RunDropsCalls(r, BRANCHED, 10, Fork, 1);
    AfterDropIs();
  }

  lemma RunSentAgain() returns (r: Run)
    ensures RunsTo(r, SENT_AGAIN) && DropsAt(r, 5) && AllSaved(r)
  {
    r := RunDropped();
    PositionIs([REPLACED], 1, 0);
    r := RunOpens(r, AFTER_DROP, 1, None, None);
    r := RunReadsCall(r, OPENED, 1, REPLACED, None);
    SentAgainIs();
    r := RunActsOnCall(r, READ, 1, REPLACED, ANY, true);
  }

  /** A run at whose end a request has two rows although no save has failed. */
  lemma DroppedRowComesBack() returns (r: Run)
    ensures ValidConfig(CONFIG) && IsRun(CONFIG, r) && DropsAt(r, 5) && AllSaved(r)
    ensures var rows := r.states[|r.labels|].calls.rows;
            1 in rows && 2 in rows && For(rows[1], "n", 1) && For(rows[2], "n", 1)
  {
    r := RunSentAgain();
    PutBackIs();
    r := PushRuns(r, SENT_AGAIN, CallResult(0, TxResult.Executed(9, "b9"), ANY, true),
                  SENT_AGAIN.(calls := PUT_BACK));
  }
}
