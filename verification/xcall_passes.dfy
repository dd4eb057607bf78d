/**
 How a finality pass can end, read off the blocks that unflagged rows record: column by column, it goes on
 as long as every block is confirmed.
 */
module XCallPasses {
  import opened Wrappers
  import opened XCallStore
  import opened XCallMachine

  datatype Block = Block(height: int, blockId: string)

  /** The blocks that rows of the network wait for, from height 1 up to the finalized one: of events, of
      executions, and of the sending of requests. */
  function EventBlocks<E>(rows: map<nat, Row<E>>, network: string, height: int): set<Block> {
    set id | id in rows && rows[id].network == network && !rows[id].eventFinalized
             && 1 <= rows[id].eventHeight <= height
      :: Block(rows[id].eventHeight, rows[id].eventBlockId)
  }

  function ExecutionBlocks<E>(rows: map<nat, Row<E>>, network: string, height: int): set<Block> {
    set id | id in rows && rows[id].network == network && !rows[id].finalized
             && 1 <= rows[id].blockHeight <= height
      :: Block(rows[id].blockHeight, rows[id].blockId)
  }

  function SendingBlocks(rows: map<nat, Rollback>, network: string, height: int): set<Block> {
    set id | id in rows && rows[id].network == network && !rows[id].data.triggerFinalized
             && 1 <= rows[id].data.triggerHeight <= height
      :: Block(rows[id].data.triggerHeight, rows[id].data.triggerBlockId)
  }

  predicate AllConfirmed(blocks: set<Block>, oracle: Oracle) {
    forall b | b in blocks :: oracle(b.height, b.blockId) == Confirmed
  }

  /** A block that is not found is dropped; one that is not final yet, or not known about, ends the pass
      without effect. */
  predicate StopsAt(blocks: set<Block>, oracle: Oracle, pass: Pass) {
    match pass
    case Finalized => false
    case Dropped(height) => exists b | b in blocks :: b.height == height && oracle(b.height, b.blockId) == NotFound
    case Aborted => exists b | b in blocks ::
        oracle(b.height, b.blockId) == NotYet || oracle(b.height, b.blockId) == Unreachable
  }

  ghost predicate CallPassEnds(s: State, network: string, height: int, oracle: Oracle, k: nat, pass: Pass)
    requires k <= |CALL_COLUMNS|
  {
    exists s' :: CallPass(s, network, height, oracle, k, pass, s')
  }

  ghost predicate RollbackPassEnds(s: State, network: string, height: int, oracle: Oracle, k: nat, pass: Pass)
    requires k <= |ROLLBACK_COLUMNS|
  {
    exists s' :: RollbackPass(s, network, height, oracle, k, pass, s')
  }

  // ----- one column

  function CallBlocks(rows: map<nat, Call>, network: string, height: int, c: Column): set<Block> {
    match c
    case EventColumn => EventBlocks(rows, network, height)
    case BlockColumn => ExecutionBlocks(rows, network, height)
    case TriggerColumn => {}
  }

  function RollbackBlocks(rows: map<nat, Rollback>, network: string, height: int, c: Column): set<Block> {
    match c
    case EventColumn => EventBlocks(rows, network, height)
    case BlockColumn => ExecutionBlocks(rows, network, height)
    case TriggerColumn => SendingBlocks(rows, network, height)
  }

  /** `blocks` are those of the marks. */
  ghost predicate BlocksOf(ids: set<nat>, marks: map<nat, Mark>, blocks: set<Block>)
    requires ids <= marks.Keys
  {
    && (forall id | id in ids :: Block(marks[id].height, marks[id].blockId) in blocks)
    && (forall b | b in blocks :: exists id | id in ids :: b == Block(marks[id].height, marks[id].blockId))
  }

  lemma ScanIs(ids: set<nat>, marks: map<nat, Mark>, blocks: set<Block>, oracle: Oracle, pass: Pass)
    requires ids <= marks.Keys && BlocksOf(ids, marks, blocks)
    ensures Scan(ids, marks, oracle, Finalized) <==> AllConfirmed(blocks, oracle)
    ensures pass != Finalized ==> (Scan(ids, marks, oracle, pass) <==> StopsAt(blocks, oracle, pass))
  {
    forall id | id in ids ensures Block(marks[id].height, marks[id].blockId) in blocks {
    }
    if StopsAt(blocks, oracle, pass) && pass.Dropped? {
      var b :| b in blocks && b.height == pass.height && oracle(b.height, b.blockId) == NotFound;
      var id :| id in ids && b == Block(marks[id].height, marks[id].blockId);
    }
  }

  lemma CallColumn(rows: map<nat, Call>, network: string, height: int, c: Column)
    ensures BlocksOf(PendingCalls(rows, network, c, height), CallMarks(rows, c), CallBlocks(rows, network, height, c))
  {
    var ids, marks := PendingCalls(rows, network, c, height), CallMarks(rows, c);
    forall b | b in CallBlocks(rows, network, height, c)
      ensures exists id | id in ids :: b == Block(marks[id].height, marks[id].blockId)
    {
      var id :| id in rows && rows[id].network == network && Pending(CallMark(rows[id], c), height)
        && b == Block(CallMark(rows[id], c).height, CallMark(rows[id], c).blockId);
      assert id in ids && marks[id] == CallMark(rows[id], c);
    }
  }

  lemma RollbackColumn(rows: map<nat, Rollback>, network: string, height: int, c: Column)
    ensures BlocksOf(PendingRollbacks(rows, network, c, height), RollbackMarks(rows, c),
                     RollbackBlocks(rows, network, height, c))
  {
    var ids, marks := PendingRollbacks(rows, network, c, height), RollbackMarks(rows, c);
    forall b | b in RollbackBlocks(rows, network, height, c)
      ensures exists id | id in ids :: b == Block(marks[id].height, marks[id].blockId)
    {
      var id :| id in rows && rows[id].network == network && Pending(RollbackMark(rows[id], c), height)
        && b == Block(RollbackMark(rows[id], c).height, RollbackMark(rows[id], c).blockId);
      assert id in ids && marks[id] == RollbackMark(rows[id], c);
    }
  }

  lemma CallStepEnds(s: State, network: string, height: int, oracle: Oracle, k: nat, pass: Pass, t: State)
    requires k < |CALL_COLUMNS|
    requires var ids := PendingCalls(s.calls.rows, network, CALL_COLUMNS[k], height);
             t == s.(calls := s.calls.(rows := FlagCalls(s.calls.rows, ids, CALL_COLUMNS[k])))
    ensures CallPassEnds(s, network, height, oracle, k, pass) <==>
              var blocks := CallBlocks(s.calls.rows, network, height, CALL_COLUMNS[k]);
              || StopsAt(blocks, oracle, pass)
              || (AllConfirmed(blocks, oracle) && CallPassEnds(t, network, height, oracle, k + 1, pass))
  {
    var c := CALL_COLUMNS[k];
    var ids, marks := PendingCalls(s.calls.rows, network, c, height), CallMarks(s.calls.rows, c);
    CallColumn(s.calls.rows, network, height, c);
    ScanIs(ids, marks, CallBlocks(s.calls.rows, network, height, c), oracle, pass);
    if pass.Dropped? && Scan(ids, marks, oracle, pass) {
      assert CallPass(s, network, height, oracle, k, pass, DropBlock(s, network, pass.height));
    } else if pass.Aborted? && Scan(ids, marks, oracle, pass) {
      assert CallPass(s, network, height, oracle, k, pass, s);
    } else if Scan(ids, marks, oracle, Finalized) && CallPassEnds(t, network, height, oracle, k + 1, pass) {
      var s' :| CallPass(t, network, height, oracle, k + 1, pass, s');
      assert CallPass(s, network, height, oracle, k, pass, s');
    }
  }

  lemma RollbackStepEnds(s: State, network: string, height: int, oracle: Oracle, k: nat, pass: Pass, t: State)
    requires k < |ROLLBACK_COLUMNS|
    requires var ids := PendingRollbacks(s.rollbacks.rows, network, ROLLBACK_COLUMNS[k], height);
             t == s.(rollbacks := s.rollbacks.(rows := FlagRollbacks(s.rollbacks.rows, ids, ROLLBACK_COLUMNS[k])))
    ensures RollbackPassEnds(s, network, height, oracle, k, pass) <==>
              var blocks := RollbackBlocks(s.rollbacks.rows, network, height, ROLLBACK_COLUMNS[k]);
              || StopsAt(blocks, oracle, pass)
              || (AllConfirmed(blocks, oracle) && RollbackPassEnds(t, network, height, oracle, k + 1, pass))
  {
    var c := ROLLBACK_COLUMNS[k];
    var ids, marks := PendingRollbacks(s.rollbacks.rows, network, c, height), RollbackMarks(s.rollbacks.rows, c);
    RollbackColumn(s.rollbacks.rows, network, height, c);
    ScanIs(ids, marks, RollbackBlocks(s.rollbacks.rows, network, height, c), oracle, pass);
    if pass.Dropped? && Scan(ids, marks, oracle, pass) {
      assert RollbackPass(s, network, height, oracle, k, pass, DropBlock(s, network, pass.height));
    } else if pass.Aborted? && Scan(ids, marks, oracle, pass) {
      assert RollbackPass(s, network, height, oracle, k, pass, s);
    } else if Scan(ids, marks, oracle, Finalized) && RollbackPassEnds(t, network, height, oracle, k + 1, pass) {
      var s' :| RollbackPass(t, network, height, oracle, k + 1, pass, s');
      assert RollbackPass(s, network, height, oracle, k, pass, s');
    }
  }

  // ----- all columns

  lemma SameEventBlocks<E>(rows: map<nat, Row<E>>, rows': map<nat, Row<E>>, network: string, height: int)
    requires rows'.Keys == rows.Keys
    requires forall id | id in rows ::
               rows'[id] == rows[id].(finalized := rows'[id].finalized, data := rows'[id].data)
    ensures EventBlocks(rows', network, height) == EventBlocks(rows, network, height)
  {
  }

  lemma SameExecutionBlocks<E>(rows: map<nat, Row<E>>, rows': map<nat, Row<E>>, network: string, height: int)
    requires rows'.Keys == rows.Keys
    requires forall id | id in rows ::
               rows'[id] == rows[id].(eventFinalized := rows'[id].eventFinalized, data := rows'[id].data)
    ensures ExecutionBlocks(rows', network, height) == ExecutionBlocks(rows, network, height)
  {
  }

  /** Setting the flags of one column leaves the blocks of the others. */
  lemma OtherCallBlocks(rows: map<nat, Call>, ids: set<nat>, network: string, height: int)
    ensures ExecutionBlocks(FlagCalls(rows, ids, EventColumn), network, height)
            == ExecutionBlocks(rows, network, height)
  {
    SameExecutionBlocks(rows, FlagCalls(rows, ids, EventColumn), network, height);
  }

  lemma OtherRollbackBlocks(rows: map<nat, Rollback>, ids: set<nat>, network: string, height: int)
    ensures EventBlocks(FlagRollbacks(rows, ids, TriggerColumn), network, height)
            == EventBlocks(rows, network, height)
    ensures ExecutionBlocks(FlagRollbacks(rows, ids, TriggerColumn), network, height)
            == ExecutionBlocks(rows, network, height)
    ensures ExecutionBlocks(FlagRollbacks(rows, ids, EventColumn), network, height)
            == ExecutionBlocks(rows, network, height)
  {
    SameEventBlocks(rows, FlagRollbacks(rows, ids, TriggerColumn), network, height);
    SameExecutionBlocks(rows, FlagRollbacks(rows, ids, TriggerColumn), network, height);
    SameExecutionBlocks(rows, FlagRollbacks(rows, ids, EventColumn), network, height);
  }

  /** The pass stops at a block of an event, or, when all of those are confirmed, of an execution; it sets the
      flags when all of these are confirmed too. */
  predicate EndsAtEvents(events: set<Block>, executions: set<Block>, oracle: Oracle, pass: Pass) {
    || StopsAt(events, oracle, pass)
    || (AllConfirmed(events, oracle) && EndsAtExecutions(executions, oracle, pass))
  }

  predicate EndsAtExecutions(executions: set<Block>, oracle: Oracle, pass: Pass) {
    StopsAt(executions, oracle, pass) || (pass == Finalized && AllConfirmed(executions, oracle))
  }

  lemma CallExecutionsEnd(s: State, network: string, height: int, oracle: Oracle, pass: Pass)
    ensures CallPassEnds(s, network, height, oracle, 1, pass) <==>
            EndsAtExecutions(ExecutionBlocks(s.calls.rows, network, height), oracle, pass)
  {
    var ids := PendingCalls(s.calls.rows, network, BlockColumn, height);
    var t := s.(calls := s.calls.(rows := FlagCalls(s.calls.rows, ids, BlockColumn)));
    CallStepEnds(s, network, height, oracle, 1, pass, t);
    assert pass == Finalized ==> CallPass(t, network, height, oracle, 2, pass, t);
  }

  /** When a pass over Calls ends, and how. */
  lemma CallPassEndsExactly(s: State, network: string, height: int, oracle: Oracle, pass: Pass)
    ensures CallPassEnds(s, network, height, oracle, 0, pass) <==>
            EndsAtEvents(EventBlocks(s.calls.rows, network, height), ExecutionBlocks(s.calls.rows, network, height),
                         oracle, pass)
  {
    var ids := PendingCalls(s.calls.rows, network, EventColumn, height);
    var t := s.(calls := s.calls.(rows := FlagCalls(s.calls.rows, ids, EventColumn)));
    CallStepEnds(s, network, height, oracle, 0, pass, t);
    OtherCallBlocks(s.calls.rows, ids, network, height);
    CallExecutionsEnd(t, network, height, oracle, pass);
  }

  lemma RollbackExecutionsEnd(s: State, network: string, height: int, oracle: Oracle, pass: Pass)
    ensures RollbackPassEnds(s, network, height, oracle, 2, pass) <==>
            EndsAtExecutions(ExecutionBlocks(s.rollbacks.rows, network, height), oracle, pass)
  {
    var ids := PendingRollbacks(s.rollbacks.rows, network, BlockColumn, height);
    var t := s.(rollbacks := s.rollbacks.(rows := FlagRollbacks(s.rollbacks.rows, ids, BlockColumn)));
    RollbackStepEnds(s, network, height, oracle, 2, pass, t);
    assert pass == Finalized ==> RollbackPass(t, network, height, oracle, 3, pass, t);
  }

  lemma RollbackAnswersEnd(s: State, network: string, height: int, oracle: Oracle, pass: Pass)
    ensures RollbackPassEnds(s, network, height, oracle, 1, pass) <==>
            EndsAtEvents(EventBlocks(s.rollbacks.rows, network, height),
                         ExecutionBlocks(s.rollbacks.rows, network, height), oracle, pass)
  {
    var ids := PendingRollbacks(s.rollbacks.rows, network, EventColumn, height);
    var t := s.(rollbacks := s.rollbacks.(rows := FlagRollbacks(s.rollbacks.rows, ids, EventColumn)));
    RollbackStepEnds(s, network, height, oracle, 1, pass, t);
    OtherRollbackBlocks(s.rollbacks.rows, ids, network, height);
    RollbackExecutionsEnd(t, network, height, oracle, pass);
  }

  /** A pass over Rollbacks looks at the blocks of sendings first. */
  lemma RollbackPassEndsExactly(s: State, network: string, height: int, oracle: Oracle, pass: Pass)
    ensures RollbackPassEnds(s, network, height, oracle, 0, pass) <==>
              var rows := s.rollbacks.rows;
              || StopsAt(SendingBlocks(rows, network, height), oracle, pass)
              || (&& AllConfirmed(SendingBlocks(rows, network, height), oracle)
                  && EndsAtEvents(EventBlocks(rows, network, height), ExecutionBlocks(rows, network, height), oracle,
                                  pass))
  {
    var ids := PendingRollbacks(s.rollbacks.rows, network, TriggerColumn, height);
    var t := s.(rollbacks := s.rollbacks.(rows := FlagRollbacks(s.rollbacks.rows, ids, TriggerColumn)));
    RollbackStepEnds(s, network, height, oracle, 0, pass, t);
    OtherRollbackBlocks(s.rollbacks.rows, ids, network, height);
    RollbackAnswersEnd(t, network, height, oracle, pass);
  }
}
