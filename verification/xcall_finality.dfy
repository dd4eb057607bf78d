/**
 The finality passes: what a drop leaves behind, which rows a pass may flag, and why
 repeating the passes at one finalized height ends with every row flagged.
 */
module XCallFinality {
  import opened Wrappers
  import opened XCallStore
  import opened XCallMachine
  import opened XCallSafety

  // ----- after a drop

  /** No row of the network records a block at or above the height. */
  ghost predicate AllBelow(s: State, network: string, height: int) {
    && (forall id | id in s.calls.rows && s.calls.rows[id].network == network ::
          s.calls.rows[id].eventHeight < height && s.calls.rows[id].blockHeight < height)
    && (forall id | id in s.rollbacks.rows && s.rollbacks.rows[id].network == network ::
          && s.rollbacks.rows[id].eventHeight < height && s.rollbacks.rows[id].blockHeight < height
          && s.rollbacks.rows[id].data.triggerHeight < height)
  }

  /** Rows of other networks are untouched, and so are rows of the network that recorded only lower blocks. */
  ghost predicate OthersUntouched(s: State, s': State, network: string, height: int) {
    && (forall id | id in s.calls.rows && (s.calls.rows[id].network != network ||
                      (s.calls.rows[id].eventHeight < height && s.calls.rows[id].blockHeight < height)) ::
          id in s'.calls.rows && s'.calls.rows[id] == s.calls.rows[id])
    && (forall id | id in s.rollbacks.rows && (s.rollbacks.rows[id].network != network ||
                      (s.rollbacks.rows[id].eventHeight < height && s.rollbacks.rows[id].blockHeight < height
                       && s.rollbacks.rows[id].data.triggerHeight < height)) ::
          id in s'.rollbacks.rows && s'.rollbacks.rows[id] == s.rollbacks.rows[id])
  }

  /** The record waits for its execution again, under the same transaction and flags. */
  ghost predicate ExecutionForgotten<E>(r: Row<E>, r': Row<E>) {
    && r' == r.(state := r'.state, blockHeight := 0, blockId := "", failure := "", execResultCode := 0,
                execResultMsg := "")
    && r'.state == StateSending
  }

  /** The record waits for its answer again: no transaction, block or result is left, but the flags are. */
  ghost predicate AnswerForgotten<E>(r: Row<E>, r': Row<E>) {
    && r' == r.(state := r'.state, txId := "", blockHeight := 0, blockId := "", failure := "", eventHeight := 0,
                eventBlockId := "", execResultCode := 0, execResultMsg := "")
    && r'.state == StateNone
  }

  /** A Call survives a drop exactly when the block of its message does; if its execution is dropped it is
      Sending again. */
  ghost predicate CallsReset(rows: map<nat, Call>, rows': map<nat, Call>, network: string, height: int) {
    && (forall id :: id in rows' <==> id in rows && !(rows[id].network == network && rows[id].eventHeight >= height))
    && (forall id | id in rows' && rows[id].network == network && rows[id].blockHeight >= height ::
          ExecutionForgotten(rows[id], rows'[id]))
  }

  /** A Rollback survives exactly when the block of its sending does; if its answer is dropped it is None
      again, and Sending if only its execution is. */
  ghost predicate RollbacksReset(rows: map<nat, Rollback>, rows': map<nat, Rollback>, network: string, height: int) {
    && (forall id :: id in rows' <==>
          id in rows && !(rows[id].network == network && rows[id].data.triggerHeight >= height))
    && (forall id | id in rows' && rows[id].network == network && rows[id].eventHeight >= height ::
          AnswerForgotten(rows[id], rows'[id]))
    && (forall id | id in rows' && rows[id].network == network && rows[id].eventHeight < height <= rows[id].blockHeight
        :: ExecutionForgotten(rows[id], rows'[id]))
  }

  /** Keys, goroutines and what was accepted are as before; one more monitor of the network is to start. */
  ghost predicate MonitorAdded(s: State, s': State, network: string) {
    && s'.calls == s.calls.(rows := s'.calls.rows) && s'.rollbacks == s.rollbacks.(rows := s'.rollbacks.rows)
    && s'.handlers == s.handlers + [Handler(network, Stopped)]
    && s'.world.log == s.world.log && s'.world.chain == s.world.chain
  }

  lemma CallsAreReset(rows: map<nat, Call>, network: string, height: int)
    ensures CallsReset(rows, DropCalls(rows, network, height), network, height)
  {
  }

  lemma RollbacksAreReset(rows: map<nat, Rollback>, network: string, height: int)
    requires height >= 1
    ensures RollbacksReset(rows, DropRollbacks(rows, network, height), network, height)
  {
    var rows' := DropRollbacks(rows, network, height);
    forall id | id in rows' && rows[id].network == network && rows[id].eventHeight >= height
      ensures AnswerForgotten(rows[id], rows'[id])
    {
      assert rows'[id] == ResetEvent(rows[id], network, height);
    }
  }

  lemma DropCleans(s: State, network: string, height: int)
    requires height >= 1
    ensures var s' := DropBlock(s, network, height);
            && AllBelow(s', network, height)
            && OthersUntouched(s, s', network, height)
            && CallsReset(s.calls.rows, s'.calls.rows, network, height)
            && RollbacksReset(s.rollbacks.rows, s'.rollbacks.rows, network, height)
            && MonitorAdded(s, s', network)
  {
    CallsAreReset(s.calls.rows, network, height);
    RollbacksAreReset(s.rollbacks.rows, network, height);
  }

  /** The height a monitor reads before anything else is written after a drop is below the drop's. */
  lemma DropResumesBelow(s: State, network: string, height: int, cm: Option<Record<CallData>>,
                         rm: Option<Record<RollbackData>>)
    requires network != "" && height >= 1
    requires var s' := DropBlock(s, network, height); IsTop(s'.calls, network, cm) && IsTop(s'.rollbacks, network, rm)
    ensures ResumeHeight(cm, rm) < height
  {
    DropCleans(s, network, height);
  }

  // ----- which rows a pass flags

  /** What a pass looks at: the pending Calls, or Rollbacks, of the network up to the height. */
  datatype Query = Query(calls: bool, network: string, height: int, oracle: Oracle)

  /** A mark keeps its block or loses it in a drop, and turns finalized only if the pass had to look at
      it and the monitor confirmed its block. */
  ghost predicate MarkStep(network: string, m: Mark, m': Mark, q: Query, asked: bool) {
    if network != q.network then m' == m
    else
      && (m'.height == 0 || (m'.height == m.height && m'.blockId == m.blockId))
      && (!m.finalized && m'.finalized ==> asked && Pending(m, q.height) && q.oracle(m.height, m.blockId) == Confirmed)
  }

  ghost predicate CallStep(r: Call, r': Call, q: Query) {
    r'.network == r.network && forall c :: MarkStep(r.network, CallMark(r, c), CallMark(r', c), q, q.calls)
  }

  ghost predicate RollbackStep(r: Rollback, r': Rollback, q: Query) {
    r'.network == r.network && forall c :: MarkStep(r.network, RollbackMark(r, c), RollbackMark(r', c), q, !q.calls)
  }

  ghost predicate FlagsConfirmed(s: State, s': State, q: Query) {
    && s'.calls.rows.Keys <= s.calls.rows.Keys && s'.rollbacks.rows.Keys <= s.rollbacks.rows.Keys
    && (forall id | id in s'.calls.rows :: CallStep(s.calls.rows[id], s'.calls.rows[id], q))
    && (forall id | id in s'.rollbacks.rows :: RollbackStep(s.rollbacks.rows[id], s'.rollbacks.rows[id], q))
  }

  /** The two ways a committed pass goes on at column `k`: it drops there, or flags the column and
      continues from `t`. */
  lemma CallPassSplit(s: State, network: string, height: int, oracle: Oracle, k: nat, pass: Pass, s': State)
    returns (drops: bool, t: State)
    requires k < |CALL_COLUMNS| && !pass.Aborted? && CallPass(s, network, height, oracle, k, pass, s')
    ensures var c := CALL_COLUMNS[k]; var ids := PendingCalls(s.calls.rows, network, c, height);
            if drops then
              && pass.Dropped? && Scan(ids, CallMarks(s.calls.rows, c), oracle, pass)
              && s' == DropBlock(s, network, pass.height)
            else
              && Scan(ids, CallMarks(s.calls.rows, c), oracle, Finalized)
              && t == s.(calls := s.calls.(rows := FlagCalls(s.calls.rows, ids, c)))
              && CallPass(t, network, height, oracle, k + 1, pass, s')
  {
    var c := CALL_COLUMNS[k];
    var ids := PendingCalls(s.calls.rows, network, c, height);
    drops := pass.Dropped? && Scan(ids, CallMarks(s.calls.rows, c), oracle, pass)
      && s' == DropBlock(s, network, pass.height);
    t := s.(calls := s.calls.(rows := FlagCalls(s.calls.rows, ids, c)));
  }

  /** The two ways a committed pass goes on at column `k`: it drops there, or flags the column and
      continues from `t`. */
  lemma RollbackPassSplit(s: State, network: string, height: int, oracle: Oracle, k: nat, pass: Pass, s': State)
    returns (drops: bool, t: State)
    requires k < |ROLLBACK_COLUMNS| && !pass.Aborted? && RollbackPass(s, network, height, oracle, k, pass, s')
    ensures var c := ROLLBACK_COLUMNS[k]; var ids := PendingRollbacks(s.rollbacks.rows, network, c, height);
            if drops then
              && pass.Dropped? && Scan(ids, RollbackMarks(s.rollbacks.rows, c), oracle, pass)
              && s' == DropBlock(s, network, pass.height)
            else
              && Scan(ids, RollbackMarks(s.rollbacks.rows, c), oracle, Finalized)
              && t == s.(rollbacks := s.rollbacks.(rows := FlagRollbacks(s.rollbacks.rows, ids, c)))
              && RollbackPass(t, network, height, oracle, k + 1, pass, s')
  {
    var c := ROLLBACK_COLUMNS[k];
    var ids := PendingRollbacks(s.rollbacks.rows, network, c, height);
    drops := pass.Dropped? && Scan(ids, RollbackMarks(s.rollbacks.rows, c), oracle, pass)
      && s' == DropBlock(s, network, pass.height);
    t := s.(rollbacks := s.rollbacks.(rows := FlagRollbacks(s.rollbacks.rows, ids, c)));
  }

  lemma DropConfirms(s: State, q: Query, height: int)
    ensures FlagsConfirmed(s, DropBlock(s, q.network, height), q)
  {
    var s' := DropBlock(s, q.network, height);
    forall id | id in s'.calls.rows ensures CallStep(s.calls.rows[id], s'.calls.rows[id], q) {
    }
    forall id | id in s'.rollbacks.rows ensures RollbackStep(s.rollbacks.rows[id], s'.rollbacks.rows[id], q) {
    }
  }

  /** One column's flags, then the rest of the pass. */
  lemma FlagCallsConfirmed(s: State, q: Query, c: Column, t: State, s': State)
    requires q.calls
    requires var ids := PendingCalls(s.calls.rows, q.network, c, q.height);
             && Scan(ids, CallMarks(s.calls.rows, c), q.oracle, Finalized)
             && t == s.(calls := s.calls.(rows := FlagCalls(s.calls.rows, ids, c)))
    requires FlagsConfirmed(t, s', q)
    ensures FlagsConfirmed(s, s', q)
  {
    var ids := PendingCalls(s.calls.rows, q.network, c, q.height);
    forall id | id in s'.calls.rows ensures CallStep(s.calls.rows[id], s'.calls.rows[id], q) {
      var r, r', u := s.calls.rows[id], s'.calls.rows[id], t.calls.rows[id];
      assert CallStep(u, r', q);
      assert id in ids ==> CallMarks(s.calls.rows, c)[id] == CallMark(r, c);
      forall d ensures MarkStep(r.network, CallMark(r, d), CallMark(r', d), q, q.calls) {
        assert MarkStep(u.network, CallMark(u, d), CallMark(r', d), q, q.calls);
      }
    }
  }

  lemma FlagRollbacksConfirmed(s: State, q: Query, c: Column, t: State, s': State)
    requires !q.calls
    requires var ids := PendingRollbacks(s.rollbacks.rows, q.network, c, q.height);
             && Scan(ids, RollbackMarks(s.rollbacks.rows, c), q.oracle, Finalized)
             && t == s.(rollbacks := s.rollbacks.(rows := FlagRollbacks(s.rollbacks.rows, ids, c)))
    requires FlagsConfirmed(t, s', q)
    ensures FlagsConfirmed(s, s', q)
  {
    var ids := PendingRollbacks(s.rollbacks.rows, q.network, c, q.height);
    forall id | id in s'.rollbacks.rows ensures RollbackStep(s.rollbacks.rows[id], s'.rollbacks.rows[id], q) {
      var r, r', u := s.rollbacks.rows[id], s'.rollbacks.rows[id], t.rollbacks.rows[id];
      assert RollbackStep(u, r', q);
      assert id in ids ==> RollbackMarks(s.rollbacks.rows, c)[id] == RollbackMark(r, c);
      forall d ensures MarkStep(r.network, RollbackMark(r, d), RollbackMark(r', d), q, !q.calls) {
        assert MarkStep(u.network, RollbackMark(u, d), RollbackMark(r', d), q, !q.calls);
      }
    }
  }

  lemma {:induction false} CallPassConfirms(s: State, q: Query, k: nat, pass: Pass, s': State)
    requires q.calls && k <= |CALL_COLUMNS| && !pass.Aborted? && CallPass(s, q.network, q.height, q.oracle, k, pass, s')
    ensures FlagsConfirmed(s, s', q)
    decreases |CALL_COLUMNS| - k
  {
    if k < |CALL_COLUMNS| {
      var drops, t := CallPassSplit(s, q.network, q.height, q.oracle, k, pass, s');
      if drops {
        DropConfirms(s, q, pass.height);
      } else {
        CallPassConfirms(t, q, k + 1, pass, s');
        FlagCallsConfirmed(s, q, CALL_COLUMNS[k], t, s');
      }
    }
  }

  lemma {:induction false} RollbackPassConfirms(s: State, q: Query, k: nat, pass: Pass, s': State)
    requires !q.calls && k <= |ROLLBACK_COLUMNS| && !pass.Aborted?
             && RollbackPass(s, q.network, q.height, q.oracle, k, pass, s')
    ensures FlagsConfirmed(s, s', q)
    decreases |ROLLBACK_COLUMNS| - k
  {
    if k < |ROLLBACK_COLUMNS| {
      var drops, t := RollbackPassSplit(s, q.network, q.height, q.oracle, k, pass, s');
      if drops {
        DropConfirms(s, q, pass.height);
      } else {
        RollbackPassConfirms(t, q, k + 1, pass, s');
        FlagRollbacksConfirmed(s, q, ROLLBACK_COLUMNS[k], t, s');
      }
    }
  }

  /** A pass flags only rows of its network and height whose recorded block the monitor confirmed
      within the same pass. */
  lemma PassFlagsOnlyConfirmed(c: Config, s: State, l: Label, s': State)
    requires (l.FinalizeCalls? || l.FinalizeRollbacks?) && Next(c, s, l, s')
    ensures FlagsConfirmed(s, s', Query(l.FinalizeCalls?, l.network, l.height, l.oracle))
  {
    var q := Query(l.FinalizeCalls?, l.network, l.height, l.oracle);
    if !l.pass.Aborted? {
      if l.FinalizeCalls? {
        CallPassConfirms(s, q, 0, l.pass, s');
      } else {
        RollbackPassConfirms(s, q, 0, l.pass, s');
      }
    }
  }

  /** A flag that the step sets: the pass is about the row's network, had to ask for this block, and was told
      that it is final. */
  predicate SetsFlag(l: Label, network: string, height: int, blockId: string) {
    && (l.FinalizeCalls? || l.FinalizeRollbacks?)
    && network == l.network && 1 <= height <= l.height && l.oracle(height, blockId) == Confirmed
  }

  /** The flags themselves: a pass over Calls sets flags of Calls only, a pass over Rollbacks of Rollbacks. */
  lemma FlaggedWasConfirmed(c: Config, s: State, l: Label, s': State, id: nat)
    requires (l.FinalizeCalls? || l.FinalizeRollbacks?) && Next(c, s, l, s')
    ensures id in s'.calls.rows ==>
              && id in s.calls.rows
              && var r, r' := s.calls.rows[id], s'.calls.rows[id];
              && (!r.eventFinalized && r'.eventFinalized ==>
                    l.FinalizeCalls? && SetsFlag(l, r.network, r.eventHeight, r.eventBlockId))
              && (!r.finalized && r'.finalized ==> l.FinalizeCalls? && SetsFlag(l, r.network, r.blockHeight, r.blockId))
    ensures id in s'.rollbacks.rows ==>
              && id in s.rollbacks.rows
              && var r, r' := s.rollbacks.rows[id], s'.rollbacks.rows[id];
              && (!r.eventFinalized && r'.eventFinalized ==>
                    l.FinalizeRollbacks? && SetsFlag(l, r.network, r.eventHeight, r.eventBlockId))
              && (!r.finalized && r'.finalized ==>
                    l.FinalizeRollbacks? && SetsFlag(l, r.network, r.blockHeight, r.blockId))
              && (!r.data.triggerFinalized && r'.data.triggerFinalized ==>
                    l.FinalizeRollbacks? && SetsFlag(l, r.network, r.data.triggerHeight, r.data.triggerBlockId))
  {
    var q := Query(l.FinalizeCalls?, l.network, l.height, l.oracle);
    PassFlagsOnlyConfirmed(c, s, l, s');
    if id in s'.calls.rows {
      CallStepMarks(s.calls.rows[id], s'.calls.rows[id], q);
    }
    if id in s'.rollbacks.rows {
      RollbackStepMarks(s.rollbacks.rows[id], s'.rollbacks.rows[id], q);
    }
  }

  lemma CallStepMarks(r: Call, r': Call, q: Query)
    requires CallStep(r, r', q)
    ensures MarkStep(r.network, Mark(r.eventHeight, r.eventBlockId, r.eventFinalized),
                     Mark(r'.eventHeight, r'.eventBlockId, r'.eventFinalized), q, q.calls)
    ensures MarkStep(r.network, Mark(r.blockHeight, r.blockId, r.finalized),
                     Mark(r'.blockHeight, r'.blockId, r'.finalized), q, q.calls)
  {
    assert MarkStep(r.network, CallMark(r, EventColumn), CallMark(r', EventColumn), q, q.calls);
    assert MarkStep(r.network, CallMark(r, BlockColumn), CallMark(r', BlockColumn), q, q.calls);
  }

  lemma RollbackStepMarks(r: Rollback, r': Rollback, q: Query)
    requires RollbackStep(r, r', q)
    ensures MarkStep(r.network, Mark(r.eventHeight, r.eventBlockId, r.eventFinalized),
                     Mark(r'.eventHeight, r'.eventBlockId, r'.eventFinalized), q, !q.calls)
    ensures MarkStep(r.network, Mark(r.blockHeight, r.blockId, r.finalized),
                     Mark(r'.blockHeight, r'.blockId, r'.finalized), q, !q.calls)
    ensures MarkStep(r.network, Mark(r.data.triggerHeight, r.data.triggerBlockId, r.data.triggerFinalized),
                     Mark(r'.data.triggerHeight, r'.data.triggerBlockId, r'.data.triggerFinalized), q, !q.calls)
  {
    assert MarkStep(r.network, RollbackMark(r, EventColumn), RollbackMark(r', EventColumn), q, !q.calls);
    assert MarkStep(r.network, RollbackMark(r, BlockColumn), RollbackMark(r', BlockColumn), q, !q.calls);
    assert MarkStep(r.network, RollbackMark(r, TriggerColumn), RollbackMark(r', TriggerColumn), q, !q.calls);
  }

  // ----- repeating the passes

  /** Row heights from 1 to `height` that still wait for their flag. */
  function Backlog(s: State, network: string, height: int): nat {
    |PendingCalls(s.calls.rows, network, EventColumn, height)| +
    |PendingCalls(s.calls.rows, network, BlockColumn, height)| +
    |PendingRollbacks(s.rollbacks.rows, network, TriggerColumn, height)| +
    |PendingRollbacks(s.rollbacks.rows, network, EventColumn, height)| +
    |PendingRollbacks(s.rollbacks.rows, network, BlockColumn, height)|
  }

  ghost predicate Shrinks(s: State, s': State, network: string, height: int) {
    forall c: Column ::
      && PendingCalls(s'.calls.rows, network, c, height) <= PendingCalls(s.calls.rows, network, c, height)
      && PendingRollbacks(s'.rollbacks.rows, network, c, height) <= PendingRollbacks(s.rollbacks.rows, network, c,
                                                                                     height)
  }

  lemma {:induction false} SubsetSize(a: set<nat>, b: set<nat>)
    requires a <= b
    ensures |a| <= |b|
    ensures a < b ==> |a| < |b|
    decreases a
  {
    if a == {} {
      assert a < b ==> |b| > 0;
    } else {
      var x :| x in a;
      SubsetSize(a - {x}, b - {x});
    }
  }

  lemma ShrinkingLowersBacklog(s: State, s': State, network: string, height: int)
    requires Shrinks(s, s', network, height)
    ensures Backlog(s', network, height) <= Backlog(s, network, height)
    ensures (exists c :: PendingCalls(s'.calls.rows, network, c, height) < PendingCalls(s.calls.rows, network, c,
                                                                                        height)
                         || PendingRollbacks(s'.rollbacks.rows, network, c,
                                             height) < PendingRollbacks(s.rollbacks.rows, network, c, height))
            ==> Backlog(s', network, height) < Backlog(s, network, height)
  {
    forall c: Column
      ensures |PendingCalls(s'.calls.rows, network, c, height)| <= |PendingCalls(s.calls.rows, network, c, height)|
      ensures PendingCalls(s'.calls.rows, network, c, height) < PendingCalls(s.calls.rows, network, c, height) ==>
                |PendingCalls(s'.calls.rows, network, c, height)| < |PendingCalls(s.calls.rows, network, c, height)|
    {
      SubsetSize(PendingCalls(s'.calls.rows, network, c, height), PendingCalls(s.calls.rows, network, c, height));
    }
    forall c: Column
      ensures |PendingRollbacks(s'.rollbacks.rows, network, c, height)| <= |PendingRollbacks(s.rollbacks.rows, network,
                                                                                             c, height)|
      ensures PendingRollbacks(s'.rollbacks.rows, network, c, height) < PendingRollbacks(s.rollbacks.rows, network, c,
                                                                                         height) ==>
                |PendingRollbacks(s'.rollbacks.rows, network, c, height)| < |PendingRollbacks(s.rollbacks.rows,
                                                                                              network, c, height)|
    {
      SubsetSize(PendingRollbacks(s'.rollbacks.rows, network, c, height),
                 PendingRollbacks(s.rollbacks.rows, network, c, height));
    }
    assert PendingCalls(s'.calls.rows, network, TriggerColumn, height) == {} == PendingCalls(s.calls.rows, network,
                                                                                             TriggerColumn, height);
  }

  lemma DropShrinks(s: State, network: string, height: int, drop: int)
    requires drop >= 1
    ensures Shrinks(s, DropBlock(s, network, drop), network, height)
  {
  }

  lemma FlagCallsShrinks(s: State, network: string, height: int, c: Column)
    ensures var ids := PendingCalls(s.calls.rows, network, c, height);
            var t := s.(calls := s.calls.(rows := FlagCalls(s.calls.rows, ids, c)));
            Shrinks(s, t, network, height) && PendingCalls(t.calls.rows, network, c, height) == {}
  {
  }

  lemma FlagRollbacksShrinks(s: State, network: string, height: int, c: Column)
    ensures var ids := PendingRollbacks(s.rollbacks.rows, network, c, height);
            var t := s.(rollbacks := s.rollbacks.(rows := FlagRollbacks(s.rollbacks.rows, ids, c)));
            Shrinks(s, t, network, height) && PendingRollbacks(t.rollbacks.rows, network, c, height) == {}
  {
  }

  /** The row whose block was not found leaves the backlog. */
  lemma DropLowersBacklog(s: State, network: string, height: int, drop: int, c: Column, id: nat, call: bool)
    requires if call then id in PendingCalls(s.calls.rows, network, c, height)
             && CallMark(s.calls.rows[id], c).height == drop
             else id in PendingRollbacks(s.rollbacks.rows, network, c, height)
                  && RollbackMark(s.rollbacks.rows[id], c).height == drop
    ensures Backlog(DropBlock(s, network, drop), network, height) < Backlog(s, network, height)
  {
    var s' := DropBlock(s, network, drop);
    DropShrinks(s, network, height, drop);
    if call {
      assert id !in PendingCalls(s'.calls.rows, network, c, height);
    } else {
      assert id !in PendingRollbacks(s'.rollbacks.rows, network, c, height);
    }
    ShrinkingLowersBacklog(s, s', network, height);
  }

  lemma {:induction false} CallPassLowers(s: State, network: string, height: int, oracle: Oracle, k: nat, pass: Pass,
                                          s': State)
    requires k <= |CALL_COLUMNS| && !pass.Aborted? && CallPass(s, network, height, oracle, k, pass, s')
    ensures Backlog(s', network, height) <= Backlog(s, network, height)
    ensures pass.Dropped? ==> Backlog(s', network, height) < Backlog(s, network, height)
    decreases |CALL_COLUMNS| - k
  {
    if k < |CALL_COLUMNS| {
      var c := CALL_COLUMNS[k];
      var drops, t := CallPassSplit(s, network, height, oracle, k, pass, s');
      if drops {
        var id :| id in PendingCalls(s.calls.rows, network, c, height)
          && pass.height == CallMarks(s.calls.rows, c)[id].height;
        DropLowersBacklog(s, network, height, pass.height, c, id, true);
      } else {
        FlagCallsShrinks(s, network, height, c);
        ShrinkingLowersBacklog(s, t, network, height);
        CallPassLowers(t, network, height, oracle, k + 1, pass, s');
      }
    }
  }

  lemma {:induction false} CallPassClears(s: State, network: string, height: int, oracle: Oracle, k: nat, s': State)
    requires k <= |CALL_COLUMNS| && CallPass(s, network, height, oracle, k, Finalized, s')
    ensures Shrinks(s, s', network, height)
    ensures forall i | k <= i < |CALL_COLUMNS| :: PendingCalls(s'.calls.rows, network, CALL_COLUMNS[i], height) == {}
    decreases |CALL_COLUMNS| - k
  {
    if k < |CALL_COLUMNS| {
      var drops, t := CallPassSplit(s, network, height, oracle, k, Finalized, s');
      FlagCallsShrinks(s, network, height, CALL_COLUMNS[k]);
      CallPassClears(t, network, height, oracle, k + 1, s');
    }
  }

  lemma {:induction false} RollbackPassLowers(s: State, network: string, height: int, oracle: Oracle, k: nat,
                                              pass: Pass, s': State)
    requires k <= |ROLLBACK_COLUMNS| && !pass.Aborted? && RollbackPass(s, network, height, oracle, k, pass, s')
    ensures Backlog(s', network, height) <= Backlog(s, network, height)
    ensures pass.Dropped? ==> Backlog(s', network, height) < Backlog(s, network, height)
    decreases |ROLLBACK_COLUMNS| - k
  {
    if k < |ROLLBACK_COLUMNS| {
      var c := ROLLBACK_COLUMNS[k];
      var drops, t := RollbackPassSplit(s, network, height, oracle, k, pass, s');
      if drops {
        var id :| id in PendingRollbacks(s.rollbacks.rows, network, c, height)
          && pass.height == RollbackMarks(s.rollbacks.rows, c)[id].height;
        DropLowersBacklog(s, network, height, pass.height, c, id, false);
      } else {
        FlagRollbacksShrinks(s, network, height, c);
        ShrinkingLowersBacklog(s, t, network, height);
        RollbackPassLowers(t, network, height, oracle, k + 1, pass, s');
      }
    }
  }

  lemma ColumnClears(s: State, network: string, height: int, oracle: Oracle, k: nat, s': State) returns (t: State)
    requires k < |ROLLBACK_COLUMNS| && RollbackPass(s, network, height, oracle, k, Finalized, s')
    ensures RollbackPass(t, network, height, oracle, k + 1, Finalized, s') && Shrinks(s, t, network, height)
    ensures PendingRollbacks(t.rollbacks.rows, network, ROLLBACK_COLUMNS[k], height) == {}
  {
    var drops;
    drops, t := RollbackPassSplit(s, network, height, oracle, k, Finalized, s');
    FlagRollbacksShrinks(s, network, height, ROLLBACK_COLUMNS[k]);
  }

  lemma ShrinksFurther(s: State, t: State, s': State, network: string, height: int, c: Column)
    requires Shrinks(s, t, network, height) && Shrinks(t, s', network, height)
    ensures Shrinks(s, s', network, height)
    ensures PendingRollbacks(t.rollbacks.rows, network, c, height) == {} ==>
              PendingRollbacks(s'.rollbacks.rows, network, c, height) == {}
  {
  }

  lemma {:induction false} RollbackPassClears(s: State, network: string, height: int, oracle: Oracle, k: nat, s': State)
    requires k <= |ROLLBACK_COLUMNS| && RollbackPass(s, network, height, oracle, k, Finalized, s')
    ensures Shrinks(s, s', network, height)
    ensures forall i | k <= i < |ROLLBACK_COLUMNS| ::
              PendingRollbacks(s'.rollbacks.rows, network, ROLLBACK_COLUMNS[i], height) == {}
    decreases |ROLLBACK_COLUMNS| - k
  {
    if k < |ROLLBACK_COLUMNS| {
      var t := ColumnClears(s, network, height, oracle, k, s');
      RollbackPassClears(t, network, height, oracle, k + 1, s');
      ShrinksFurther(s, t, s', network, height, ROLLBACK_COLUMNS[k]);
    }
  }

  // ----- rounds: one finalizeCall and one finalizeRollback at the same height

  datatype Round = Round(callPass: Pass, middle: State, rollbackPass: Pass, end: State)

  /** The monitor answers every height up to the finalized one. */
  ghost predicate Decided(oracle: Oracle, height: int) {
    forall h, b | 1 <= h <= height :: oracle(h, b) == Confirmed || oracle(h, b) == NotFound
  }

  ghost predicate IsRound(s: State, network: string, height: int, oracle: Oracle, r: Round) {
    && FinalizeCallStep(s, network, height, oracle, r.callPass, r.middle)
    && FinalizeRollbackStep(r.middle, network, height, oracle, r.rollbackPass, r.end)
  }

  ghost predicate AreRounds(s: State, network: string, height: int, oracle: Oracle, rounds: seq<Round>)
    decreases |rounds|
  {
    rounds == [] || (IsRound(s, network, height, oracle, rounds[0])
                     && AreRounds(rounds[0].end, network, height, oracle, rounds[1..]))
  }

  /** Every row height of the network from 1 to `height` is flagged: of events, executions and sendings. */
  ghost predicate AllFlagged(s: State, network: string, height: int) {
    && (forall id | id in s.calls.rows && s.calls.rows[id].network == network :: CallFlagged(s.calls.rows[id], height))
    && (forall id | id in s.rollbacks.rows && s.rollbacks.rows[id].network == network ::
          RollbackFlagged(s.rollbacks.rows[id], height))
  }

  predicate CallFlagged(r: Call, height: int) {
    && (1 <= r.eventHeight <= height ==> r.eventFinalized)
    && (1 <= r.blockHeight <= height ==> r.finalized)
  }

  predicate RollbackFlagged(r: Rollback, height: int) {
    && (1 <= r.eventHeight <= height ==> r.eventFinalized)
    && (1 <= r.blockHeight <= height ==> r.finalized)
    && (1 <= r.data.triggerHeight <= height ==> r.data.triggerFinalized)
  }

  lemma {:induction false} CallPassDecided(s: State, network: string, height: int, oracle: Oracle, k: nat, pass: Pass,
                                           s': State)
    requires k <= |CALL_COLUMNS| && CallPass(s, network, height, oracle, k, pass, s') && Decided(oracle, height)
    ensures !pass.Aborted?
    decreases |CALL_COLUMNS| - k
  {
    if k < |CALL_COLUMNS| {
      var c := CALL_COLUMNS[k];
      var ids := PendingCalls(s.calls.rows, network, c, height);
      assert !Scan(ids, CallMarks(s.calls.rows, c), oracle, Aborted);
      var t := s.(calls := s.calls.(rows := FlagCalls(s.calls.rows, ids, c)));
      if CallPass(t, network, height, oracle, k + 1, pass, s') {
        CallPassDecided(t, network, height, oracle, k + 1, pass, s');
      }
    }
  }

  lemma {:induction false} RollbackPassDecided(s: State, network: string, height: int, oracle: Oracle, k: nat,
                                               pass: Pass, s': State)
    requires k <= |ROLLBACK_COLUMNS| && RollbackPass(s, network, height, oracle, k, pass, s') && Decided(oracle, height)
    ensures !pass.Aborted?
    decreases |ROLLBACK_COLUMNS| - k
  {
    if k < |ROLLBACK_COLUMNS| {
      var c := ROLLBACK_COLUMNS[k];
      var ids := PendingRollbacks(s.rollbacks.rows, network, c, height);
      assert !Scan(ids, RollbackMarks(s.rollbacks.rows, c), oracle, Aborted);
      var t := s.(rollbacks := s.rollbacks.(rows := FlagRollbacks(s.rollbacks.rows, ids, c)));
      if RollbackPass(t, network, height, oracle, k + 1, pass, s') {
        RollbackPassDecided(t, network, height, oracle, k + 1, pass, s');
      }
    }
  }

  /** A round either lowers the backlog or flags everything up to the height. */
  lemma RoundProgress(s: State, network: string, height: int, oracle: Oracle, r: Round)
    requires IsRound(s, network, height, oracle, r) && Decided(oracle, height)
    ensures !r.callPass.Aborted? && !r.rollbackPass.Aborted?
    ensures Backlog(r.end, network, height) <= Backlog(s, network, height)
    ensures r.callPass.Dropped? || r.rollbackPass.Dropped? ==>
              Backlog(r.end, network, height) < Backlog(s, network, height)
    ensures r.callPass.Finalized? && r.rollbackPass.Finalized? ==> AllFlagged(r.end, network, height)
  {
    if r.callPass.Aborted? {
      var t :| CallPass(s, network, height, oracle, 0, r.callPass, t);
      CallPassDecided(s, network, height, oracle, 0, r.callPass, t);
    }
    if r.rollbackPass.Aborted? {
      var t :| RollbackPass(r.middle, network, height, oracle, 0, r.rollbackPass, t);
      RollbackPassDecided(r.middle, network, height, oracle, 0, r.rollbackPass, t);
    }
    CallPassLowers(s, network, height, oracle, 0, r.callPass, r.middle);
    RollbackPassLowers(r.middle, network, height, oracle, 0, r.rollbackPass, r.end);
    if r.callPass.Finalized? && r.rollbackPass.Finalized? {
      CallPassClears(s, network, height, oracle, 0, r.middle);
      RollbackPassClears(r.middle, network, height, oracle, 0, r.end);
      NothingPending(r.middle, r.end, network, height);
    }
  }

  lemma NothingPending(m: State, s: State, network: string, height: int)
    requires forall i | 0 <= i < |CALL_COLUMNS| :: PendingCalls(m.calls.rows, network, CALL_COLUMNS[i], height) == {}
    requires forall i | 0 <= i < |ROLLBACK_COLUMNS| ::
               PendingRollbacks(s.rollbacks.rows, network, ROLLBACK_COLUMNS[i], height) == {}
    requires Shrinks(m, s, network, height)
    ensures AllFlagged(s, network, height)
  {
    assert CALL_COLUMNS[0] == EventColumn && CALL_COLUMNS[1] == BlockColumn;
    assert ROLLBACK_COLUMNS[0] == TriggerColumn && ROLLBACK_COLUMNS[1] == EventColumn
           && ROLLBACK_COLUMNS[2] == BlockColumn;
    forall id | id in s.calls.rows && s.calls.rows[id].network == network
      ensures CallFlagged(s.calls.rows[id], height)
    {
      assert id !in PendingCalls(s.calls.rows, network, EventColumn, height);
      assert id !in PendingCalls(s.calls.rows, network, BlockColumn, height);
    }
    forall id | id in s.rollbacks.rows && s.rollbacks.rows[id].network == network
      ensures RollbackFlagged(s.rollbacks.rows[id], height)
    {
      assert id !in PendingRollbacks(s.rollbacks.rows, network, TriggerColumn, height);
      assert id !in PendingRollbacks(s.rollbacks.rows, network, EventColumn, height);
      assert id !in PendingRollbacks(s.rollbacks.rows, network, BlockColumn, height);
    }
  }

  ghost predicate Finishes(r: Round, network: string, height: int) {
    r.callPass == Finalized && r.rollbackPass == Finalized && AllFlagged(r.end, network, height)
  }

  /** The first round flags everything, or the rest starts from a lower backlog. */
  lemma FirstRound(s: State, network: string, height: int, oracle: Oracle, rounds: seq<Round>)
    requires AreRounds(s, network, height, oracle, rounds) && Decided(oracle, height) && rounds != []
    ensures Finishes(rounds[0], network, height)
            || (&& AreRounds(rounds[0].end, network, height, oracle, rounds[1..])
                && Backlog(rounds[0].end, network, height) < Backlog(s, network, height))
  {
    RoundProgress(s, network, height, oracle, rounds[0]);
  }

  lemma {:induction false} SomeRoundFinishes(s: State, network: string, height: int, oracle: Oracle,
                                             rounds: seq<Round>, n: nat)
    returns (k: nat)
    requires AreRounds(s, network, height, oracle, rounds) && Decided(oracle, height)
    requires Backlog(s, network, height) <= n < |rounds|
    ensures k <= n && Finishes(rounds[k], network, height)
    decreases n
  {
    k := 0;
    if !Finishes(rounds[0], network, height) {
      FirstRound(s, network, height, oracle, rounds);
      k := SomeRoundFinishes(rounds[0].end, network, height, oracle, rounds[1..], n - 1);
      k := k + 1;
    }
  }

  /** Repeating the two passes at a finalized height the monitor decides: drops can only be
      found as often as there are unflagged row heights, and then a round flags them all. */
  lemma RepeatedPassesFinish(s: State, network: string, height: int, oracle: Oracle, rounds: seq<Round>)
    requires AreRounds(s, network, height, oracle, rounds) && Decided(oracle, height)
    requires |rounds| > Backlog(s, network, height)
    ensures exists k :: 0 <= k <= Backlog(s, network, height) && Finishes(rounds[k], network, height)
  {
    var k := SomeRoundFinishes(s, network, height, oracle, rounds, Backlog(s, network, height));
  }
}
