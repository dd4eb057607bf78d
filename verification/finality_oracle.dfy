/**
 The finality passes of the auto-caller, asked of the finality monitor: blocks are dropped only when the
 monitor has judged them, and never because it could not.
 */
module FinalityOracle {
  import opened Wrappers
  import opened XCallStore
  import opened XCallMachine
  import opened XCallFinality
  import C = FinalityChannels
  import V = FinalityVerdict

  /** The monitor and what the node answers; `ids` are what recorded block ids stand for. */
  datatype Monitor = Monitor(state: C.State, latest: Option<C.BlockInfo>, byId: int -> V.Lookup, ids: string -> int)
  {
    ghost predicate Valid() {
      C.Inv(state)
    }

    function Judging(): Option<C.BlockInfo> {
      V.Judging(state, latest)
    }

    /** Errors other than a block that is not found end the pass. */
    function Oracle(): Oracle {
      (height, blockId) =>
        match V.IsFinalized(state, latest, byId, height, ids(blockId))
        case Final => Confirmed
        case NotFound => NotFound
        case NotYet => NotYet
        case Invalid => Unreachable
        case LookupFailed => Unreachable
    }

    /** Another block is the last final one, or the index, asked for a lower block, does not know it or
        knows it elsewhere. */
    predicate Replaced(height: int, blockId: string) {
      && Judging().Some? && height >= 1
      && if height == Judging().value.height then ids(blockId) != Judging().value.id
         else height < Judging().value.height
              && byId(ids(blockId)) != V.Found(height) && byId(ids(blockId)) != V.Failed
    }
  }

  lemma NotFoundIsReplaced(m: Monitor, height: int, blockId: string)
    requires m.Valid()
    ensures m.Oracle()(height, blockId) == NotFound <==> m.Replaced(height, blockId)
  {
  }

  /** The row records the block as that of its event or of its execution. */
  predicate RecordsCallBlock(r: Call, height: int, blockId: string) {
    || (r.eventHeight == height && r.eventBlockId == blockId && !r.eventFinalized)
    || (r.blockHeight == height && r.blockId == blockId && !r.finalized)
  }

  predicate RecordsRollbackBlock(r: Rollback, height: int, blockId: string) {
    || (r.eventHeight == height && r.eventBlockId == blockId && !r.eventFinalized)
    || (r.blockHeight == height && r.blockId == blockId && !r.finalized)
    || (r.data.triggerHeight == height && r.data.triggerBlockId == blockId && !r.data.triggerFinalized)
  }

  /** The row of the network waits for the block, and the monitor has found it replaced. */
  ghost predicate CallReplaced(rows: map<nat, Call>, m: Monitor, network: string, height: int, id: nat,
                               blockId: string)
  {
    && id in rows && rows[id].network == network
    && RecordsCallBlock(rows[id], height, blockId) && m.Replaced(height, blockId)
  }

  ghost predicate RollbackReplaced(rows: map<nat, Rollback>, m: Monitor, network: string, height: int, id: nat,
                                   blockId: string)
  {
    && id in rows && rows[id].network == network
    && RecordsRollbackBlock(rows[id], height, blockId) && m.Replaced(height, blockId)
  }

  lemma ScanFindsReplacedCall(rows: map<nat, Call>, m: Monitor, network: string, height: int, c: Column, drop: int)
    returns (id: nat, blockId: string)
    requires m.Valid()
    requires Scan(PendingCalls(rows, network, c, height), CallMarks(rows, c), m.Oracle(), Dropped(drop))
    ensures drop <= height && CallReplaced(rows, m, network, drop, id, blockId)
  {
    var marks := CallMarks(rows, c);
    id :| id in PendingCalls(rows, network, c, height)
      && m.Oracle()(marks[id].height, marks[id].blockId) == NotFound && drop == marks[id].height;
    blockId := marks[id].blockId;
    NotFoundIsReplaced(m, drop, blockId);
  }

  lemma ScanFindsReplacedRollback(rows: map<nat, Rollback>, m: Monitor, network: string, height: int, c: Column,
                                  drop: int)
    returns (id: nat, blockId: string)
    requires m.Valid()
    requires Scan(PendingRollbacks(rows, network, c, height), RollbackMarks(rows, c), m.Oracle(), Dropped(drop))
    ensures drop <= height && RollbackReplaced(rows, m, network, drop, id, blockId)
  {
    var marks := RollbackMarks(rows, c);
    id :| id in PendingRollbacks(rows, network, c, height)
      && m.Oracle()(marks[id].height, marks[id].blockId) == NotFound && drop == marks[id].height;
    blockId := marks[id].blockId;
    NotFoundIsReplaced(m, drop, blockId);
  }

  lemma FlaggedCallReplaced(rows: map<nat, Call>, ids: set<nat>, c: Column, m: Monitor, network: string, height: int,
                            id: nat, blockId: string)
    requires CallReplaced(FlagCalls(rows, ids, c), m, network, height, id, blockId)
    ensures CallReplaced(rows, m, network, height, id, blockId)
  {
  }

  lemma FlaggedRollbackReplaced(rows: map<nat, Rollback>, ids: set<nat>, c: Column, m: Monitor, network: string,
                                height: int, id: nat, blockId: string)
    requires RollbackReplaced(FlagRollbacks(rows, ids, c), m, network, height, id, blockId)
    ensures RollbackReplaced(rows, m, network, height, id, blockId)
  {
  }

  lemma {:induction false} DroppedCallsReplaced(s: State, m: Monitor, network: string, height: int, k: nat, drop: int,
                                                s': State)
    returns (id: nat, blockId: string)
    requires m.Valid() && k <= |CALL_COLUMNS|
    requires CallPass(s, network, height, m.Oracle(), k, Dropped(drop), s')
    ensures drop <= height && CallReplaced(s.calls.rows, m, network, drop, id, blockId)
    decreases |CALL_COLUMNS| - k
  {
    var c := CALL_COLUMNS[k];
    var drops, t := CallPassSplit(s, network, height, m.Oracle(), k, Dropped(drop), s');
    if drops {
      id, blockId := ScanFindsReplacedCall(s.calls.rows, m, network, height, c, drop);
    } else {
      id, blockId := DroppedCallsReplaced(t, m, network, height, k + 1, drop, s');
      FlaggedCallReplaced(s.calls.rows, PendingCalls(s.calls.rows, network, c, height), c, m, network, drop, id,
                          blockId);
    }
  }

  lemma {:induction false} DroppedRollbacksReplaced(s: State, m: Monitor, network: string, height: int, k: nat,
                                                    drop: int, s': State)
    returns (id: nat, blockId: string)
    requires m.Valid() && k <= |ROLLBACK_COLUMNS|
    requires RollbackPass(s, network, height, m.Oracle(), k, Dropped(drop), s')
    ensures drop <= height && RollbackReplaced(s.rollbacks.rows, m, network, drop, id, blockId)
    decreases |ROLLBACK_COLUMNS| - k
  {
    var c := ROLLBACK_COLUMNS[k];
    var drops, t := RollbackPassSplit(s, network, height, m.Oracle(), k, Dropped(drop), s');
    if drops {
      id, blockId := ScanFindsReplacedRollback(s.rollbacks.rows, m, network, height, c, drop);
    } else {
      id, blockId := DroppedRollbacksReplaced(t, m, network, height, k + 1, drop, s');
      FlaggedRollbackReplaced(s.rollbacks.rows, PendingRollbacks(s.rollbacks.rows, network, c, height), c, m, network,
                              drop, id, blockId);
    }
  }

  /** A pass that drops blocks at a height has found a block recorded there replaced, at or below the last
      final height; a lookup that fails never makes one drop anything. */
  lemma OnlyReplacedBlocksAreDropped(c: Config, s: State, l: Label, s': State, m: Monitor)
    returns (id: nat, blockId: string)
    requires Next(c, s, l, s') && l.IsDrop() && m.Valid() && l.oracle == m.Oracle()
    ensures m.Judging().Some? && 1 <= l.pass.height <= m.Judging().value.height && l.pass.height <= l.height
    ensures if l.FinalizeCalls? then CallReplaced(s.calls.rows, m, l.network, l.pass.height, id, blockId)
            else RollbackReplaced(s.rollbacks.rows, m, l.network, l.pass.height, id, blockId)
    ensures m.byId(m.ids(blockId)) == V.Failed ==> l.pass.height == m.Judging().value.height
  {
    if l.FinalizeCalls? {
      id, blockId := DroppedCallsReplaced(s, m, l.network, l.height, 0, l.pass.height, s');
    } else {
      id, blockId := DroppedRollbacksReplaced(s, m, l.network, l.height, 0, l.pass.height, s');
    }
  }
}
