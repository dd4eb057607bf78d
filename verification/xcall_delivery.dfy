/**
 Delivery: monitors restart where the stored rows say, at any point and any number of times.
 Events count as handled until their blocks are dropped or replaced; then they are owed again.
 No event is skipped as long as, whenever events become owed, nothing is past them yet.
 */
module XCallDelivery {
  import opened Wrappers
  import opened XCallStore
  import opened XCallMachine
  import opened XCallSafety

  // ----- the chain

  lemma StepKeepsWorld(c: Config, s: State, l: Label, s': State)
    requires WorldOk(c, s.world) && Next(c, s, l, s')
    ensures WorldOk(c, s'.world)
  {
    if (l.FinalizeCalls? || l.FinalizeRollbacks?) && !l.pass.Aborted? {
      if l.FinalizeCalls? {
        CallPassEffect(s, l.network, l.height, l.oracle, 0, l.pass, s');
      } else {
        RollbackPassEffect(s, l.network, l.height, l.oracle, 0, l.pass, s');
      }
    }
  }

  lemma KeepsWorldAt(c: Config, r: Run, i: nat)
    requires IsRun(c, r) && i < |r.labels| && WorldOk(c, r.states[i].world)
    ensures WorldOk(c, r.states[i + 1].world)
  {
    assert Takes(c, r, i);
    StepKeepsWorld(c, r.states[i], r.labels[i], r.states[i + 1]);
  }

  lemma {:induction false} RunKeepsWorld(c: Config, r: Run, k: nat)
    requires IsRun(c, r) && k < |r.states|
    ensures WorldOk(c, r.states[k].world)
  {
    if k > 0 {
      RunKeepsWorld(c, r, k - 1);
      KeepsWorldAt(c, r, k - 1);
    }
  }

  // ----- what is owed

  /** An event from the initial height on that has to be handled (again). */
  ghost predicate Owed(c: Config, w: World, network: string, i: nat)
    requires WorldOk(c, w) && network in w.chain && i < |w.chain[network]|
  {
    c.initHeight[network] <= w.chain[network][i].height && (network, i) !in w.handled
  }

  /** Nothing is owed below `height`. */
  ghost predicate HandledBelow(c: Config, w: World, network: string, height: int)
    requires WorldOk(c, w) && network in w.chain
  {
    forall i: nat | i < |w.chain[network]| && w.chain[network][i].height < height :: !Owed(c, w, network, i)
  }

  /** Nothing is owed before position `pos`. */
  ghost predicate HandledBefore(c: Config, w: World, network: string, pos: int)
    requires WorldOk(c, w) && network in w.chain
  {
    forall i: nat | i < pos && i < |w.chain[network]| :: !Owed(c, w, network, i)
  }

  ghost predicate CopyOk<E>(c: Config, w: World, body: Row<E>)
    requires WorldOk(c, w)
  {
    body.network in w.chain ==> HandledBelow(c, w, body.network, body.eventHeight)
  }

  /** A row's event height is never above an owed event: in the table and in every goroutine's copy. */
  ghost predicate StoreOk<E>(c: Config, w: World, s: Store<E>)
    requires WorldOk(c, w)
  {
    && (forall id | id in s.rows :: CopyOk(c, w, s.rows[id]))
    && (forall j | 0 <= j < |s.jobs| && s.jobs[j].Some? :: CopyOk(c, w, s.jobs[j].value.body))
  }

  ghost predicate HeldCopyOk(c: Config, w: World, h: Handler)
    requires WorldOk(c, w)
  {
    match h.phase
    case HoldsCall(_, _, Some(r)) => CopyOk(c, w, r.body)
    case HoldsRollback(_, _, Some(r)) => CopyOk(c, w, r.body)
    case _ => true
  }

  /** The position a monitor has reached: that of the event it waits for or has in hand. */
  function Reached(phase: Phase): int
    requires phase.Live()
  {
    if phase.Streaming? then phase.next else phase.next - 1
  }

  /** A monitor that has left nothing owed behind, and has an event of the present branch in hand, if any. */
  ghost predicate Clean(c: Config, w: World, h: Handler)
    requires WorldOk(c, w)
  {
    h.phase.Live() && h.network in w.chain ==>
      && HandledBefore(c, w, h.network, Reached(h.phase))
      && (h.phase.Holds() ==> OnBranch(w, h.network, h.phase.next, h.phase.event))
  }

  ghost predicate DeliveryOk(c: Config, s: State) {
    && WorldOk(c, s.world)
    && StoreOk(c, s.world, s.calls) && StoreOk(c, s.world, s.rollbacks)
    && forall h | 0 <= h < |s.handlers| :: Clean(c, s.world, s.handlers[h]) && HeldCopyOk(c, s.world, s.handlers[h])
  }

  // ----- writes

  lemma SaveDelivers<E>(c: Config, w: World, s: Store<E>, r: Record<E>)
    requires WorldOk(c, w) && StoreOk(c, w, s) && CopyOk(c, w, r.body)
    ensures StoreOk(c, w, Save(s, r))
    ensures StoreOk(c, w, Spawn(s, r))
  {
  }

  lemma ExecuteDelivers<E>(c: Config, w: World, s: Store<E>, r: Record<E>, invoked: Invoked, skips: set<string>,
                           ok: bool)
    requires WorldOk(c, w) && StoreOk(c, w, s) && CopyOk(c, w, r.body)
    ensures StoreOk(c, w, Execute(s, r, invoked, skips, ok))
  {
    match invoked
    case Refused(error) => SaveDelivers(c, w, s, Failed(r, error, skips));
    case Submitted(txId) =>
      var sent := r.(body := r.body.(state := StateSending, txId := txId));
      SaveDelivers(c, w, s, sent);
      SaveDelivers(c, w, SaveIfNotDone(s, sent, ok), sent.(id := SavedIfId(s, sent, ok)));
  }

  lemma ResultDelivers<E>(c: Config, w: World, s: Store<E>, j: nat, result: TxResult,
                          invoked: Invoked, skips: set<string>, ok: bool)
    requires WorldOk(c, w) && StoreOk(c, w, s) && j < |s.jobs| && s.jobs[j].Some?
    ensures StoreOk(c, w, Result(s, j, result, invoked, skips, ok))
  {
    var r, ended := s.jobs[j].value, End(s, j);
    assert StoreOk(c, w, ended);
    match result
    case NotAvailable =>
    case UnknownTransaction => ExecuteDelivers(c, w, ended, r.(body := r.body.(txId := "")), invoked, skips, ok);
    case Reverted(error) => SaveDelivers(c, w, ended, Failed(r, error, skips));
    case Executed(height, blockId) =>
      SaveDelivers(c, w, ended, r.(body := r.body.(state := StateSent, blockHeight := height, blockId := blockId)));
  }

  /** A record made from the event at `pos` has the event's height, or none. */
  lemma NewCopyOk<E>(c: Config, w: World, network: string, pos: nat, body: Row<E>)
    requires WorldOk(c, w) && network in w.chain && pos < |w.chain[network]| && HandledBefore(c, w, network, pos)
    requires body.network == network && (body.eventHeight == 0 || body.eventHeight == w.chain[network][pos].height)
    requires c.initHeight[network] >= 1
    ensures CopyOk(c, w, body)
  {
    forall i: nat | i < |w.chain[network]| && w.chain[network][i].height < body.eventHeight
      ensures !Owed(c, w, network, i)
    {
      assert body.eventHeight == 0 || i < pos;
    }
  }

  lemma CallDelivers(c: Config, w: World, s: Store<CallData>, network: string, pos: nat,
                     found: Option<Record<CallData>>, invoked: Invoked, ok: bool)
    requires ValidConfig(c) && WorldOk(c, w) && network in w.chain && pos < |w.chain[network]|
    requires w.chain[network][pos].IsCall() && StoreOk(c, w, s) && HandledBefore(c, w, network, pos)
    requires found.Some? ==> CopyOk(c, w, found.value.body)
    ensures StoreOk(c, w, OnCall(s, network, w.chain[network][pos], found, invoked, ok).store)
  {
    var e := w.chain[network][pos];
    var cm := NewCall(network, e);
    if e.CallMessage? {
      NewCopyOk(c, w, network, pos, cm);
      ExecuteDelivers(c, w, s, Record(if found.Some? then found.value.id else 0, cm), invoked, CALL_SKIPS, ok);
      if found.Some? {
        SaveDelivers(c, w, s, found.value);
      }
    } else if found.Some? {
      SaveDelivers(c, w, s, Completed(found.value, cm));
    }
  }

  lemma RollbackDelivers(c: Config, w: World, s: Store<RollbackData>, network: string, pos: nat,
                         found: Option<Record<RollbackData>>, invoked: Invoked, ok: bool)
    requires ValidConfig(c) && WorldOk(c, w) && network in w.chain && pos < |w.chain[network]|
    requires w.chain[network][pos].IsRollback() && StoreOk(c, w, s) && HandledBefore(c, w, network, pos)
    requires found.Some? ==> CopyOk(c, w, found.value.body)
    ensures StoreOk(c, w, OnRollback(s, network, w.chain[network][pos], found, invoked, ok).store)
  {
    var e := w.chain[network][pos];
    var rm := NewRollback(network, e);
    NewCopyOk(c, w, network, pos, rm);
    if e.CallMessageSent? {
      SaveDelivers(c, w, s, Record(0, rm));
    } else if found.Some? {
      SaveDelivers(c, w, s, found.value);
      if e.ResponseMessage? {
        var answered := Answered(found.value, rm);
        SaveDelivers(c, w, s, answered);
        ExecuteDelivers(c, w, s, answered, invoked, ROLLBACK_SKIPS, ok);
      } else {
        SaveDelivers(c, w, s, Completed(found.value, rm));
      }
    }
  }

  // ----- steps that owe nothing

  /** The network has the same events, of which more may have been handled. */
  ghost predicate MoreHandledOf(w: World, w': World, network: string) {
    && network in w.chain && network in w'.chain && w'.chain[network] == w.chain[network]
    && forall i: nat | (network, i) in w.handled :: (network, i) in w'.handled
  }

  ghost predicate MoreHandled(w: World, w': World) {
    w'.chain == w.chain && w.handled <= w'.handled
  }

  /** Handling more events never hurts. */
  lemma LessOwed(c: Config, w: World, w': World, network: string)
    requires WorldOk(c, w) && WorldOk(c, w') && MoreHandledOf(w, w', network)
    ensures forall pos: int | HandledBefore(c, w, network, pos) :: HandledBefore(c, w', network, pos)
    ensures forall height: int | HandledBelow(c, w, network, height) :: HandledBelow(c, w', network, height)
  {
    forall i: nat | i < |w.chain[network]| ensures Owed(c, w', network, i) ==> Owed(c, w, network, i) {
    }
  }

  lemma MoreHandledCopy<E>(c: Config, w: World, w': World, body: Row<E>)
    requires WorldOk(c, w) && WorldOk(c, w') && MoreHandled(w, w') && CopyOk(c, w, body)
    ensures CopyOk(c, w', body)
  {
    if body.network in w.chain {
      LessOwed(c, w, w', body.network);
    }
  }

  lemma MoreHandledCopies<E>(c: Config, w: World, w': World, s: Store<E>)
    requires WorldOk(c, w) && WorldOk(c, w') && MoreHandled(w, w') && StoreOk(c, w, s)
    ensures StoreOk(c, w', s)
  {
    forall id | id in s.rows ensures CopyOk(c, w', s.rows[id]) {
      MoreHandledCopy(c, w, w', s.rows[id]);
    }
    forall j | 0 <= j < |s.jobs| && s.jobs[j].Some? ensures CopyOk(c, w', s.jobs[j].value.body) {
      MoreHandledCopy(c, w, w', s.jobs[j].value.body);
    }
  }

  lemma CleanLeft(c: Config, w: World, w': World, h: Handler)
    requires WorldOk(c, w) && WorldOk(c, w') && Clean(c, w, h)
    requires h.network in w.chain ==> MoreHandledOf(w, w', h.network)
    ensures Clean(c, w', h)
  {
    if h.network in w.chain {
      LessOwed(c, w, w', h.network);
    }
  }

  lemma MoreHandledMonitor(c: Config, w: World, w': World, h: Handler)
    requires WorldOk(c, w) && WorldOk(c, w') && MoreHandled(w, w') && Clean(c, w, h) && HeldCopyOk(c, w, h)
    ensures Clean(c, w', h) && HeldCopyOk(c, w', h)
  {
    CleanLeft(c, w, w', h);
    match h.phase
    case HoldsCall(_, _, Some(r)) => MoreHandledCopy(c, w, w', r.body);
    case HoldsRollback(_, _, Some(r)) => MoreHandledCopy(c, w, w', r.body);
    case _ =>
  }

  /** A step in which only handler `k` may have changed. */
  lemma OthersDeliver(c: Config, s: State, s': State, k: int)
    requires DeliveryOk(c, s) && WorldOk(c, s'.world) && MoreHandled(s.world, s'.world) && |s'.handlers| == |s.handlers|
    requires forall h | 0 <= h < |s.handlers| && h != k :: s'.handlers[h] == s.handlers[h]
    requires 0 <= k < |s.handlers| ==> Clean(c, s'.world, s'.handlers[k]) && HeldCopyOk(c, s'.world, s'.handlers[k])
    ensures forall h | 0 <= h < |s'.handlers| ::
              Clean(c, s'.world, s'.handlers[h]) && HeldCopyOk(c, s'.world, s'.handlers[h])
  {
    forall h | 0 <= h < |s'.handlers|
      ensures Clean(c, s'.world, s'.handlers[h]) && HeldCopyOk(c, s'.world, s'.handlers[h])
    {
      if h != k {
        assert Clean(c, s.world, s.handlers[h]) && HeldCopyOk(c, s.world, s.handlers[h]);
        MoreHandledMonitor(c, s.world, s'.world, s.handlers[h]);
      }
    }
  }

  // ----- where a monitor starts

  /** The first owed position, or the number of events. */
  ghost function FirstOwed(c: Config, w: World, network: string, from: nat := 0): (pos: nat)
    requires WorldOk(c, w) && network in w.chain && from <= |w.chain[network]|
    ensures from <= pos <= |w.chain[network]| && (pos < |w.chain[network]| ==> Owed(c, w, network, pos))
    ensures forall i | from <= i < pos :: !Owed(c, w, network, i)
    decreases |w.chain[network]| - from
  {
    if from == |w.chain[network]| || Owed(c, w, network, from) then from else FirstOwed(c, w, network, from + 1)
  }

  /** The monitor starts at or below the first owed event. */
  ghost predicate StartsInTime(c: Config, w: World, network: string, start: int)
    requires WorldOk(c, w) && network in w.chain
  {
    var first := FirstOwed(c, w, network);
    first < |w.chain[network]| ==> start <= w.chain[network][first].height
  }

  /** What a monitor that opens its stream will deliver: every owed event exactly when the height it
      starts at, from the newest rows, is at or below the first of them. */
  lemma OpenIsInTimeExactly(c: Config, s: State, l: Label, s': State)
    requires WorldOk(c, s.world) && Next(c, s, l, s') && l.Open?
    ensures var n := s.handlers[l.h].network;
            Clean(c, s'.world, s'.handlers[l.h]) <==>
            StartsInTime(c, s.world, n, StartHeight(c.initHeight[n], ResumeHeight(l.cm, l.rm)))
  {
    var n := s.handlers[l.h].network;
    var first := FirstOwed(c, s.world, n);
    if first < |s.world.chain[n]| {
      assert Owed(c, s.world, n, first);
    }
  }

  /** No row of the network is newer, and some row is as new, unless there is none. */
  ghost predicate IsNewest(s: State, network: string, height: int) {
    && (forall id | id in s.calls.rows && s.calls.rows[id].network == network ::
          s.calls.rows[id].eventHeight <= height)
    && (forall id | id in s.rollbacks.rows && s.rollbacks.rows[id].network == network ::
          s.rollbacks.rows[id].eventHeight <= height)
    && (|| height == 0
        || (exists id | id in s.calls.rows ::
              s.calls.rows[id].network == network && s.calls.rows[id].eventHeight == height)
        || exists id | id in s.rollbacks.rows ::
             s.rollbacks.rows[id].network == network && s.rollbacks.rows[id].eventHeight == height)
  }

  /** The position of the first event at or above the height. */
  ghost predicate StartsAt(events: seq<Event>, pos: nat, height: int) {
    && pos <= |events| && (pos < |events| ==> events[pos].height >= height)
    && forall i | 0 <= i < pos :: events[i].height < height
  }

  /** A stream starts at the height of the newest row of its network, and without rows that record a
      height at the configured one. */
  lemma OpensAtNewestRow(c: Config, s: State, l: Label, s': State) returns (newest: int)
    requires ValidConfig(c) && Next(c, s, l, s') && l.Open?
    ensures var n := s.handlers[l.h].network;
            && n in c.initHeight && n in s.world.chain && IsNewest(s, n, newest)
            && s'.handlers[l.h].phase.Streaming?
            && StartsAt(s.world.chain[n], s'.handlers[l.h].phase.next,
                        if newest >= 1 then newest else c.initHeight[n])
  {
    newest := ResumeHeight(l.cm, l.rm);
  }

  /** Rows above nothing owed: the monitor starts in time. */
  lemma ResumesInTime(c: Config, s: State, l: Label, s': State)
    requires ValidConfig(c) && DeliveryOk(c, s) && Next(c, s, l, s') && l.Open?
    ensures var n := s.handlers[l.h].network;
            StartsInTime(c, s.world, n, StartHeight(c.initHeight[n], ResumeHeight(l.cm, l.rm)))
  {
    assert l.cm.Some? ==> CopyOk(c, s.world, l.cm.value.body);
    assert l.rm.Some? ==> CopyOk(c, s.world, l.rm.value.body);
  }

  // ----- handler steps

  /** Past one more event, which has been handled. */
  lemma OneMoreHandled(c: Config, w: World, w': World, network: string, pos: nat)
    requires WorldOk(c, w) && WorldOk(c, w') && MoreHandledOf(w, w', network) && HandledBefore(c, w, network, pos)
    requires pos < |w.chain[network]| && (network, pos) in w'.handled
    ensures HandledBefore(c, w', network, pos + 1)
  {
    LessOwed(c, w, w', network);
    forall i: nat | i < pos + 1 && i < |w'.chain[network]| ensures !Owed(c, w', network, i) {
      assert HandledBefore(c, w', network, pos);
    }
  }

  /** The monitor that had the event before `next` in hand now waits for the one at `next`. */
  lemma AcceptedClean(c: Config, w: World, w': World, h: Handler)
    requires WorldOk(c, w) && WorldOk(c, w') && Clean(c, w, h) && h.phase.Holds() && h.network in w.chain
    requires w' == Handled(w, h.network, h.phase.next, h.phase.event)
    ensures MoreHandled(w, w') && Clean(c, w', h.(phase := Streaming(h.phase.next)))
  {
    OneMoreHandled(c, w, w', h.network, h.phase.next - 1);
  }

  lemma ActStepClean(c: Config, s: State, l: Label, s': State)
    requires WorldOk(c, s.world) && WorldOk(c, s'.world) && Next(c, s, l, s') && (l.ActCall? || l.ActRollback?)
    requires Clean(c, s.world, s.handlers[l.h])
    ensures MoreHandled(s.world, s'.world) && Clean(c, s'.world, s'.handlers[l.h])
  {
    if s'.handlers[l.h].phase.Streaming? {
      AcceptedClean(c, s.world, s'.world, s.handlers[l.h]);
    }
  }

  /** The monitor's own step leaves nothing owed behind - unless it is the one that opens the stream. */
  lemma OwnStepClean(c: Config, s: State, l: Label, s': State)
    requires WorldOk(c, s.world) && Next(c, s, l, s') && l.IsHandlerStep() && !l.Open?
             && Clean(c, s.world, s.handlers[l.h])
    ensures WorldOk(c, s'.world) && MoreHandled(s.world, s'.world)
    ensures Clean(c, s'.world, s'.handlers[l.h])
  {
    StepKeepsWorld(c, s, l, s');
    if l.ActCall? || l.ActRollback? {
      ActStepClean(c, s, l, s');
    } else if l.Ignore? {
      OneMoreHandled(c, s.world, s'.world, s.handlers[l.h].network, s.handlers[l.h].phase.next);
    }
  }

  lemma MonitorStepHolds(c: Config, s: State, l: Label, s': State)
    requires DeliveryOk(c, s) && WorldOk(c, s'.world) && MoreHandled(s.world, s'.world)
    requires Next(c, s, l, s') && l.IsHandlerStep()
    ensures HeldCopyOk(c, s'.world, s'.handlers[l.h])
  {
    match l
    case ReadCall(h, found) =>
      assert found.Some? ==> CopyOk(c, s.world, found.value.body);
    case ReadRollback(h, found) =>
      assert found.Some? ==> CopyOk(c, s.world, found.value.body);
    case _ =>
  }

  lemma MonitorStepDelivers(c: Config, s: State, l: Label, s': State)
    requires ValidConfig(c) && DeliveryOk(c, s) && Next(c, s, l, s') && l.IsHandlerStep() && !l.ActCall?
             && !l.ActRollback?
    ensures DeliveryOk(c, s')
  {
    assert Clean(c, s.world, s.handlers[l.h]);
    if l.Open? {
      ResumesInTime(c, s, l, s');
      OpenIsInTimeExactly(c, s, l, s');
    } else {
      OwnStepClean(c, s, l, s');
    }
    MonitorStepHolds(c, s, l, s');
    MoreHandledCopies(c, s.world, s'.world, s.calls);
    MoreHandledCopies(c, s.world, s'.world, s.rollbacks);
    OthersDeliver(c, s, s', l.h);
  }

  lemma CallActStores(c: Config, s: State, l: Label, s': State)
    requires ValidConfig(c) && DeliveryOk(c, s) && Next(c, s, l, s') && l.ActCall?
    ensures StoreOk(c, s.world, s'.calls) && StoreOk(c, s.world, s'.rollbacks)
  {
    var h := s.handlers[l.h];
    assert Clean(c, s.world, h) && HeldCopyOk(c, s.world, h);
    CallDelivers(c, s.world, s.calls, h.network, h.phase.next - 1, h.phase.call, l.invoked, l.ok);
  }

  lemma RollbackActStores(c: Config, s: State, l: Label, s': State)
    requires ValidConfig(c) && DeliveryOk(c, s) && Next(c, s, l, s') && l.ActRollback?
    ensures StoreOk(c, s.world, s'.calls) && StoreOk(c, s.world, s'.rollbacks)
  {
    var h := s.handlers[l.h];
    assert Clean(c, s.world, h) && HeldCopyOk(c, s.world, h);
    RollbackDelivers(c, s.world, s.rollbacks, h.network, h.phase.next - 1, h.phase.rollback, l.invoked, l.ok);
  }

  lemma ActStepDelivers(c: Config, s: State, l: Label, s': State)
    requires ValidConfig(c) && DeliveryOk(c, s) && Next(c, s, l, s') && (l.ActCall? || l.ActRollback?)
    requires StoreOk(c, s.world, s'.calls) && StoreOk(c, s.world, s'.rollbacks)
    ensures DeliveryOk(c, s')
  {
    assert Clean(c, s.world, s.handlers[l.h]) && HeldCopyOk(c, s.world, s.handlers[l.h]);
    OwnStepClean(c, s, l, s');
    MoreHandledCopies(c, s.world, s'.world, s'.calls);
    MoreHandledCopies(c, s.world, s'.world, s'.rollbacks);
    OthersDeliver(c, s, s', l.h);
  }

  lemma JobStepDelivers(c: Config, s: State, l: Label, s': State)
    requires DeliveryOk(c, s) && Next(c, s, l, s') && (l.CallResult? || l.RollbackResult?)
    ensures DeliveryOk(c, s')
  {
    if l.CallResult? {
      ResultDelivers(c, s.world, s.calls, l.j, l.result, l.invoked, CALL_SKIPS, l.ok);
    } else {
      ResultDelivers(c, s.world, s.rollbacks, l.j, l.result, l.invoked, ROLLBACK_SKIPS, l.ok);
    }
    OthersDeliver(c, s, s', -1);
  }

  lemma FlaggingDelivers(c: Config, s: State, t: State)
    requires DeliveryOk(c, s) && (CallsFlagged(s, t) || RollbacksFlagged(s, t))
    ensures DeliveryOk(c, t)
  {
    OthersDeliver(c, s, t, -1);
  }

  // ----- events that become owed

  /** From position `from` of the network on, the events are owed: dropped, or others than before. */
  ghost predicate Undoes(c: Config, w: World, w': World, network: string, from: nat) {
    && WorldOk(c, w) && WorldOk(c, w') && network in w.chain
    && from <= |w.chain[network]| && from <= |w'.chain[network]|
    && (forall i | 0 <= i < from :: w'.chain[network][i] == w.chain[network][i])
    && (forall n | n in w.chain && n != network :: w'.chain[n] == w.chain[n])
    && w'.handled == Forget(w.handled, network, from)
  }

  /** The first event that is owed, not counting those below the initial height. */
  function FirstUndone(c: Config, w: World, network: string, from: nat): nat
    requires network in w.chain && network in c.initHeight && from <= |w.chain[network]|
  {
    Position(w.chain[network], c.initHeight[network], from)
  }

  /** A height above the first undone event. */
  ghost predicate Above(c: Config, w: World, network: string, from: nat, height: int)
    requires WorldOk(c, w) && network in w.chain && from <= |w.chain[network]|
  {
    var q := FirstUndone(c, w, network, from);
    q < |w.chain[network]| && height > w.chain[network][q].height
  }

  lemma CopyUndone<E>(c: Config, w: World, w': World, network: string, from: nat, body: Row<E>)
    requires Undoes(c, w, w', network, from) && CopyOk(c, w, body)
    ensures CopyOk(c, w', body) <==> !(body.network == network && Above(c, w', network, from, body.eventHeight))
  {
    if body.network == network {
      var q := FirstUndone(c, w', network, from);
      if q < |w'.chain[network]| {
        assert Owed(c, w', network, q);
      }
      forall i: nat | i < |w'.chain[network]| && w'.chain[network][i].height < body.eventHeight && i < q
        ensures !Owed(c, w', network, i)
      {
        assert i < from ==> !Owed(c, w, network, i);
      }
    }
  }

  lemma BeforeUndone(c: Config, w: World, w': World, network: string, from: nat, pos: int)
    requires Undoes(c, w, w', network, from)
    requires HandledBefore(c, w, network, if pos < from then pos else from)
    ensures var q := FirstUndone(c, w', network, from);
            HandledBefore(c, w', network, pos) <==> q == |w'.chain[network]| || pos <= q
  {
    var q := FirstUndone(c, w', network, from);
    if q < |w'.chain[network]| {
      assert Owed(c, w', network, q);
    }
    forall i: nat | i < pos && i < q ensures !Owed(c, w', network, i) {
      assert i < from ==> !Owed(c, w, network, i);
    }
  }

  /** A monitor of the network that is past the first undone event, or has an event in hand that is no more. */
  ghost predicate Past(c: Config, w: World, network: string, from: nat, h: Handler)
    requires WorldOk(c, w) && network in w.chain && from <= |w.chain[network]|
  {
    var q := FirstUndone(c, w, network, from);
    && h.network == network && h.phase.Live()
    && ((q < |w.chain[network]| && Reached(h.phase) > q)
        || (h.phase.Holds() && !OnBranch(w, network, h.phase.next, h.phase.event)))
  }

  /** `h'` is the handler after the step: where it was, or, if it was past `from`, anywhere from there on. */
  lemma MonitorUndone(c: Config, w: World, w': World, network: string, from: nat, h: Handler, h': Handler)
    requires Undoes(c, w, w', network, from) && Clean(c, w, h)
    requires h' == h || (h.network == network && h.phase.Live() && h.phase.next > from
                         && h' == h.(phase := h'.phase) && h'.phase.Live() && h'.phase.next >= from)
    ensures Clean(c, w', h') <==> !Past(c, w', network, from, h')
  {
    if h'.phase.Live() {
      if h'.network == network {
        BeforeUndone(c, w, w', network, from, Reached(h'.phase));
      } else if h'.network in w.chain {
        assert HandledBefore(c, w, h'.network, Reached(h'.phase));
        OtherNetworkUndone(c, w, w', network, from, h'.network);
      }
    }
  }

  lemma OtherNetworkUndone(c: Config, w: World, w': World, network: string, from: nat, n: string)
    requires Undoes(c, w, w', network, from) && n != network && n in w.chain
    ensures w'.chain[n] == w.chain[n]
    ensures forall i: nat | i < |w.chain[n]| :: Owed(c, w', n, i) == Owed(c, w, n, i)
  {
  }

  /** Nothing is past the first undone event: no monitor of the network, and no row, goroutine or
      handler has a copy with an event height above it. */
  ghost predicate NothingPast(c: Config, s: State, network: string, from: nat)
    requires WorldOk(c, s.world) && network in s.world.chain && from <= |s.world.chain[network]|
  {
    && StoreBelow(c, s.world, network, from, s.calls) && StoreBelow(c, s.world, network, from, s.rollbacks)
    && forall h | 0 <= h < |s.handlers| ::
         !Past(c, s.world, network, from, s.handlers[h]) && HeldBelow(c, s.world, network, from, s.handlers[h])
  }

  ghost predicate Below<E>(c: Config, w: World, network: string, from: nat, body: Row<E>)
    requires WorldOk(c, w) && network in w.chain && from <= |w.chain[network]|
  {
    !(body.network == network && Above(c, w, network, from, body.eventHeight))
  }

  ghost predicate StoreBelow<E>(c: Config, w: World, network: string, from: nat, s: Store<E>)
    requires WorldOk(c, w) && network in w.chain && from <= |w.chain[network]|
  {
    && (forall id | id in s.rows :: Below(c, w, network, from, s.rows[id]))
    && (forall j | 0 <= j < |s.jobs| && s.jobs[j].Some? :: Below(c, w, network, from, s.jobs[j].value.body))
  }

  ghost predicate HeldBelow(c: Config, w: World, network: string, from: nat, h: Handler)
    requires WorldOk(c, w) && network in w.chain && from <= |w.chain[network]|
  {
    match h.phase
    case HoldsCall(_, _, Some(r)) => Below(c, w, network, from, r.body)
    case HoldsRollback(_, _, Some(r)) => Below(c, w, network, from, r.body)
    case _ => true
  }

  lemma StoreUndone<E>(c: Config, w: World, w': World, network: string, from: nat, s: Store<E>)
    requires Undoes(c, w, w', network, from) && StoreOk(c, w, s)
    ensures StoreOk(c, w', s) <==> StoreBelow(c, w', network, from, s)
  {
    forall id | id in s.rows ensures CopyOk(c, w', s.rows[id]) <==> Below(c, w', network, from, s.rows[id]) {
      CopyUndone(c, w, w', network, from, s.rows[id]);
    }
    forall j | 0 <= j < |s.jobs| && s.jobs[j].Some?
      ensures CopyOk(c, w', s.jobs[j].value.body) <==> Below(c, w', network, from, s.jobs[j].value.body)
    {
      CopyUndone(c, w, w', network, from, s.jobs[j].value.body);
    }
  }

  lemma HeldUndone(c: Config, w: World, w': World, network: string, from: nat, h: Handler)
    requires Undoes(c, w, w', network, from) && HeldCopyOk(c, w, h)
    ensures HeldCopyOk(c, w', h) <==> HeldBelow(c, w', network, from, h)
  {
    match h.phase
    case HoldsCall(_, _, Some(r)) => CopyUndone(c, w, w', network, from, r.body);
    case HoldsRollback(_, _, Some(r)) => CopyUndone(c, w, w', network, from, r.body);
    case _ =>
  }

  /** Between `s` and `s'` events become owed, rows are at most lowered, and monitors that were past the
      events are anywhere from there on; new monitors have not started. */
  ghost predicate UndoStep(c: Config, s: State, s': State, network: string, from: nat) {
    && DeliveryOk(c, s) && Undoes(c, s.world, s'.world, network, from)
    && StoreOk(c, s.world, s'.calls) && StoreOk(c, s.world, s'.rollbacks)
    && |s.handlers| <= |s'.handlers|
    && (forall h | |s.handlers| <= h < |s'.handlers| :: s'.handlers[h].phase == Stopped)
    && forall h | 0 <= h < |s.handlers| :: Follows(s.handlers[h], s'.handlers[h], network, from)
  }

  ghost predicate Follows(h: Handler, h': Handler, network: string, from: nat) {
    h' == h || (h.network == network && h.phase.Live() && h.phase.next > from && h'.phase.Live()
                && h' == h.(phase := h.phase.(next := h'.phase.next)) && h'.phase.next >= from)
  }

  lemma HandlerUndone(c: Config, s: State, s': State, network: string, from: nat, h: nat)
    requires UndoStep(c, s, s', network, from) && h < |s'.handlers|
    ensures Clean(c, s'.world, s'.handlers[h]) <==> !Past(c, s'.world, network, from, s'.handlers[h])
    ensures HeldCopyOk(c, s'.world, s'.handlers[h]) <==> HeldBelow(c, s'.world, network, from, s'.handlers[h])
  {
    if h < |s.handlers| {
      assert Clean(c, s.world, s.handlers[h]) && HeldCopyOk(c, s.world, s.handlers[h]);
      assert Follows(s.handlers[h], s'.handlers[h], network, from);
      MonitorUndone(c, s.world, s'.world, network, from, s.handlers[h], s'.handlers[h]);
      HeldUndone(c, s.world, s'.world, network, from, s'.handlers[h]);
    }
  }

  /** When events become owed, the rows still promise no more than was handled exactly when nothing is past them. */
  lemma UndoDeliversExactly(c: Config, s: State, s': State, network: string, from: nat)
    requires UndoStep(c, s, s', network, from)
    ensures DeliveryOk(c, s') <==> NothingPast(c, s', network, from)
  {
    StoreUndone(c, s.world, s'.world, network, from, s'.calls);
    StoreUndone(c, s.world, s'.world, network, from, s'.rollbacks);
    forall h | 0 <= h < |s'.handlers|
      ensures Clean(c, s'.world, s'.handlers[h]) <==> !Past(c, s'.world, network, from, s'.handlers[h])
      ensures HeldCopyOk(c, s'.world, s'.handlers[h]) <==> HeldBelow(c, s'.world, network, from, s'.handlers[h])
    {
      HandlerUndone(c, s, s', network, from, h);
    }
  }

  lemma LoweredRows(c: Config, s: State, network: string, height: int)
    requires ValidConfig(c) && DeliveryOk(c, s)
    ensures StoreOk(c, s.world, DropBlock(s, network, height).calls)
    ensures StoreOk(c, s.world, DropBlock(s, network, height).rollbacks)
  {
    var t := DropBlock(s, network, height);
    forall id | id in t.calls.rows ensures CopyOk(c, s.world, t.calls.rows[id]) {
      assert CopyOk(c, s.world, s.calls.rows[id]);
    }
    forall id | id in t.rollbacks.rows ensures CopyOk(c, s.world, t.rollbacks.rows[id]) {
      assert CopyOk(c, s.world, s.rollbacks.rows[id]);
    }
  }

  lemma DropUndoes(c: Config, s: State, network: string, height: int)
    requires ValidConfig(c) && DeliveryOk(c, s) && network in s.world.chain
    ensures UndoStep(c, s, DropBlock(s, network, height), network, Position(s.world.chain[network], height))
  {
    LoweredRows(c, s, network, height);
  }

  lemma BranchUndoes(c: Config, s: State, l: Label, s': State)
    requires DeliveryOk(c, s) && Next(c, s, l, s') && l.Branch?
    ensures UndoStep(c, s, s', l.network, l.from)
  {
    StepKeepsWorld(c, s, l, s');
    forall h | 0 <= h < |s.handlers| ensures Follows(s.handlers[h], s'.handlers[h], l.network, l.from) {
      assert s'.handlers[h] == Moved(s.handlers[h], l.network, l.from, l.positions[h]);
    }
  }

  // ----- steps

  /** A drop or a new branch: the network, and the position from which its events are owed. */
  predicate IsUndo(l: Label) {
    l.IsDrop() || l.Branch?
  }

  function UndoneFrom(s: State, l: Label): nat
    requires IsUndo(l) && l.network in s.world.chain
  {
    if l.Branch? then l.from else Position(s.world.chain[l.network], l.pass.height)
  }

  lemma FinalityUndoes(c: Config, s: State, l: Label, s': State) returns (t: State)
    requires ValidConfig(c) && DeliveryOk(c, s) && Next(c, s, l, s') && l.IsDrop()
    ensures l.network in s.world.chain && UndoStep(c, t, s', l.network, UndoneFrom(s, l))
  {
    if l.FinalizeCalls? {
      CallPassEffect(s, l.network, l.height, l.oracle, 0, l.pass, s');
    } else {
      RollbackPassEffect(s, l.network, l.height, l.oracle, 0, l.pass, s');
    }
    t :| (CallsFlagged(s, t) || RollbacksFlagged(s, t)) && s' == DropBlock(t, l.network, l.pass.height);
    FlaggingDelivers(c, s, t);
    DropUndoes(c, t, l.network, l.pass.height);
  }

  /** Delivery survives a drop or a new branch exactly when nothing is past the events that become owed. */
  lemma StepUndoesExactly(c: Config, s: State, l: Label, s': State)
    requires ValidConfig(c) && DeliveryOk(c, s) && Next(c, s, l, s') && IsUndo(l)
    ensures WorldOk(c, s'.world) && l.network in s.world.chain && l.network in s'.world.chain
    ensures UndoneFrom(s, l) <= |s'.world.chain[l.network]|
    ensures DeliveryOk(c, s') <==> NothingPast(c, s', l.network, UndoneFrom(s, l))
  {
    StepKeepsWorld(c, s, l, s');
    if l.Branch? {
      BranchUndoes(c, s, l, s');
      UndoDeliversExactly(c, s, s', l.network, l.from);
    } else {
      var t := FinalityUndoes(c, s, l, s');
      UndoDeliversExactly(c, t, s', l.network, UndoneFrom(s, l));
    }
  }

  lemma FinalityDelivers(c: Config, s: State, l: Label, s': State)
    requires DeliveryOk(c, s) && Next(c, s, l, s') && (l.FinalizeCalls? || l.FinalizeRollbacks?) && !l.IsDrop()
    ensures DeliveryOk(c, s')
  {
    if l.pass.Finalized? {
      if l.FinalizeCalls? {
        CallPassEffect(s, l.network, l.height, l.oracle, 0, l.pass, s');
      } else {
        RollbackPassEffect(s, l.network, l.height, l.oracle, 0, l.pass, s');
      }
      FlaggingDelivers(c, s, s');
    }
  }

  lemma StartDelivers(c: Config, s: State, l: Label, s': State)
    requires DeliveryOk(c, s) && Next(c, s, l, s') && l.Start?
    ensures DeliveryOk(c, s')
  {
    StartKeeps(c, s, l, s');
    forall h | 0 <= h < |s'.handlers|
      ensures Clean(c, s'.world, s'.handlers[h]) && HeldCopyOk(c, s'.world, s'.handlers[h])
    {
      assert StartsOrStays(s, s'.handlers[h], h);
      assert h < |s.handlers| ==> Clean(c, s.world, s.handlers[h]) && HeldCopyOk(c, s.world, s.handlers[h]);
    }
  }

  lemma StepDelivers(c: Config, s: State, l: Label, s': State)
    requires ValidConfig(c) && DeliveryOk(c, s) && Next(c, s, l, s') && !IsUndo(l)
    ensures DeliveryOk(c, s')
  {
    if l.ActCall? {
      CallActStores(c, s, l, s');
      ActStepDelivers(c, s, l, s');
    } else if l.ActRollback? {
      RollbackActStores(c, s, l, s');
      ActStepDelivers(c, s, l, s');
    } else if l.IsHandlerStep() {
      MonitorStepDelivers(c, s, l, s');
    } else if l.CallResult? || l.RollbackResult? {
      JobStepDelivers(c, s, l, s');
    } else if l.Start? {
      StartDelivers(c, s, l, s');
    } else {
      FinalityDelivers(c, s, l, s');
    }
  }

  // ----- runs in which nothing is past what becomes owed

  /** Step `i` drops or replaces nothing, or nothing is past it. */
  ghost predicate QuietUndo(c: Config, r: Run, i: nat)
    requires IsRun(c, r) && i < |r.labels|
  {
    IsUndo(r.labels[i]) ==>
      var s, l, s' := r.states[i], r.labels[i], r.states[i + 1];
      && WorldOk(c, s'.world) && l.network in s.world.chain && l.network in s'.world.chain
      && UndoneFrom(s, l) <= |s'.world.chain[l.network]|
      && NothingPast(c, s', l.network, UndoneFrom(s, l))
  }

  lemma DeliversAt(c: Config, r: Run, i: nat)
    requires ValidConfig(c) && IsRun(c, r) && i < |r.labels| && QuietUndo(c, r, i) && DeliveryOk(c, r.states[i])
    ensures DeliveryOk(c, r.states[i + 1])
  {
    var s, l, s' := r.states[i], r.labels[i], r.states[i + 1];
    assert Takes(c, r, i);
    if IsUndo(l) {
      StepUndoesExactly(c, s, l, s');
    } else {
      StepDelivers(c, s, l, s');
    }
  }

  lemma {:induction false} RunDelivers(c: Config, r: Run, k: nat)
    requires ValidConfig(c) && IsRun(c, r) && k < |r.states|
    requires forall i | 0 <= i < k :: QuietUndo(c, r, i)
    ensures DeliveryOk(c, r.states[k])
  {
    if k > 0 {
      RunDelivers(c, r, k - 1);
      DeliversAt(c, r, k - 1);
    }
  }

  /** In every run in which no drop or new branch finds anything past it - whatever handler errors,
      restarts, stale goroutines and failing saves there are: a monitor that has reached a position has
      every event before it handled, and handled again if it was dropped or replaced. */
  lemma NoEventSkipped(c: Config, r: Run, k: nat, h: nat, i: nat)
    requires ValidConfig(c) && IsRun(c, r) && k < |r.states|
    requires forall i | 0 <= i < k :: QuietUndo(c, r, i)
    requires h < |r.states[k].handlers| && r.states[k].handlers[h].phase.Live()
    requires var n, w := r.states[k].handlers[h].network, r.states[k].world;
             && n in w.chain && n in c.initHeight && i < Reached(r.states[k].handlers[h].phase) && i < |w.chain[n]|
             && c.initHeight[n] <= w.chain[n][i].height
    ensures (r.states[k].handlers[h].network, i) in r.states[k].world.handled
  {
    RunDelivers(c, r, k);
    assert Clean(c, r.states[k].world, r.states[k].handlers[h]);
    assert !Owed(c, r.states[k].world, r.states[k].handlers[h].network, i);
  }

  // ----- one monitor in any run

  /** The step neither drops nor replaces events of the network, and no new process begins. */
  predicate Leaves(l: Label, network: string) {
    (IsUndo(l) ==> l.network != network) && !(l.Start? && l.anew)
  }

  /** If monitor `m` opens its stream in this step, it starts in time. */
  ghost predicate OpensInTime(c: Config, s: State, l: Label, m: nat)
    requires WorldOk(c, s.world)
  {
    l.Open? && l.h == m && m < |s.handlers| && s.handlers[m].network in s.world.chain ==>
      var n := s.handlers[m].network;
      StartsInTime(c, s.world, n, StartHeight(c.initHeight[n], ResumeHeight(l.cm, l.rm)))
  }

  /** What was handled of a network stays handled, and its events stay, in steps that leave it alone. */
  lemma NetworkLeft(c: Config, s: State, l: Label, s': State, network: string)
    requires WorldOk(c, s.world) && Next(c, s, l, s') && Leaves(l, network) && network in s.world.chain
    ensures WorldOk(c, s'.world) && MoreHandledOf(s.world, s'.world, network)
  {
    StepKeepsWorld(c, s, l, s');
    if (l.FinalizeCalls? || l.FinalizeRollbacks?) && !l.pass.Aborted? {
      if l.FinalizeCalls? {
        CallPassEffect(s, l.network, l.height, l.oracle, 0, l.pass, s');
      } else {
        RollbackPassEffect(s, l.network, l.height, l.oracle, 0, l.pass, s');
      }
    }
  }

  /** Another step than the monitor's own leaves it where it is. */
  lemma MonitorLeft(c: Config, s: State, l: Label, s': State, m: nat)
    requires Next(c, s, l, s') && m < |s.handlers| && Leaves(l, s.handlers[m].network)
    requires l.IsHandlerStep() ==> l.h != m
    ensures m < |s'.handlers| && s'.handlers[m] == s.handlers[m]
  {
    if (l.FinalizeCalls? || l.FinalizeRollbacks?) && !l.pass.Aborted? {
      if l.FinalizeCalls? {
        CallPassEffect(s, l.network, l.height, l.oracle, 0, l.pass, s');
      } else {
        RollbackPassEffect(s, l.network, l.height, l.oracle, 0, l.pass, s');
      }
    }
  }

  lemma OwnStepInTime(c: Config, s: State, l: Label, s': State)
    requires WorldOk(c, s.world) && Next(c, s, l, s') && l.IsHandlerStep()
    requires OpensInTime(c, s, l, l.h) && Clean(c, s.world, s.handlers[l.h])
    ensures WorldOk(c, s'.world) && l.h < |s'.handlers| && s'.handlers[l.h].network == s.handlers[l.h].network
    ensures Clean(c, s'.world, s'.handlers[l.h])
  {
    StepKeepsWorld(c, s, l, s');
    if l.Open? {
      OpenIsInTimeExactly(c, s, l, s');
    } else {
      OwnStepClean(c, s, l, s');
    }
  }

  /** Monitor `m` is one of the network and has left nothing owed behind. */
  ghost predicate MonitorClean(c: Config, s: State, m: nat, network: string) {
    && WorldOk(c, s.world) && network in s.world.chain
    && m < |s.handlers| && s.handlers[m].network == network && Clean(c, s.world, s.handlers[m])
  }

  /** The step leaves the events of the network alone, and monitor `m`, if it opens its stream, starts in time. */
  ghost predicate StepInTime(c: Config, s: State, l: Label, m: nat, network: string) {
    Leaves(l, network) && WorldOk(c, s.world) && OpensInTime(c, s, l, m)
  }

  lemma StepKeepsClean(c: Config, s: State, l: Label, s': State, m: nat, network: string)
    requires MonitorClean(c, s, m, network) && Next(c, s, l, s') && StepInTime(c, s, l, m, network)
    ensures MonitorClean(c, s', m, network)
  {
    if l.IsHandlerStep() && l.h == m {
      OwnStepInTime(c, s, l, s');
    } else {
      MonitorLeft(c, s, l, s', m);
      NetworkLeft(c, s, l, s', network);
      CleanLeft(c, s.world, s'.world, s.handlers[m]);
    }
  }

  ghost predicate InTime(c: Config, r: Run, i: nat, j: nat, m: nat, network: string)
    requires i <= j < |r.states| == |r.labels| + 1
  {
    forall k | i <= k < j :: StepInTime(c, r.states[k], r.labels[k], m, network)
  }

  lemma KeepsCleanAt(c: Config, r: Run, i: nat, m: nat, network: string)
    requires IsRun(c, r) && i < |r.labels|
    requires MonitorClean(c, r.states[i], m, network) && StepInTime(c, r.states[i], r.labels[i], m, network)
    ensures MonitorClean(c, r.states[i + 1], m, network)
  {
    assert Takes(c, r, i);
    StepKeepsClean(c, r.states[i], r.labels[i], r.states[i + 1], m, network);
  }

  /** In every run, whatever the other monitors and the goroutines do: a monitor that starts in time
      whenever it opens its stream leaves nothing owed behind, until events of its network are dropped
      or replaced again, or its process ends. */
  lemma {:induction false} MonitorLeavesNothingOwed(c: Config, r: Run, i: nat, j: nat, m: nat, network: string)
    requires IsRun(c, r) && i <= j < |r.states|
    requires MonitorClean(c, r.states[i], m, network) && InTime(c, r, i, j, m, network)
    ensures MonitorClean(c, r.states[j], m, network)
    decreases j - i
  {
    if i < j {
      MonitorLeavesNothingOwed(c, r, i, j - 1, m, network);
      KeepsCleanAt(c, r, j - 1, m, network);
    }
  }

  lemma DropStartsMonitor(c: Config, s: State, l: Label, s': State)
    requires WorldOk(c, s.world) && Next(c, s, l, s') && l.IsDrop()
    ensures |s'.handlers| == |s.handlers| + 1 && s'.handlers[|s.handlers|] == Handler(l.network, Stopped)
    ensures l.network in s.world.chain && s'.world.chain == s.world.chain
    ensures forall q: nat | q < |s.world.chain[l.network]| && s.world.chain[l.network][q].height >= l.pass.height ::
              (l.network, q) !in s'.world.handled
  {
    if l.FinalizeCalls? {
      CallPassEffect(s, l.network, l.height, l.oracle, 0, l.pass, s');
    } else {
      RollbackPassEffect(s, l.network, l.height, l.oracle, 0, l.pass, s');
    }
  }

  /** From `height` on, no event of the network counts as handled. */
  ghost predicate OwedFrom(w: World, network: string, height: int) {
    && network in w.chain
    && forall q: nat | q < |w.chain[network]| && w.chain[network][q].height >= height :: (network, q) !in w.handled
  }

  lemma StoppedIsClean(c: Config, s: State, l: Label, s': State)
    requires WorldOk(c, s.world) && WorldOk(c, s'.world) && Next(c, s, l, s') && l.IsDrop()
    ensures MonitorClean(c, s', |s.handlers|, l.network) && OwedFrom(s'.world, l.network, l.pass.height)
  {
    DropStartsMonitor(c, s, l, s');
  }

  lemma DropStartsClean(c: Config, r: Run, i: nat)
    requires IsRun(c, r) && i < |r.labels| && r.labels[i].IsDrop()
    ensures MonitorClean(c, r.states[i + 1], |r.states[i].handlers|, r.labels[i].network)
    ensures OwedFrom(r.states[i + 1].world, r.labels[i].network, r.labels[i].pass.height)
  {
    var s, l, s' := r.states[i], r.labels[i], r.states[i + 1];
    RunKeepsWorld(c, r, i);
    assert Takes(c, r, i);
    StepKeepsWorld(c, s, l, s');
    StoppedIsClean(c, s, l, s');
  }

  /** What the monitor started by a drop does: the dropped events are owed, and if it starts in time
      whenever it opens its stream, it has handled every event it got past - the dropped ones again. */
  lemma DroppedEventsAreHandledAgain(c: Config, r: Run, i: nat, j: nat, m: nat, network: string)
    requires IsRun(c, r) && i < j < |r.states| && r.labels[i].IsDrop()
    requires m == |r.states[i].handlers| && network == r.labels[i].network && InTime(c, r, i + 1, j, m, network)
    ensures OwedFrom(r.states[i + 1].world, network, r.labels[i].pass.height)
    ensures MonitorClean(c, r.states[j], m, network)
  {
    DropStartsClean(c, r, i);
    MonitorLeavesNothingOwed(c, r, i + 1, j, m, network);
  }
}
