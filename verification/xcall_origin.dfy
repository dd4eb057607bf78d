/**
 What a row is about: in every run its event, its block and its contents are those of
 accepted events for its own network and key. Goroutines' copies and failed inserts included,
 no write ever mixes two requests or two events.
 */
module XCallOrigin {
  import opened Wrappers
  import opened XCallStore
  import opened XCallMachine
  import opened XCallSafety
  import opened XCallUnique
  import opened XCallOutcome

  /** The part of a row that says which request it is and where it was announced. */
  datatype Origin<E> = Origin(network: string, key: nat, eventHeight: int, eventBlockId: string, data: E)

  function OriginOf<E>(r: Row<E>): Origin<E> {
    Origin(r.network, r.key, r.eventHeight, r.eventBlockId, r.data)
  }

  ghost predicate Announces(a: Accepted, o: Origin<CallData>) {
    a.network == o.network && a.event == CallMessage(o.eventHeight, o.eventBlockId, o.key, o.data)
  }

  /** A Call is an accepted CallMessage of its network: its block, its request id, its contents. */
  ghost predicate IsAnnounced(log: seq<Accepted>, o: Origin<CallData>) {
    exists a :: a in log && Announces(a, o)
  }

  ghost function CallOrigins(log: seq<Accepted>): iset<Origin<CallData>> {
    iset o: Origin<CallData> | IsAnnounced(log, o)
  }

  ghost predicate Sends(a: Accepted, o: Origin<RollbackData>) {
    && a.network == o.network
    && a.event == CallMessageSent(o.data.triggerHeight, o.data.triggerBlockId, o.key, o.data.from, o.data.to)
  }

  ghost predicate Answers(a: Accepted, o: Origin<RollbackData>) {
    && a.network == o.network && a.event.ResponseMessage?
    && a.event.sn == o.key && a.event.height == o.eventHeight && a.event.blockId == o.eventBlockId
  }

  ghost predicate Answerless(o: Origin<RollbackData>) {
    o.eventHeight == 0 && o.eventBlockId == ""
  }

  /** A Rollback is an accepted CallMessageSent of its network, with its endpoints and trigger
      block, and no response yet or an accepted one for the same serial number. */
  ghost predicate IsSent(log: seq<Accepted>, o: Origin<RollbackData>) {
    && (exists a :: a in log && Sends(a, o))
    && (Answerless(o) || exists a :: a in log && Answers(a, o))
  }

  ghost function RollbackOrigins(log: seq<Accepted>): iset<Origin<RollbackData>> {
    iset o: Origin<RollbackData> | IsSent(log, o)
  }

  lemma OriginsGrow(log: seq<Accepted>, log': seq<Accepted>)
    requires log <= log'
    ensures CallOrigins(log) <= CallOrigins(log') && RollbackOrigins(log) <= RollbackOrigins(log')
  {
    assert forall a | a in log :: a in log';
  }

  ghost predicate Genuine<E(!new)>(s: Store<E>, g: iset<Origin<E>>) {
    && (forall id | id in s.rows :: OriginOf(s.rows[id]) in g)
    && (forall j | 0 <= j < |s.jobs| && s.jobs[j].Some? :: OriginOf(s.jobs[j].value.body) in g)
  }

  ghost predicate HeldGenuine(log: seq<Accepted>, h: Handler) {
    match h.phase
    case HoldsCall(_, _, Some(r)) => OriginOf(r.body) in CallOrigins(log)
    case HoldsRollback(_, _, Some(r)) => OriginOf(r.body) in RollbackOrigins(log)
    case _ => true
  }

  ghost predicate OriginOk(s: State) {
    && Genuine(s.calls, CallOrigins(s.world.log)) && Genuine(s.rollbacks, RollbackOrigins(s.world.log))
    && forall h | 0 <= h < |s.handlers| :: HeldGenuine(s.world.log, s.handlers[h])
  }

  // ----- writes

  lemma SaveGenuine<E(!new)>(s: Store<E>, r: Record<E>, g: iset<Origin<E>>)
    requires Genuine(s, g) && OriginOf(r.body) in g
    ensures Genuine(Save(s, r), g) && Genuine(Spawn(s, r), g)
  {
  }

  lemma ExecuteGenuine<E(!new)>(s: Store<E>, r: Record<E>, invoked: Invoked, skips: set<string>, ok: bool,
                                g: iset<Origin<E>>)
    requires Genuine(s, g) && OriginOf(r.body) in g
    ensures Genuine(Execute(s, r, invoked, skips, ok), g)
  {
    match invoked
    case Refused(error) => SaveGenuine(s, Failed(r, error, skips), g);
    case Submitted(txId) =>
      var sent := r.(body := r.body.(state := StateSending, txId := txId));
      SaveGenuine(s, sent, g);
      SaveGenuine(SaveIfNotDone(s, sent, ok), sent.(id := SavedIfId(s, sent, ok)), g);
  }

  lemma ResultGenuine<E(!new)>(s: Store<E>, j: nat, result: TxResult, invoked: Invoked, skips: set<string>, ok: bool,
                               g: iset<Origin<E>>)
    requires Genuine(s, g) && j < |s.jobs| && s.jobs[j].Some?
    ensures Genuine(Result(s, j, result, invoked, skips, ok), g)
  {
    var r, ended := s.jobs[j].value, End(s, j);
    assert Genuine(ended, g);
    match result
    case NotAvailable =>
    case UnknownTransaction => ExecuteGenuine(ended, r.(body := r.body.(txId := "")), invoked, skips, ok, g);
    case Reverted(error) => SaveGenuine(ended, Failed(r, error, skips), g);
    case Executed(height, blockId) =>
      SaveGenuine(ended, r.(body := r.body.(state := StateSent, blockHeight := height, blockId := blockId)), g);
  }

  // ----- events

  lemma CallActGenuine(log: seq<Accepted>, s: Store<CallData>, a: Accepted, found: Option<Record<CallData>>,
                       invoked: Invoked, ok: bool)
    requires Genuine(s, CallOrigins(log)) && a in log && a.event.IsCall()
    requires found.Some? ==> OriginOf(found.value.body) in CallOrigins(log)
    ensures Genuine(OnCall(s, a.network, a.event, found, invoked, ok).store, CallOrigins(log))
  {
    var cm := NewCall(a.network, a.event);
    if a.event.CallMessage? {
      assert Announces(a, OriginOf(cm));
      ExecuteGenuine(s, Record(if found.Some? then found.value.id else 0, cm), invoked, CALL_SKIPS, ok,
                     CallOrigins(log));
      if found.Some? {
        SaveGenuine(s, found.value, CallOrigins(log));
      }
    } else if found.Some? {
      SaveGenuine(s, Completed(found.value, cm), CallOrigins(log));
    }
  }

  lemma AnsweredGenuine(log: seq<Accepted>, a: Accepted, found: Record<RollbackData>)
    requires a in log && a.event.ResponseMessage?
    requires OriginOf(found.body) in RollbackOrigins(log) && For(found.body, a.network, a.event.sn)
    ensures OriginOf(Answered(found, NewRollback(a.network, a.event)).body) in RollbackOrigins(log)
  {
    var o := OriginOf(Answered(found, NewRollback(a.network, a.event)).body);
    var sent :| sent in log && Sends(sent, OriginOf(found.body));
    assert Sends(sent, o) && Answers(a, o);
  }

  lemma ResponseGenuine(log: seq<Accepted>, s: Store<RollbackData>, a: Accepted, found: Record<RollbackData>,
                        invoked: Invoked, ok: bool)
    requires Genuine(s, RollbackOrigins(log)) && a in log && a.event.ResponseMessage?
    requires OriginOf(found.body) in RollbackOrigins(log) && For(found.body, a.network, a.event.sn)
    ensures Genuine(OnRollback(s, a.network, a.event, Some(found), invoked, ok).store, RollbackOrigins(log))
  {
    var answered := Answered(found, NewRollback(a.network, a.event));
    AnsweredGenuine(log, a, found);
    SaveGenuine(s, found, RollbackOrigins(log));
    SaveGenuine(s, answered, RollbackOrigins(log));
    ExecuteGenuine(s, answered, invoked, ROLLBACK_SKIPS, ok, RollbackOrigins(log));
  }

  lemma RollbackActGenuine(log: seq<Accepted>, s: Store<RollbackData>, a: Accepted, found: Option<Record<RollbackData>>,
                           invoked: Invoked, ok: bool)
    requires Genuine(s, RollbackOrigins(log)) && a in log && a.event.IsRollback()
    requires found.Some? ==>
               OriginOf(found.value.body) in RollbackOrigins(log) && For(found.value.body, a.network, a.event.Key())
    ensures Genuine(OnRollback(s, a.network, a.event, found, invoked, ok).store, RollbackOrigins(log))
  {
    var rm := NewRollback(a.network, a.event);
    if a.event.CallMessageSent? {
      assert Sends(a, OriginOf(rm)) && Answerless(OriginOf(rm));
      SaveGenuine(s, Record(0, rm), RollbackOrigins(log));
    } else if found.Some? {
      if a.event.ResponseMessage? {
        ResponseGenuine(log, s, a, found.value, invoked, ok);
      } else {
        SaveGenuine(s, Completed(found.value, rm), RollbackOrigins(log));
      }
    }
  }

  // ----- steps

  /** What was genuine stays so when more is accepted. */
  lemma MoreGenuine(s: State, log: seq<Accepted>)
    requires OriginOk(s) && s.world.log <= log
    ensures Genuine(s.calls, CallOrigins(log)) && Genuine(s.rollbacks, RollbackOrigins(log))
    ensures forall h | 0 <= h < |s.handlers| :: HeldGenuine(log, s.handlers[h])
  {
    OriginsGrow(s.world.log, log);
    forall h | 0 <= h < |s.handlers| ensures HeldGenuine(log, s.handlers[h]) {
      assert HeldGenuine(s.world.log, s.handlers[h]);
    }
  }

  lemma CallActStoresGenuine(c: Config, s: State, l: Label, s': State)
    requires OriginOk(s) && Next(c, s, l, s') && l.ActCall? && s'.world != s.world
    ensures Genuine(s'.calls, CallOrigins(s'.world.log)) && Genuine(s'.rollbacks, RollbackOrigins(s'.world.log))
  {
    var h, log := s.handlers[l.h], s'.world.log;
    MoreGenuine(s, log);
    AcceptedActIsLogged(c, s, l, s');
    assert HeldGenuine(log, h) && Accepted(h.network, h.phase.event) in log;
    CallActGenuine(log, s.calls, Accepted(h.network, h.phase.event), h.phase.call, l.invoked, l.ok);
  }

  lemma RollbackActStoresGenuine(c: Config, s: State, l: Label, s': State)
    requires OriginOk(s) && TrueOk(s) && Next(c, s, l, s') && l.ActRollback? && s'.world != s.world
    ensures Genuine(s'.calls, CallOrigins(s'.world.log)) && Genuine(s'.rollbacks, RollbackOrigins(s'.world.log))
  {
    var h, log := s.handlers[l.h], s'.world.log;
    assert HeldTrue(s, h);
    MoreGenuine(s, log);
    AcceptedActIsLogged(c, s, l, s');
    assert HeldGenuine(log, h) && Accepted(h.network, h.phase.event) in log;
    RollbackActGenuine(log, s.rollbacks, Accepted(h.network, h.phase.event), h.phase.rollback, l.invoked, l.ok);
  }

  lemma ActStoresGenuine(c: Config, s: State, l: Label, s': State)
    requires OriginOk(s) && TrueOk(s) && Next(c, s, l, s') && (l.ActCall? || l.ActRollback?)
    ensures Genuine(s'.calls, CallOrigins(s'.world.log)) && Genuine(s'.rollbacks, RollbackOrigins(s'.world.log))
  {
    if s'.world == s.world {
      FailedActWritesNothing(c, s, l, s');
    } else if l.ActCall? {
      CallActStoresGenuine(c, s, l, s');
    } else {
      RollbackActStoresGenuine(c, s, l, s');
    }
  }

  lemma HandlersStayGenuine(c: Config, s: State, l: Label, s': State)
    requires OriginOk(s) && Next(c, s, l, s') && (l.ActCall? || l.ActRollback?)
    ensures forall k | 0 <= k < |s'.handlers| :: HeldGenuine(s'.world.log, s'.handlers[k])
  {
    MoreGenuine(s, s'.world.log);
    forall k | 0 <= k < |s'.handlers| ensures HeldGenuine(s'.world.log, s'.handlers[k]) {
      assert k != l.h ==> s'.handlers[k] == s.handlers[k];
    }
  }

  lemma ActStepGenuine(c: Config, s: State, l: Label, s': State)
    requires OriginOk(s) && TrueOk(s) && Next(c, s, l, s') && (l.ActCall? || l.ActRollback?)
    ensures OriginOk(s')
  {
    ActStoresGenuine(c, s, l, s');
    HandlersStayGenuine(c, s, l, s');
  }

  lemma MonitorStepGenuine(c: Config, s: State, l: Label, s': State)
    requires OriginOk(s) && Next(c, s, l, s') && l.IsHandlerStep() && !l.ActCall? && !l.ActRollback?
    ensures OriginOk(s')
  {
    MoreGenuine(s, s'.world.log);
    forall k | 0 <= k < |s'.handlers| ensures HeldGenuine(s'.world.log, s'.handlers[k]) {
      assert k != l.h ==> s'.handlers[k] == s.handlers[k];
    }
  }

  lemma BranchGenuine(c: Config, s: State, l: Label, s': State)
    requires OriginOk(s) && Next(c, s, l, s') && l.Branch?
    ensures OriginOk(s')
  {
    BranchKeepsHeld(c, s, l, s');
    forall k | 0 <= k < |s'.handlers| ensures HeldGenuine(s'.world.log, s'.handlers[k]) {
      assert HeldGenuine(s.world.log, s.handlers[k]) && SameButNext(s.handlers[k], s'.handlers[k]);
    }
  }

  lemma StartGenuine(c: Config, s: State, l: Label, s': State)
    requires OriginOk(s) && Next(c, s, l, s') && l.Start?
    ensures OriginOk(s')
  {
    StartKeeps(c, s, l, s');
    forall h | 0 <= h < |s'.handlers| ensures HeldGenuine(s'.world.log, s'.handlers[h]) {
      assert StartsOrStays(s, s'.handlers[h], h);
      assert h < |s.handlers| ==> HeldGenuine(s.world.log, s.handlers[h]);
    }
  }

  lemma FlagKeepsOrigin(log: seq<Accepted>, o: Origin<RollbackData>, o': Origin<RollbackData>)
    requires o in RollbackOrigins(log)
    requires o' == o || o' == o.(data := o.data.(triggerFinalized := o'.data.triggerFinalized))
    ensures o' in RollbackOrigins(log)
  {
    var sent :| sent in log && Sends(sent, o);
    assert Sends(sent, o');
    if !Answerless(o) {
      var a :| a in log && Answers(a, o);
      assert Answers(a, o');
    }
  }

  lemma CallsFlaggedGenuine(s: State, t: State)
    requires OriginOk(s) && CallsFlagged(s, t)
    ensures OriginOk(t)
  {
    forall id | id in t.calls.rows ensures OriginOf(t.calls.rows[id]) in CallOrigins(t.world.log) {
      assert OriginOf(t.calls.rows[id]) == OriginOf(s.calls.rows[id]);
    }
  }

  lemma RollbacksFlaggedGenuine(s: State, t: State)
    requires OriginOk(s) && RollbacksFlagged(s, t)
    ensures OriginOk(t)
  {
    forall id | id in t.rollbacks.rows ensures OriginOf(t.rollbacks.rows[id]) in RollbackOrigins(t.world.log) {
      FlagKeepsOrigin(s.world.log, OriginOf(s.rollbacks.rows[id]), OriginOf(t.rollbacks.rows[id]));
    }
  }

  lemma ResetKeepsOrigin(log: seq<Accepted>, r: Rollback, network: string, height: int)
    requires OriginOf(r) in RollbackOrigins(log)
    ensures OriginOf(ResetExecution(ResetEvent(r, network, height), network, height)) in RollbackOrigins(log)
  {
    var o := OriginOf(ResetExecution(ResetEvent(r, network, height), network, height));
    var sent :| sent in log && Sends(sent, OriginOf(r));
    assert Sends(sent, o);
    assert o == OriginOf(r) || Answerless(o);
  }

  lemma DroppedCallsGenuine(s: State, network: string, height: int)
    requires OriginOk(s)
    ensures Genuine(DropBlock(s, network, height).calls, CallOrigins(s.world.log))
  {
    var t := DropBlock(s, network, height);
    forall id | id in t.calls.rows ensures OriginOf(t.calls.rows[id]) in CallOrigins(s.world.log) {
      assert OriginOf(t.calls.rows[id]) == OriginOf(s.calls.rows[id]);
    }
  }

  lemma DroppedRollbacksGenuine(s: State, network: string, height: int)
    requires OriginOk(s)
    ensures Genuine(DropBlock(s, network, height).rollbacks, RollbackOrigins(s.world.log))
  {
    var t := DropBlock(s, network, height);
    forall id | id in t.rollbacks.rows ensures OriginOf(t.rollbacks.rows[id]) in RollbackOrigins(s.world.log) {
      ResetKeepsOrigin(s.world.log, s.rollbacks.rows[id], network, height);
    }
  }

  lemma DropGenuine(s: State, network: string, height: int)
    requires OriginOk(s)
    ensures OriginOk(DropBlock(s, network, height))
  {
    DroppedCallsGenuine(s, network, height);
    DroppedRollbacksGenuine(s, network, height);
  }

  lemma FinalityGenuine(c: Config, s: State, l: Label, s': State)
    requires OriginOk(s) && Next(c, s, l, s') && (l.FinalizeCalls? || l.FinalizeRollbacks?)
    ensures OriginOk(s')
  {
    if !l.pass.Aborted? {
      var height := if l.pass.Dropped? then l.pass.height else 0;
      if l.FinalizeCalls? {
        CallPassEffect(s, l.network, l.height, l.oracle, 0, l.pass, s');
        var t :| CallsFlagged(s, t) && (s' == t || s' == DropBlock(t, l.network, height));
        CallsFlaggedGenuine(s, t);
        DropGenuine(t, l.network, height);
      } else {
        RollbackPassEffect(s, l.network, l.height, l.oracle, 0, l.pass, s');
        var t :| RollbacksFlagged(s, t) && (s' == t || s' == DropBlock(t, l.network, height));
        RollbacksFlaggedGenuine(s, t);
        DropGenuine(t, l.network, height);
      }
    }
  }

  lemma StepGenuine(c: Config, s: State, l: Label, s': State)
    requires OriginOk(s) && TrueOk(s) && Next(c, s, l, s')
    ensures OriginOk(s')
  {
    if l.ActCall? || l.ActRollback? {
      ActStepGenuine(c, s, l, s');
    } else if l.IsHandlerStep() {
      MonitorStepGenuine(c, s, l, s');
    } else if l.CallResult? {
      ResultGenuine(s.calls, l.j, l.result, l.invoked, CALL_SKIPS, l.ok, CallOrigins(s.world.log));
    } else if l.RollbackResult? {
      ResultGenuine(s.rollbacks, l.j, l.result, l.invoked, ROLLBACK_SKIPS, l.ok, RollbackOrigins(s.world.log));
    } else if l.Branch? {
      BranchGenuine(c, s, l, s');
    } else if l.Start? {
      StartGenuine(c, s, l, s');
    } else {
      FinalityGenuine(c, s, l, s');
    }
  }

  lemma GenuineAt(c: Config, r: Run, i: nat)
    requires ValidConfig(c) && PositiveRun(r) && IsRun(c, r) && i < |r.labels| && OriginOk(r.states[i])
    ensures OriginOk(r.states[i + 1])
  {
    RunTrue(c, r, i);
    assert Takes(c, r, i);
    StepGenuine(c, r.states[i], r.labels[i], r.states[i + 1]);
  }

  /** In every run - drops, replaced branches and second monitors included - every Call row and every
      copy of one is about an accepted CallMessage of its network, and every Rollback about an accepted
      CallMessageSent, answered by an accepted ResponseMessage to the same serial number or not yet. */
  lemma {:induction false} RowsRecordTheirEvents(c: Config, r: Run, k: nat)
    requires ValidConfig(c) && PositiveRun(r) && IsRun(c, r) && k < |r.states|
    ensures OriginOk(r.states[k])
  {
    if k > 0 {
      RowsRecordTheirEvents(c, r, k - 1);
      GenuineAt(c, r, k - 1);
    }
  }
}
