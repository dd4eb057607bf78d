/**
 Redelivery does not duplicate Calls: in runs in which no monitor is started while others go on,
 a positive request id has at most one row as long as what is submitted is inserted, and an
 accepted CallMessage has one if every new request is. What exactly keeps rows unique in any run
 is the subject of `XCallRows`.
 */
module XCallUnique {
  import opened Wrappers
  import opened XCallStore
  import opened XCallMachine
  import opened XCallSafety

  /** The key was issued for this network and request id. */
  ghost predicate Tied<E>(s: Store<E>, id: nat, body: Row<E>) {
    && 1 <= id <= |s.issued|
    && s.issued[id - 1].network == body.network && s.issued[id - 1].key == body.key
  }

  ghost predicate TiedHeld<E>(s: Store<E>, held: Option<Record<E>>) {
    held.Some? ==> Tied(s, held.value.id, held.value.body) && held.value.body.state != StateNone
  }

  ghost predicate For<E>(body: Row<E>, network: string, key: nat) {
    body.network == network && body.key == key
  }

  ghost predicate Known<E>(s: Store<E>, network: string, key: nat) {
    exists a :: 0 <= a < |s.issued| && For(s.issued[a], network, key)
  }

  /** Rows are exactly the issued keys, every copy is tied to its key, no request was issued twice. */
  ghost predicate Unique<E>(s: Store<E>) {
    && (forall id | id in s.rows :: Tied(s, id, s.rows[id]) && s.rows[id].state != StateNone)
    && (forall id | 1 <= id <= |s.issued| :: id in s.rows)
    && (forall j | 0 <= j < |s.jobs| && s.jobs[j].Some? ::
          Tied(s, s.jobs[j].value.id, s.jobs[j].value.body) && s.jobs[j].value.body.state != StateNone)
    && (forall a, b | 0 <= a < b < |s.issued| && s.issued[a].network == s.issued[b].network
        && s.issued[a].key == s.issued[b].key ::
          s.issued[a].key == 0)
  }

  /** A record that may be saved: of a new request, or a copy of a row. */
  ghost predicate Savable<E>(s: Store<E>, r: Record<E>) {
    if r.id == 0 then r.body.key == 0 || !Known(s, r.body.network, r.body.key) else Tied(s, r.id, r.body)
  }

  lemma SaveUnique<E>(s: Store<E>, r: Record<E>, ok: bool)
    requires Unique(s) && r.body.state != StateNone && Savable(s, r)
    ensures var s' := SaveIfNotDone(s, r, ok); Unique(s') && s.issued <= s'.issued && s'.jobs == s.jobs
    ensures ok || r.id != 0 ==> Tied(SaveIfNotDone(s, r, ok), SavedIfId(s, r, ok), r.body)
    ensures r.id != 0 || !ok ==> SaveIfNotDone(s, r, ok).issued == s.issued
  {
    var s' := SaveIfNotDone(s, r, ok);
    if r.id == 0 && ok {
      assert s'.issued == s.issued + [r.body];
      forall a | 0 <= a < |s.issued| && s.issued[a].network == r.body.network && s.issued[a].key == r.body.key
        ensures s.issued[a].key == 0
      {
        assert For(s.issued[a], r.body.network, r.body.key);
      }
    }
  }

  lemma SpawnUnique<E>(s: Store<E>, r: Record<E>)
    requires Unique(s) && Tied(s, r.id, r.body) && r.body.state != StateNone
    ensures Unique(Spawn(s, r))
  {
  }

  lemma ExecuteUnique<E>(s: Store<E>, r: Record<E>, invoked: Invoked, skips: set<string>, ok: bool)
    requires Unique(s) && Savable(s, r) && (r.id == 0 && invoked.Submitted? ==> ok)
    ensures var s' := Execute(s, r, invoked, skips, ok); Unique(s') && s.issued <= s'.issued
    ensures ok || r.id != 0 ==> Known(Execute(s, r, invoked, skips, ok), r.body.network, r.body.key)
    ensures r.id != 0 || !ok ==> Execute(s, r, invoked, skips, ok).issued == s.issued
    ensures forall n, key: nat | !Known(s, n, key) && (n, key) != (r.body.network, r.body.key) ::
              !Known(Execute(s, r, invoked, skips, ok), n, key)
  {
    var sent := match invoked
      case Refused(error) => Failed(r, error, skips)
      case Submitted(txId) => r.(body := r.body.(state := StateSending, txId := txId));
    SaveUnique(s, sent, ok);
    var s' := Execute(s, r, invoked, skips, ok);
    if invoked.Submitted? {
      SpawnUnique(SaveIfNotDone(s, sent, ok), sent.(id := SavedIfId(s, sent, ok)));
    }
    if ok || r.id != 0 {
      IssuedGrowsBy(s, sent, s');
    } else {
      SameIssued(s, s');
    }
  }

  lemma SameIssued<E>(s: Store<E>, s': Store<E>)
    requires s'.issued == s.issued
    ensures forall n, key: nat :: Known(s', n, key) <==> Known(s, n, key)
  {
  }

  /** A save makes at most its own request known. */
  lemma IssuedGrowsBy<E>(s: Store<E>, r: Record<E>, s': Store<E>)
    requires s'.issued == Save(s, r).issued && 1 <= SavedId(s, r) <= |s'.issued|
    requires For(s'.issued[SavedId(s, r) - 1], r.body.network, r.body.key)
    ensures Known(s', r.body.network, r.body.key)
    ensures forall n, key: nat | !Known(s, n, key) && (n, key) != (r.body.network, r.body.key) :: !Known(s', n, key)
  {
    forall n, key: nat | Known(s', n, key) && (n, key) != (r.body.network, r.body.key) ensures Known(s, n, key) {
      var a :| 0 <= a < |s'.issued| && For(s'.issued[a], n, key);
      assert s'.issued[a] == s.issued[a];
    }
  }

  lemma ResultUnique<E>(s: Store<E>, j: nat, result: TxResult, invoked: Invoked, skips: set<string>, ok: bool)
    requires Unique(s) && j < |s.jobs| && s.jobs[j].Some?
    ensures Unique(Result(s, j, result, invoked, skips, ok))
    ensures Result(s, j, result, invoked, skips, ok).issued == s.issued
  {
    var r, ended := s.jobs[j].value, End(s, j);
    assert Unique(ended);
    match result
    case NotAvailable =>
    case UnknownTransaction => ExecuteUnique(ended, r.(body := r.body.(txId := "")), invoked, skips, ok);
    case Reverted(error) => SaveUnique(ended, Failed(r, error, skips), ok);
    case Executed(height, blockId) =>
      SaveUnique(ended, r.(body := r.body.(state := StateSent, blockHeight := height, blockId := blockId)), ok);
  }

  // ----- the whole system

  /** What a handler about to act on an event knows from its read. */
  ghost predicate ReadOk(s: State, h: Handler) {
    h.phase.HoldsCall? && h.phase.event.IsCall() ==>
      var key := h.phase.event.reqId;
      && TiedHeld(s.calls, h.phase.call)
      && (h.phase.call.Some? && key != 0 ==> For(h.phase.call.value.body, h.network, key))
      && (h.phase.call.None? && key != 0 ==> !Known(s.calls, h.network, key))
  }

  ghost predicate UniqueOk(s: State) {
    && Unique(s.calls) && OneHandlerEach(s)
    && forall h | 0 <= h < |s.handlers| :: ReadOk(s, s.handlers[h])
  }

  /** Accepted call messages have a row. */
  ghost predicate AcceptedKnown(s: State) {
    forall a | a in s.world.log && a.event.CallMessage? && a.event.reqId != 0 ::
        Known(s.calls, a.network, a.event.reqId)
  }

  /** The step acts on a CallMessage for which no row was found. */
  predicate IsNewRequest(s: State, l: Label) {
    && l.ActCall? && l.h < |s.handlers| && s.handlers[l.h].phase.HoldsCall?
    && s.handlers[l.h].phase.event.CallMessage? && s.handlers[l.h].phase.call.None?
  }

  /** What is submitted for a new request is inserted. Other saves may fail, also of refused calls. */
  predicate SubmittedIsInserted(s: State, l: Label) {
    IsNewRequest(s, l) && l.invoked.Submitted? ==> l.ok
  }

  /** A new request is inserted. */
  predicate NewIsInserted(s: State, l: Label) {
    IsNewRequest(s, l) ==> l.ok
  }

  lemma KnownGrows(s: State, s': State)
    requires s.calls.issued <= s'.calls.issued
    ensures forall n, key | Known(s.calls, n, key) :: Known(s'.calls, n, key)
    ensures forall id, body: Call | Tied(s.calls, id, body) :: Tied(s'.calls, id, body)
  {
    forall n, key | Known(s.calls, n, key) ensures Known(s'.calls, n, key) {
      var a :| 0 <= a < |s.calls.issued| && For(s.calls.issued[a], n, key);
      assert For(s'.calls.issued[a], n, key);
    }
  }

  lemma CallActUnique(s: Store<CallData>, network: string, e: Event, found: Option<Record<CallData>>,
                      invoked: Invoked, ok: bool)
    requires e.IsCall() && Unique(s) && TiedHeld(s, found)
    requires e.reqId != 0 && found.Some? ==> For(found.value.body, network, e.reqId)
    requires e.reqId != 0 && found.None? ==> !Known(s, network, e.reqId)
    requires e.CallMessage? && found.None? && invoked.Submitted? ==> ok
    ensures var s' := OnCall(s, network, e, found, invoked, ok).store;
            && Unique(s') && s.issued <= s'.issued
            && (forall n, key | !Known(s, n, key) && n != network :: !Known(s', n, key))
            && (e.CallMessage? && e.reqId != 0 && (ok || found.Some?) ==> Known(s', network, e.reqId))
  {
    var cm := NewCall(network, e);
    if e.CallMessage? {
      if found.None? {
        ExecuteUnique(s, Record(0, cm), invoked, CALL_SKIPS, ok);
      } else {
        SpawnUnique(s, found.value);
        assert e.reqId != 0 ==> For(s.issued[found.value.id - 1], network, e.reqId);
      }
    } else if found.Some? {
      var done := Completed(found.value, cm);
      assert Save(s, done) == s.(rows := s.rows[done.id := done.body]);
    }
  }

  lemma ActStepUnique(c: Config, s: State, l: Label, s': State)
    requires UniqueOk(s) && Next(c, s, l, s') && l.ActCall? && SubmittedIsInserted(s, l)
    ensures UniqueOk(s') && s.calls.issued <= s'.calls.issued
    ensures var e := s.handlers[l.h].phase.event;
            e.CallMessage? && e.reqId != 0 && NewIsInserted(s, l) ==> Known(s'.calls, s.handlers[l.h].network, e.reqId)
  {
    var h := s.handlers[l.h];
    assert ReadOk(s, h);
    CallActUnique(s.calls, h.network, h.phase.event, h.phase.call, l.invoked, l.ok);
    KnownGrows(s, s');
    forall k | 0 <= k < |s'.handlers| ensures ReadOk(s', s'.handlers[k]) {
      if k != l.h {
        assert s'.handlers[k] == s.handlers[k] && ReadOk(s, s.handlers[k]);
        assert s.handlers[k].network != h.network;
      }
    }
  }

  /** A known request has a row. */
  lemma KnownRow(s: Store<CallData>, network: string, key: nat) returns (id: nat)
    requires Unique(s) && Known(s, network, key)
    ensures id in s.rows && For(s.rows[id], network, key)
  {
    var a :| 0 <= a < |s.issued| && For(s.issued[a], network, key);
    id := a + 1;
    assert id in s.rows && Tied(s, id, s.rows[id]);
  }

  /** What a read finds is known, and nothing is known under what it does not find. */
  lemma ReadTells(s: Store<CallData>, network: string, key: nat, found: Option<Record<CallData>>)
    requires Unique(s) && network != "" && IsFirst(s, network, key, found)
    ensures TiedHeld(s, found)
    ensures key != 0 && found.Some? ==> For(found.value.body, network, key)
    ensures key != 0 && found.None? ==> !Known(s, network, key)
  {
    if found.Some? {
      assert Tied(s, found.value.id, found.value.body);
    } else if key != 0 && Known(s, network, key) {
      var id := KnownRow(s, network, key);
    }
  }

  lemma ReadStepUnique(c: Config, s: State, l: Label, s': State)
    requires ValidConfig(c) && UniqueOk(s) && Next(c, s, l, s') && l.ReadCall?
    ensures UniqueOk(s')
  {
    var h := s.handlers[l.h];
    ReadTells(s.calls, h.network, s.world.chain[h.network][h.phase.next].Key(), l.call);
    forall k | 0 <= k < |s'.handlers| ensures ReadOk(s', s'.handlers[k]) {
      assert ReadOk(s, s.handlers[k]);
    }
  }

  /** The other handler steps neither touch the Call table nor end the handling of a CallMessage. */
  lemma MonitorStepUnique(c: Config, s: State, l: Label, s': State)
    requires ValidConfig(c) && UniqueOk(s) && Next(c, s, l, s') && l.IsHandlerStep() && !l.ActCall? && !l.ReadCall?
    ensures UniqueOk(s')
  {
    assert s'.calls == s.calls;
    forall k | 0 <= k < |s'.handlers| ensures ReadOk(s', s'.handlers[k]) {
      if k == l.h {
        assert !s'.handlers[k].phase.HoldsCall?;
      } else {
        assert s'.handlers[k] == s.handlers[k] && ReadOk(s, s.handlers[k]);
      }
    }
  }

  /** Steps that issue no key and leave what the handlers hold alone. */
  lemma QuietStep(s: State, s': State)
    requires UniqueOk(s) && Unique(s'.calls)
    requires s'.calls.issued == s.calls.issued && |s'.handlers| == |s.handlers|
    requires forall h | 0 <= h < |s.handlers| :: SameButNext(s.handlers[h], s'.handlers[h])
    ensures UniqueOk(s')
  {
    SameIssued(s.calls, s'.calls);
    forall k | 0 <= k < |s'.handlers| ensures ReadOk(s', s'.handlers[k]) {
      assert ReadOk(s, s.handlers[k]) && SameButNext(s.handlers[k], s'.handlers[k]);
    }
    forall h, k | 0 <= h < k < |s'.handlers| ensures s'.handlers[h].network != s'.handlers[k].network {
      assert SameButNext(s.handlers[h], s'.handlers[h]) && SameButNext(s.handlers[k], s'.handlers[k]);
    }
  }

  lemma FlaggedUnique(s: State, t: State)
    requires Unique(s.calls) && (CallsFlagged(s, t) || RollbacksFlagged(s, t))
    ensures Unique(t.calls) && t.calls.issued == s.calls.issued && t.handlers == s.handlers && t.world == s.world
  {
  }

  lemma StartUnique(c: Config, s: State, l: Label, s': State)
    requires UniqueOk(s) && Next(c, s, l, s') && l.Start? && l.anew
    ensures UniqueOk(s') && s'.calls.issued == s.calls.issued && s'.world == s.world
  {
  }

  lemma OtherStepUnique(c: Config, s: State, l: Label, s': State)
    requires ValidConfig(c) && UniqueOk(s) && Next(c, s, l, s') && !l.IsHandlerStep() && !l.AddsMonitor() && !l.Start?
    ensures UniqueOk(s') && s'.calls.issued == s.calls.issued && s'.world.log == s.world.log
  {
    if l.CallResult? {
      ResultUnique(s.calls, l.j, l.result, l.invoked, CALL_SKIPS, l.ok);
    } else if l.FinalizeCalls? && l.pass.Finalized? {
      CallPassEffect(s, l.network, l.height, l.oracle, 0, l.pass, s');
      FlaggedUnique(s, s');
    } else if l.FinalizeRollbacks? && l.pass.Finalized? {
      RollbackPassEffect(s, l.network, l.height, l.oracle, 0, l.pass, s');
      FlaggedUnique(s, s');
    } else if l.Branch? {
      BranchKeepsHeld(c, s, l, s');
    }
    QuietStep(s, s');
  }

  lemma StepUnique(c: Config, s: State, l: Label, s': State)
    requires ValidConfig(c) && UniqueOk(s) && Next(c, s, l, s') && !l.AddsMonitor() && SubmittedIsInserted(s, l)
    ensures UniqueOk(s') && s.calls.issued <= s'.calls.issued
  {
    if l.ActCall? {
      ActStepUnique(c, s, l, s');
    } else if l.ReadCall? {
      ReadStepUnique(c, s, l, s');
    } else if l.IsHandlerStep() {
      MonitorStepUnique(c, s, l, s');
    } else if l.Start? {
      StartUnique(c, s, l, s');
    } else {
      OtherStepUnique(c, s, l, s');
    }
  }

  /** The event of the handler's step is the only one that can be accepted. */
  lemma StepAccepts(c: Config, s: State, l: Label, s': State)
    requires ValidConfig(c) && UniqueOk(s) && Next(c, s, l, s') && !l.AddsMonitor() && SubmittedIsInserted(s, l)
    ensures s'.world.log == s.world.log || (
              && (l.ActCall? || l.ActRollback? || l.Ignore?) && |s'.world.log| == |s.world.log| + 1
              && s.world.log <= s'.world.log
              && (l.ActCall? ==>
                    s'.world.log[|s.world.log|] == Accepted(s.handlers[l.h].network, s.handlers[l.h].phase.event))
              && (!l.ActCall? ==> !s'.world.log[|s.world.log|].event.CallMessage?))
  {
    if !l.IsHandlerStep() && !l.Start? {
      OtherStepUnique(c, s, l, s');
    }
  }

  lemma NewlyAcceptedKnown(c: Config, s: State, l: Label, s': State, a: Accepted)
    requires ValidConfig(c) && UniqueOk(s) && Next(c, s, l, s') && !l.AddsMonitor() && NewIsInserted(s, l)
    requires a in s'.world.log && a !in s.world.log && a.event.CallMessage? && a.event.reqId != 0
    ensures Known(s'.calls, a.network, a.event.reqId)
  {
    StepAccepts(c, s, l, s');
    assert a == s'.world.log[|s.world.log|];
    ActStepUnique(c, s, l, s');
  }

  lemma StepKnows(c: Config, s: State, l: Label, s': State)
    requires ValidConfig(c) && UniqueOk(s) && AcceptedKnown(s) && Next(c, s, l, s')
    requires !l.AddsMonitor() && NewIsInserted(s, l) && s.calls.issued <= s'.calls.issued
    ensures AcceptedKnown(s')
  {
    KnownGrows(s, s');
    forall a | a in s'.world.log && a.event.CallMessage? && a.event.reqId != 0
      ensures Known(s'.calls, a.network, a.event.reqId)
    {
      if a !in s.world.log {
        NewlyAcceptedKnown(c, s, l, s', a);
      }
    }
  }

  // ----- runs

  /** Step `i` starts no monitor beside others and inserts what it submits. */
  ghost predicate InsertsAt(c: Config, r: Run, i: nat)
    requires IsRun(c, r) && i < |r.labels|
  {
    !r.labels[i].AddsMonitor() && SubmittedIsInserted(r.states[i], r.labels[i])
  }

  ghost predicate InsertsAllAt(c: Config, r: Run, i: nat)
    requires IsRun(c, r) && i < |r.labels|
  {
    !r.labels[i].AddsMonitor() && NewIsInserted(r.states[i], r.labels[i])
  }

  lemma UniqueAt(c: Config, r: Run, i: nat)
    requires ValidConfig(c) && IsRun(c, r) && i < |r.labels| && InsertsAt(c, r, i) && UniqueOk(r.states[i])
    ensures UniqueOk(r.states[i + 1])
  {
    assert Takes(c, r, i);
    StepUnique(c, r.states[i], r.labels[i], r.states[i + 1]);
  }

  lemma {:induction false} RunUnique(c: Config, r: Run, k: nat)
    requires ValidConfig(c) && IsRun(c, r) && k < |r.states| && forall i | 0 <= i < k :: InsertsAt(c, r, i)
    ensures UniqueOk(r.states[k])
  {
    if k > 0 {
      RunUnique(c, r, k - 1);
      UniqueAt(c, r, k - 1);
    }
  }

  lemma KnownAt(c: Config, r: Run, i: nat)
    requires ValidConfig(c) && IsRun(c, r) && i < |r.labels| && InsertsAllAt(c, r, i)
    requires UniqueOk(r.states[i]) && AcceptedKnown(r.states[i])
    ensures UniqueOk(r.states[i + 1]) && AcceptedKnown(r.states[i + 1])
  {
    assert Takes(c, r, i);
    StepUnique(c, r.states[i], r.labels[i], r.states[i + 1]);
    StepKnows(c, r.states[i], r.labels[i], r.states[i + 1]);
  }

  lemma {:induction false} RunKnows(c: Config, r: Run, k: nat)
    requires ValidConfig(c) && IsRun(c, r) && k < |r.states| && forall i | 0 <= i < k :: InsertsAllAt(c, r, i)
    ensures UniqueOk(r.states[k]) && AcceptedKnown(r.states[k])
  {
    if k > 0 {
      RunKnows(c, r, k - 1);
      KnownAt(c, r, k - 1);
    }
  }

  /** At most one Call row per network and positive request id, however often it was redelivered. */
  lemma OneRowPerRequest(c: Config, r: Run, k: nat, id1: nat, id2: nat)
    requires ValidConfig(c) && IsRun(c, r) && k < |r.states| && forall i | 0 <= i < k :: InsertsAt(c, r, i)
    requires var rows := r.states[k].calls.rows;
             && id1 in rows && id2 in rows && rows[id1].key >= 1
             && rows[id1].network == rows[id2].network && rows[id1].key == rows[id2].key
    ensures id1 == id2
  {
    RunUnique(c, r, k);
  }

  /** At least one, too: an accepted CallMessage is in the table. */
  lemma AcceptedMessageHasRow(c: Config, r: Run, k: nat, a: Accepted)
    requires ValidConfig(c) && IsRun(c, r) && k < |r.states| && forall i | 0 <= i < k :: InsertsAllAt(c, r, i)
    requires a in r.states[k].world.log && a.event.CallMessage? && a.event.reqId >= 1
    ensures exists id :: id in r.states[k].calls.rows && For(r.states[k].calls.rows[id], a.network, a.event.reqId)
  {
    RunKnows(c, r, k);
    var id := KnownRow(r.states[k].calls, a.network, a.event.reqId);
  }
}
