/**
 The steps of the xCall auto-caller: event handlers that read a row and later write it,
 result goroutines in between, and the atomic passes of the finality monitor.
 */
module XCallMachine {
  import opened Wrappers
  import opened XCallStore

  datatype Event =
    | CallMessage(height: int, blockId: string, reqId: nat, call: CallData)
    | CallExecuted(height: int, blockId: string, txId: string, reqId: nat, code: int, msg: string)
    | CallMessageSent(height: int, blockId: string, sn: nat, from: string, to: string)
    | ResponseMessage(height: int, blockId: string, sn: nat, code: int)
    | RollbackExecuted(height: int, blockId: string, txId: string, sn: nat, code: int, msg: string)
    | OtherEvent(height: int)
  {
    predicate IsCall() { CallMessage? || CallExecuted? }

    predicate IsRollback() { CallMessageSent? || ResponseMessage? || RollbackExecuted? }

    /** The key of the record the event is about. */
    function Key(): nat
      requires IsCall() || IsRollback()
    {
      if IsCall() then reqId else sn
    }
  }

  const EXECUTE_RESULT_CODE_SUCCESS := 0

  // ----- what one event does, given the row found for it

  function NewCall(network: string, e: Event): Call
    requires e.IsCall()
  {
    match e
    case CallMessage(height, blockId, reqId, call) =>
      Row(network, reqId, StateNone, "", 0, "", false, "", height, blockId, false, 0, "", call)
    case CallExecuted(height, blockId, txId, reqId, code, msg) =>
      Row(network, reqId, StateDone, txId, height, blockId, false, "", 0, "", false, code, msg, CallData("", "", 0, ""))
  }

  function NewRollback(network: string, e: Event): Rollback
    requires e.IsRollback()
  {
    match e
    case CallMessageSent(height, blockId, sn, from, to) =>
      Row(network, sn, StateNone, "", 0, "", false, "", 0, "", false, 0, "",
          RollbackData(from, to, height, blockId, false))
    case ResponseMessage(height, blockId, sn, code) =>
      Row(network, sn, if code == EXECUTE_RESULT_CODE_SUCCESS then StateNotApplicable else StateNone,
          "", 0, "", false, "", height, blockId, false, 0, "", RollbackData("", "", 0, "", false))
    case RollbackExecuted(height, blockId, txId, sn, code, msg) =>
      Row(network, sn, StateDone, txId, height, blockId, false, "", 0, "", false, code, msg,
          RollbackData("", "", 0, "", false))
  }

  /** The found record, marked Done with what the executed event reports. */
  function Completed<E>(found: Record<E>, executed: Row<E>): Record<E> {
    found.(body := found.body.(state := StateDone, txId := executed.txId, blockHeight := executed.blockHeight,
      blockId := executed.blockId, execResultCode := executed.execResultCode, execResultMsg := executed.execResultMsg))
  }

  /** How the event callback ends: nil, an error, or a panic. */
  datatype Verdict = Accept | Reject | Panic

  datatype Acted<E> = Acted(store: Store<E>, verdict: Verdict)

  /** The unguarded save; a failure is returned to the event stream. */
  function SaveOrReject<E>(s: Store<E>, r: Record<E>, ok: bool): Acted<E> {
    if ok then Acted(Save(s, r), Accept) else Acted(s, Reject)
  }

  function OnCall(s: Store<CallData>, network: string, e: Event, found: Option<Record<CallData>>,
                  invoked: Invoked, ok: bool): Acted<CallData>
    requires e.IsCall()
  {
    var cm := NewCall(network, e);
    if e.CallMessage? then
      if found.None? then Acted(Execute(s, Record(0, cm), invoked, CALL_SKIPS, ok), Accept)
      else match found.value.body.state
        case StateNone => Acted(Execute(s, Record(found.value.id, cm), invoked, CALL_SKIPS, ok), Accept)
        case StateSending => Acted(Spawn(s, found.value), Accept)
        case _ => Acted(s, Accept)
    else
      if found.None? || found.value.body.state == StateDone then Acted(s, Accept)
      else SaveOrReject(s, Completed(found.value, cm), ok)
  }

  /** The response record under the key of the found one, with its endpoints and trigger
      block; the trigger's finalized flag is not carried over. */
  function Answered(found: Record<RollbackData>, rm: Rollback): Record<RollbackData> {
    var d := found.body.data;
    Record(found.id, rm.(data := RollbackData(d.from, d.to, d.triggerHeight, d.triggerBlockId,
                                              rm.data.triggerFinalized)))
  }

  function OnRollback(s: Store<RollbackData>, network: string, e: Event, found: Option<Record<RollbackData>>,
                      invoked: Invoked, ok: bool): Acted<RollbackData>
    requires e.IsRollback()
  {
    var rm := NewRollback(network, e);
    if e.CallMessageSent? then
      if found.Some? && found.value.body.data.to == rm.data.to && found.value.body.data.from == rm.data.from
      then Acted(s, Accept)
      else SaveOrReject(s, Record(0, rm), ok)
    else if found.None? then Acted(s, Accept)
    else if e.ResponseMessage? then
      var answered := Answered(found.value, rm);
      match found.value.body.state
      case StateNone =>
        if rm.state == StateNotApplicable then SaveOrReject(s, answered, ok)
        else Acted(Execute(s, answered, invoked, ROLLBACK_SKIPS, ok), Accept)
      case StateSending => Acted(Spawn(s, found.value), Accept)
      case _ => Acted(s, Accept)
    else
      match found.value.body.state
      case StateDone => Acted(s, Accept)
      case StateNotApplicable => Acted(s, Panic)
      case _ => SaveOrReject(s, Completed(found.value, rm), ok)
  }

  // ----- the system

  /** Where an event monitor goroutine is: between streams, waiting for the event at `next`,
      in a callback with an event and the row it read for it - the stream goes on at `next` -
      or gone after a panic. */
  datatype Phase =
    | Stopped
    | Streaming(next: nat)
    | HoldsCall(next: nat, event: Event, call: Option<Record<CallData>>)
    | HoldsRollback(next: nat, event: Event, rollback: Option<Record<RollbackData>>)
    | Crashed
  {
    predicate Holds() { HoldsCall? || HoldsRollback? }

    predicate Live() { Streaming? || Holds() }
  }

  datatype Handler = Handler(network: string, phase: Phase)

  /** An event whose callback returned nil, and the network it came from. */
  datatype Accepted = Accepted(network: string, event: Event)

  /** The events of each network's present branch, in the order a monitor delivers them, and, for
      the statements about runs: the positions handled since their blocks were last dropped or
      replaced, and everything ever accepted. */
  datatype World = World(chain: map<string, seq<Event>>, handled: set<(string, nat)>, log: seq<Accepted>)

  datatype State = State(
    calls: Store<CallData>, rollbacks: Store<RollbackData>, handlers: seq<Handler>, world: World)

  /** The configured start heights. */
  datatype Config = Config(initHeight: map<string, int>)

  ghost predicate ValidConfig(c: Config) {
    "" !in c.initHeight && forall n | n in c.initHeight :: c.initHeight[n] >= 1
  }

  ghost predicate Sorted(events: seq<Event>) {
    forall i, j | 0 <= i < j < |events| :: events[i].height <= events[j].height
  }

  ghost predicate WorldOk(c: Config, w: World) {
    && w.chain.Keys == c.initHeight.Keys
    && (forall n | n in w.chain :: Sorted(w.chain[n]))
    && (forall p | p in w.handled :: p.0 in w.chain && p.1 < |w.chain[p.0]|)
  }

  /** One event monitor per configured network. */
  ghost predicate Init(c: Config, s: State) {
    && s.calls == EmptyStore() && s.rollbacks == EmptyStore()
    && WorldOk(c, s.world) && s.world.handled == {} && s.world.log == []
    && (forall h | 0 <= h < |s.handlers| ::
          s.handlers[h].network in c.initHeight && s.handlers[h].phase == Stopped)
    && OneHandlerEach(s)
  }

  ghost predicate OneHandlerEach(s: State) {
    forall h, k | 0 <= h < k < |s.handlers| :: s.handlers[h].network != s.handlers[k].network
  }

  function Height<E>(found: Option<Record<E>>): int {
    if found.Some? then found.value.body.eventHeight else 0
  }

  /** The height monitoring resumes at, from the newest Call and Rollback of the network. */
  function ResumeHeight(cm: Option<Record<CallData>>, rm: Option<Record<RollbackData>>): int {
    if rm.Some? && Height(cm) < Height(rm) then Height(rm) else Height(cm)
  }

  /** Without rows the configured height. */
  function StartHeight(initHeight: int, resume: int): int {
    if resume < 1 then initHeight else resume
  }

  /** The position of the first event at or above `height`. */
  function Position(events: seq<Event>, height: int, from: nat := 0): (pos: nat)
    requires from <= |events|
    ensures from <= pos <= |events| && (pos < |events| ==> events[pos].height >= height)
    ensures forall i | from <= i < pos :: events[i].height < height
    decreases |events| - from
  {
    if from == |events| || events[from].height >= height then from else Position(events, height, from + 1)
  }

  function At(s: State, h: nat, phase: Phase): State
    requires h < |s.handlers|
  {
    s.(handlers := s.handlers[h := s.handlers[h].(phase := phase)])
  }

  /** The event before `next` has been accepted; it is handled if it is on the branch still. */
  function Handled(w: World, network: string, next: nat, e: Event): World {
    w.(log := w.log + [Accepted(network, e)],
       handled := if OnBranch(w, network, next, e) then w.handled + {(network, next - 1)} else w.handled)
  }

  predicate OnBranch(w: World, network: string, next: nat, e: Event) {
    network in w.chain && 0 < next <= |w.chain[network]| && w.chain[network][next - 1] == e
  }

  /** The callback has ended. */
  function Ended(s: State, h: nat, verdict: Verdict): State
    requires h < |s.handlers| && s.handlers[h].phase.Holds()
  {
    var n, phase := s.handlers[h].network, s.handlers[h].phase;
    match verdict
    case Accept => At(s, h, Streaming(phase.next)).(world := Handled(s.world, n, phase.next, phase.event))
    case Reject => At(s, h, Stopped)
    case Panic => At(s, h, Crashed)
  }

  /** What the finality monitor says about a recorded block. */
  datatype Answer = Confirmed | NotFound | NotYet | Unreachable

  type Oracle = (int, string) -> Answer

  /** How a finality pass ends: committed with every flag set, committed with a drop at
      some height, or rolled back. */
  datatype Pass = Finalized | Dropped(height: int) | Aborted

  datatype Label =
    | Open(h: nat, cm: Option<Record<CallData>>, rm: Option<Record<RollbackData>>, pos: nat)
    | Close(h: nat)
    | Refuse(h: nat)
    | Ignore(h: nat)
    | ReadCall(h: nat, call: Option<Record<CallData>>)
    | ReadRollback(h: nat, rollback: Option<Record<RollbackData>>)
    | ActCall(h: nat, invoked: Invoked, ok: bool)
    | ActRollback(h: nat, invoked: Invoked, ok: bool)
    | CallResult(j: nat, result: TxResult, invoked: Invoked, ok: bool)
    | RollbackResult(j: nat, result: TxResult, invoked: Invoked, ok: bool)
    | FinalizeCalls(network: string, height: int, oracle: Oracle, pass: Pass)
    | FinalizeRollbacks(network: string, height: int, oracle: Oracle, pass: Pass)
    | Branch(network: string, from: nat, events: seq<Event>, positions: seq<nat>)
    | Start(networks: seq<string>, anew: bool)
  {
    predicate IsDrop() {
      (FinalizeCalls? || FinalizeRollbacks?) && pass.Dropped?
    }

    /** Another monitor is started while those there are go on. */
    predicate AddsMonitor() {
      IsDrop() || (Start? && !anew)
    }

    predicate IsHandlerStep() {
      !CallResult? && !RollbackResult? && !FinalizeCalls? && !FinalizeRollbacks? && !Branch? && !Start?
    }
  }

  // ----- finality passes

  /** The three blocks a row may record: of its trigger, of its event, of its execution. */
  datatype Column = EventColumn | BlockColumn | TriggerColumn

  datatype Mark = Mark(height: int, blockId: string, finalized: bool)

  function CallMark(r: Call, c: Column): Mark {
    match c
    case EventColumn => Mark(r.eventHeight, r.eventBlockId, r.eventFinalized)
    case BlockColumn => Mark(r.blockHeight, r.blockId, r.finalized)
    case TriggerColumn => Mark(0, "", true)
  }

  function RollbackMark(r: Rollback, c: Column): Mark {
    match c
    case EventColumn => Mark(r.eventHeight, r.eventBlockId, r.eventFinalized)
    case BlockColumn => Mark(r.blockHeight, r.blockId, r.finalized)
    case TriggerColumn => Mark(r.data.triggerHeight, r.data.triggerBlockId, r.data.triggerFinalized)
  }

  predicate Pending(m: Mark, height: int) {
    !m.finalized && 1 <= m.height <= height
  }

  function PendingCalls(rows: map<nat, Call>, network: string, c: Column, height: int): (ids: set<nat>) {
    set id | id in rows && rows[id].network == network && Pending(CallMark(rows[id], c), height)
  }

  function PendingRollbacks(rows: map<nat, Rollback>, network: string, c: Column, height: int): (ids: set<nat>) {
    set id | id in rows && rows[id].network == network && Pending(RollbackMark(rows[id], c), height)
  }

  function FlagCall(r: Call, c: Column): Call {
    match c
    case EventColumn => r.(eventFinalized := true)
    case BlockColumn => r.(finalized := true)
    case TriggerColumn => r
  }

  function FlagRollback(r: Rollback, c: Column): Rollback {
    match c
    case EventColumn => r.(eventFinalized := true)
    case BlockColumn => r.(finalized := true)
    case TriggerColumn => r.(data := r.data.(triggerFinalized := true))
  }

  function FlagCalls(rows: map<nat, Call>, ids: set<nat>, c: Column): map<nat, Call> {
    map id | id in rows :: if id in ids then FlagCall(rows[id], c) else rows[id]
  }

  function FlagRollbacks(rows: map<nat, Rollback>, ids: set<nat>, c: Column): map<nat, Rollback> {
    map id | id in rows :: if id in ids then FlagRollback(rows[id], c) else rows[id]
  }

  // ----- dropping blocks

  function AsSending<E>(r: Row<E>): Row<E> {
    r.(state := StateSending, blockHeight := 0, blockId := "", failure := "", execResultCode := 0, execResultMsg := "")
  }

  function AsNone<E>(r: Row<E>): Row<E> {
    r.(state := StateNone, txId := "", blockHeight := 0, blockId := "", failure := "",
       eventHeight := 0, eventBlockId := "", execResultCode := 0, execResultMsg := "")
  }

  function ResetExecution<E>(r: Row<E>, network: string, height: int): Row<E> {
    if r.network == network && r.blockHeight >= height then AsSending(r) else r
  }

  function ResetEvent<E>(r: Row<E>, network: string, height: int): Row<E> {
    if r.network == network && r.eventHeight >= height then AsNone(r) else r
  }

  function DropCalls(rows: map<nat, Call>, network: string, height: int): map<nat, Call> {
    map id | id in rows && !(rows[id].network == network && rows[id].eventHeight >= height)
      :: ResetExecution(rows[id], network, height)
  }

  function DropRollbacks(rows: map<nat, Rollback>, network: string, height: int): map<nat, Rollback> {
    map id | id in rows && !(rows[id].network == network && rows[id].data.triggerHeight >= height)
      :: ResetExecution(ResetEvent(rows[id], network, height), network, height)
  }

  /** What was handled at `from` or later of the network no longer counts. */
  function Forget(handled: set<(string, nat)>, network: string, from: nat): set<(string, nat)> {
    set p | p in handled && !(p.0 == network && p.1 >= from)
  }

  /** The events of the dropped blocks have to be handled again. */
  function Undone(w: World, network: string, height: int): World {
    if network !in w.chain then w
    else w.(handled := Forget(w.handled, network, Position(w.chain[network], height)))
  }

  /** Dropping also starts another event monitor for the network; the running one is not stopped. */
  function DropBlock(s: State, network: string, height: int): State {
    State(
      s.calls.(rows := DropCalls(s.calls.rows, network, height)),
      s.rollbacks.(rows := DropRollbacks(s.rollbacks.rows, network, height)),
      s.handlers + [Handler(network, Stopped)],
      Undone(s.world, network, height))
  }

  // ----- branches

  /** A stream that is past the fork goes on anywhere on the new branch. */
  function Moved(h: Handler, network: string, from: nat, next: nat): Handler {
    if h.network == network && h.phase.Live() && h.phase.next > from then h.(phase := h.phase.(next := next)) else h
  }

  function AllMoved(handlers: seq<Handler>, network: string, from: nat, positions: seq<nat>): seq<Handler>
    requires |positions| == |handlers|
  {
    seq(|handlers|, i requires 0 <= i < |handlers| => Moved(handlers[i], network, from, positions[i]))
  }

  function Replaced(w: World, network: string, from: nat, events: seq<Event>): World
    requires network in w.chain && from <= |w.chain[network]|
  {
    w.(chain := w.chain[network := w.chain[network][..from] + events], handled := Forget(w.handled, network, from))
  }

  /** The events of the network from `from` on are replaced by others; with none to replace, they are new ones. */
  ghost predicate BranchStep(s: State, network: string, from: nat, events: seq<Event>, positions: seq<nat>, s': State) {
    && network in s.world.chain && from <= |s.world.chain[network]|
    && Sorted(s.world.chain[network][..from] + events)
    && |positions| == |s.handlers| && (forall i | 0 <= i < |positions| :: from <= positions[i] <= from + |events|)
    && s' == s.(handlers := AllMoved(s.handlers, network, from, positions),
                world := Replaced(s.world, network, from, events))
  }

  // ----- starting again

  function Monitors(networks: seq<string>): seq<Handler> {
    seq(|networks|, i requires 0 <= i < |networks| => Handler(networks[i], Stopped))
  }

  /** Starting again over the stored rows: in a new process, where no goroutine is left, or in the same
      one, where stopping has cancelled contexts that result goroutines and callbacks do not look at. */
  ghost predicate StartStep(c: Config, s: State, networks: seq<string>, anew: bool, s': State) {
    && (forall i | 0 <= i < |networks| :: networks[i] in c.initHeight)
    && (forall i, j | 0 <= i < j < |networks| :: networks[i] != networks[j])
    && s' == if anew then State(s.calls.(jobs := []), s.rollbacks.(jobs := []), Monitors(networks), s.world)
             else s.(handlers := s.handlers + Monitors(networks))
  }

  // ----- one pass over some columns, then the drop or the next column

  /** Checking the pending rows of a column, in any order, until one is not confirmed. */
  ghost predicate Scan(ids: set<nat>, marks: map<nat, Mark>, oracle: Oracle, pass: Pass)
    requires ids <= marks.Keys
  {
    match pass
    case Finalized => forall id | id in ids :: oracle(marks[id].height, marks[id].blockId) == Confirmed
    case Dropped(height) =>
      exists id | id in ids :: oracle(marks[id].height, marks[id].blockId) == NotFound && height == marks[id].height
    case Aborted =>
      exists id | id in ids :: oracle(marks[id].height, marks[id].blockId) in {NotYet, Unreachable}
  }

  function CallMarks(rows: map<nat, Call>, c: Column): map<nat, Mark> {
    map id | id in rows :: CallMark(rows[id], c)
  }

  function RollbackMarks(rows: map<nat, Rollback>, c: Column): map<nat, Mark> {
    map id | id in rows :: RollbackMark(rows[id], c)
  }

  const CALL_COLUMNS: seq<Column> := [EventColumn, BlockColumn]
  const ROLLBACK_COLUMNS: seq<Column> := [TriggerColumn, EventColumn, BlockColumn]

  /** The rest of a finalizeCall transaction, from column `k`: `s'` is the state it would
      commit. A roll-back leaves the state of the whole transaction's start. */
  ghost predicate CallPass(s: State, network: string, height: int, oracle: Oracle, k: nat, pass: Pass, s': State)
    requires k <= |CALL_COLUMNS|
    decreases |CALL_COLUMNS| - k
  {
    if k == |CALL_COLUMNS| then pass == Finalized && s' == s
    else
      var c := CALL_COLUMNS[k];
      var rows := s.calls.rows;
      var ids := PendingCalls(rows, network, c, height);
      || (pass.Dropped? && Scan(ids, CallMarks(rows, c), oracle, pass) && s' == DropBlock(s, network, pass.height))
      || (pass.Aborted? && Scan(ids, CallMarks(rows, c), oracle, pass))
      || (Scan(ids, CallMarks(rows, c), oracle, Finalized)
          && CallPass(s.(calls := s.calls.(rows := FlagCalls(rows, ids, c))), network, height, oracle, k + 1, pass, s'))
  }

  ghost predicate RollbackPass(s: State, network: string, height: int, oracle: Oracle, k: nat, pass: Pass, s': State)
    requires k <= |ROLLBACK_COLUMNS|
    decreases |ROLLBACK_COLUMNS| - k
  {
    if k == |ROLLBACK_COLUMNS| then pass == Finalized && s' == s
    else
      var c := ROLLBACK_COLUMNS[k];
      var rows := s.rollbacks.rows;
      var ids := PendingRollbacks(rows, network, c, height);
      || (pass.Dropped? && Scan(ids, RollbackMarks(rows, c), oracle, pass) && s' == DropBlock(s, network, pass.height))
      || (pass.Aborted? && Scan(ids, RollbackMarks(rows, c), oracle, pass))
      || (Scan(ids, RollbackMarks(rows, c), oracle, Finalized)
          && RollbackPass(s.(rollbacks := s.rollbacks.(rows := FlagRollbacks(rows, ids, c))), network, height, oracle,
                          k + 1, pass, s'))
  }

  ghost predicate FinalizeCallStep(s: State, network: string, height: int, oracle: Oracle, pass: Pass, s': State) {
    if pass.Aborted? then s' == s && exists t :: CallPass(s, network, height, oracle, 0, pass, t)
    else CallPass(s, network, height, oracle, 0, pass, s')
  }

  ghost predicate FinalizeRollbackStep(s: State, network: string, height: int, oracle: Oracle, pass: Pass, s': State) {
    if pass.Aborted? then s' == s && exists t :: RollbackPass(s, network, height, oracle, 0, pass, t)
    else RollbackPass(s, network, height, oracle, 0, pass, s')
  }

  // ----- the step relation

  ghost predicate HandlerStep(c: Config, s: State, l: Label, s': State)
    requires l.IsHandlerStep()
  {
    && l.h < |s.handlers| && s.handlers[l.h].network in c.initHeight && s.handlers[l.h].network in s.world.chain
    && var n := s.handlers[l.h].network; var phase := s.handlers[l.h].phase; var events := s.world.chain[n];
       match l
       // the read of both newest rows; the stream it opens is there from now on
       case Open(h, cm, rm, pos) =>
         && phase.Stopped? && IsTop(s.calls, n, cm) && IsTop(s.rollbacks, n, rm)
         && pos == Position(events, StartHeight(c.initHeight[n], ResumeHeight(cm, rm)))
         && s' == At(s, h, Streaming(pos))
       case Close(h) => phase.Streaming? && s' == At(s, h, Stopped)
       case Refuse(h) => phase.Streaming? && phase.next < |events| && s' == At(s, h, Stopped)
       case Ignore(h) =>
         && phase.Streaming? && phase.next < |events| && events[phase.next].OtherEvent?
         && s' == At(s, h, Streaming(phase.next + 1)).(
                    world := Handled(s.world, n, phase.next + 1, events[phase.next]))
       case ReadCall(h, found) =>
         && phase.Streaming? && phase.next < |events| && events[phase.next].IsCall()
         && IsFirst(s.calls, n, events[phase.next].Key(), found)
         && s' == At(s, h, HoldsCall(phase.next + 1, events[phase.next], found))
       case ReadRollback(h, found) =>
         && phase.Streaming? && phase.next < |events| && events[phase.next].IsRollback()
         && IsFirst(s.rollbacks, n, events[phase.next].Key(), found)
         && s' == At(s, h, HoldsRollback(phase.next + 1, events[phase.next], found))
       case ActCall(h, invoked, ok) =>
         && phase.HoldsCall? && phase.event.IsCall()
         && (var acted := OnCall(s.calls, n, phase.event, phase.call, invoked, ok);
             s' == Ended(s, h, acted.verdict).(calls := acted.store))
       case ActRollback(h, invoked, ok) =>
         && phase.HoldsRollback? && phase.event.IsRollback()
         && (var acted := OnRollback(s.rollbacks, n, phase.event, phase.rollback, invoked, ok);
             s' == Ended(s, h, acted.verdict).(rollbacks := acted.store))
  }

  ghost predicate Next(c: Config, s: State, l: Label, s': State) {
    match l
    case CallResult(j, result, invoked, ok) =>
      && j < |s.calls.jobs| && s.calls.jobs[j].Some?
      && s' == s.(calls := Result(s.calls, j, result, invoked, CALL_SKIPS, ok))
    case RollbackResult(j, result, invoked, ok) =>
      && j < |s.rollbacks.jobs| && s.rollbacks.jobs[j].Some?
      && s' == s.(rollbacks := Result(s.rollbacks, j, result, invoked, ROLLBACK_SKIPS, ok))
    case FinalizeCalls(network, height, oracle, pass) =>
      network in c.initHeight && FinalizeCallStep(s, network, height, oracle, pass, s')
    case FinalizeRollbacks(network, height, oracle, pass) =>
      network in c.initHeight && FinalizeRollbackStep(s, network, height, oracle, pass, s')
    case Branch(network, from, events, positions) => BranchStep(s, network, from, events, positions, s')
    case Start(networks, anew) => StartStep(c, s, networks, anew, s')
    case _ => HandlerStep(c, s, l, s')
  }

  /** States and the labels of the steps between them. */
  datatype Run = Run(states: seq<State>, labels: seq<Label>)

  ghost predicate IsRun(c: Config, r: Run) {
    && |r.states| == |r.labels| + 1
    && Init(c, r.states[0])
    && forall i | 0 <= i < |r.labels| :: Takes(c, r, i)
  }

  /** The run takes its step `i`. */
  ghost predicate Takes(c: Config, r: Run, i: nat)
    requires i < |r.labels| && |r.states| == |r.labels| + 1
  {
    Next(c, r.states[i], r.labels[i], r.states[i + 1])
  }

  /** No drop among the steps `i..j`. */
  ghost predicate NoDrop(r: Run, i: nat, j: nat)
    requires i <= j <= |r.labels|
  {
    forall k | i <= k < j :: !r.labels[k].IsDrop()
  }

  /** In the first `i` steps no monitor is started while others go on. */
  ghost predicate Solo(r: Run, i: nat)
    requires i <= |r.labels|
  {
    forall k | 0 <= k < i :: !r.labels[k].AddsMonitor()
  }
}
