/**
 The finality monitor's workers: each start makes one, which polls the chain for its last
 final block and notifies when that is higher than the last one it knows. Stopping only cancels
 the worker; it notices at its next poll.
 */
module FinalityPolling {
  import opened FinalityChannels
  import opened Wrappers

  /** Between polls, in a poll, and with a higher block in hand. */
  datatype Phase = Idle | Serving(height: int) | Polling(height: int) | Holding(block: BlockInfo)

  datatype Worker = Worker(cancelled: bool, phase: Phase)

  datatype PollState = PollState(monitor: State, workers: seq<Worker>)

  datatype PollLabel =
    | Call(action: Label)
    | Begin(i: nat, latest: int)
    | Check(i: nat)
    | Polled(i: nat, block: BlockInfo)
    | Deliver(i: nat, waiting: set<nat>)
    | Fail(i: nat)

  const POLL_INIT := PollState(INIT, [])

  /** The caller's side: anything but a notification. A start makes a worker, a stop cancels the latest. */
  function Called(p: PollState, l: Label): PollState {
    var r := Step(p.monitor, l);
    if l.Notify? || r.Panic? then p
    else if !p.monitor.started && r.state.started then PollState(r.state, p.workers + [Worker(false, Idle)])
    else if p.monitor.started && !r.state.started && p.workers != [] then
      var n := |p.workers| - 1;
      PollState(r.state, p.workers[n := p.workers[n].(cancelled := true)])
    else p.(monitor := r.state)
  }

  function WithPhase(p: PollState, i: nat, phase: Phase): PollState
    requires i < |p.workers|
  {
    p.(workers := p.workers[i := p.workers[i].(phase := phase)])
  }

  /** A worker's side; a step that is not enabled changes nothing. */
  function Worked(p: PollState, l: PollLabel): PollState
    requires !l.Call?
  {
    if l.i >= |p.workers| then p
    else
      var w := p.workers[l.i];
      match l
      case Begin(i, latest) =>
        if !w.phase.Idle? then p
        else
          var from := if p.monitor.started && p.monitor.last.Some? then p.monitor.last.value.height else latest;
          WithPhase(p, i, Serving(from))
      case Check(i) =>
        if w.phase.Serving? && !w.cancelled then WithPhase(p, i, Polling(w.phase.height)) else p
      case Polled(i, block) =>
        if !w.phase.Polling? then p
        else WithPhase(p, i, if w.phase.height < block.height then Holding(block) else Serving(w.phase.height))
      case Deliver(i, waiting) =>
        if !w.phase.Holding? then p
        else
          var r := Step(p.monitor, Notify(w.phase.block, waiting));
          if r.Panic? then p else WithPhase(p, i, Serving(w.phase.block.height)).(monitor := r.state)
      case Fail(i) =>
        if w.phase.Serving? || w.phase.Polling? then WithPhase(p, i, Idle) else p
  }

  function PollStep(p: PollState, l: PollLabel): PollState {
    if l.Call? then Called(p, l.action) else Worked(p, l)
  }

  function PollRun(labels: seq<PollLabel>): PollState {
    if labels == [] then POLL_INIT
    else PollStep(PollRun(labels[..|labels| - 1]), labels[|labels| - 1])
  }

  // ----- ascending notifications

  predicate Quiet(w: Worker) {
    w.phase.Idle? || w.phase.Serving?
  }

  /** If this step makes a worker, no earlier one is in a poll or holds a block. */
  predicate QuietStart(p: PollState, l: PollLabel) {
    |PollStep(p, l).workers| > |p.workers| ==> forall i | 0 <= i < |p.workers| :: Quiet(p.workers[i])
  }

  ghost predicate QuietStarts(labels: seq<PollLabel>) {
    forall n | 0 <= n < |labels| :: QuietStart(PollRun(labels[..n]), labels[n])
  }

  ghost predicate Ascending(blocks: seq<BlockInfo>) {
    forall i, j | 0 <= i < j < |blocks| :: blocks[i].height < blocks[j].height
  }

  predicate NotBelow(h: int, sent: seq<BlockInfo>) {
    sent == [] || sent[|sent| - 1].height <= h
  }

  /** What a worker will notify next is above everything notified. */
  predicate Ahead(w: Worker, sent: seq<BlockInfo>) {
    match w.phase
    case Idle => true
    case Serving(h) => w.cancelled || NotBelow(h, sent)
    case Polling(h) => NotBelow(h, sent)
    case Holding(block) => NotBelow(block.height - 1, sent)
  }

  ghost predicate PollInv(p: PollState) {
    var n := |p.workers| - 1;
    && Inv(p.monitor) && Ascending(p.monitor.sent)
    && (p.monitor.started <==> n >= 0 && !p.workers[n].cancelled)
    && (forall i | 0 <= i < n :: p.workers[i].cancelled && Quiet(p.workers[i]))
    && (n >= 0 ==> Ahead(p.workers[n], p.monitor.sent))
  }

  lemma CalledKeeps(p: PollState, l: Label)
    requires PollInv(p) && QuietStart(p, Call(l))
    ensures PollInv(Called(p, l))
  {
    StepKeeps(p.monitor, l);
    SentOnlyByNotify(p.monitor, l);
  }

  lemma SentOnlyByNotify(s: State, l: Label)
    requires Inv(s)
    ensures Step(s, l).Ok? && Step(s, l).state.sent == if l.Notify? then s.sent + [l.block] else s.sent
  {
    StepKeeps(s, l);
    if l.Unsubscribe? {
      RemoveKeeps(s, l.k);
    }
  }

  lemma DeliverKeeps(p: PollState, i: nat, waiting: set<nat>)
    requires PollInv(p)
    ensures PollInv(Worked(p, Deliver(i, waiting)))
  {
    if i < |p.workers| && p.workers[i].phase.Holding? {
      var block := p.workers[i].phase.block;
      assert i == |p.workers| - 1;
      StepKeeps(p.monitor, Notify(block, waiting));
      SentOnlyByNotify(p.monitor, Notify(block, waiting));
      AscendingExtends(p.monitor.sent, block);
    }
  }

  lemma AscendingExtends(sent: seq<BlockInfo>, block: BlockInfo)
    requires Ascending(sent) && NotBelow(block.height - 1, sent)
    ensures Ascending(sent + [block])
  {
  }

  lemma WorkedKeeps(p: PollState, l: PollLabel)
    requires PollInv(p) && !l.Call? && !l.Deliver?
    ensures PollInv(Worked(p, l))
  {
  }

  lemma PollStepKeeps(p: PollState, l: PollLabel)
    requires PollInv(p) && QuietStart(p, l)
    ensures PollInv(PollStep(p, l))
  {
    if l.Call? {
      CalledKeeps(p, l.action);
    } else if l.Deliver? {
      DeliverKeeps(p, l.i, l.waiting);
    } else {
      WorkedKeeps(p, l);
    }
  }

  lemma {:induction false} PollRunKeeps(labels: seq<PollLabel>)
    requires QuietStarts(labels)
    ensures PollInv(PollRun(labels))
  {
    if labels != [] {
      var init := labels[..|labels| - 1];
      assert forall n | 0 <= n < |init| :: init[..n] == labels[..n];
      PollRunKeeps(init);
      PollStepKeeps(PollRun(init), labels[|labels| - 1]);
    }
  }

  lemma SliceAscends(blocks: seq<BlockInfo>, from: nat, to: nat)
    requires Ascending(blocks) && from <= to <= |blocks|
    ensures Ascending(blocks[from..to])
  {
  }

  lemma LastIsHighest(s: State, b: BlockInfo)
    requires Inv(s) && Ascending(s.sent) && b in s.sent
    ensures s.last.Some? && b.height <= s.last.value.height
  {
  }

  /** When every start finds the earlier workers quiet, what each subscriber receives ascends
      strictly, and the block finality is judged by is the highest notified. */
  lemma DeliveriesAscend(labels: seq<PollLabel>)
    requires QuietStarts(labels)
    ensures var s := PollRun(labels).monitor;
            && (forall k: nat | k < |s.channels| :: Ascending(s.channels[k].log.received + s.channels[k].buffer))
            && (forall b | b in s.sent :: s.last.Some? && b.height <= s.last.value.height)
  {
    PollRunKeeps(labels);
    var s := PollRun(labels).monitor;
    forall k: nat | k < |s.channels| ensures Ascending(s.channels[k].log.received + s.channels[k].buffer) {
      assert ChannelOk(s, k);
      SliceAscends(s.sent, s.channels[k].log.from, End(s, k));
    }
    forall b | b in s.sent ensures s.last.Some? && b.height <= s.last.value.height {
      LastIsHighest(s, b);
    }
  }

  /** An error does not end a worker: it serves again, from the last block notified or a new latest one. */
  lemma FailedWorkerServesAgain(p: PollState, i: nat, latest: int)
    requires PollInv(p) && i < |p.workers| && (p.workers[i].phase.Serving? || p.workers[i].phase.Polling?)
    ensures var q := PollStep(PollStep(p, Fail(i)), Begin(i, latest));
            && q.monitor == p.monitor && |q.workers| == |p.workers| && PollInv(q)
            && (forall j | 0 <= j < |p.workers| && j != i :: q.workers[j] == p.workers[j])
            && q.workers[i].cancelled == p.workers[i].cancelled
            && q.workers[i].phase == Serving(
                 if p.monitor.started && p.monitor.sent != [] then p.monitor.sent[|p.monitor.sent| - 1].height
                 else latest)
  {
    PollStepKeeps(p, Fail(i));
    PollStepKeeps(PollStep(p, Fail(i)), Begin(i, latest));
  }

  // ----- started once

  /** How often the monitor has been started. */
  function Starts(labels: seq<PollLabel>): nat {
    if labels == [] then 0
    else
      var init := labels[..|labels| - 1];
      Starts(init) + if !PollRun(init).monitor.started && PollRun(labels).monitor.started then 1 else 0
  }

  lemma {:induction false} EachStartMakesOneWorker(labels: seq<PollLabel>)
    ensures |PollRun(labels).workers| == Starts(labels) && Inv(PollRun(labels).monitor)
  {
    if labels != [] {
      var init, l := labels[..|labels| - 1], labels[|labels| - 1];
      EachStartMakesOneWorker(init);
      var p := PollRun(init);
      if l.Call? {
        StepKeeps(p.monitor, l.action);
      } else if l.Deliver? && l.i < |p.workers| && p.workers[l.i].phase.Holding? {
        StepKeeps(p.monitor, Notify(p.workers[l.i].phase.block, l.waiting));
      }
    }
  }

  lemma {:induction false} WorkersOnlyGrow(labels: seq<PollLabel>, n: nat)
    requires n <= |labels|
    ensures |PollRun(labels[..n]).workers| <= |PollRun(labels).workers|
    decreases |labels| - n
  {
    if n < |labels| {
      assert labels[..n + 1][..n] == labels[..n];
      WorkersOnlyGrow(labels, n + 1);
    } else {
      assert labels[..n] == labels;
    }
  }

  /** A caller that starts the monitor once - and never again after a stop, or after its last
      subscription has gone - need not ask where the workers are: what each subscriber receives
      ascends strictly. */
  lemma StartedOnceAscends(labels: seq<PollLabel>)
    requires Starts(labels) <= 1
    ensures var s := PollRun(labels).monitor;
            && (forall k: nat | k < |s.channels| :: Ascending(s.channels[k].log.received + s.channels[k].buffer))
            && (forall b | b in s.sent :: s.last.Some? && b.height <= s.last.value.height)
  {
    EachStartMakesOneWorker(labels);
    forall n | 0 <= n < |labels| ensures QuietStart(PollRun(labels[..n]), labels[n]) {
      assert labels[..n + 1][..n] == labels[..n];
      WorkersOnlyGrow(labels, n + 1);
    }
    DeliveriesAscend(labels);
  }

  // ----- exactly the quiet starts keep the order

  function PollsFrom(p: PollState, labels: seq<PollLabel>): PollState {
    if labels == [] then p
    else PollStep(PollsFrom(p, labels[..|labels| - 1]), labels[|labels| - 1])
  }

  ghost predicate QuietFrom(p: PollState, labels: seq<PollLabel>) {
    forall n | 0 <= n < |labels| :: QuietStart(PollsFrom(p, labels[..n]), labels[n])
  }

  lemma {:induction false} PollsFromKeeps(p: PollState, labels: seq<PollLabel>)
    requires PollInv(p) && QuietFrom(p, labels)
    ensures PollInv(PollsFrom(p, labels))
  {
    if labels != [] {
      var init := labels[..|labels| - 1];
      assert forall n | 0 <= n < |init| :: init[..n] == labels[..n];
      PollsFromKeeps(p, init);
      PollStepKeeps(PollsFrom(p, init), labels[|labels| - 1]);
    }
  }

  /** The steps that follow start no worker. */
  ghost predicate NoStart(p: PollState, labels: seq<PollLabel>) {
    forall n | 0 <= n < |labels| :: !labels[n].Call?
  }

  lemma NoStartIsQuiet(p: PollState, labels: seq<PollLabel>)
    requires NoStart(p, labels)
    ensures QuietFrom(p, labels)
  {
    forall n | 0 <= n < |labels| ensures QuietStart(PollsFrom(p, labels[..n]), labels[n]) {
      WorkedKeepsCount(PollsFrom(p, labels[..n]), labels[n]);
    }
  }

  lemma WorkedKeepsCount(p: PollState, l: PollLabel)
    requires !l.Call?
    ensures |Worked(p, l).workers| == |p.workers|
  {
  }

  lemma PollsFromOne(p: PollState, labels: seq<PollLabel>, l: PollLabel)
    ensures PollsFrom(p, labels + [l]) == PollStep(PollsFrom(p, labels), l)
  {
    assert (labels + [l])[..|labels|] == labels;
  }

  /** Worker `i`, which has just been made, notifies block `t`. */
  lemma WorkerNotifies(p: PollState, i: nat, t: BlockInfo) returns (labels: seq<PollLabel>)
    requires Inv(p.monitor) && p.monitor.started && i < |p.workers| && p.workers[i] == Worker(false, Idle)
    requires NotBelow(t.height - 1, p.monitor.sent)
    ensures NoStart(p, labels)
    ensures PollsFrom(p, labels).workers == p.workers[i := Worker(false, Serving(t.height))]
    ensures Inv(PollsFrom(p, labels).monitor) && PollsFrom(p, labels).monitor.sent == p.monitor.sent + [t]
  {
    var h := if p.monitor.last.Some? then p.monitor.last.value.height else t.height - 1;
    labels := [Begin(i, t.height - 1)];
    PollsFromOne(p, [], Begin(i, t.height - 1));
    assert [] + labels == labels;
    assert PollsFrom(p, labels) == WithPhase(p, i, Serving(h));
    PollsFromOne(p, labels, Check(i));
    labels := labels + [Check(i)];
    assert PollsFrom(p, labels) == WithPhase(p, i, Polling(h));
    PollsFromOne(p, labels, Polled(i, t));
    labels := labels + [Polled(i, t)];
    assert PollsFrom(p, labels) == WithPhase(p, i, Holding(t));
    PollsFromOne(p, labels, Deliver(i, {}));
    labels := labels + [Deliver(i, {})];
    StepKeeps(p.monitor, Notify(t, {}));
    SentOnlyByNotify(p.monitor, Notify(t, {}));
  }

  /** A worker with a block in hand delivers it. */
  lemma HeldBlockArrives(p: PollState, i: nat, b: BlockInfo)
    requires Inv(p.monitor) && i < |p.workers| && p.workers[i].phase == Holding(b)
    ensures Worked(p, Deliver(i, {})).monitor.sent == p.monitor.sent + [b]
  {
    StepKeeps(p.monitor, Notify(b, {}));
    SentOnlyByNotify(p.monitor, Notify(b, {}));
  }

  /** A worker made while another has a block in hand can overtake it. */
  lemma HeldBlockIsOvertaken(p: PollState, i: nat, n: nat, b: BlockInfo) returns (labels: seq<PollLabel>)
    requires Inv(p.monitor) && p.monitor.started && i < |p.workers| && n < |p.workers| && i != n
    requires p.workers[i].phase == Holding(b) && p.workers[n] == Worker(false, Idle)
             && NotBelow(b.height - 1, p.monitor.sent)
    ensures NoStart(p, labels) && !Ascending(PollsFrom(p, labels).monitor.sent)
  {
    var t := BlockInfo(b.height + 1, b.id);
    labels := WorkerNotifies(p, n, t);
    var p' := PollsFrom(p, labels);
    PollsFromOne(p, labels, Deliver(i, {}));
    HeldBlockArrives(p', i, b);
    labels := labels + [Deliver(i, {})];
    var sent, k := PollsFrom(p, labels).monitor.sent, |p.monitor.sent|;
    assert sent[k] == t && sent[k + 1] == b;
  }

  lemma {:induction false} PollsFromConcat(p: PollState, first: PollLabel, labels: seq<PollLabel>)
    ensures PollsFrom(p, [first] + labels) == PollsFrom(PollStep(p, first), labels)
  {
    if labels == [] {
      assert [first] + labels == [] + [first];
      PollsFromOne(p, [], first);
    } else {
      var init, l := labels[..|labels| - 1], labels[|labels| - 1];
      PollsFromConcat(p, first, init);
      assert [first] + labels == ([first] + init) + [l];
      PollsFromOne(p, [first] + init, l);
    }
  }

  /** The one worker that can be in a poll or hold a block is overtaken by the one made now. */
  lemma UnquietStartLosesOrder(p: PollState, l: PollLabel) returns (labels: seq<PollLabel>)
    requires PollInv(p) && |PollStep(p, l).workers| > |p.workers| && !QuietStart(p, l)
    ensures QuietFrom(PollStep(p, l), labels) && !Ascending(PollsFrom(PollStep(p, l), labels).monitor.sent)
  {
    var p', i := PollStep(p, l), |p.workers| - 1;
    StepKeeps(p.monitor, l.action);
    SentOnlyByNotify(p.monitor, l.action);
    assert p'.workers == p.workers + [Worker(false, Idle)] && p'.monitor.sent == p.monitor.sent;
    if p.workers[i].phase.Holding? {
      labels := HeldBlockIsOvertaken(p', i, i + 1, p.workers[i].phase.block);
    } else {
      var b := BlockInfo(p.workers[i].phase.height + 1, 0);
      var first := Polled(i, b);
      var p1 := PollStep(p', first);
      assert p1 == WithPhase(p', i, Holding(b));
      labels := HeldBlockIsOvertaken(p1, i, i + 1, b);
      PollsFromConcat(p', first, labels);
      labels := [first] + labels;
    }
    NoStartIsQuiet(p', labels);
  }

  /** A start finds the earlier workers quiet if and only if no continuation, with quiet starts of its
      own, ever loses the order. */
  lemma QuietStartExactly(p: PollState, l: PollLabel)
    requires PollInv(p) && |PollStep(p, l).workers| > |p.workers|
    ensures QuietStart(p, l) <==>
              forall labels | QuietFrom(PollStep(p, l), labels) ::
                  Ascending(PollsFrom(PollStep(p, l), labels).monitor.sent)
  {
    if QuietStart(p, l) {
      PollStepKeeps(p, l);
      forall labels | QuietFrom(PollStep(p, l), labels)
        ensures Ascending(PollsFrom(PollStep(p, l), labels).monitor.sent)
      {
        PollsFromKeeps(PollStep(p, l), labels);
      }
    } else {
      var labels := UnquietStartLosesOrder(p, l);
    }
  }

  // ----- a run that loses the order

  lemma RunAppend(labels: seq<PollLabel>, l: PollLabel)
    ensures PollRun(labels + [l]) == PollStep(PollRun(labels), l)
  {
    assert (labels + [l])[..|labels|] == labels;
  }

  /** Stopped while its worker holds a block of height `h`. */
  lemma StopsWithBlockInHand(h: int) returns (labels: seq<PollLabel>)
    requires h > 1
    ensures PollRun(labels) == PollState(INIT, [Worker(true, Holding(BlockInfo(h, h)))])
  {
    var s := INIT.(started := true);
    labels := [Call(Start)];
    RunAppend([], labels[0]);
    assert PollRun(labels) == PollState(s, [Worker(false, Idle)]);
    RunAppend(labels, Begin(0, 1));
    labels := labels + [Begin(0, 1)];
    assert PollRun(labels) == PollState(s, [Worker(false, Serving(1))]);
    RunAppend(labels, Check(0));
    labels := labels + [Check(0)];
    assert PollRun(labels) == PollState(s, [Worker(false, Polling(1))]);
    RunAppend(labels, Polled(0, BlockInfo(h, h)));
    labels := labels + [Polled(0, BlockInfo(h, h))];
    assert PollRun(labels) == PollState(s, [Worker(false, Holding(BlockInfo(h, h)))]);
    RunAppend(labels, Call(Stop));
    labels := labels + [Call(Stop)];
    assert Stopped(s).state == INIT;
  }

  /** A subscription starts it again, and the second worker begins to poll. */
  lemma RestartsPolling(before: seq<PollLabel>, first: Worker) returns (labels: seq<PollLabel>)
    requires PollRun(before) == PollState(INIT, [first])
    ensures PollRun(labels) == PollState(State([Channel(2, [], false, Log([], 0, 0))], {0}, None, true, []),
                                         [first, Worker(false, Polling(1))])
  {
    var s := State([Channel(2, [], false, Log([], 0, 0))], {0}, None, true, []);
    RunAppend(before, Call(Subscribe(2)));
    labels := before + [Call(Subscribe(2))];
    assert Step(INIT, Subscribe(2)).state == s;
    assert PollRun(labels) == PollState(s, [first, Worker(false, Idle)]);
    RunAppend(labels, Begin(1, 1));
    labels := labels + [Begin(1, 1)];
    assert PollRun(labels) == PollState(s, [first, Worker(false, Serving(1))]);
    RunAppend(labels, Check(1));
    labels := labels + [Check(1)];
  }

  /** The poll finds a block, which is notified. */
  lemma PollsAndNotifies(before: seq<PollLabel>, s: State, first: Worker, b: BlockInfo) returns (labels: seq<PollLabel>)
    requires PollRun(before) == PollState(s, [first, Worker(false, Polling(1))]) && b.height > 1
    requires |s.channels| == 1 && s.open == {0} && !s.channels[0].closed
             && |s.channels[0].buffer| < s.channels[0].capacity
    ensures PollRun(labels) == PollState(NotifyAll(s, b, {}).state, [first, Worker(false, Serving(b.height))])
  {
    RunAppend(before, Polled(1, b));
    labels := before + [Polled(1, b)];
    assert PollRun(labels) == PollState(s, [first, Worker(false, Holding(b))]);
    RunAppend(labels, Deliver(1, {}));
    labels := labels + [Deliver(1, {})];
    OneChannelNotified(s, b);
  }

  /** One subscriber with room for the block. */
  lemma OneChannelNotified(s: State, b: BlockInfo)
    requires |s.channels| == 1 && s.open == {0} && !s.channels[0].closed
             && |s.channels[0].buffer| < s.channels[0].capacity
    ensures NotifyAll(s, b, {}) ==
            Ok(State([s.channels[0].(buffer := s.channels[0].buffer + [b])], {0}, Some(b), s.started, s.sent + [b]))
  {
    var r := NotifyAll(s, b, {}).state;
    assert forall k | k in s.open :: k == 0 && !Misused(s, k);
    assert |r.channels| == 1 && r.channels[0] == Notified(s, 0, b, {});
    assert r.open == {0};
  }

  /** Without the condition the order is lost: the first worker's block arrives after the second
      worker's higher one, and finality is judged by the lower block again. */
  lemma RestartRegresses(h: int, top: int) returns (labels: seq<PollLabel>)
    requires 1 < h < top
    ensures var s := PollRun(labels).monitor;
            && s.started && s.last == Some(BlockInfo(h, h)) && BlockInfo(top, top) in s.sent
            && |s.channels| == 1 && s.open == {0} && s.channels[0].buffer == [BlockInfo(top, top), BlockInfo(h, h)]
  {
    labels := StopsWithBlockInHand(h);
    var first := Worker(true, Holding(BlockInfo(h, h)));
    labels := RestartsPolling(labels, first);
    var s0 := PollRun(labels).monitor;
    labels := PollsAndNotifies(labels, s0, first, BlockInfo(top, top));
    OneChannelNotified(s0, BlockInfo(top, top));
    var s := PollRun(labels).monitor;
    RunAppend(labels, Deliver(0, {}));
    labels := labels + [Deliver(0, {})];
    OneChannelNotified(s, BlockInfo(h, h));
  }
}
