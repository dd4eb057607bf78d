/**
 The finality monitor's subscriptions: every subscriber gets, in order and without a gap, the
 blocks notified from its subscription to its removal, and no channel is misused.
 */
module FinalityChannels {
  import opened Wrappers

  datatype BlockInfo = BlockInfo(height: int, id: int)

  /** What has happened to a channel; not part of the program's state. */
  datatype Log = Log(received: seq<BlockInfo>, from: nat, until: nat)

  datatype Channel = Channel(capacity: nat, buffer: seq<BlockInfo>, closed: bool, log: Log)

  /** `channels` are those of all subscriptions so far, `open` the keys of the subscription map,
      `sent` everything notified so far. */
  datatype State = State(channels: seq<Channel>, open: set<nat>, last: Option<BlockInfo>, started: bool,
                         sent: seq<BlockInfo>)

  /** Closing a closed channel and sending on one end the program. */
  datatype Outcome = Ok(state: State) | Panic

  datatype Label =
    | Start
    | Stop
    | Subscribe(size: nat)
    | Unsubscribe(k: nat)
    | Notify(block: BlockInfo, waiting: set<nat>)   // receivers blocked on an empty channel
    | Receive(k: nat)

  const INIT := State([], {}, None, false, [])

  // ----- channels

  /** A send that does not wait: to a waiting receiver, or into the buffer. */
  predicate HasRoom(c: Channel, waiting: bool) {
    (waiting && c.buffer == []) || |c.buffer| < c.capacity
  }

  function Sent(c: Channel, v: BlockInfo, waiting: bool): Channel
    requires HasRoom(c, waiting)
  {
    if waiting && c.buffer == [] then c.(log := c.log.(received := c.log.received + [v]))
    else c.(buffer := c.buffer + [v])
  }

  function Closed(c: Channel, at: nat): Channel {
    c.(closed := true, log := c.log.(until := at))
  }

  function Received(c: Channel): Channel {
    if c.buffer == [] then c
    else c.(buffer := c.buffer[1..], log := c.log.(received := c.log.received + [c.buffer[0]]))
  }

  // ----- steps

  predicate Misused(s: State, k: nat) {
    k >= |s.channels| || s.channels[k].closed
  }

  function Remove(s: State, k: nat): Outcome {
    if k !in s.open then Ok(s)
    else if Misused(s, k) then Panic
    else Ok(s.(channels := s.channels[k := Closed(s.channels[k], |s.sent|)], open := s.open - {k}))
  }

  function Stopped(s: State): Outcome {
    if !s.started then Ok(s)
    else if exists k :: k in s.open && Misused(s, k) then Panic
    else Ok(s.(started := false, open := {}, channels :=
           seq(|s.channels|, k requires 0 <= k < |s.channels| =>
             if k in s.open then Closed(s.channels[k], |s.sent|) else s.channels[k])))
  }

  function Notified(s: State, k: nat, v: BlockInfo, waiting: set<nat>): Channel
    requires k < |s.channels|
  {
    var c := s.channels[k];
    if k !in s.open then c
    else if HasRoom(c, k in waiting) then Sent(c, v, k in waiting)
    else Closed(c, |s.sent|)
  }

  function NotifyAll(s: State, v: BlockInfo, waiting: set<nat>): Outcome {
    if exists k :: k in s.open && Misused(s, k) then Panic
    else Ok(State(
           seq(|s.channels|, k requires 0 <= k < |s.channels| => Notified(s, k, v, waiting)),
           (set k | k in s.open && HasRoom(s.channels[k], k in waiting)),
           Some(v), s.started, s.sent + [v]))
  }

  function Step(s: State, l: Label): Outcome {
    match l
    case Start => Ok(s.(started := true))
    case Stop => Stopped(s)
    case Subscribe(size) =>
      Ok(s.(started := true, open := s.open + {|s.channels|},
            channels := s.channels + [Channel(size, [], false, Log([], |s.sent|, |s.sent|))]))
    case Unsubscribe(k) =>
      var r := Remove(s, k);
      if r.Ok? && r.state.open == {} then Stopped(r.state) else r
    case Notify(v, waiting) => NotifyAll(s, v, waiting)
    case Receive(k) =>
      if k < |s.channels| then Ok(s.(channels := s.channels[k := Received(s.channels[k])])) else Ok(s)
  }

  function Run(labels: seq<Label>): Outcome {
    if labels == [] then Ok(INIT)
    else
      var r := Run(labels[..|labels| - 1]);
      if r.Panic? then Panic else Step(r.state, labels[|labels| - 1])
  }

  // ----- what every step keeps

  /** Where the notifications for a subscription end. */
  function End(s: State, k: nat): nat
    requires k < |s.channels|
  {
    if k in s.open then |s.sent| else s.channels[k].log.until
  }

  ghost predicate ChannelOk(s: State, k: nat)
    requires k < |s.channels|
  {
    var c := s.channels[k];
    && c.closed == (k !in s.open)
    && |c.buffer| <= c.capacity
    && c.log.from <= End(s, k) <= |s.sent|
    && c.log.received + c.buffer == s.sent[c.log.from..End(s, k)]
  }

  ghost predicate Inv(s: State) {
    && (forall k | k in s.open :: k < |s.channels|)
    && (s.open != {} ==> s.started)
    && (forall k: nat | k < |s.channels| :: ChannelOk(s, k))
    && s.last == if s.sent == [] then None else Some(s.sent[|s.sent| - 1])
  }

  lemma NothingMisused(s: State)
    requires Inv(s)
    ensures forall k | k in s.open :: !Misused(s, k)
  {
    forall k | k in s.open ensures !Misused(s, k) {
      assert ChannelOk(s, k);
    }
  }

  lemma SentExtends(s: State, k: nat, v: BlockInfo, waiting: bool)
    requires k < |s.channels| && ChannelOk(s, k) && k in s.open && HasRoom(s.channels[k], waiting)
    ensures var c, c' := s.channels[k], Sent(s.channels[k], v, waiting);
            c'.log.received + c'.buffer == (s.sent + [v])[c.log.from..|s.sent| + 1] && |c'.buffer| <= c.capacity
  {
    var c, c' := s.channels[k], Sent(s.channels[k], v, waiting);
    assert c'.log.received + c'.buffer == c.log.received + c.buffer + [v];
    assert (s.sent + [v])[c.log.from..|s.sent| + 1] == s.sent[c.log.from..|s.sent|] + [v];
  }

  lemma NotifyKeeps(s: State, v: BlockInfo, waiting: set<nat>)
    requires Inv(s)
    ensures NotifyAll(s, v, waiting).Ok? && Inv(NotifyAll(s, v, waiting).state)
  {
    NothingMisused(s);
    var s' := NotifyAll(s, v, waiting).state;
    forall k: nat | k < |s'.channels| ensures ChannelOk(s', k) {
      assert ChannelOk(s, k);
      var c := s.channels[k];
      if k in s'.open {
        SentExtends(s, k, v, k in waiting);
      } else {
        assert s'.sent[c.log.from..End(s, k)] == s.sent[c.log.from..End(s, k)];
      }
    }
  }

  lemma StoppedKeeps(s: State)
    requires Inv(s)
    ensures Stopped(s).Ok? && Inv(Stopped(s).state)
  {
    NothingMisused(s);
    var s' := Stopped(s).state;
    forall k: nat | k < |s'.channels| ensures ChannelOk(s', k) {
      assert ChannelOk(s, k);
    }
  }

  lemma RemoveKeeps(s: State, k: nat)
    requires Inv(s)
    ensures Remove(s, k).Ok? && Inv(Remove(s, k).state)
  {
    NothingMisused(s);
    var s' := Remove(s, k).state;
    forall j: nat | j < |s'.channels| ensures ChannelOk(s', j) {
      assert ChannelOk(s, j);
    }
  }

  lemma SubscribeKeeps(s: State, size: nat)
    requires Inv(s)
    ensures Inv(Step(s, Subscribe(size)).state)
  {
    var s' := Step(s, Subscribe(size)).state;
    forall k: nat | k < |s'.channels| ensures ChannelOk(s', k) {
      if k < |s.channels| {
        assert ChannelOk(s, k);
      }
    }
  }

  lemma ReceiveKeeps(s: State, k: nat)
    requires Inv(s) && k < |s.channels|
    ensures Inv(Step(s, Receive(k)).state)
  {
    var s' := Step(s, Receive(k)).state;
    forall j: nat | j < |s'.channels| ensures ChannelOk(s', j) {
      assert ChannelOk(s, j);
      var c := s.channels[j];
      if j == k && c.buffer != [] {
        assert Received(c).log.received + Received(c).buffer == c.log.received + c.buffer;
      }
    }
  }

  lemma StepKeeps(s: State, l: Label)
    requires Inv(s)
    ensures Step(s, l).Ok? && Inv(Step(s, l).state)
  {
    match l
    case Start =>
      assert forall k: nat | k < |s.channels| :: ChannelOk(s, k) ==> ChannelOk(s.(started := true), k);
    case Stop => StoppedKeeps(s);
    case Subscribe(size) => SubscribeKeeps(s, size);
    case Unsubscribe(k) =>
      RemoveKeeps(s, k);
      StoppedKeeps(Remove(s, k).state);
    case Notify(v, waiting) => NotifyKeeps(s, v, waiting);
    case Receive(k) =>
      if k < |s.channels| {
        ReceiveKeeps(s, k);
      }
  }

  /** In every run - any order of calls, notifications from any number of workers, receives in
      between, any buffer size - no channel is closed twice or sent to after it is closed, a
      subscription in the map means the monitor is started, and what a subscriber received and
      still has buffered is exactly the stretch of notifications from its subscription to its
      removal. */
  lemma {:induction false} GapFreeDelivery(labels: seq<Label>)
    ensures Run(labels).Ok? && Inv(Run(labels).state)
  {
    if labels != [] {
      GapFreeDelivery(labels[..|labels| - 1]);
      StepKeeps(Run(labels[..|labels| - 1]).state, labels[|labels| - 1]);
    }
  }

  // ----- how a subscription ends

  /** The calls after which a subscription is over: its own removal, a stop, or a notification
      that finds its buffer full and no receiver waiting. */
  predicate Ends(s: State, l: Label, k: nat)
    requires k < |s.channels|
  {
    match l
    case Unsubscribe(j) => j == k
    case Stop => true
    case Notify(_, waiting) =>
      |s.channels[k].buffer| >= s.channels[k].capacity && (k !in waiting || s.channels[k].buffer != [])
    case _ => false
  }

  lemma SubscriptionEndsExactly(s: State, l: Label, k: nat)
    requires Inv(s) && k in s.open
    ensures Step(s, l).Ok? && (k !in Step(s, l).state.open <==> Ends(s, l, k))
  {
    StepKeeps(s, l);
    match l
    case Unsubscribe(j) =>
      if j != k {
        assert k in Remove(s, j).state.open;
      }
    case _ =>
  }

  /** A notification reaches a subscriber that waits on an empty channel at once, is buffered as long as
      there are fewer than the channel's capacity, and otherwise ends the subscription. */
  lemma NotificationIsKept(s: State, v: BlockInfo, waiting: set<nat>, k: nat)
    requires Inv(s) && k in s.open
    ensures Step(s, Notify(v, waiting)).Ok? && k < |Step(s, Notify(v, waiting)).state.channels|
    ensures var c, c' := s.channels[k], Step(s, Notify(v, waiting)).state.channels[k];
            if k in waiting && c.buffer == [] then c' == c.(log := c.log.(received := c.log.received + [v]))
            else if |c.buffer| < c.capacity then c' == c.(buffer := c.buffer + [v])
            else c' == c.(closed := true, log := c.log.(until := |s.sent|))
  {
    StepKeeps(s, Notify(v, waiting));
  }

  /** A monitor is started by a start or a subscription; stopping stops it, and so does removing a
      subscription when no other is left. */
  lemma StartedExactly(s: State, l: Label)
    requires Inv(s)
    ensures Step(s, l).Ok?
    ensures Step(s, l).state.started <==>
              match l
              case Start => true
              case Subscribe(_) => true
              case Stop => false
              case Unsubscribe(k) => s.started && exists j :: j in s.open && j != k
              case _ => s.started
  {
    StepKeeps(s, l);
    match l
    case Unsubscribe(k) =>
      RemoveKeeps(s, k);
      assert Remove(s, k).state.open == s.open - {k};
      assert Remove(s, k).state.open == {} <==> !exists j :: j in s.open && j != k;
    case _ =>
  }

  /** A removed subscription stays removed: its channel keeps nothing but what it still has
      buffered, and its stretch of notifications never changes again. */
  lemma RemovedStaysRemoved(s: State, l: Label, k: nat)
    requires Inv(s) && k < |s.channels| && k !in s.open
    ensures Step(s, l).Ok?
    ensures var s' := Step(s, l).state;
            && k < |s'.channels| && k !in s'.open && s'.channels[k].closed
            && s'.channels[k].log.until == s.channels[k].log.until
            && s'.channels[k].log.received + s'.channels[k].buffer == s.channels[k].log.received + s.channels[k].buffer
  {
    StepKeeps(s, l);
    assert ChannelOk(s, k);
    if l == Receive(k) && s.channels[k].buffer != [] {
      assert s.channels[k].buffer == [s.channels[k].buffer[0]] + s.channels[k].buffer[1..];
    }
  }
}
