/**
 The finality monitor as an object over bounded channels. Each method takes the state of the
 subscriptions through the step it stands for; that its channel operations never fail is part
 of their preconditions.
 */
module FinalityMonitors {
  import opened FinalityChannels
  import opened Wrappers

  class BlockChannel {
    const capacity: nat
    var buffer: seq<BlockInfo>
    var closed: bool
    ghost var log: Log

    ghost function Value(): Channel
      reads this
    {
      Channel(capacity, buffer, closed, log)
    }

    constructor (capacity: nat, ghost at: nat)
      ensures Value() == Channel(capacity, [], false, Log([], at, at))
    {
      this.capacity, buffer, closed, log := capacity, [], false, Log([], at, at);
    }

    method TrySend(v: BlockInfo, waiting: bool) returns (sent: bool)
      requires !closed
      modifies this
      ensures sent == ((waiting && old(buffer) == []) || |old(buffer)| < capacity)
      ensures Value() == if sent then Sent(old(Value()), v, waiting) else old(Value())
    {
      if waiting && buffer == [] {
        log := log.(received := log.received + [v]);
        return true;
      }
      sent := |buffer| < capacity;
      if sent {
        buffer := buffer + [v];
      }
    }

    method Close(ghost at: nat)
      requires !closed
      modifies this
      ensures Value() == Closed(old(Value()), at)
    {
      closed := true;
      log := log.(until := at);
    }

    /** A subscriber that cannot take the value is cut off. */
    method SendOrClose(v: BlockInfo, waiting: bool, ghost at: nat) returns (sent: bool)
      requires !closed
      modifies this
      ensures sent == HasRoom(old(Value()), waiting)
      ensures Value() == if sent then Sent(old(Value()), v, waiting) else Closed(old(Value()), at)
    {
      sent := TrySend(v, waiting);
      if !sent {
        Close(at);
      }
    }

    method Receive() returns (v: Option<BlockInfo>)
      modifies this
      ensures Value() == Received(old(Value()))
      ensures v == if old(buffer) == [] then None else Some(old(buffer)[0])
    {
      if buffer == [] {
        return None;
      }
      v := Some(buffer[0]);
      log := log.(received := log.received + [buffer[0]]);
      buffer := buffer[1..];
    }
  }

  class FinalityMonitor {
    var m: map<nat, BlockChannel>
    var last: Option<BlockInfo>
    var started: bool
    var subscriptions: nat
    var workers: nat        // goroutines started so far
    ghost var channels: seq<BlockChannel>
    ghost var state: State

    ghost predicate Distinct()
      reads this
    {
      forall i, j | 0 <= i < j < |channels| :: channels[i] != channels[j]
    }

    /** The subscription map and the channels made so far are those of `s`. */
    ghost predicate Holds(s: State)
      reads this, channels
    {
      && subscriptions == |channels| == |s.channels|
      && Distinct()
      && (forall k: nat | k < |channels| :: channels[k].Value() == s.channels[k])
      && (forall k: nat :: k in m <==> k in s.open)
      && (forall k | k in m :: k < |channels| && m[k] == channels[k])
      && last == s.last && started == s.started
    }

    ghost predicate Valid()
      reads this, channels
    {
      Holds(state) && Inv(state)
    }

    constructor ()
      ensures Valid() && channels == [] && state == INIT && workers == 0
    {
      m, last, started, subscriptions, workers, channels, state := map[], None, false, 0, 0, [], INIT;
    }

    method Remove(k: nat)
      requires Valid()
      modifies this`m, this`state, channels
      ensures Valid() && FinalityChannels.Remove(old(state), k) == Ok(state)
    {
      if k in m {
        assert ChannelOk(state, k);
        RemoveKeeps(state, k);
        m[k].Close(|state.sent|);
        m := map j | j in m && j != k :: m[j];
        state := FinalityChannels.Remove(state, k).state;
      }
    }

    /** Makes a worker unless there is one that has not been stopped. */
    method Start()
      requires Valid()
      modifies this`started, this`workers, this`state
      ensures Valid() && Step(old(state), Label.Start) == Ok(state)
      ensures workers == old(workers) + if old(started) then 0 else 1
    {
      StepKeeps(state, Label.Start);
      if !started {
        started := true;
        workers := workers + 1;
      }
      state := Step(state, Label.Start).state;
    }

    /** Nothing of `s` in the map but the keys of `left`; the others are closed. */
    ghost predicate Closing(s: State, left: set<nat>)
      reads this, channels
    {
      && |channels| == |s.channels|
      && (forall k: nat | k < |channels| ::
            channels[k].Value() == if k in s.open && k !in left then Closed(s.channels[k], |s.sent|) else s.channels[k])
      && (forall k: nat :: k in m <==> k in left)
      && (forall k | k in m :: k < |channels| && m[k] == channels[k])
    }

    method CloseOne(k: nat, ghost s: State, ghost left: set<nat>)
      requires Distinct() && Closing(s, left) && k in left && left <= s.open && !Misused(s, k)
      modifies this`m, m[k]
      ensures Closing(s, left - {k})
    {
      m[k].Close(|s.sent|);
      m := map j | j in m && j != k :: m[j];
    }

    method CloseAll()
      requires Valid()
      modifies this`m, channels
      ensures Closing(state, {})
    {
      NothingMisused(state);
      var left := m.Keys;
      while left != {}
        invariant left <= state.open && Closing(state, left)
      {
        var k :| k in left;
        CloseOne(k, state, left);
        left := left - {k};
      }
    }

    method Stop()
      requires Valid()
      modifies this`m, this`started, this`state, channels
      ensures Valid() && Stopped(old(state)) == Ok(state)
    {
      if started {
        StoppedKeeps(state);
        CloseAll();
        started := false;
        state := Stopped(state).state;
      }
    }

    method Subscribe(size: nat) returns (k: nat, ch: BlockChannel)
      requires Valid()
      modifies this
      ensures Valid() && Step(old(state), Label.Subscribe(size)) == Ok(state)
      ensures fresh(ch) && channels == old(channels) + [ch] && k == old(subscriptions) && k in m
      ensures workers == old(workers) + if old(started) then 0 else 1
    {
      StepKeeps(state, Label.Subscribe(size));
      if !started {
        started := true;
        workers := workers + 1;
      }
      ch := new BlockChannel(size, |state.sent|);
      k := subscriptions;
      m := m[k := ch];
      subscriptions := subscriptions + 1;
      channels := channels + [ch];
      state := Step(state, Label.Subscribe(size)).state;
    }

    method Unsubscribe(k: nat)
      requires Valid()
      modifies this`m, this`started, this`state, channels
      ensures Valid() && Step(old(state), Label.Unsubscribe(k)) == Ok(state)
    {
      Remove(k);
      if |m| == 0 {
        assert state.open == {};
        Stop();
      } else {
        assert exists j :: j in m;
      }
    }

    /** The channels outside `left` have been notified of `v`; those without room are closed and removed. */
    ghost predicate Notifying(s: State, v: BlockInfo, waiting: set<nat>, left: set<nat>)
      reads this, channels
    {
      && |channels| == |s.channels|
      && (forall k: nat | k < |channels| ::
            channels[k].Value() == if k in left then s.channels[k] else Notified(s, k, v, waiting))
      && (forall k: nat :: k in m <==>
            k in s.open && k < |s.channels| && (k in left || HasRoom(s.channels[k], k in waiting)))
      && (forall k | k in m :: k < |channels| && m[k] == channels[k])
    }

    method SendOne(k: nat, v: BlockInfo, waiting: set<nat>, ghost s: State, ghost left: set<nat>)
      requires Distinct() && Notifying(s, v, waiting, left) && k in left && left <= s.open && !Misused(s, k)
      modifies this`m, m[k]
      ensures Notifying(s, v, waiting, left - {k})
    {
      var sent := m[k].SendOrClose(v, k in waiting, |s.sent|);
      if !sent {
        m := map j | j in m && j != k :: m[j];
      }
    }

    method SendAll(v: BlockInfo, waiting: set<nat>)
      requires Valid()
      modifies this`m, channels
      ensures Notifying(state, v, waiting, {})
    {
      NothingMisused(state);
      var left := m.Keys;
      while left != {}
        invariant left <= state.open && Notifying(state, v, waiting, left)
      {
        var k :| k in left;
        SendOne(k, v, waiting, state, left);
        left := left - {k};
      }
    }

    method Notify(v: BlockInfo, waiting: set<nat>)
      requires Valid()
      modifies this`m, this`last, this`state, channels
      ensures Valid() && Step(old(state), Label.Notify(v, waiting)) == Ok(state)
    {
      StepKeeps(state, Label.Notify(v, waiting));
      SendAll(v, waiting);
      last := Some(v);
      state := Step(state, Label.Notify(v, waiting)).state;
    }

    /** What a subscriber gets from its channel. */
    method Receive(k: nat, ch: BlockChannel) returns (v: Option<BlockInfo>)
      requires Valid() && k < |channels| && ch == channels[k]
      modifies this`state, ch
      ensures Valid() && Step(old(state), Label.Receive(k)) == Ok(state)
      ensures v == if old(ch.buffer) == [] then None else Some(old(ch.buffer)[0])
    {
      StepKeeps(state, Label.Receive(k));
      v := ch.Receive();
      state := Step(state, Label.Receive(k)).state;
    }
  }
}
