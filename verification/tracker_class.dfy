/**
 The tracker's own code: the linker works in place on the array behind the slice
 of queried events, and the stored status row is rewritten after every event.
 */
module BtpTracker {
  import opened BtpEvents
  import opened BtpLinker

  method FindStartingEvent(events: array<BTPEvent>, n: nat) returns (e: BTPEvent, location: int)
    requires n <= events.Length
    ensures var s := FirstSend(events[..n]);
            if s < n then location == s && e == events[s] else location == -1 && e == ZERO_EVENT
  {
    for i := 0 to n
      invariant forall j | 0 <= j < i :: events[j].kind != SEND
    {
      if events[i].kind == SEND {
        FirstSendIs(events[..n], i);
        return events[i], i;
      }
    }
    return ZERO_EVENT, -1;
  }

  method FindNextLink(events: array<BTPEvent>, n: nat, cur: BTPEvent) returns (e: BTPEvent)
    requires n <= events.Length
    ensures var h := FirstHop(events[..n], cur);
            e == if h < n then events[h] else ZERO_EVENT
    ensures || (e == ZERO_EVENT && forall j | 0 <= j < n :: !OnRoute(cur, events[j]))
            || exists i | 0 <= i < n && events[i] == e ::
                 OnRoute(cur, e) && forall j | 0 <= j < i :: !OnRoute(cur, events[j])
  {
    for i := 0 to n
      invariant forall j | 0 <= j < i :: !NextHop(cur, events[j]) && !OnRoute(cur, events[j])
    {
      var event := events[i];
      var found := false;
      if cur.kind == RECEIVE {
        found := event.kind == REPLY || event.kind == ERROR || event.kind == DROP;
      } else if cur.next == event.networkAddress {
        found := event.next != cur.networkAddress || event.kind == RECEIVE;
      }
      if found {
        FirstHopIs(events[..n], cur, i);
        return event;
      }
    }
    return ZERO_EVENT;
  }

  /** Closes the gap at `index` by shifting the tail; the slice is one shorter. */
  method TrimBTPEvents(events: array<BTPEvent>, n: nat, index: nat) returns (m: nat, i: int)
    requires index < n <= events.Length
    modifies events
    ensures m == n - 1 && i == index - 1
    ensures events[..m] == Without(old(events[..n]), index)
  {
    forall k | index <= k < n - 1 {
      events[k] := events[k + 1];
    }
    return n - 1, index - 1;
  }

  /** Removes the event with key `id`; the caller knows it to be at `at`, or nowhere when `at` is `n`. */
  method TrimBTPEventsById(events: array<BTPEvent>, n: nat, id: nat, index: int, ghost at: nat)
    returns (m: nat, i: int)
    requires at <= n <= events.Length && Stored(events[..n])
    requires if at < n then events[at].id == id else forall k | 0 <= k < n :: events[k].id != id
    modifies events
    ensures if at < n then m == n - 1 && i == at - 1 && events[..m] == Without(old(events[..n]), at)
            else m == n && i == index && events[..] == old(events[..])
  {
    var k := 0;
    while k < n
      invariant 0 <= k <= n
      invariant forall j | 0 <= j < k :: events[j].id != id
      invariant events[..] == old(events[..])
    {
      if events[k].id == id {
        assert k == at by {
          assert events[..n][k].id == events[..n][at].id;
        }
        m, i := TrimBTPEvents(events, n, k);
        return;
      }
      k := k + 1;
    }
    return n, index;
  }

  /** Finds the event that may follow `cur` and trims it off the slice. */
  method TakeNextLink(events: array<BTPEvent>, n: nat, cur: BTPEvent, index: int)
    returns (next: BTPEvent, m: nat, i: int)
    requires n <= events.Length && Stored(events[..n])
    modifies events
    ensures var slice := old(events[..n]); var h := FirstHop(slice, cur);
            if h == n then next == ZERO_EVENT && m == n && i == index
            else next == slice[h] && next.id > 0 && m == n - 1 && i == h - 1
                 && events[..m] == Without(slice, h) && Stored(events[..m])
  {
    ghost var h := FirstHop(events[..n], cur);
    next := FindNextLink(events, n, cur);
    if next == ZERO_EVENT {
      return ZERO_EVENT, n, index;
    }
    StoredWithout(events[..n], h);
    m, i := TrimBTPEventsById(events, n, next.id, index, h);
  }

  /** The links and status of the queried events. The loop never ends by its own guard:
      the search index stays within the shrinking slice until no link is found or the
      message completes. */
  method GetLinks(events: array<BTPEvent>) returns (links: seq<nat>, status: Status)
    requires Stored(events[..])
    modifies events
    ensures links == Ids(Link(old(events[..])).chain)
    ensures status == Link(old(events[..])).status
  {
    ghost var stored := events[..];
    ghost var chain: seq<BTPEvent> := [];
    links, status := [], Unknown;
    var n := events.Length;
    assert events[..n] == stored;
    var cur, location := FindStartingEvent(events, n);
    if location == -1 {
      return;
    }
    LinkStart(stored);
    IdsPush([], cur);
    assert [] + [cur] == [cur];
    links, chain := [cur.id], [cur];
    status := Sending;
    StoredWithout(stored, location);
    var i;
    n, i := TrimBTPEvents(events, n, location);
    i := 0;
    while i <= n
      invariant 0 <= i <= n <= events.Length
      invariant Stored(events[..n]) && status != Completed
      invariant links == Ids(chain)
      invariant Continues(Link(stored), chain, events[..n], cur, status)
      decreases n
    {
      LinkStep(Link(stored), chain, events[..n], cur, status);
      cur, n, i := TakeNextLink(events, n, cur, i);
      if cur == ZERO_EVENT {
        return;
      }
      IdsPush(chain, cur);
      links, chain := links + [cur.id], chain + [cur];
      status := InferStatus(cur, status);
      if status == Completed {
        break;
      }
      i := i + 1;
    }
  }

  /** The array behind the slice a query returns. */
  method Queried(events: seq<BTPEvent>) returns (slice: array<BTPEvent>)
    ensures fresh(slice) && slice[..] == events
  {
    slice := new BTPEvent[|events|](i requires 0 <= i < |events| => events[i]);
  }

  /** The rows the tracker keeps for one message (source and serial number): its events, and the
      links, the status and the last network of its status row. */
  class MessageTracker {
    var events: seq<BTPEvent>
    var links: seq<nat>
    var status: Status
    var lastNetwork: string

    /** The status row has the links and the status of the stored events. */
    ghost predicate UpToDate()
      reads this
    {
      links == Ids(Link(events).chain) && status == Link(events).status
    }

    constructor ()
      ensures events == [] && UpToDate() && links == [] && status == Unknown && lastNetwork == ""
    {
      events, links, status, lastNetwork := [], [], Unknown, "";
    }

    /** Relinking recomputes the status row from the stored events. A lookup that fails - which is not
        told from one that finds nothing - leaves no links and the status Unknown. */
    method UpdateLink(network: string, lookup: bool)
      requires Stored(events)
      modifies `links, `status, `lastNetwork
      ensures lastNetwork == network
      ensures lookup ==> UpToDate()
      ensures !lookup ==> links == [] && status == Unknown
    {
      if lookup {
        var slice := Queried(events);
        links, status := GetLinks(slice);
      } else {
        links, status := [], Unknown;
      }
      lastNetwork := network;
    }

    /** A delivered event is stored (unless the insert fails, which is not reported) and the message
        relinked: the links are only appended to and the status does not go back exactly when the lookup
        succeeds or there were no links, and the next one that succeeds brings the row up to date again. */
    method OnBTPEvent(e: BTPEvent, network: string, inserted: bool, lookup: bool)
      requires Stored(events) && UpToDate()
      requires e.id > 0 && forall i | 0 <= i < |events| :: events[i].id != e.id
      modifies this
      ensures events == (if inserted then old(events) + [e] else old(events)) && Stored(events)
              && lastNetwork == network
      ensures lookup ==> UpToDate()
      ensures old(links) <= links && Rank(old(status)) <= Rank(status) <==> lookup || old(links) == []
    {
      ghost var before := events;
      NoLinksUnknown(before);
      if inserted {
        LinkExtends(events, e);
        IdsPrefix(Link(events).chain, Link(events + [e]).chain);
        events := events + [e];
      }
      UpdateLink(network, lookup);
    }
  }

  lemma NoLinksUnknown(es: seq<BTPEvent>)
    ensures |Ids(Link(es).chain)| == |Link(es).chain|
    ensures Link(es).chain == [] ==> Link(es).status == Unknown
  {
  }
}
