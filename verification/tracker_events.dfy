/**
 The events of one BTP message, as the tracker stores them, and the status
 automaton the tracker folds over the chain of linked events.
 */
module BtpEvents {

  /** The event names the linker tells apart; every other name is `OtherKind`. */
  datatype Kind = SEND | ROUTE | RECEIVE | REPLY | DROP | ERROR | OtherKind(name: string)

  datatype BTPEvent = BTPEvent(id: nat, kind: Kind, next: string, networkAddress: string)

  datatype Status = Unknown | Sending | WaitReply | Replying | Completed

  /** The zero record, which the search for a next link returns when it finds none. */
  const ZERO_EVENT := BTPEvent(0, OtherKind(""), "", "")

  function Rank(s: Status): nat {
    match s
    case Unknown => 0
    case Sending => 1
    case WaitReply => 2
    case Replying => 3
    case Completed => 4
  }

  /** Rows of the event table: positive primary keys, no key twice. */
  ghost predicate Stored(es: seq<BTPEvent>) {
    && (forall i | 0 <= i < |es| :: es[i].id > 0)
    && (forall i, j | 0 <= i < j < |es| :: es[i].id != es[j].id)
  }

  function InferStatus(e: BTPEvent, status: Status): Status {
    if e.kind == DROP then Completed
    else match status
      case Sending =>
        if e.kind == RECEIVE then (if |e.next| > 0 then WaitReply else Completed) else status
      case WaitReply => if e.kind == REPLY || e.kind == ERROR then Replying else status
      case Replying => if e.kind == RECEIVE then Completed else status
      case _ => status
  }

  /** The status after the links that follow the SEND. */
  function StatusAfter(links: seq<BTPEvent>): Status {
    if links == [] then Sending
    else InferStatus(links[|links| - 1], StatusAfter(links[..|links| - 1]))
  }

  /** The other side has answered. */
  predicate IsReply(e: BTPEvent) {
    e.kind == REPLY || e.kind == ERROR
  }

  ghost predicate FirstReceiveAt(links: seq<BTPEvent>, i: int) {
    && 0 <= i < |links| && links[i].kind == RECEIVE
    && forall h | 0 <= h < i :: links[h].kind != RECEIVE
  }

  /** A reply at `j` to the non-final delivery at `i`. */
  ghost predicate RepliedAt(links: seq<BTPEvent>, i: int, j: int) {
    && FirstReceiveAt(links, i) && |links[i].next| > 0
    && i < j < |links| && IsReply(links[j])
  }

  /** What closes a message: a drop; the final delivery of a one-way message;
      or the delivery of the answer to a two-way message. */
  ghost predicate CompletesAt(links: seq<BTPEvent>, k: int) {
    && 0 <= k < |links|
    && (|| links[k].kind == DROP
        || (FirstReceiveAt(links, k) && links[k].next == "")
        || (links[k].kind == RECEIVE && exists i, j | RepliedAt(links, i, j) :: j < k))
  }

  /** The shape of a chain in each status that is not Completed. */
  ghost predicate Describes(links: seq<BTPEvent>, status: Status) {
    match status
    case Unknown => false
    case Sending =>
      forall k | 0 <= k < |links| :: links[k].kind != DROP && links[k].kind != RECEIVE
    case WaitReply =>
      && (forall k | 0 <= k < |links| :: links[k].kind != DROP)
      && exists i :: FirstReceiveAt(links, i) && |links[i].next| > 0
                     && forall j | i < j < |links| :: !IsReply(links[j])
    case Replying =>
      && (forall k | 0 <= k < |links| :: links[k].kind != DROP)
      && exists i, j :: RepliedAt(links, i, j)
                        && (forall h | i < h < j :: !IsReply(links[h]))
                        && forall k | j < k < |links| :: links[k].kind != RECEIVE
    case Completed => exists k :: CompletesAt(links, k)
  }

  lemma CompletesAtPrefix(links: seq<BTPEvent>, more: seq<BTPEvent>, k: int)
    requires 0 <= k < |links|
    ensures CompletesAt(links, k) <==> CompletesAt(links + more, k)
  {
    var all := links + more;
    assert forall i | 0 <= i < |links| :: all[i] == links[i];
    assert FirstReceiveAt(links, k) <==> FirstReceiveAt(all, k);
    if i, j :| RepliedAt(links, i, j) && j < k {
      assert RepliedAt(all, i, j);
    }
    if i, j :| RepliedAt(all, i, j) && j < k {
      assert RepliedAt(links, i, j);
    }
  }

  lemma SendingGoesOn(init: seq<BTPEvent>, e: BTPEvent)
    requires Describes(init, Sending) && e.kind != DROP
    ensures Describes(init + [e], InferStatus(e, Sending))
  {
    var links, n := init + [e], |init|;
    if e.kind == RECEIVE {
      assert FirstReceiveAt(links, n);
      assert |e.next| == 0 ==> CompletesAt(links, n);
    }
  }

  lemma WaitReplyGoesOn(init: seq<BTPEvent>, e: BTPEvent)
    requires Describes(init, WaitReply) && e.kind != DROP
    ensures Describes(init + [e], InferStatus(e, WaitReply))
  {
    var links, n := init + [e], |init|;
    var i :| FirstReceiveAt(init, i) && |init[i].next| > 0 && forall j | i < j < n :: !IsReply(init[j]);
    assert FirstReceiveAt(links, i);
    if IsReply(e) {
      assert RepliedAt(links, i, n);
    }
  }

  lemma ReplyingGoesOn(init: seq<BTPEvent>, e: BTPEvent)
    requires Describes(init, Replying) && e.kind != DROP
    ensures Describes(init + [e], InferStatus(e, Replying))
  {
    var links, n := init + [e], |init|;
    var i, j :| RepliedAt(init, i, j)
                && (forall h | i < h < j :: !IsReply(init[h])) && forall k | j < k < n :: init[k].kind != RECEIVE;
    assert FirstReceiveAt(links, i) && RepliedAt(links, i, j);
    if e.kind == RECEIVE {
      assert CompletesAt(links, n);
    }
  }

  lemma ClosedStaysClosed(init: seq<BTPEvent>, e: BTPEvent)
    requires Describes(init, Completed) || e.kind == DROP
    ensures Describes(init + [e], Completed)
  {
    if e.kind == DROP {
      assert CompletesAt(init + [e], |init|);
    } else {
      var k :| CompletesAt(init, k);
      CompletesAtPrefix(init, [e], k);
    }
  }

  /** Every status says exactly what it should about the chain so far. */
  lemma {:induction false} StatusDescribes(links: seq<BTPEvent>)
    ensures Describes(links, StatusAfter(links))
  {
    if links != [] {
      var init, e := links[..|links| - 1], links[|links| - 1];
      assert links == init + [e];
      StatusDescribes(init);
      if e.kind == DROP || StatusAfter(init) == Completed {
        ClosedStaysClosed(init, e);
      } else if StatusAfter(init) == Sending {
        SendingGoesOn(init, e);
      } else if StatusAfter(init) == WaitReply {
        WaitReplyGoesOn(init, e);
      } else {
        ReplyingGoesOn(init, e);
      }
    }
  }

  /** A chain in an open status holds no closing link. */
  lemma OpenMeansNotClosed(links: seq<BTPEvent>, status: Status, k: int)
    requires Describes(links, status) && status != Completed
    ensures !CompletesAt(links, k)
  {
    if status == WaitReply {
      var i :| FirstReceiveAt(links, i) && |links[i].next| > 0
               && forall j | i < j < |links| :: !IsReply(links[j]);
      assert forall h | FirstReceiveAt(links, h) :: h == i;
    } else if status == Replying {
      var i, j :| RepliedAt(links, i, j)
                  && (forall h | i < h < j :: !IsReply(links[h]))
                  && forall h | j < h < |links| :: links[h].kind != RECEIVE;
      assert forall i', j' | RepliedAt(links, i', j') :: i' == i && j <= j';
    }
  }

  /** A message is Completed exactly when some link of its chain closes it. */
  lemma CompletedIffClosed(links: seq<BTPEvent>)
    ensures StatusAfter(links) == Completed <==> exists k :: CompletesAt(links, k)
  {
    StatusDescribes(links);
    if StatusAfter(links) != Completed {
      forall k ensures !CompletesAt(links, k) {
        OpenMeansNotClosed(links, StatusAfter(links), k);
      }
    }
  }

  /** Following more links never lowers the status. */
  lemma InferNeverRegresses(e: BTPEvent, s: Status)
    ensures Rank(s) <= Rank(InferStatus(e, s))
  {
  }
}
