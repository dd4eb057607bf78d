/**
 The message linker of the BTP tracker: it chains the events of one message
 from the first SEND, always taking the first stored event the current link
 allows next, until the message closes or no event fits.
 */
module BtpLinker {
  import opened BtpEvents

  /** `chain` in link order, and the events left over, in stored order. */
  datatype Linked = Linked(chain: seq<BTPEvent>, status: Status, rest: seq<BTPEvent>)

  /** May `e` follow `cur`? */
  predicate NextHop(cur: BTPEvent, e: BTPEvent) {
    if cur.kind == RECEIVE then e.kind == REPLY || e.kind == ERROR || e.kind == DROP
    else cur.next == e.networkAddress && (e.next == cur.networkAddress ==> e.kind == RECEIVE)
  }

  function FirstSendFrom(es: seq<BTPEvent>, start: nat): (i: nat)
    requires start <= |es|
    ensures start <= i <= |es|
    ensures i < |es| ==> es[i].kind == SEND
    ensures forall j | start <= j < i :: es[j].kind != SEND
    decreases |es| - start
  {
    if start == |es| || es[start].kind == SEND then start else FirstSendFrom(es, start + 1)
  }

  function FirstHopFrom(es: seq<BTPEvent>, cur: BTPEvent, start: nat): (i: nat)
    requires start <= |es|
    ensures start <= i <= |es|
    ensures i < |es| ==> NextHop(cur, es[i])
    ensures forall j | start <= j < i :: !NextHop(cur, es[j])
    decreases |es| - start
  {
    if start == |es| || NextHop(cur, es[start]) then start else FirstHopFrom(es, cur, start + 1)
  }

  /** Position of the first SEND; the length when there is none. */
  function FirstSend(es: seq<BTPEvent>): nat {
    FirstSendFrom(es, 0)
  }

  /** Position of the first event that may follow `cur`; the length when there is none. */
  function FirstHop(es: seq<BTPEvent>, cur: BTPEvent): nat {
    FirstHopFrom(es, cur, 0)
  }

  lemma FirstHopIs(es: seq<BTPEvent>, cur: BTPEvent, i: nat)
    requires i < |es| && NextHop(cur, es[i])
    requires forall j | 0 <= j < i :: !NextHop(cur, es[j])
    ensures FirstHop(es, cur) == i
  {
    assert !(FirstHop(es, cur) < i);
  }

  lemma FirstSendIs(es: seq<BTPEvent>, i: nat)
    requires i < |es| && es[i].kind == SEND
    requires forall j | 0 <= j < i :: es[j].kind != SEND
    ensures FirstSend(es) == i
  {
    assert !(FirstSend(es) < i);
  }

  function Without(es: seq<BTPEvent>, i: nat): (r: seq<BTPEvent>)
    requires i < |es|
  {
    es[..i] + es[i + 1..]
  }

  /** The links that follow `cur`. */
  function Walk(rest: seq<BTPEvent>, cur: BTPEvent, status: Status): Linked
    decreases |rest|
  {
    var i := FirstHop(rest, cur);
    if i == |rest| then Linked([], status, rest)
    else
      var e, left := rest[i], Without(rest, i);
      var st := InferStatus(e, status);
      if st == Completed then Linked([e], st, left)
      else
        var more := Walk(left, e, st);
        Linked([e] + more.chain, more.status, more.rest)
  }

  function Link(es: seq<BTPEvent>): Linked {
    var s := FirstSend(es);
    if s == |es| then Linked([], Unknown, es)
    else
      var more := Walk(Without(es, s), es[s], Sending);
      Linked([es[s]] + more.chain, more.status, more.rest)
  }

  function Ids(es: seq<BTPEvent>): (r: seq<nat>)
    ensures |r| == |es|
  {
    if es == [] then [] else Ids(es[..|es| - 1]) + [es[|es| - 1].id]
  }

  lemma IdsPush(es: seq<BTPEvent>, e: BTPEvent)
    ensures Ids(es + [e]) == Ids(es) + [e.id]
  {
    assert (es + [e])[..|es|] == es;
  }

  lemma {:induction false} IdsPrefix(a: seq<BTPEvent>, b: seq<BTPEvent>)
    requires a <= b
    ensures Ids(a) <= Ids(b)
  {
    if a < b {
      var init := b[..|b| - 1];
      assert a <= init;
      IdsPrefix(a, init);
    } else {
      assert a == b;
    }
  }

  function Last(cur: BTPEvent, chain: seq<BTPEvent>): BTPEvent {
    if chain == [] then cur else chain[|chain| - 1]
  }

  /** `all` is the chain so far, continued by the walk over the slice. */
  ghost predicate Continues(all: Linked, chain: seq<BTPEvent>, slice: seq<BTPEvent>, cur: BTPEvent, status: Status) {
    var r := Walk(slice, cur, status);
    all.chain == chain + r.chain && all.status == r.status
  }

  lemma LinkStart(es: seq<BTPEvent>)
    requires FirstSend(es) < |es|
    ensures var s := FirstSend(es);
            Continues(Link(es), [es[s]], Without(es, s), es[s], Sending)
  {
  }

  /** One turn of the loop takes the head of the walk. */
  lemma LinkStep(all: Linked, chain: seq<BTPEvent>, slice: seq<BTPEvent>, cur: BTPEvent, status: Status)
    requires Continues(all, chain, slice, cur, status)
    ensures var h := FirstHop(slice, cur);
            if h == |slice| then all.chain == chain && all.status == status
            else
              var e := slice[h]; var st := InferStatus(e, status);
              if st == Completed then all.chain == chain + [e] && all.status == st
              else Continues(all, chain + [e], Without(slice, h), e, st)
  {
    var h := FirstHop(slice, cur);
    if h < |slice| {
      var e := slice[h];
      var more := Walk(Without(slice, h), e, InferStatus(e, status));
      assert chain + ([e] + more.chain) == (chain + [e]) + more.chain;
    }
  }

  // ----- nothing lost, nothing invented, nothing reordered

  /** The events of `es` that are not links, in the order of `es`. */
  function Unlinked(es: seq<BTPEvent>, chain: seq<BTPEvent>): seq<BTPEvent> {
    if es == [] then []
    else if es[0] in chain then Unlinked(es[1..], chain)
    else [es[0]] + Unlinked(es[1..], chain)
  }

  lemma {:induction false} UnlinkedMembers(es: seq<BTPEvent>, chain: seq<BTPEvent>)
    ensures forall e :: e in Unlinked(es, chain) <==> e in es && e !in chain
  {
    if es != [] {
      UnlinkedMembers(es[1..], chain);
    }
  }

  lemma {:induction false} UnlinkedConcat(a: seq<BTPEvent>, b: seq<BTPEvent>, chain: seq<BTPEvent>)
    ensures Unlinked(a + b, chain) == Unlinked(a, chain) + Unlinked(b, chain)
  {
    if a == [] {
      assert a + b == b;
    } else {
      var ab := a + b;
      assert ab[1..] == a[1..] + b && ab[0] == a[0];
      UnlinkedConcat(a[1..], b, chain);
      var x, y := Unlinked(a[1..], chain), Unlinked(b, chain);
      assert [a[0]] + (x + y) == ([a[0]] + x) + y;
    }
  }

  lemma {:induction false} UnlinkedIgnores(es: seq<BTPEvent>, e: BTPEvent, chain: seq<BTPEvent>)
    requires e !in es
    ensures Unlinked(es, [e] + chain) == Unlinked(es, chain)
  {
    if es != [] {
      UnlinkedIgnores(es[1..], e, chain);
    }
  }

  lemma StoredWithout(es: seq<BTPEvent>, i: nat)
    requires Stored(es) && i < |es|
    ensures Stored(Without(es, i)) && es[i] !in Without(es, i)
    ensures multiset(es) == multiset{es[i]} + multiset(Without(es, i))
  {
    assert es == es[..i] + [es[i]] + es[i + 1..];
  }

  lemma UnlinkedWithout(es: seq<BTPEvent>, i: nat, chain: seq<BTPEvent>)
    requires Stored(es) && i < |es|
    ensures Unlinked(es, [es[i]] + chain) == Unlinked(Without(es, i), chain)
  {
    var e := es[i];
    StoredWithout(es, i);
    assert es == es[..i] + ([e] + es[i + 1..]);
    var all := [e] + chain;
    UnlinkedConcat(es[..i], [e] + es[i + 1..], all);
    UnlinkedConcat([e], es[i + 1..], all);
    UnlinkedConcat(es[..i], es[i + 1..], all);
    assert Unlinked([e], all) == [];
    UnlinkedIgnores(Without(es, i), e, chain);
  }

  lemma {:induction false} WalkConserves(rest: seq<BTPEvent>, cur: BTPEvent, status: Status)
    requires Stored(rest)
    ensures var r := Walk(rest, cur, status);
            && multiset(r.chain) + multiset(r.rest) == multiset(rest)
            && r.rest == Unlinked(rest, r.chain)
            && Stored(r.chain)
    decreases |rest|
  {
    var i := FirstHop(rest, cur);
    if i == |rest| {
      UnlinkedNothing(rest);
    } else {
      var e, left := rest[i], Without(rest, i);
      StoredWithout(rest, i);
      var st := InferStatus(e, status);
      if st == Completed {
        UnlinkedNothing(left);
        UnlinkedWithout(rest, i, []);
        assert [e] + [] == [e];
      } else {
        WalkConserves(left, e, st);
        var more := Walk(left, e, st);
        UnlinkedWithout(rest, i, more.chain);
        PartOf(rest, i, more.chain, more.rest);
      }
    }
  }

  /** A link goes before links taken from what it left, and all keys stay distinct. */
  lemma PartOf(rest: seq<BTPEvent>, i: nat, chain: seq<BTPEvent>, left: seq<BTPEvent>)
    requires Stored(rest) && i < |rest| && Stored(chain)
    requires multiset(chain) + multiset(left) == multiset(Without(rest, i))
    ensures Stored([rest[i]] + chain)
  {
    forall e | e in chain ensures e.id != rest[i].id {
      assert e in multiset(Without(rest, i));
      assert e in Without(rest, i);
    }
  }

  lemma {:induction false} UnlinkedNothing(es: seq<BTPEvent>)
    ensures Unlinked(es, []) == es
  {
    if es != [] {
      UnlinkedNothing(es[1..]);
    }
  }

  /** Conservation: links and left-over events together are the stored events, each
      once; the left-over events keep their order; no event is linked twice. */
  lemma LinkConserves(es: seq<BTPEvent>)
    requires Stored(es)
    ensures var r := Link(es);
            && multiset(r.chain) + multiset(r.rest) == multiset(es)
            && r.rest == Unlinked(es, r.chain)
            && Stored(r.chain)
  {
    var s := FirstSend(es);
    var r := Link(es);
    if s == |es| {
      UnlinkedNothing(es);
    } else {
      StoredWithout(es, s);
      var more := Walk(Without(es, s), es[s], Sending);
      WalkConserves(Without(es, s), es[s], Sending);
      UnlinkedWithout(es, s, more.chain);
      PartOf(es, s, more.chain, more.rest);
    }
  }

  // ----- every link is a next hop, the first one available, and the chain is maximal

  /** What the messages on the route say: a delivery is followed by its reply, its error or its drop. Any other
      event is followed by one at the address it names, and back at its own address only by a delivery. */
  ghost predicate OnRoute(a: BTPEvent, b: BTPEvent) {
    && (a.kind == RECEIVE ==> b.kind == REPLY || b.kind == ERROR || b.kind == DROP)
    && (a.kind != RECEIVE ==> b.networkAddress == a.next)
    && (a.kind != RECEIVE && b.next == a.networkAddress ==> b.kind == RECEIVE)
  }

  /** `es[p]` is the first event of `es` that may follow `cur` and is not linked yet. */
  ghost predicate FirstFree(es: seq<BTPEvent>, linked: seq<BTPEvent>, cur: BTPEvent, p: int) {
    && 0 <= p < |es| && es[p] !in linked && OnRoute(cur, es[p])
    && forall q | 0 <= q < p :: es[q] in linked || !OnRoute(cur, es[q])
  }

  /** Link `k + 1` is the first free event that may follow link `k`. */
  ghost predicate GreedyAt(es: seq<BTPEvent>, chain: seq<BTPEvent>, k: nat)
    requires k + 1 < |chain|
  {
    exists p :: FirstFree(es, chain[..k + 1], chain[k], p) && es[p] == chain[k + 1]
  }

  /** The first fit among the unlinked events is the first free fit among all. */
  lemma {:induction false} FirstFreeInUnlinked(es: seq<BTPEvent>, linked: seq<BTPEvent>, cur: BTPEvent, h: nat)
    requires h == FirstHop(Unlinked(es, linked), cur) < |Unlinked(es, linked)|
    ensures exists p :: FirstFree(es, linked, cur, p) && es[p] == Unlinked(es, linked)[h]
  {
    var rest := Unlinked(es, linked);
    var tail := Unlinked(es[1..], linked);
    if es[0] !in linked && NextHop(cur, es[0]) {
      FirstHopIs(rest, cur, 0);
      assert FirstFree(es, linked, cur, 0);
    } else {
      var shift := if es[0] in linked then 0 else 1;
      assert tail == rest[shift..];
      assert forall j | 0 <= j < h - shift :: !NextHop(cur, tail[j]);
      FirstHopIs(tail, cur, h - shift);
      FirstFreeInUnlinked(es[1..], linked, cur, h - shift);
      var p :| FirstFree(es[1..], linked, cur, p) && es[1..][p] == tail[h - shift];
      assert FirstFree(es, linked, cur, p + 1);
    }
  }

  lemma GreedyNext(es: seq<BTPEvent>, linked: seq<BTPEvent>, cur: BTPEvent, chain: seq<BTPEvent>)
    requires linked != [] && cur == linked[|linked| - 1]
    requires linked < chain
    requires var rest := Unlinked(es, linked);
             FirstHop(rest, cur) < |rest| && chain[|linked|] == rest[FirstHop(rest, cur)]
    ensures GreedyAt(es, chain, |linked| - 1)
  {
    FirstFreeInUnlinked(es, linked, cur, FirstHop(Unlinked(es, linked), cur));
    assert chain[..|linked|] == linked;
  }

  /** Continuing the chain `linked`, whose last link is `cur`: every further link is greedy. */
  lemma {:induction false} WalkGreedy(es: seq<BTPEvent>, linked: seq<BTPEvent>, rest: seq<BTPEvent>, status: Status,
                                      all: Linked, k: nat)
    requires Stored(es) && linked != [] && rest == Unlinked(es, linked)
    requires Continues(all, linked, rest, linked[|linked| - 1], status)
    requires |linked| - 1 <= k < |all.chain| - 1
    ensures GreedyAt(es, all.chain, k)
    decreases k + 1 - |linked|
  {
    var cur := linked[|linked| - 1];
    LinkStep(all, linked, rest, cur, status);
    var h := FirstHop(rest, cur);
    if k == |linked| - 1 {
      GreedyNext(es, linked, cur, all.chain);
    } else {
      UnlinkedOneMore(es, linked, h);
      WalkGreedy(es, linked + [rest[h]], Without(rest, h), InferStatus(rest[h], status), all, k);
    }
  }

  /** A walk that leaves the message open has nothing left to link. */
  lemma {:induction false} WalkMaximal(rest: seq<BTPEvent>, cur: BTPEvent, status: Status)
    requires Walk(rest, cur, status).status != Completed
    ensures var r := Walk(rest, cur, status);
            forall e | e in r.rest :: !OnRoute(Last(cur, r.chain), e)
    decreases |rest|
  {
    var i := FirstHop(rest, cur);
    if i < |rest| {
      WalkMaximal(Without(rest, i), rest[i], InferStatus(rest[i], status));
    }
  }

  lemma {:induction false} StoredUnlinked(es: seq<BTPEvent>, linked: seq<BTPEvent>)
    requires Stored(es)
    ensures Stored(Unlinked(es, linked))
  {
    if es != [] {
      StoredUnlinked(es[1..], linked);
      UnlinkedMembers(es[1..], linked);
      assert forall e | e in es[1..] :: e.id != es[0].id;
    }
  }

  lemma UnlinkedOneMore(es: seq<BTPEvent>, linked: seq<BTPEvent>, i: nat)
    requires Stored(es) && i < |Unlinked(es, linked)|
    ensures Without(Unlinked(es, linked), i) == Unlinked(es, linked + [Unlinked(es, linked)[i]])
  {
    var rest := Unlinked(es, linked);
    StoredUnlinked(es, linked);
    UnlinkedWithout(rest, i, []);
    UnlinkedNothing(Without(rest, i));
    assert [rest[i]] + [] == [rest[i]];
    UnlinkedTwice(es, linked, [rest[i]]);
  }

  lemma {:induction false} UnlinkedTwice(es: seq<BTPEvent>, a: seq<BTPEvent>, b: seq<BTPEvent>)
    ensures Unlinked(Unlinked(es, a), b) == Unlinked(es, a + b)
  {
    if es != [] {
      UnlinkedTwice(es[1..], a, b);
      if es[0] !in a {
        assert Unlinked(es, a)[1..] == Unlinked(es[1..], a);
      }
    }
  }

  lemma UnlinkedStart(es: seq<BTPEvent>)
    requires Stored(es) && FirstSend(es) < |es|
    ensures Without(es, FirstSend(es)) == Unlinked(es, [es[FirstSend(es)]])
  {
    var s := FirstSend(es);
    UnlinkedWithout(es, s, []);
    UnlinkedNothing(Without(es, s));
    assert [es[s]] + [] == [es[s]];
  }

  lemma LinkIsGreedy(es: seq<BTPEvent>, k: nat)
    requires Stored(es) && k < |Link(es).chain| - 1
    ensures GreedyAt(es, Link(es).chain, k)
  {
    var s := FirstSend(es);
    UnlinkedStart(es);
    LinkStart(es);
    WalkGreedy(es, [es[s]], Without(es, s), Sending, Link(es), k);
  }

  /** The greedy policy, stated on the stored events alone: the chain starts at the first
      SEND, each link is the first unlinked event that may follow the one before, and
      an open chain cannot be extended. */
  lemma LinkIsGreedyAndMaximal(es: seq<BTPEvent>)
    requires Stored(es)
    ensures var r := Link(es);
            && (r.chain == [] ==> forall e | e in es :: e.kind != SEND)
            && (r.chain != [] ==> FirstSend(es) < |es| && r.chain[0] == es[FirstSend(es)])
            && (forall k: nat | k < |r.chain| - 1 :: GreedyAt(es, r.chain, k))
            && (r.chain != [] && r.status != Completed ==>
                  forall e | e in r.rest :: !OnRoute(r.chain[|r.chain| - 1], e))
  {
    var s, r := FirstSend(es), Link(es);
    forall k: nat | k < |r.chain| - 1 ensures GreedyAt(es, r.chain, k) {
      LinkIsGreedy(es, k);
    }
    if s < |es| && r.status != Completed {
      WalkMaximal(Without(es, s), es[s], Sending);
    }
  }

  /** Read off the addresses and kinds of any two links next to each other: the second is on the route of
      the first, and no event stored before it that is not linked yet is. */
  lemma LinksAreOnRoute(es: seq<BTPEvent>, k: nat)
    requires Stored(es) && k + 1 < |Link(es).chain|
    ensures var a, b := Link(es).chain[k], Link(es).chain[k + 1];
            && (a.kind == RECEIVE ==> b.kind == REPLY || b.kind == ERROR || b.kind == DROP)
            && (a.kind != RECEIVE ==> b.networkAddress == a.next)
            && (a.kind != RECEIVE && b.kind != RECEIVE ==> b.next != a.networkAddress)
    ensures exists p :: 0 <= p < |es| && es[p] == Link(es).chain[k + 1]
                        && forall q | 0 <= q < p && es[q] !in Link(es).chain[..k + 1] ::
                             !OnRoute(Link(es).chain[k], es[q])
  {
    LinkIsGreedy(es, k);
    var chain := Link(es).chain;
    var p :| FirstFree(es, chain[..k + 1], chain[k], p) && es[p] == chain[k + 1];
    assert OnRoute(chain[k], chain[k + 1]);
  }

  // ----- the status is the status of the chain

  /** The automaton run over `links`, the way the linker runs it. */
  function Fold(status: Status, links: seq<BTPEvent>): Status
    decreases |links|
  {
    if links == [] then status else Fold(InferStatus(links[0], status), links[1..])
  }

  lemma {:induction false} FoldLast(status: Status, links: seq<BTPEvent>, e: BTPEvent)
    ensures Fold(status, links + [e]) == InferStatus(e, Fold(status, links))
    decreases |links|
  {
    if links == [] {
      assert links + [e] == [e];
    } else {
      assert (links + [e])[1..] == links[1..] + [e];
      FoldLast(InferStatus(links[0], status), links[1..], e);
    }
  }

  lemma {:induction false} FoldIsStatusAfter(links: seq<BTPEvent>)
    ensures Fold(Sending, links) == StatusAfter(links)
  {
    if links != [] {
      var init := links[..|links| - 1];
      FoldIsStatusAfter(init);
      FoldLast(Sending, init, links[|links| - 1]);
      assert init + [links[|links| - 1]] == links;
    }
  }

  /** The status of a walk is the automaton's, and it stops at the first Completed. */
  lemma {:induction false} WalkStatus(rest: seq<BTPEvent>, cur: BTPEvent, status: Status)
    ensures var r := Walk(rest, cur, status); r.status == Fold(status, r.chain)
    decreases |rest|
  {
    var i := FirstHop(rest, cur);
    if i < |rest| {
      WalkStatus(Without(rest, i), rest[i], InferStatus(rest[i], status));
    }
  }

  lemma {:induction false} WalkOpenBefore(rest: seq<BTPEvent>, cur: BTPEvent, status: Status, k: nat)
    requires status != Completed && k < |Walk(rest, cur, status).chain|
    ensures Fold(status, Walk(rest, cur, status).chain[..k]) != Completed
    decreases k
  {
    var chain := Walk(rest, cur, status).chain;
    if k > 0 {
      var i := FirstHop(rest, cur);
      var st := InferStatus(rest[i], status);
      WalkOpenBefore(Without(rest, i), rest[i], st, k - 1);
      assert chain[..k][1..] == Walk(Without(rest, i), rest[i], st).chain[..k - 1];
    }
  }

  /** The linker reports Completed exactly when its last link closes the message,
      and no earlier link does. */
  lemma CompletedExactlyAtTheEnd(es: seq<BTPEvent>)
    requires Link(es).chain != []
    ensures var r := Link(es); var after := r.chain[1..];
            && r.status == StatusAfter(after)
            && (r.status == Completed <==> CompletesAt(after, |after| - 1))
            && forall k | 0 <= k < |after| - 1 :: !CompletesAt(after, k)
  {
    ChainStatus(es);
    ClosesOnlyAtTheEnd(Link(es).chain[1..]);
  }

  lemma ChainStatus(es: seq<BTPEvent>)
    requires Link(es).chain != []
    ensures var r := Link(es);
            && r.status == StatusAfter(r.chain[1..])
            && OpenBeforeLast(r.chain[1..])
  {
    var s := FirstSend(es);
    var after := Link(es).chain[1..];
    WalkStatus(Without(es, s), es[s], Sending);
    FoldIsStatusAfter(after);
    forall n | 1 <= n < |after| ensures StatusAfter(after[..n]) != Completed {
      WalkOpenBefore(Without(es, s), es[s], Sending, n);
      FoldIsStatusAfter(after[..n]);
    }
  }

  ghost predicate OpenBeforeLast(after: seq<BTPEvent>) {
    forall n | 1 <= n < |after| :: StatusAfter(after[..n]) != Completed
  }

  lemma ClosesOnlyAtTheEnd(after: seq<BTPEvent>)
    requires OpenBeforeLast(after)
    ensures StatusAfter(after) == Completed <==> CompletesAt(after, |after| - 1)
    ensures forall k | 0 <= k < |after| - 1 :: !CompletesAt(after, k)
  {
    forall k | 0 <= k < |after| - 1 ensures !CompletesAt(after, k) {
      NotClosedInPrefix(after, k);
    }
    CompletedIffClosed(after);
  }

  lemma NotClosedInPrefix(after: seq<BTPEvent>, k: nat)
    requires k < |after| && StatusAfter(after[..k + 1]) != Completed
    ensures !CompletesAt(after, k)
  {
    CompletedIffClosed(after[..k + 1]);
    CompletesAtPrefix(after[..k + 1], after[k + 1..], k);
    assert after == after[..k + 1] + after[k + 1..];
  }

  // ----- growing histories

  lemma {:induction false} WalkNeverRegresses(rest: seq<BTPEvent>, cur: BTPEvent, status: Status)
    ensures Rank(status) <= Rank(Walk(rest, cur, status).status)
    decreases |rest|
  {
    var i := FirstHop(rest, cur);
    if i < |rest| {
      InferNeverRegresses(rest[i], status);
      WalkNeverRegresses(Without(rest, i), rest[i], InferStatus(rest[i], status));
    }
  }

  lemma WalkUnfolds(rest: seq<BTPEvent>, cur: BTPEvent, status: Status, i: nat)
    requires i < |rest| && FirstHop(rest, cur) == i
    ensures var st, more := InferStatus(rest[i], status), Walk(Without(rest, i), rest[i], InferStatus(rest[i], status));
            Walk(rest, cur, status) ==
            if st == Completed then Linked([rest[i]], st, Without(rest, i))
               else Linked([rest[i]] + more.chain, more.status, more.rest)
  {
  }

  lemma {:induction false} WalkExtends(rest: seq<BTPEvent>, e: BTPEvent, cur: BTPEvent, status: Status)
    ensures Walk(rest, cur, status).chain <= Walk(rest + [e], cur, status).chain
    ensures Rank(Walk(rest, cur, status).status) <= Rank(Walk(rest + [e], cur, status).status)
    decreases |rest|
  {
    var i := FirstHop(rest, cur);
    if i == |rest| {
      WalkNeverRegresses(rest + [e], cur, status);
    } else {
      FirstHopIs(rest + [e], cur, i);
      assert Without(rest + [e], i) == Without(rest, i) + [e];
      WalkExtends(Without(rest, i), e, rest[i], InferStatus(rest[i], status));
      WalkUnfolds(rest, cur, status, i);
      WalkUnfolds(rest + [e], cur, status, i);
    }
  }

  /** One more stored event: the links so far stay, the status does not go back. */
  lemma LinkExtends(es: seq<BTPEvent>, e: BTPEvent)
    ensures Link(es).chain <= Link(es + [e]).chain
    ensures Rank(Link(es).status) <= Rank(Link(es + [e]).status)
  {
    var s := FirstSend(es);
    if s < |es| {
      FirstSendIs(es + [e], s);
      assert Without(es + [e], s) == Without(es, s) + [e];
      WalkExtends(Without(es, s), e, es[s], Sending);
    }
  }

  lemma PrefixTransitive(a: seq<BTPEvent>, b: seq<BTPEvent>, c: seq<BTPEvent>)
    requires a <= b <= c
    ensures a <= c
  {
  }

  /** Over every run of appended events: what is linked after `i` events is a prefix of
      what is linked after `j` events, and the status rank never drops. */
  lemma {:induction false} LinksOnlyGrow(history: seq<BTPEvent>, i: nat, j: nat)
    requires i <= j <= |history|
    ensures Link(history[..i]).chain <= Link(history[..j]).chain
    ensures Rank(Link(history[..i]).status) <= Rank(Link(history[..j]).status)
    decreases j - i
  {
    if i < j {
      LinksOnlyGrow(history, i, j - 1);
      assert history[..j] == history[..j - 1] + [history[j - 1]];
      LinkExtends(history[..j - 1], history[j - 1]);
      PrefixTransitive(Link(history[..i]).chain, Link(history[..j - 1]).chain, Link(history[..j]).chain);
    }
  }
}
