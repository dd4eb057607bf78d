/**
 Polling an Ethereum node for logs, head by head: the ranges queried, in closed form.
 */
module EthRanges {

  const MAX_LOG_QUERY_RANGE := 2048
  const TWO_TO_THE_64 := 0x1_0000_0000_0000_0000

  datatype Range = Range(from: int, to: int)

  /** The subtraction of 64-bit numbers the range limit is applied to. */
  function Distance(from: int, head: int): (d: nat)
    ensures 0 <= head - from < TWO_TO_THE_64 ==> d == head - from
    ensures -TWO_TO_THE_64 <= head - from < 0 ==> d == head - from + TWO_TO_THE_64
  {
    (head - from) % TWO_TO_THE_64
  }

  /** The range queried when this head is polled and everything below `from` has been. */
  function Next(from: int, head: int): Range {
    if Distance(from, head) > MAX_LOG_QUERY_RANGE then Range(from, from + MAX_LOG_QUERY_RANGE) else Range(from, head)
  }

  /** Where the query after these starts. */
  function After(rs: seq<Range>, from: int): int {
    if rs == [] then from else rs[|rs| - 1].to + 1
  }

  /** The first `n` ranges: the head rises by one with each. */
  function Ranges(from: int, head: int, n: nat): (rs: seq<Range>)
    ensures |rs| == n
  {
    if n == 0 then []
    else
      var rs := Ranges(from, head, n - 1);
      rs + [Next(After(rs, from), head + n - 1)]
  }

  /** How many queries of at most 2049 blocks close a gap that grows by one with each. */
  function CatchUp(gap: nat): nat {
    (gap + MAX_LOG_QUERY_RANGE - 1) / MAX_LOG_QUERY_RANGE
  }

  lemma CatchUpStep(gap: nat)
    ensures gap <= MAX_LOG_QUERY_RANGE ==> CatchUp(gap) == if gap == 0 then 0 else 1
    ensures gap > MAX_LOG_QUERY_RANGE ==> CatchUp(gap) == 1 + CatchUp(gap - MAX_LOG_QUERY_RANGE)
    ensures MAX_LOG_QUERY_RANGE * CatchUp(gap) >= gap > MAX_LOG_QUERY_RANGE * (CatchUp(gap) - 1)
  {
  }

  /** The k-th range from a start at or below the head: full ranges, then one up to the head
      that closes the gap, then every block as it comes. */
  function ClosedForm(from: int, head: int, k: nat): Range
    requires from <= head
  {
    var c := CatchUp(head - from);
    var full := MAX_LOG_QUERY_RANGE + 1;
    if k + 1 < c then Range(from + full * k, from + full * k + MAX_LOG_QUERY_RANGE)
    else if k + 1 == c then Range(from + full * k, head + k)
    else Range(head + k, head + k)
  }

  /** With the distance as it is when nothing wraps. */
  lemma NextIs(from: int, head: int)
    requires 0 <= head - from < TWO_TO_THE_64
    ensures Next(from, head) == if head - from > MAX_LOG_QUERY_RANGE then Range(from, from + MAX_LOG_QUERY_RANGE)
            else Range(from, head)
  {
  }

  lemma ClosedFormStep(from: int, head: int, k: nat)
    requires 0 <= from <= head && head + k < TWO_TO_THE_64 && k > 0
    ensures Next(ClosedForm(from, head, k - 1).to + 1, head + k) == ClosedForm(from, head, k)
  {
    CatchUpStep(head - from);
    NextIs(ClosedForm(from, head, k - 1).to + 1, head + k);
  }

  /** An initial gap of g blocks is closed by exactly ceil(g / 2048) queries - all but the last of
      2049 blocks - and from then on each query is one block, the polled head. */
  lemma {:induction false} RangesInClosedForm(from: int, head: int, n: nat, k: nat)
    requires 0 <= from <= head && head + n <= TWO_TO_THE_64 && k < n
    ensures Ranges(from, head, n)[k] == ClosedForm(from, head, k)
  {
    if k < n - 1 {
      RangesInClosedForm(from, head, n - 1, k);
    } else if k == 0 {
      CatchUpStep(head - from);
      NextIs(from, head);
    } else {
      RangesInClosedForm(from, head, n - 1, k - 1);
      ClosedFormStep(from, head, k);
    }
  }

  /** Each range starts one past the end of the one before, and the first at the start height. */
  ghost predicate Tiles(rs: seq<Range>, from: int) {
    && (rs != [] ==> rs[0].from == from)
    && (forall k | 0 <= k < |rs| :: rs[k].from <= rs[k].to < rs[k].from + MAX_LOG_QUERY_RANGE + 1)
    && (forall k | 0 <= k < |rs| - 1 :: rs[k + 1].from == rs[k].to + 1)
  }

  /** No query reaches above the head polled for it. */
  ghost predicate WithinHeads(rs: seq<Range>, head: int) {
    forall k | 0 <= k < |rs| :: rs[k].to <= head + k
  }

  lemma {:induction false} RangesTile(from: int, head: int, n: nat)
    requires 0 <= from <= head && head + n <= TWO_TO_THE_64
    ensures Tiles(Ranges(from, head, n), from) && WithinHeads(Ranges(from, head, n), head)
  {
    if n > 0 {
      RangesTile(from, head, n - 1);
      var rs := Ranges(from, head, n - 1);
      if n > 1 {
        RangesInClosedForm(from, head, n - 1, n - 2);
        assert rs[n - 2].to <= head + n - 2;
      }
      NextIs(After(rs, from), head + n - 1);
    }
  }

  lemma {:induction false} FirstRange(from: int, head: int, n: nat)
    requires n > 0
    ensures Ranges(from, head, n)[0] == Next(from, head)
  {
    if n > 1 {
      FirstRange(from, head, n - 1);
    }
  }

  /** Queries stay at or below the polled heads exactly when the start height is at or below the
      first of them; a start above it makes the subtraction wrap and the first query leap ahead. */
  lemma {:induction false} WithinHeadsExactly(from: int, head: int, n: nat)
    requires 0 <= from < TWO_TO_THE_64 / 2 && 0 <= head && head + n <= TWO_TO_THE_64 / 2 && n > 0
    ensures WithinHeads(Ranges(from, head, n), head) <==> from <= head
    ensures from > head ==> Ranges(from, head, n)[0] == Range(from, from + MAX_LOG_QUERY_RANGE)
  {
    if from <= head {
      RangesTile(from, head, n);
    } else {
      FirstRange(from, head, n);
    }
  }

  predicate In(b: int, r: Range) {
    r.from <= b <= r.to
  }

  lemma {:induction false} TilesAscend(rs: seq<Range>, from: int, i: nat, j: nat)
    requires Tiles(rs, from) && i < j < |rs|
    ensures rs[i].to < rs[j].from
    decreases j
  {
    if i < j - 1 {
      TilesAscend(rs, from, i, j - 1);
    }
  }

  /** Some range has the block, when the ranges so far reach from the start up to it. */
  lemma {:induction false} BlockCovered(rs: seq<Range>, from: int, b: int) returns (k: nat)
    requires Tiles(rs, from) && rs != [] && from <= b <= rs[|rs| - 1].to
    ensures k < |rs| && In(b, rs[k])
    decreases |rs|
  {
    k := |rs| - 1;
    if b < rs[k].from {
      var init := rs[..k];
      k := BlockCovered(init, from, b);
    }
  }

  /** After n queries, enough to close the gap, every block from the start height to the head of
      the last query has been queried, in exactly one of them, and when it already existed. */
  lemma EveryBlockQueriedOnce(from: int, head: int, n: nat, b: int) returns (k: nat)
    requires 0 <= from <= head && head + n <= TWO_TO_THE_64
    requires n >= CatchUp(head - from) && n > 0 && from <= b <= head + n - 1
    ensures k < n && b <= head + k
    ensures forall j | 0 <= j < n :: In(b, Ranges(from, head, n)[j]) <==> j == k
  {
    var rs := Ranges(from, head, n);
    RangesTile(from, head, n);
    RangesInClosedForm(from, head, n, n - 1);
    CatchUpStep(head - from);
    k := BlockCovered(rs, from, b);
    forall j | 0 <= j < n ensures In(b, rs[j]) <==> j == k {
      if j < k {
        TilesAscend(rs, from, j, k);
      } else if k < j {
        TilesAscend(rs, from, k, j);
      }
    }
  }
}

/**
 The polling loop over the big integers it shares: block numbers are changed in place, and the
 query's bounds are those very objects.
 */
module EthPolling {
  import opened EthRanges
  import opened Wrappers

  class BigInt {
    var v: int

    constructor (v: int)
      ensures this.v == v
    {
      this.v := v;
    }

    /** Sets this to the sum of `x`, which may be this very object, and `y`. */
    method Add(x: BigInt, y: int) returns (r: BigInt)
      modifies this
      ensures r == this && v == old(x.v) + y
    {
      v := x.v + y;
      r := this;
    }

    function Uint64(): nat
      reads this
    {
      v % TWO_TO_THE_64
    }
  }

  class FilterQuery {
    var fromBlock: BigInt?
    var toBlock: BigInt?

    constructor ()
      ensures fromBlock == null && toBlock == null
    {
      fromBlock, toBlock := null, null;
    }
  }

  /** The height the first query starts at. */
  function StartAt(height: int, head: int): int {
    if height > 0 then height else head
  }

  lemma Uint64Distance(head: int, from: int)
    ensures (head % TWO_TO_THE_64 - from % TWO_TO_THE_64) % TWO_TO_THE_64 == Distance(from, head)
  {
  }

  /** One polled head. `number` is the header's own; `ok` is how the query and the callbacks turn out. */
  method OnBlockHeader(fq: FilterQuery, number: BigInt, ok: bool) returns (r: Range)
    requires fq.fromBlock != number && fq.toBlock != number
    requires fq.fromBlock == null ==> fq.toBlock == null
    modifies fq, fq.fromBlock, fq.toBlock, number
    ensures r == Next(if old(fq.fromBlock) == null then old(number.v) else old(fq.fromBlock.v), old(number.v))
    ensures ok ==> fq.fromBlock != null && fq.fromBlock == fq.toBlock && fq.fromBlock.v == r.to + 1
    ensures ok ==> fq.fromBlock == number || fresh(fq.fromBlock)
  {
    if fq.fromBlock == null {
      fq.fromBlock := new BigInt(number.v);
      fq.toBlock := new BigInt(number.v);
    } else {
      Uint64Distance(number.v, fq.fromBlock.v);
      if (number.Uint64() - fq.fromBlock.Uint64()) % TWO_TO_THE_64 > MAX_LOG_QUERY_RANGE {
        fq.toBlock := number.Add(fq.fromBlock, MAX_LOG_QUERY_RANGE);
      } else {
        fq.toBlock := number;
      }
    }
    r := Range(fq.fromBlock.v, fq.toBlock.v);
    if ok {
      fq.fromBlock := fq.toBlock.Add(fq.toBlock, 1);
    }
  }

  /** One turn of the loop: no header yet, or a header and how its query ends. */
  datatype Answer = NotReady | Header(ok: bool)

  /** The queries the answers from `i` on lead to; a failed one is the last. */
  function QueryCount(answers: seq<Answer>, i: nat := 0): nat
    requires i <= |answers|
    decreases |answers| - i
  {
    if i == |answers| then 0
    else match answers[i]
      case NotReady => QueryCount(answers, i + 1)
      case Header(ok) => if ok then 1 + QueryCount(answers, i + 1) else 1
  }

  /** The headers that arrive from turn `i` on, up to and with the first whose query fails. */
  function Queried(answers: seq<Answer>, i: nat): set<nat> {
    set k | i <= k < |answers| && answers[k].Header? && forall j | i <= j < k :: answers[j] != Header(false)
  }

  /** A query for each of them; turns in which no header has come yet make no difference. */
  lemma {:induction false} QueryCountIs(answers: seq<Answer>, i: nat)
    requires i <= |answers|
    ensures QueryCount(answers, i) == |Queried(answers, i)|
    decreases |answers| - i
  {
    if i < |answers| {
      QueryCountIs(answers, i + 1);
      if answers[i] == Header(false) {
        assert Queried(answers, i) == {i};
      } else if answers[i].Header? {
        assert Queried(answers, i) == {i} + Queried(answers, i + 1);
      } else {
        assert Queried(answers, i) == Queried(answers, i + 1);
      }
    }
  }

  /** The next query starts at `from`; at the head, whatever that is, if there is none yet. */
  ghost predicate StartsAt(fq: FilterQuery, from: Option<int>)
    reads fq, fq.fromBlock
  {
    && (fq.fromBlock == null <==> from.None?)
    && (fq.fromBlock == null ==> fq.toBlock == null)
    && (fq.fromBlock != null ==> fq.fromBlock.v == from.value)
  }

  function NextFrom(height: int, queries: seq<Range>): Option<int> {
    if queries == [] && height <= 0 then None else Some(After(queries, height))
  }

  /** Header `current` arrives and is queried for; the next poll is for the one after. */
  method PollHead(fq: FilterQuery, current: BigInt, ok: bool, ghost from: Option<int>) returns (r: Range)
    requires StartsAt(fq, from) && current != fq.fromBlock && current != fq.toBlock
    modifies fq, fq.fromBlock, fq.toBlock, current
    ensures r == Next(from.Or(old(current.v)), old(current.v))
    ensures ok ==> StartsAt(fq, Some(r.to + 1)) && current.v == old(current.v) + 1
    ensures ok ==> fq.fromBlock == fq.toBlock && fq.fromBlock != null && fresh(fq.fromBlock)
  {
    var number := new BigInt(current.v);
    r := OnBlockHeader(fq, number, ok);
    if ok {
      var c := current.Add(current, 1);
    }
  }

  /** The next range of those that start at the configured height or at the first head. */
  lemma RangesGrow(height: int, head: nat, queries: seq<Range>, r: Range)
    requires queries == Ranges(StartAt(height, head), head, |queries|)
    requires r == Next(NextFrom(height, queries).Or(head + |queries|), head + |queries|)
    ensures queries + [r] == Ranges(StartAt(height, head), head, |queries| + 1)
  {
    assert NextFrom(height, queries).Or(head + |queries|) == After(queries, StartAt(height, head));
  }

  /** The query and the polled number, and the objects they are. */
  ghost predicate Polling(fq: FilterQuery, current: BigInt, from: Option<int>, number: int)
    reads fq, fq.fromBlock, current
  {
    && StartsAt(fq, from) && current.v == number
    && current != fq.fromBlock && current != fq.toBlock
  }

  /** Polls from the current head for as long as answers come; the queries made are the ranges above. */
  method MonitorEvent(height: int, head: nat, answers: seq<Answer>) returns (queries: seq<Range>)
    ensures queries == Ranges(StartAt(height, head), head, QueryCount(answers))
  {
    var fq := new FilterQuery();
    if height > 0 {
      fq.fromBlock := new BigInt(height);
    }
    var current := new BigInt(head);
    queries := [];
    var i := 0;
    while i < |answers|
      invariant 0 <= i <= |answers|
      invariant queries == Ranges(StartAt(height, head), head, |queries|)
      invariant |queries| + QueryCount(answers, i) == QueryCount(answers)
      invariant fresh(fq) && fresh(current)
      invariant (fq.fromBlock != null ==> fresh(fq.fromBlock)) && (fq.toBlock != null ==> fresh(fq.toBlock))
      invariant Polling(fq, current, NextFrom(height, queries), head + |queries|)
    {
      if answers[i].Header? {
        var r := PollHead(fq, current, answers[i].ok, NextFrom(height, queries));
        RangesGrow(height, head, queries, r);
        queries := queries + [r];
        if !answers[i].ok {
          return;
        }
      }
      i := i + 1;
    }
  }
}
