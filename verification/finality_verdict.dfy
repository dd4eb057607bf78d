/**
 Asking the finality monitor about a block: below the last final block the answer rests on the
 node's index of block ids.
 */
module FinalityVerdict {
  import opened FinalityChannels
  import opened Wrappers

  datatype Lookup = Found(height: int) | Missing | Failed

  datatype Verdict = Final | NotYet | NotFound | Invalid | LookupFailed

  /** `latest` is the node's answer when the monitor has no block of its own. */
  function IsFinalized(s: State, latest: Option<BlockInfo>, byId: int -> Lookup, height: int, id: int): Verdict {
    if height < 1 then Invalid
    else
      var last := if s.started && s.last.Some? then s.last else latest;
      if last.None? then LookupFailed
      else if height > last.value.height then NotYet
      else if height == last.value.height then (if last.value.id == id then Final else NotFound)
      else
        match byId(id)
        case Found(h) => if h == height then Final else NotFound
        case Missing => NotFound
        case Failed => LookupFailed
  }

  /** The block finality is judged by: the last one notified, or the node's when the monitor has none. */
  function Judging(s: State, latest: Option<BlockInfo>): Option<BlockInfo> {
    if s.started && s.sent != [] then Some(s.sent[|s.sent| - 1]) else latest
  }

  /** Every answer, in every run and for any index: not found is said only of a block that was judged, by
      another id at the last height or by an index that answers; a failing lookup is never taken for one. */
  lemma VerdictExactly(labels: seq<Label>, latest: Option<BlockInfo>, byId: int -> Lookup, height: int, id: int)
    ensures Run(labels).Ok?
    ensures var v, last := IsFinalized(Run(labels).state, latest, byId, height, id),
              Judging(Run(labels).state, latest);
            && (v == Invalid <==> height < 1)
            && (v == LookupFailed <==>
                  height >= 1 && (last == None || (height < last.value.height && byId(id) == Failed)))
            && (v == NotYet <==> height >= 1 && last.Some? && last.value.height < height)
            && (v == Final <==>
                  && height >= 1 && last.Some?
                  && (last.value == BlockInfo(height, id) || (height < last.value.height && byId(id) == Found(height))))
            && (v == NotFound <==>
                  && height >= 1 && last.Some?
                  && if height == last.value.height then id != last.value.id
                     else height < last.value.height && byId(id) != Found(height) && byId(id) != Failed)
  {
    GapFreeDelivery(labels);
  }

  /** The final chain, by height; blocks with other ids have been replaced. */
  type Chain = seq<int>

  predicate OnChain(chain: Chain, height: int, id: int) {
    0 <= height < |chain| && chain[height] == id
  }

  /** Everything notified, and the latest block, is on the chain. */
  ghost predicate Honest(chain: Chain, s: State, latest: Option<BlockInfo>) {
    && (forall b | b in s.sent :: OnChain(chain, b.height, b.id))
    && (latest.Some? ==> OnChain(chain, latest.value.height, latest.value.id))
  }

  /** Does the index answer for this id by the chain alone, if at all: its height there, or missing? */
  ghost predicate IndexedByChain(chain: Chain, byId: int -> Lookup, id: int) {
    match byId(id)
    case Found(h) => OnChain(chain, h, id)
    case Missing => forall h | 0 <= h < |chain| :: chain[h] != id
    case Failed => true
  }

  /** Ids on the chain are distinct. */
  ghost predicate DistinctIds(chain: Chain) {
    forall i, j | 0 <= i < j < |chain| :: chain[i] != chain[j]
  }

  /** With every block notified on the chain, and an index that answers by the chain or fails, the answers
      are exactly: above the last final block, on the chain, off the chain - and a failure when there is no
      last block or the lookup of a lower one fails. */
  lemma VerdictByChain(chain: Chain, labels: seq<Label>, latest: Option<BlockInfo>, byId: int -> Lookup, height: int,
                       id: int)
    requires Run(labels).Ok? && Honest(chain, Run(labels).state, latest) && DistinctIds(chain)
    requires height >= 1 && IndexedByChain(chain, byId, id)
    ensures var v, last := IsFinalized(Run(labels).state, latest, byId, height, id),
              Judging(Run(labels).state, latest);
            var failed := last == None || (height < last.value.height && byId(id) == Failed);
            && (v.LookupFailed? <==> failed)
            && (v.NotYet? <==> !failed && last.value.height < height)
            && (v.Final? <==> !failed && height <= last.value.height && OnChain(chain, height, id))
            && (v.NotFound? <==> !failed && height <= last.value.height && !OnChain(chain, height, id))
  {
    GapFreeDelivery(labels);
    var s := Run(labels).state;
    if s.last.Some? {
      assert s.last.value in s.sent;
    }
    if byId(id).Found? && OnChain(chain, height, id) {
      assert chain[byId(id).height] == chain[height];
    }
  }

  /** An index that still answers for a replaced block makes it final below the last final block,
      and only there. */
  lemma ReplacedBlockIsFinal(chain: Chain, s: State, latest: Option<BlockInfo>, byId: int -> Lookup, height: int,
                             id: int)
    requires Inv(s) && Honest(chain, s, latest) && !OnChain(chain, height, id)
    ensures IsFinalized(s, latest, byId, height, id).Final? <==>
              var last := Judging(s, latest);
              last.Some? && 1 <= height < last.value.height && byId(id) == Found(height)
  {
    if s.last.Some? {
      assert s.last.value in s.sent;
    }
  }
}
