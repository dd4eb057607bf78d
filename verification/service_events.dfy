/**
 Events of service specs: merging the events of several network types, collapsing, and expanding again.
 Indexed parameters are compared as lists of names, by length and in one direction.
 */
module ServiceEvents {
  import opened SpecTypes
  import opened ServiceSpec
  import opened ServiceMerge
  import opened Wrappers

  /** What an event looks like: its parameters, and the names of those that are indexed. */
  datatype Facets = Facets(inputs: Fields, indexed: seq<string>)

  datatype EventFlag = EventFlag(inputs: bool, indexed: bool)

  datatype EventOverload =
    EventOverload(networkTypes: seq<NetworkType>, inputs: Option<Fields>, indexed: Option<seq<string>>)

  datatype Event = Event(networkTypes: seq<NetworkType>, facets: Facets, overloads: seq<EventOverload>)

  // ----- comparing

  predicate EqualsIndexed(a: seq<string>, b: seq<string>) {
    |a| == |b| && forall name | name in a :: name in b
  }

  ghost predicate Distinct(l: seq<string>) {
    forall i, j | 0 <= i < j < |l| :: l[i] != l[j]
  }

  function Names(l: seq<string>): set<string> {
    set name | name in l
  }

  lemma {:induction false} DistinctNames(l: seq<string>)
    ensures |Names(l)| <= |l|
    ensures |Names(l)| == |l| <==> Distinct(l)
  {
    if l != [] {
      var init, last := l[..|l| - 1], l[|l| - 1];
      DistinctNames(init);
      assert l == init + [last];
      assert Names(l) == Names(init) + {last};
      if last in init {
        var i :| 0 <= i < |init| && init[i] == last;
        assert l[i] == l[|l| - 1];
      } else {
        assert |Names(l)| == |Names(init)| + 1;
      }
    }
  }

  lemma SubsetOfSameSize(a: set<string>, b: set<string>)
    requires a <= b && |a| >= |b|
    ensures a == b
  {
    assert |b - a| == |b| - |a|;
  }

  /** With no duplicates on the left the comparison is that of the names as sets, and there are none on
      the right either. */
  lemma EqualsIndexedIsSameNames(a: seq<string>, b: seq<string>)
    requires Distinct(a)
    ensures EqualsIndexed(a, b) <==> |a| == |b| && Names(a) == Names(b)
    ensures EqualsIndexed(a, b) ==> Distinct(b) && EqualsIndexed(b, a)
  {
    DistinctNames(a);
    DistinctNames(b);
    if EqualsIndexed(a, b) {
      SubsetOfSameSize(Names(a), Names(b));
      assert forall name | name in b :: name in Names(a);
    }
    if |a| == |b| && Names(a) == Names(b) {
      assert forall name | name in a :: name in Names(b);
    }
  }

  /** With a duplicate on the left a list with a name more passes, in this direction only. */
  lemma DuplicatesCompareOneWay(x: string, y: string)
    requires x != y
    ensures EqualsIndexed([x, x], [x, y]) && !EqualsIndexed([x, y], [x, x])
  {
    assert y in [x, y];
  }

  function CompareEvents(a: Facets, b: Facets): EventFlag {
    EventFlag(!EqualsNameAndTypes(a.inputs, b.inputs), !EqualsIndexed(a.indexed, b.indexed))
  }

  predicate NoFlag(f: EventFlag) {
    !f.inputs && !f.indexed
  }

  predicate EventCompatible(o: EventOverload, cs: Facets) {
    && (o.inputs.Some? ==> EqualsNameAndTypes(o.inputs.value, cs.inputs))
    && (o.indexed.Some? ==> EqualsIndexed(o.indexed.value, cs.indexed))
  }

  function NewEventOverload(f: EventFlag, cs: Facets, nts: seq<NetworkType>): EventOverload {
    EventOverload(nts, if f.inputs then Some(cs.inputs) else None, if f.indexed then Some(cs.indexed) else None)
  }

  function ApplyEvent(facets: Facets, o: EventOverload): Facets {
    Facets(o.inputs.Or(facets.inputs), o.indexed.Or(facets.indexed))
  }

  // ----- finding overloads

  function FirstEventFor(os: seq<EventOverload>, nt: NetworkType, from: nat := 0): (j: nat)
    requires from <= |os|
    ensures from <= j <= |os| && (j < |os| ==> nt in os[j].networkTypes)
    ensures forall i | from <= i < j :: nt !in os[i].networkTypes
    decreases |os| - from
  {
    if from == |os| || nt in os[from].networkTypes then from else FirstEventFor(os, nt, from + 1)
  }

  function FirstEventCompatible(os: seq<EventOverload>, cs: Facets, from: nat := 0): (j: nat)
    requires from <= |os|
    ensures from <= j <= |os| && (j < |os| ==> EventCompatible(os[j], cs))
    ensures forall i | from <= i < j :: !EventCompatible(os[i], cs)
    decreases |os| - from
  {
    if from == |os| || EventCompatible(os[from], cs) then from else FirstEventCompatible(os, cs, from + 1)
  }

  predicate InOverload(e: Event, nt: NetworkType) {
    FirstEventFor(e.overloads, nt) < |e.overloads|
  }

  predicate EventSupports(e: Event, nt: NetworkType) {
    nt in e.networkTypes || InOverload(e, nt)
  }

  function EffectiveEvent(e: Event, nt: NetworkType): Facets
    requires EventSupports(e, nt)
  {
    if nt in e.networkTypes then e.facets else ApplyEvent(e.facets, e.overloads[FirstEventFor(e.overloads, nt)])
  }

  // ----- merging

  /** A network type whose contract agrees with the base: out of its overload, or into the base. */
  function AddEventToBase(e: Event, nt: NetworkType): Event {
    if nt in e.networkTypes then e
    else
      var j := FirstEventFor(e.overloads, nt);
      if j == |e.overloads| then e.(networkTypes := e.networkTypes + [nt])
      else e.(overloads := e.overloads[j :=
                e.overloads[j].(networkTypes := Removed(e.overloads[j].networkTypes, nt))])
  }

  function AddEventsToBase(e: Event, nts: seq<NetworkType>): Event {
    if nts == [] then e else AddEventToBase(AddEventsToBase(e, nts[..|nts| - 1]), nts[|nts| - 1])
  }

  function MergeEvent(e: Event, cs: Facets, nts: seq<NetworkType>): Event {
    var f := CompareEvents(e.facets, cs);
    if NoFlag(f) then AddEventsToBase(e, nts)
    else
      var j := FirstEventCompatible(e.overloads, cs);
      var os := if j == |e.overloads| then e.overloads + [NewEventOverload(f, cs, nts)]
                else e.overloads[j := e.overloads[j].(networkTypes := Merged(e.overloads[j].networkTypes, nts))];
      e.(networkTypes := RemovedAll(e.networkTypes, nts), overloads := os)
  }

  /** No network type is in two overloads, or twice in one. */
  ghost predicate OverloadedOnce(e: Event) {
    && (forall j | 0 <= j < |e.overloads| :: NoDuplicates(e.overloads[j].networkTypes))
    && forall i, j, nt | 0 <= i < |e.overloads| && 0 <= j < |e.overloads|
                         && nt in e.overloads[i].networkTypes && nt in e.overloads[j].networkTypes :: i == j
  }

  /** In an overload before and after: everything but what was taken out of it. */
  lemma BaseTakesOut(e: Event, nt: NetworkType)
    requires OverloadedOnce(e)
    ensures OverloadedOnce(AddEventToBase(e, nt))
    ensures forall x :: InOverload(AddEventToBase(e, nt), x) <==> InOverload(e, x) && (x != nt || nt in e.networkTypes)
    ensures forall x :: x in AddEventToBase(e, nt).networkTypes <==>
              x in e.networkTypes || (x == nt && !InOverload(e, nt))
  {
    var e', j := AddEventToBase(e, nt), FirstEventFor(e.overloads, nt);
    if nt !in e.networkTypes && j < |e.overloads| {
      RemovedMembers(e.overloads[j].networkTypes, nt);
      assert forall k, x | 0 <= k < |e.overloads| && x in e'.overloads[k].networkTypes ::
          x in e.overloads[k].networkTypes;
      forall x ensures InOverload(e', x) <==> InOverload(e, x) && x != nt {
        var k, k' := FirstEventFor(e.overloads, x), FirstEventFor(e'.overloads, x);
        assert k < |e.overloads| ==> x in e.overloads[k].networkTypes;
        assert k' < |e.overloads| ==> x in e'.overloads[k'].networkTypes;
        assert k < |e.overloads| && x != nt ==> x in e'.overloads[k].networkTypes;
      }
    }
  }

  /** What merging with an agreeing contract comes to: a network type that was in an overload is nowhere
      afterwards, one that was nowhere is in the base, and all others are where they were. */
  lemma {:induction false} AgreeingMerge(e: Event, nts: seq<NetworkType>, x: NetworkType)
    requires OverloadedOnce(e) && NoDuplicates(nts)
    ensures OverloadedOnce(AddEventsToBase(e, nts))
    ensures InOverload(AddEventsToBase(e, nts), x) <==> InOverload(e, x) && (x !in nts || x in e.networkTypes)
    ensures x in AddEventsToBase(e, nts).networkTypes <==> x in e.networkTypes || (x in nts && !InOverload(e, x))
  {
    if nts != [] {
      var init, last := nts[..|nts| - 1], nts[|nts| - 1];
      assert nts == init + [last];
      AgreeingMerge(e, init, x);
      AgreeingMerge(e, init, last);
      BaseTakesOut(AddEventsToBase(e, init), last);
    }
  }

  /** After a merge an event supports a network type that was merged, unless the contract agrees with the
      base and the network type was in an overload and not in the base: then it is lost. */
  lemma MergeLosesExactly(e: Event, cs: Facets, nts: seq<NetworkType>, nt: NetworkType)
    requires OverloadedOnce(e) && NoDuplicates(nts) && nt in nts
    ensures EventSupports(MergeEvent(e, cs, nts), nt) <==>
              !(NoFlag(CompareEvents(e.facets, cs)) && InOverload(e, nt) && nt !in e.networkTypes)
  {
    if NoFlag(CompareEvents(e.facets, cs)) {
      AgreeingMerge(e, nts, nt);
    } else {
      var e', j := MergeEvent(e, cs, nts), FirstEventCompatible(e.overloads, cs);
      if j < |e.overloads| {
        MergedMembers(e.overloads[j].networkTypes, nts);
      }
      assert j < |e'.overloads| && nt in e'.overloads[j].networkTypes;
    }
  }

  /** Some facet that the overload has is not the contract's. */
  predicate EventContradicts(o: EventOverload, cs: Facets) {
    || (o.inputs.Some? && !EqualsNameAndTypes(o.inputs.value, cs.inputs))
    || (o.indexed.Some? && !EqualsIndexed(o.indexed.value, cs.indexed))
  }

  /** Nothing but network types of overload `j` differs, and of those it has `nts` in addition. */
  ghost predicate EventJoins(os: seq<EventOverload>, os': seq<EventOverload>, nts: seq<NetworkType>, j: nat) {
    && j < |os| == |os'|
    && os' == os[j := os[j].(networkTypes := os'[j].networkTypes)]
    && os[j].networkTypes <= os'[j].networkTypes
    && forall nt :: nt in os'[j].networkTypes <==> nt in os[j].networkTypes || nt in nts
  }

  /** The same as for methods: a contract that differs takes its network types out of the base, into the first
      overload it does not contradict, or into one of their own with the facets in which it differs. */
  lemma DifferingEventMoves(e: Event, cs: Facets, nts: seq<NetworkType>)
    requires NoDuplicates(e.networkTypes)
    requires !EqualsNameAndTypes(e.facets.inputs, cs.inputs) || !EqualsIndexed(e.facets.indexed, cs.indexed)
    ensures var e' := MergeEvent(e, cs, nts);
            && e'.facets == e.facets
            && (forall nt :: nt in e'.networkTypes <==> nt in e.networkTypes && nt !in nts)
            && if forall o | o in e.overloads :: EventContradicts(o, cs) then
                 e'.overloads == e.overloads + [EventOverload(nts,
                   if EqualsNameAndTypes(e.facets.inputs, cs.inputs) then None else Some(cs.inputs),
                   if EqualsIndexed(e.facets.indexed, cs.indexed) then None else Some(cs.indexed))]
               else
                 exists j | 0 <= j < |e.overloads| ::
                   && EventJoins(e.overloads, e'.overloads, nts, j) && !EventContradicts(e.overloads[j], cs)
                   && forall i | 0 <= i < j :: EventContradicts(e.overloads[i], cs)
  {
    var e', j := MergeEvent(e, cs, nts), FirstEventCompatible(e.overloads, cs);
    forall nt ensures nt in e'.networkTypes <==> nt in e.networkTypes && nt !in nts {
      RemovedOnce(e.networkTypes, nts, nt);
    }
    forall o ensures EventContradicts(o, cs) <==> !EventCompatible(o, cs) {
    }
    if j < |e.overloads| {
      MergedMembers(e.overloads[j].networkTypes, nts);
      MergedIs(e.overloads[j].networkTypes, nts, 0, NetworkType(""));
      assert EventJoins(e.overloads, e'.overloads, nts, j);
      assert e.overloads[j] in e.overloads;
    }
  }

  /** A contract that agrees with the base changes nothing else, and adds to the base at its end. */
  lemma {:induction false} AgreeingMergeAppends(e: Event, nts: seq<NetworkType>)
    ensures var e' := AddEventsToBase(e, nts);
            && e'.facets == e.facets && e.networkTypes <= e'.networkTypes && |e'.overloads| == |e.overloads|
            && forall j | 0 <= j < |e.overloads| ::
                 e'.overloads[j] == e.overloads[j].(networkTypes := e'.overloads[j].networkTypes)
  {
    if nts != [] {
      AgreeingMergeAppends(e, nts[..|nts| - 1]);
    }
  }

  // ----- expanding

  function ReoverloadEvent(merged: Facets, origin: Facets, f: EventFlag, oo: EventOverload): EventOverload {
    EventOverload(oo.networkTypes,
      if oo.inputs.Some?
      then (if !f.inputs || !EqualsNameAndTypes(merged.inputs, oo.inputs.value) then oo.inputs else None)
      else if f.inputs then Some(origin.inputs) else None,
      if oo.indexed.Some?
      then (if !f.indexed || !EqualsIndexed(merged.indexed, oo.indexed.value) then oo.indexed else None)
      else if f.indexed then Some(origin.indexed) else None)
  }

  function ReoverloadEvents(merged: Facets, origin: Facets, f: EventFlag, os: seq<EventOverload>):
    (r: seq<EventOverload>)
    ensures |r| == |os| && forall j | 0 <= j < |os| :: r[j] == ReoverloadEvent(merged, origin, f, os[j])
  {
    seq(|os|, j requires 0 <= j < |os| => ReoverloadEvent(merged, origin, f, os[j]))
  }

  function ReexpandEvent(merged: Event, origin: Event): Event {
    var f := CompareEvents(merged.facets, origin.facets);
    var base := NewEventOverload(f, origin.facets, origin.networkTypes);
    merged.(overloads := [base] + ReoverloadEvents(merged.facets, origin.facets, f, origin.overloads))
  }

  function DispatchedEvent(e: Event, nt: NetworkType): EventOverload
    requires InOverload(e, nt)
  {
    e.overloads[FirstEventFor(e.overloads, nt)]
  }

  lemma FirstEventIs(os: seq<EventOverload>, nt: NetworkType, j: nat)
    requires j <= |os| && (j < |os| ==> nt in os[j].networkTypes) && forall i | 0 <= i < j :: nt !in os[i].networkTypes
    ensures FirstEventFor(os, nt) == j
  {
  }

  lemma FirstEventBehind(o: EventOverload, os: seq<EventOverload>, os': seq<EventOverload>, nt: NetworkType)
    requires nt !in o.networkTypes && |os'| == |os|
    requires forall j | 0 <= j < |os| :: os'[j].networkTypes == os[j].networkTypes
    ensures FirstEventFor([o] + os', nt) == 1 + FirstEventFor(os, nt)
  {
    var all, l := [o] + os', FirstEventFor(os, nt);
    forall i | 0 <= i < 1 + l ensures nt !in all[i].networkTypes {
      assert i > 0 ==> all[i].networkTypes == os[i - 1].networkTypes;
    }
    FirstEventIs(all, nt, 1 + l);
  }

  lemma EventDispatchFinds(merged: Event, origin: Event, nt: NetworkType)
    ensures InOverload(ReexpandEvent(merged, origin), nt) <==> EventSupports(origin, nt)
    ensures EventSupports(origin, nt) ==>
              FirstEventFor(ReexpandEvent(merged, origin).overloads, nt) ==
              if nt in origin.networkTypes then 0 else 1 + FirstEventFor(origin.overloads, nt)
  {
    var f := CompareEvents(merged.facets, origin.facets);
    var o, os := NewEventOverload(f, origin.facets, origin.networkTypes),
      ReoverloadEvents(merged.facets, origin.facets, f, origin.overloads);
    if nt !in origin.networkTypes {
      FirstEventBehind(o, origin.overloads, os, nt);
    }
  }

  lemma EventFacetsKept(merged: Facets, origin: Facets, oo: EventOverload)
    ensures var o := ReoverloadEvent(merged, origin, CompareEvents(merged, origin), oo);
            var got, want := ApplyEvent(merged, o), ApplyEvent(origin, oo);
            EqualsNameAndTypes(got.inputs, want.inputs) && EqualsIndexed(got.indexed, want.indexed)
  {
    var want := oo.inputs.Or(origin.inputs);
    FieldEqualityIsEquivalence(want, want, want);
  }

  /** Every facet an overload of the event has differs from the base's. */
  ghost predicate EventDiffers(facets: Facets, o: EventOverload) {
    && (o.inputs.Some? ==> !EqualsNameAndTypes(facets.inputs, o.inputs.value))
    && (o.indexed.Some? ==> !EqualsIndexed(facets.indexed, o.indexed.value))
  }

  lemma IndexedDiffers(merged: seq<string>, origin: seq<string>, other: seq<string>)
    requires Distinct(merged) && EqualsIndexed(merged, origin) && !EqualsIndexed(origin, other)
    ensures !EqualsIndexed(merged, other)
  {
    EqualsIndexedIsSameNames(merged, origin);
    EqualsIndexedIsSameNames(merged, other);
    EqualsIndexedIsSameNames(origin, other);
  }

  /** An override is present exactly where the network type's facet differs from the merged one. */
  lemma EventOverridesExactly(merged: Event, origin: Event, nt: NetworkType)
    requires EventSupports(origin, nt) && forall o | o in origin.overloads :: EventDiffers(origin.facets, o)
    ensures InOverload(ReexpandEvent(merged, origin), nt)
    ensures var o, want := DispatchedEvent(ReexpandEvent(merged, origin), nt), EffectiveEvent(origin, nt);
            && (o.inputs.Some? <==> !EqualsNameAndTypes(merged.facets.inputs, want.inputs))
            && (Distinct(merged.facets.indexed) ==>
                  (o.indexed.Some? <==> !EqualsIndexed(merged.facets.indexed, want.indexed)))
  {
    EventDispatchFinds(merged, origin, nt);
    if nt !in origin.networkTypes {
      var oo := origin.overloads[FirstEventFor(origin.overloads, nt)];
      assert EventDiffers(origin.facets, oo);
      var want := oo.inputs.Or(origin.facets.inputs);
      FieldEqualityIsEquivalence(origin.facets.inputs, merged.facets.inputs, want);
      FieldEqualityIsEquivalence(merged.facets.inputs, origin.facets.inputs, want);
      if Distinct(merged.facets.indexed) && oo.indexed.Some?
         && EqualsIndexed(merged.facets.indexed, origin.facets.indexed) {
        IndexedDiffers(merged.facets.indexed, origin.facets.indexed, oo.indexed.value);
      }
    }
  }

  /** Expanding an event gives every network type the original supports its parameters back, and its
      indexed parameters in the order the merged event is compared in - as a set of names, whenever the
      merged event lists none twice. */
  lemma EventReexpansionPreservesMeaning(merged: Event, origin: Event, nt: NetworkType)
    requires EventSupports(origin, nt)
    ensures InOverload(ReexpandEvent(merged, origin), nt)
    ensures var got := ApplyEvent(merged.facets, DispatchedEvent(ReexpandEvent(merged, origin), nt));
            var want := EffectiveEvent(origin, nt);
            && EqualsNameAndTypes(got.inputs, want.inputs) && EqualsIndexed(got.indexed, want.indexed)
            && (Distinct(merged.facets.indexed) ==> Names(got.indexed) == Names(want.indexed))
  {
    EventDispatchFinds(merged, origin, nt);
    var f := CompareEvents(merged.facets, origin.facets);
    var oo := if nt in origin.networkTypes then EventOverload(origin.networkTypes, None, None)
              else origin.overloads[FirstEventFor(origin.overloads, nt)];
    EventFacetsKept(merged.facets, origin.facets, oo);
    var got := ApplyEvent(merged.facets, DispatchedEvent(ReexpandEvent(merged, origin), nt));
    var want := EffectiveEvent(origin, nt);
    if Distinct(merged.facets.indexed) && got.indexed == merged.facets.indexed {
      EqualsIndexedIsSameNames(got.indexed, want.indexed);
    }
  }
}
