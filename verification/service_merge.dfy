/**
 After any sequence of merges - one contract per network type - every merged network type
 sits in exactly one place, and that place agrees with its contract wherever it says
 anything; where it says nothing, exactly when its facets are the ones that differ.
 */
module ServiceMerge {
  import opened SpecTypes
  import opened ServiceSpec
  import opened Wrappers

  ghost predicate NoDuplicates(l: seq<NetworkType>) {
    forall i, j | 0 <= i < j < |l| :: l[i] != l[j]
  }

  /** No network type is listed twice: in the base, in an overload, or in both. */
  ghost predicate PlacedOnce(m: Method) {
    && NoDuplicates(m.networkTypes)
    && (forall j | 0 <= j < |m.overloads| :: NoDuplicates(m.overloads[j].networkTypes))
    && (forall j, nt | 0 <= j < |m.overloads| && nt in m.overloads[j].networkTypes :: nt !in m.networkTypes)
    && (forall i, j, nt | 0 <= i < |m.overloads| && 0 <= j < |m.overloads|
                          && nt in m.overloads[i].networkTypes && nt in m.overloads[j].networkTypes :: i == j)
  }

  /** Every facet an overload has differs from the base's. */
  ghost predicate Differs(sig: Signature, o: Overload) {
    && (o.inputs.Some? ==> !EqualsNameAndTypes(sig.inputs, o.inputs.value))
    && (o.output.Some? ==> !EqualsTypeSpec(sig.output, o.output.value))
    && (o.payable.Some? ==> o.payable.value != sig.payable)
    && (o.readonly.Some? ==> o.readonly.value != sig.readonly)
  }

  ghost predicate AllSupported(m: Method, specs: map<NetworkType, Signature>) {
    forall nt | nt in specs :: Supports(m, nt)
  }

  ghost predicate BaseAgrees(m: Method, specs: map<NetworkType, Signature>) {
    forall nt | nt in m.networkTypes :: nt in specs && Compare(m.sig, specs[nt]).None()
  }

  /** A network type's contract differs from the base, and its overload is the first the contract is compatible with. */
  ghost predicate OverloadsAgree(m: Method, specs: map<NetworkType, Signature>) {
    forall j, nt | 0 <= j < |m.overloads| && nt in m.overloads[j].networkTypes ::
      nt in specs && !Compare(m.sig, specs[nt]).None() && FirstCompatible(m.overloads, specs[nt]) == j
  }

  ghost predicate AllDiffer(m: Method) {
    forall j | 0 <= j < |m.overloads| :: Differs(m.sig, m.overloads[j])
  }

  /** `specs` are the merged network types and their contracts. */
  ghost predicate Sound(m: Method, specs: map<NetworkType, Signature>) {
    PlacedOnce(m) && AllSupported(m, specs) && BaseAgrees(m, specs) && OverloadsAgree(m, specs) && AllDiffer(m)
  }

  /** Network types to merge with this contract: none twice, none known with another contract. */
  ghost predicate Consistent(specs: map<NetworkType, Signature>, cs: Signature, nts: seq<NetworkType>) {
    && NoDuplicates(nts)
    && forall nt | nt in nts && nt in specs :: specs[nt] == cs
  }

  function Extended(specs: map<NetworkType, Signature>, cs: Signature,
                    nts: seq<NetworkType>): map<NetworkType, Signature>
  {
    specs + map nt | nt in nts :: cs
  }

  // ----- list lemmas

  lemma {:induction false} RemovedAbsent(l: seq<NetworkType>, v: NetworkType)
    requires v !in l
    ensures Removed(l, v) == l
  {
    if l != [] {
      RemovedAbsent(l[1..], v);
    }
  }

  lemma {:induction false} RemovedAllAbsent(l: seq<NetworkType>, vs: seq<NetworkType>)
    requires forall v | v in vs :: v !in l
    ensures RemovedAll(l, vs) == l
    decreases |vs|
  {
    if vs != [] {
      RemovedAbsent(l, vs[0]);
      RemovedAllAbsent(l, vs[1..]);
    }
  }

  lemma {:induction false} MergedMembers(a: seq<NetworkType>, b: seq<NetworkType>)
    ensures forall v :: v in Merged(a, b) <==> v in a || v in b
  {
    if b != [] {
      MergedMembers(a, b[..|b| - 1]);
      assert b == b[..|b| - 1] + [b[|b| - 1]];
    }
  }

  lemma {:induction false} MergedNoDuplicates(a: seq<NetworkType>, b: seq<NetworkType>)
    requires NoDuplicates(a) && NoDuplicates(b)
    ensures NoDuplicates(Merged(a, b))
  {
    if b != [] {
      MergedNoDuplicates(a, b[..|b| - 1]);
      MergedMembers(a, b[..|b| - 1]);
    }
  }

  lemma FirstSupportingIs(os: seq<Overload>, nt: NetworkType, j: nat)
    requires j <= |os| && (j < |os| ==> nt in os[j].networkTypes)
    requires forall i | 0 <= i < j :: nt !in os[i].networkTypes
    ensures FirstSupporting(os, nt) == j
  {
  }

  lemma FirstCompatibleIs(os: seq<Overload>, cs: Signature, j: nat)
    requires j < |os| && Compatible(os[j], cs)
    requires forall i | 0 <= i < j :: !Compatible(os[i], cs)
    ensures FirstCompatible(os, cs) == j
  {
  }

  // ----- one merge

  lemma NewMethodSound(cs: Signature, nts: seq<NetworkType>)
    requires NoDuplicates(nts)
    ensures Sound(NewMethod(cs, nts), Extended(map[], cs, nts))
  {
    SignatureEqualsItself(cs);
  }

  lemma SignatureEqualsItself(cs: Signature)
    ensures Compare(cs, cs).None()
  {
    FieldEqualityIsEquivalence(cs.inputs, cs.inputs, cs.inputs);
    TypeEqualityIsEquivalence(cs.output, cs.output, cs.output);
  }

  /** Network types known to no overload are appended to the base, unless they are there already. */
  lemma {:induction false} AddAllToBaseIs(m: Method, nts: seq<NetworkType>)
    requires NoDuplicates(nts)
    requires forall j | 0 <= j < |m.overloads| :: forall nt | nt in nts :: nt !in m.overloads[j].networkTypes
    ensures AddAllToBase(m, nts) == m.(networkTypes := Merged(m.networkTypes, nts))
  {
    if nts != [] {
      var init, last := nts[..|nts| - 1], nts[|nts| - 1];
      assert nts == init + [last];
      AddAllToBaseIs(m, init);
      MergedMembers(m.networkTypes, init);
      assert last !in init && last in nts;
      var m1 := AddAllToBase(m, init);
      assert FirstSupporting(m1.overloads, last) == |m.overloads|;
    }
  }

  /** Only the base gains network types, those of `nts`, none of them in an overload. */
  ghost predicate BaseGrows(m: Method, m': Method, nts: seq<NetworkType>) {
    && m'.sig == m.sig && m'.overloads == m.overloads && NoDuplicates(m'.networkTypes)
    && (forall nt :: nt in m'.networkTypes <==> nt in m.networkTypes || nt in nts)
    && (forall j, nt | 0 <= j < |m.overloads| && nt in m.overloads[j].networkTypes :: nt !in nts)
  }

  lemma AddAllToBaseGrows(m: Method, specs: map<NetworkType, Signature>, cs: Signature, nts: seq<NetworkType>)
    requires Sound(m, specs) && Compare(m.sig, cs).None() && Consistent(specs, cs, nts)
    ensures BaseGrows(m, AddAllToBase(m, nts), nts)
  {
    forall j, nt | 0 <= j < |m.overloads| && nt in m.overloads[j].networkTypes ensures nt !in nts {
      assert !Compare(m.sig, specs[nt]).None();
    }
    AddAllToBaseIs(m, nts);
    MergedMembers(m.networkTypes, nts);
    MergedNoDuplicates(m.networkTypes, nts);
  }

  lemma BaseGrownPlacedOnce(m: Method, m': Method, nts: seq<NetworkType>)
    requires PlacedOnce(m) && BaseGrows(m, m', nts)
    ensures PlacedOnce(m')
  {
  }

  lemma BaseGrownAgrees(m: Method, m': Method, specs: map<NetworkType, Signature>, cs: Signature, nts: seq<NetworkType>)
    requires BaseAgrees(m, specs) && OverloadsAgree(m, specs) && AllDiffer(m)
    requires Compare(m.sig, cs).None() && Consistent(specs, cs, nts) && BaseGrows(m, m', nts)
    ensures BaseAgrees(m', Extended(specs, cs, nts)) && OverloadsAgree(m', Extended(specs, cs, nts)) && AllDiffer(m')
  {
    var specs' := Extended(specs, cs, nts);
    forall j, nt | 0 <= j < |m'.overloads| && nt in m'.overloads[j].networkTypes
      ensures nt in specs' && !Compare(m'.sig, specs'[nt]).None() && FirstCompatible(m'.overloads, specs'[nt]) == j
    {
      assert nt in specs && specs'[nt] == specs[nt];
    }
  }

  lemma AddAllToBaseSound(m: Method, specs: map<NetworkType, Signature>, cs: Signature, nts: seq<NetworkType>)
    requires Sound(m, specs) && Compare(m.sig, cs).None() && Consistent(specs, cs, nts)
    ensures Sound(AddAllToBase(m, nts), Extended(specs, cs, nts)) && AddAllToBase(m, nts).sig == m.sig
  {
    var m', specs' := AddAllToBase(m, nts), Extended(specs, cs, nts);
    AddAllToBaseGrows(m, specs, cs, nts);
    BaseGrownPlacedOnce(m, m', nts);
    BaseGrownAgrees(m, m', specs, cs, nts);
    assert AllSupported(m', specs') by {
      forall nt | nt in specs' ensures Supports(m', nt) {
        assert nt in specs ==> Supports(m, nt);
      }
    }
  }

  /** The facets in which a contract differs from the base differ from the base. */
  lemma NewOverloadDiffers(sig: Signature, cs: Signature, nts: seq<NetworkType>)
    ensures Differs(sig, NewOverload(Compare(sig, cs), cs, nts))
    ensures Compatible(NewOverload(Compare(sig, cs), cs, nts), cs)
  {
    SignatureEqualsItself(cs);
  }

  /** Only overload `j` - the first the contract is compatible with, or a new one - gains
      network types, all of this contract. */
  ghost predicate Grows(m: Method, m': Method, cs: Signature, nts: seq<NetworkType>, j: nat) {
    && j == FirstCompatible(m.overloads, cs) && m'.sig == m.sig && m'.networkTypes == m.networkTypes
    && |m'.overloads| == (if j == |m.overloads| then j + 1 else |m.overloads|)
    && (forall i | 0 <= i < |m.overloads| && i != j :: m'.overloads[i] == m.overloads[i])
    && (j < |m.overloads| ==> m'.overloads[j] == m.overloads[j].(networkTypes := m'.overloads[j].networkTypes))
    && Compatible(m'.overloads[j], cs) && Differs(m.sig, m'.overloads[j]) && NoDuplicates(m'.overloads[j].networkTypes)
    && forall nt :: nt in m'.overloads[j].networkTypes <==>
         nt in nts || (j < |m.overloads| && nt in m.overloads[j].networkTypes)
  }

  /** A network type with this contract that is already merged sits in that very overload. */
  lemma AlreadyThere(m: Method, specs: map<NetworkType, Signature>, cs: Signature, nts: seq<NetworkType>,
                     nt: NetworkType)
    requires Sound(m, specs) && !Compare(m.sig, cs).None() && Consistent(specs, cs, nts) && nt in nts
    ensures nt !in m.networkTypes
    ensures forall i | 0 <= i < |m.overloads| && nt in m.overloads[i].networkTypes ::
              i == FirstCompatible(m.overloads, cs)
  {
  }

  lemma AddToOverloadGrows(m: Method, specs: map<NetworkType, Signature>, cs: Signature, nts: seq<NetworkType>)
    requires Sound(m, specs) && !Compare(m.sig, cs).None() && Consistent(specs, cs, nts)
    ensures Grows(m, AddToOverload(m, Compare(m.sig, cs), cs, nts), cs, nts, FirstCompatible(m.overloads, cs))
  {
    var j := FirstCompatible(m.overloads, cs);
    forall nt | nt in nts ensures nt !in m.networkTypes {
      AlreadyThere(m, specs, cs, nts, nt);
    }
    RemovedAllAbsent(m.networkTypes, nts);
    NewOverloadDiffers(m.sig, cs, nts);
    if j < |m.overloads| {
      MergedMembers(m.overloads[j].networkTypes, nts);
      MergedNoDuplicates(m.overloads[j].networkTypes, nts);
    }
  }

  lemma GrownPlacedOnce(m: Method, m': Method, specs: map<NetworkType, Signature>, cs: Signature,
                        nts: seq<NetworkType>, j: nat)
    requires Sound(m, specs) && !Compare(m.sig, cs).None() && Consistent(specs, cs, nts) && Grows(m, m', cs, nts, j)
    ensures PlacedOnce(m')
  {
    forall i, nt | 0 <= i < |m'.overloads| && nt in m'.overloads[i].networkTypes
      ensures nt !in m'.networkTypes
      ensures i != j ==> nt in m.overloads[i].networkTypes && nt !in m'.overloads[j].networkTypes
    {
      if nt in nts {
        AlreadyThere(m, specs, cs, nts, nt);
      }
    }
  }

  lemma GrownSupports(m: Method, m': Method, cs: Signature, nts: seq<NetworkType>, j: nat, nt: NetworkType)
    requires Grows(m, m', cs, nts, j) && (nt in nts || Supports(m, nt))
    ensures Supports(m', nt)
  {
    if nt in nts {
      assert nt in m'.overloads[j].networkTypes;
    } else if nt !in m.networkTypes {
      assert nt in m'.overloads[FirstSupporting(m.overloads, nt)].networkTypes;
    }
  }

  /** Adding network types, or an overload at the end, does not move the first compatible one. */
  lemma GrownFirstCompatible(m: Method, m': Method, cs: Signature, nts: seq<NetworkType>, j: nat, other: Signature,
                             i: nat)
    requires Grows(m, m', cs, nts, j)
    requires if i < |m.overloads| then FirstCompatible(m.overloads, other) == i else other == cs && i == j
    ensures FirstCompatible(m'.overloads, other) == i
  {
    assert forall k | 0 <= k < |m.overloads| :: Compatible(m'.overloads[k], other) == Compatible(m.overloads[k], other);
    FirstCompatibleIs(m'.overloads, other, i);
  }

  lemma GrownAgrees(m: Method, m': Method, specs: map<NetworkType, Signature>, cs: Signature, nts: seq<NetworkType>,
                    j: nat, i: nat, nt: NetworkType)
    requires Sound(m, specs) && !Compare(m.sig, cs).None() && Consistent(specs, cs, nts) && Grows(m, m', cs, nts, j)
    requires i < |m'.overloads| && nt in m'.overloads[i].networkTypes
    ensures var specs' := Extended(specs, cs, nts);
            nt in specs' && !Compare(m.sig, specs'[nt]).None() && FirstCompatible(m'.overloads, specs'[nt]) == i
  {
    if nt in nts {
      AlreadyThere(m, specs, cs, nts, nt);
      assert i == j;
      GrownFirstCompatible(m, m', cs, nts, j, cs, j);
    } else {
      assert nt in m.overloads[i].networkTypes;
      GrownFirstCompatible(m, m', cs, nts, j, specs[nt], i);
    }
  }

  lemma GrownOverloadsAgree(m: Method, m': Method, specs: map<NetworkType, Signature>, cs: Signature,
                            nts: seq<NetworkType>, j: nat)
    requires Sound(m, specs) && !Compare(m.sig, cs).None() && Consistent(specs, cs, nts) && Grows(m, m', cs, nts, j)
    ensures OverloadsAgree(m', Extended(specs, cs, nts))
  {
    var specs' := Extended(specs, cs, nts);
    forall i, nt | 0 <= i < |m'.overloads| && nt in m'.overloads[i].networkTypes
      ensures nt in specs' && !Compare(m'.sig, specs'[nt]).None() && FirstCompatible(m'.overloads, specs'[nt]) == i
    {
      GrownAgrees(m, m', specs, cs, nts, j, i, nt);
    }
  }

  lemma GrownBaseAgrees(m: Method, m': Method, specs: map<NetworkType, Signature>, cs: Signature,
                        nts: seq<NetworkType>, j: nat)
    requires Sound(m, specs) && !Compare(m.sig, cs).None() && Consistent(specs, cs, nts) && Grows(m, m', cs, nts, j)
    ensures BaseAgrees(m', Extended(specs, cs, nts)) && AllDiffer(m')
  {
    var specs' := Extended(specs, cs, nts);
    forall nt | nt in m'.networkTypes ensures nt in specs' && Compare(m'.sig, specs'[nt]).None() {
      if nt in nts {
        AlreadyThere(m, specs, cs, nts, nt);
      }
    }
  }

  lemma AddToOverloadSound(m: Method, specs: map<NetworkType, Signature>, cs: Signature, nts: seq<NetworkType>)
    requires Sound(m, specs) && !Compare(m.sig, cs).None() && Consistent(specs, cs, nts)
    ensures Sound(AddToOverload(m, Compare(m.sig, cs), cs, nts), Extended(specs, cs, nts))
  {
    var j := FirstCompatible(m.overloads, cs);
    var m', specs' := AddToOverload(m, Compare(m.sig, cs), cs, nts), Extended(specs, cs, nts);
    AddToOverloadGrows(m, specs, cs, nts);
    GrownPlacedOnce(m, m', specs, cs, nts, j);
    GrownOverloadsAgree(m, m', specs, cs, nts, j);
    GrownBaseAgrees(m, m', specs, cs, nts, j);
    assert AllSupported(m', specs') by {
      forall nt | nt in specs' ensures Supports(m', nt) {
        assert nt in specs ==> Supports(m, nt);
        GrownSupports(m, m', cs, nts, j, nt);
      }
    }
  }

  /** A merge keeps every merged network type in one place that agrees with its contract. */
  lemma MergeSound(m: Method, specs: map<NetworkType, Signature>, cs: Signature, nts: seq<NetworkType>)
    requires Sound(m, specs) && Consistent(specs, cs, nts)
    ensures Sound(Merge(m, cs, nts), Extended(specs, cs, nts)) && Merge(m, cs, nts).sig == m.sig
  {
    if Compare(m.sig, cs).None() {
      AddAllToBaseSound(m, specs, cs, nts);
    } else {
      AddToOverloadSound(m, specs, cs, nts);
    }
  }

  // ----- what a merge does to any method

  lemma {:induction false} RemovedCount(l: seq<NetworkType>, v: NetworkType)
    ensures multiset(Removed(l, v)) == multiset(l) - multiset{v}
  {
    if l != [] {
      RemovedCount(l[1..], v);
      HeadCount(l);
      if l[0] != v {
        HeadCount(Removed(l, v));
      }
    }
  }

  lemma HeadCount(l: seq<NetworkType>)
    requires l != []
    ensures multiset(l) == multiset{l[0]} + multiset(l[1..])
  {
    assert l == [l[0]] + l[1..];
  }

  /** Of every element as many are left as there are more in the first list than in the second. */
  lemma {:induction false} RemovedAllCount(l: seq<NetworkType>, vs: seq<NetworkType>)
    ensures multiset(RemovedAll(l, vs)) == multiset(l) - multiset(vs)
    decreases |vs|
  {
    if vs != [] {
      RemovedCount(l, vs[0]);
      RemovedAllCount(Removed(l, vs[0]), vs[1..]);
      assert vs == [vs[0]] + vs[1..];
    }
  }

  /** The first list, and behind it, in their order, the elements of the second that it does not have. */
  lemma {:induction false} MergedIs(a: seq<NetworkType>, b: seq<NetworkType>, k: nat, v: NetworkType)
    requires k <= |b|
    ensures a <= Merged(a, b[..k]) <= Merged(a, b)
    ensures multiset(Merged(a, b))[v] == if v in a then multiset(a)[v] else multiset(b)[v]
    decreases |b|
  {
    if b != [] {
      var init := b[..|b| - 1];
      assert b == init + [b[|b| - 1]];
      MergedIs(a, init, if k < |b| then k else |init|, v);
      assert k < |b| ==> init[..k] == b[..k];
      assert b[..|b|] == b && init[..|init|] == init;
    }
  }

  lemma {:induction false} RemovedOnce(l: seq<NetworkType>, vs: seq<NetworkType>, v: NetworkType)
    requires NoDuplicates(l)
    ensures v in RemovedAll(l, vs) <==> v in l && v !in vs
  {
    RemovedAllCount(l, vs);
    CountsOfSet(l, v);
    assert v in RemovedAll(l, vs) <==> multiset(RemovedAll(l, vs))[v] > 0;
    assert v in vs <==> multiset(vs)[v] > 0;
    assert v in l <==> multiset(l)[v] > 0;
  }

  lemma {:induction false} CountsOfSet(l: seq<NetworkType>, v: NetworkType)
    requires NoDuplicates(l)
    ensures multiset(l)[v] <= 1
  {
    if l != [] {
      var init := l[..|l| - 1];
      assert l == init + [l[|l| - 1]];
      CountsOfSet(init, v);
      if v in init {
        assert l[|l| - 1] != v;
      }
    }
  }

  /** Nothing but network types of overload `j` differs, and of those it has `nts` in addition. */
  ghost predicate Joins(os: seq<Overload>, os': seq<Overload>, nts: seq<NetworkType>, j: nat) {
    && j < |os| == |os'|
    && os' == os[j := os[j].(networkTypes := os'[j].networkTypes)]
    && os[j].networkTypes <= os'[j].networkTypes
    && forall nt :: nt in os'[j].networkTypes <==> nt in os[j].networkTypes || nt in nts
  }

  /** Some facet that the overload has is not the contract's. */
  predicate Contradicts(o: Overload, cs: Signature) {
    || (o.inputs.Some? && !EqualsNameAndTypes(o.inputs.value, cs.inputs))
    || (o.output.Some? && !EqualsTypeSpec(o.output.value, cs.output))
    || (o.payable.Some? && o.payable.value != cs.payable)
    || (o.readonly.Some? && o.readonly.value != cs.readonly)
  }

  /** Whatever has been merged before: a contract that differs from the base takes its network types out of
      the base. They join the first overload that the contract does not contradict; if it contradicts all,
      they get one of their own, with the facets in which the contract differs. */
  lemma DifferingMergeMoves(m: Method, cs: Signature, nts: seq<NetworkType>)
    requires NoDuplicates(m.networkTypes)
    requires || !EqualsNameAndTypes(m.sig.inputs, cs.inputs) || !EqualsTypeSpec(m.sig.output, cs.output)
             || m.sig.payable != cs.payable || m.sig.readonly != cs.readonly
    ensures var m' := Merge(m, cs, nts);
            && m'.sig == m.sig
            && (forall nt :: nt in m'.networkTypes <==> nt in m.networkTypes && nt !in nts)
            && if forall o | o in m.overloads :: Contradicts(o, cs) then
                 m'.overloads == m.overloads + [Overload(nts,
                   if EqualsNameAndTypes(m.sig.inputs, cs.inputs) then None else Some(cs.inputs),
                   if EqualsTypeSpec(m.sig.output, cs.output) then None else Some(cs.output),
                   if m.sig.payable == cs.payable then None else Some(cs.payable),
                   if m.sig.readonly == cs.readonly then None else Some(cs.readonly))]
               else
                 exists j | 0 <= j < |m.overloads| ::
                   && Joins(m.overloads, m'.overloads, nts, j) && !Contradicts(m.overloads[j], cs)
                   && forall i | 0 <= i < j :: Contradicts(m.overloads[i], cs)
  {
    var m', j := Merge(m, cs, nts), FirstCompatible(m.overloads, cs);
    forall nt ensures nt in m'.networkTypes <==> nt in m.networkTypes && nt !in nts {
      RemovedOnce(m.networkTypes, nts, nt);
    }
    forall o ensures Contradicts(o, cs) <==> !Compatible(o, cs) {
    }
    if j < |m.overloads| {
      MergedMembers(m.overloads[j].networkTypes, nts);
      MergedIs(m.overloads[j].networkTypes, nts, 0, NetworkType(""));
      assert Joins(m.overloads, m'.overloads, nts, j);
      assert m.overloads[j] in m.overloads;
    }
  }

  /** Only the base gains network types, at its end; they are taken out of the overloads they are in. */
  ghost predicate MovesToBase(m: Method, m': Method, nts: seq<NetworkType>) {
    && PlacedOnce(m') && m'.sig == m.sig && |m'.overloads| == |m.overloads|
    && m.networkTypes <= m'.networkTypes
    && (forall nt :: nt in m'.networkTypes <==> nt in m.networkTypes || nt in nts)
    && forall j | 0 <= j < |m.overloads| ::
         && m'.overloads[j] == m.overloads[j].(networkTypes := m'.overloads[j].networkTypes)
         && forall nt :: nt in m'.overloads[j].networkTypes <==> nt in m.overloads[j].networkTypes && nt !in nts
  }

  lemma {:induction false} AllMoveToBase(m: Method, nts: seq<NetworkType>)
    requires PlacedOnce(m)
    ensures MovesToBase(m, AddAllToBase(m, nts), nts)
  {
    if nts != [] {
      var init, nt := nts[..|nts| - 1], nts[|nts| - 1];
      assert nts == init + [nt];
      AllMoveToBase(m, init);
      OneMovesToBase(AddAllToBase(m, init), nt);
    }
  }

  /** A contract that agrees with the base facet by facet. */
  lemma AgreeingMergeMoves(m: Method, cs: Signature, nts: seq<NetworkType>)
    requires PlacedOnce(m)
    requires EqualsNameAndTypes(m.sig.inputs, cs.inputs) && EqualsTypeSpec(m.sig.output, cs.output)
    requires m.sig.payable == cs.payable && m.sig.readonly == cs.readonly
    ensures MovesToBase(m, Merge(m, cs, nts), nts)
  {
    AllMoveToBase(m, nts);
  }

  lemma {:induction false} RemovedMembers(l: seq<NetworkType>, v: NetworkType)
    requires NoDuplicates(l)
    ensures NoDuplicates(Removed(l, v)) && forall nt :: nt in Removed(l, v) <==> nt in l && nt != v
  {
    if l != [] {
      assert forall i | 0 <= i < |l[1..]| :: l[1..][i] == l[i + 1];
      assert l == [l[0]] + l[1..] && l[0] !in l[1..];
      RemovedMembers(l[1..], v);
    }
  }

  lemma OneMovesToBase(m: Method, nt: NetworkType)
    requires PlacedOnce(m)
    ensures var m' := AddToBase(m, nt);
            && PlacedOnce(m') && m'.sig == m.sig && |m'.overloads| == |m.overloads|
            && m'.networkTypes == (if nt in m.networkTypes then m.networkTypes else m.networkTypes + [nt])
            && forall j | 0 <= j < |m.overloads| ::
                 && m'.overloads[j] == m.overloads[j].(networkTypes := m'.overloads[j].networkTypes)
                 && forall x :: x in m'.overloads[j].networkTypes <==> x in m.overloads[j].networkTypes && x != nt
  {
    var j := FirstSupporting(m.overloads, nt);
    if nt !in m.networkTypes && j < |m.overloads| {
      RemovedMembers(m.overloads[j].networkTypes, nt);
      assert forall i | 0 <= i < |m.overloads| && nt in m.overloads[i].networkTypes :: i == j;
    }
  }

  // ----- sequences of merges

  datatype Contract = Contract(sig: Signature, networkTypes: seq<NetworkType>)

  /** The method after the first contract creates it and the others are merged. */
  function MergeAll(contracts: seq<Contract>): Method
    requires |contracts| > 0
  {
    var n := |contracts| - 1;
    if n == 0 then NewMethod(contracts[0].sig, contracts[0].networkTypes)
    else Merge(MergeAll(contracts[..n]), contracts[n].sig, contracts[n].networkTypes)
  }

  function SpecsOf(contracts: seq<Contract>): map<NetworkType, Signature> {
    if contracts == [] then map[]
    else
      var n := |contracts| - 1;
      Extended(SpecsOf(contracts[..n]), contracts[n].sig, contracts[n].networkTypes)
  }

  /** One contract per network type, however often it is merged again. */
  ghost predicate OneContractEach(contracts: seq<Contract>) {
    forall n | 0 <= n < |contracts| ::
      Consistent(SpecsOf(contracts[..n]), contracts[n].sig, contracts[n].networkTypes)
  }

  lemma {:induction false} MergeAllSound(contracts: seq<Contract>)
    requires |contracts| > 0 && OneContractEach(contracts)
    ensures Sound(MergeAll(contracts), SpecsOf(contracts))
  {
    var n := |contracts| - 1;
    var init := contracts[..n];
    if n == 0 {
      NewMethodSound(contracts[0].sig, contracts[0].networkTypes);
      assert SpecsOf(init) == map[];
    } else {
      assert forall k | 0 <= k < n :: init[..k] == contracts[..k];
      MergeAllSound(init);
      MergeSound(MergeAll(init), SpecsOf(init), contracts[n].sig, contracts[n].networkTypes);
    }
  }

  // ----- what the places say about the contracts

  /** No facet in which two signatures differ. */
  predicate SameSignature(a: Signature, b: Signature) {
    Compare(a, b).None()
  }

  /** A merged network type is in exactly one place. In the base, its contract is the base
      signature. In an overload, the contract has every facet of the overload; it has the
      whole effective signature exactly when the overload's facets are those in which the
      contract differs from the base. */
  lemma PlaceTellsContract(m: Method, specs: map<NetworkType, Signature>, nt: NetworkType)
    requires Sound(m, specs) && nt in specs
    ensures nt in m.networkTypes <==> !exists j :: 0 <= j < |m.overloads| && nt in m.overloads[j].networkTypes
    ensures nt in m.networkTypes ==> SameSignature(Effective(m, nt), specs[nt])
    ensures nt !in m.networkTypes ==>
              var o := m.overloads[FirstSupporting(m.overloads, nt)];
              && Compatible(o, specs[nt])
              && (SameSignature(Effective(m, nt), specs[nt]) <==> FlagOf(o) == Compare(m.sig, specs[nt]))
  {
    if nt !in m.networkTypes {
      var j := FirstSupporting(m.overloads, nt);
      assert nt in m.overloads[j].networkTypes;
      OverloadTellsContract(m.sig, m.overloads[j], specs[nt]);
    }
  }

  lemma OverloadTellsContract(sig: Signature, o: Overload, cs: Signature)
    requires Differs(sig, o) && Compatible(o, cs)
    ensures SameSignature(Apply(sig, o), cs) <==> FlagOf(o) == Compare(sig, cs)
  {
    FieldEqualityIsEquivalence(sig.inputs, cs.inputs, o.inputs.Or(sig.inputs));
    FieldEqualityIsEquivalence(o.inputs.Or(sig.inputs), cs.inputs, sig.inputs);
    FieldEqualityIsEquivalence(sig.inputs, cs.inputs, cs.inputs);
    TypeEqualityIsEquivalence(sig.output, cs.output, o.output.Or(sig.output));
    TypeEqualityIsEquivalence(o.output.Or(sig.output), cs.output, sig.output);
  }

  /** The boundary is met: a contract that differs from the base in two facets joins an
      overload that names only one of them, and its other facet is then the base's. */
  lemma WildcardJoins(base: Signature, a: NetworkType, b: NetworkType, c: NetworkType)
    requires a != b && b != c && a != c
    ensures var payable := base.(payable := !base.payable);
            var both := payable.(readonly := !base.readonly);
            var m := Merge(Merge(NewMethod(base, [a]), payable, [b]), both, [c]);
            Supports(m, c) && Effective(m, c) == payable && !SameSignature(Effective(m, c), both)
  {
    var payable := base.(payable := !base.payable);
    var both := payable.(readonly := !base.readonly);
    SignatureEqualsItself(base);
    var m1 := Merge(NewMethod(base, [a]), payable, [b]);
    assert Compare(base, payable) == Flag(false, false, true, false);
    RemovedAllAbsent([a], [b]);
    var o := Overload([b], None, None, Some(!base.payable), None);
    assert m1 == Method([a], base, [o]);
    assert Compare(base, both) == Flag(false, false, true, true);
    assert FirstCompatible(m1.overloads, both) == 0;
    RemovedAllAbsent([a], [c]);
    assert Merged([b], [c]) == [b, c] by {
      assert Merged([b], []) == [b];
      assert [c][..0] == [];
    }
    var m := Merge(m1, both, [c]);
    assert m == Method([a], base, [o.(networkTypes := [b, c])]);
    FirstSupportingIs(m.overloads, c, 0);
  }
}
