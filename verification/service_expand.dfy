/**
 Collapsing overloads loses no network type, and expanding the original relative to the
 collapsed signature gives every network type back the inputs and output it had.
 */
module ServiceExpand {
  import opened SpecTypes
  import opened ServiceSpec
  import opened Wrappers
  import opened ServiceMerge

  // ----- collapsing

  predicate SupportsInOverload(os: seq<Overload>, nt: NetworkType) {
    exists j :: 0 <= j < |os| && nt in os[j].networkTypes
  }

  lemma {:induction false} AllTypesMembers(os: seq<Overload>, nt: NetworkType)
    ensures nt in AllTypes(os) <==> SupportsInOverload(os, nt)
  {
    if os != [] {
      var init := os[..|os| - 1];
      AllTypesMembers(init, nt);
      assert os == init + [os[|os| - 1]];
    }
  }

  lemma {:induction false} AllTypesNoDuplicates(os: seq<Overload>)
    requires forall j | 0 <= j < |os| :: NoDuplicates(os[j].networkTypes)
    requires forall i, j, nt | 0 <= i < |os| && 0 <= j < |os| && nt in os[i].networkTypes && nt in os[j].networkTypes ::
               i == j
    ensures NoDuplicates(AllTypes(os))
  {
    if os != [] {
      var init, last := os[..|os| - 1], os[|os| - 1].networkTypes;
      AllTypesNoDuplicates(init);
      forall nt | nt in last ensures nt !in AllTypes(init) {
        AllTypesMembers(init, nt);
      }
      NoDuplicatesAppend(AllTypes(init), last);
    }
  }

  lemma NoDuplicatesAppend(a: seq<NetworkType>, b: seq<NetworkType>)
    requires NoDuplicates(a) && NoDuplicates(b) && forall nt | nt in b :: nt !in a
    ensures NoDuplicates(a + b)
  {
    forall i, j | 0 <= i < j < |a + b| ensures (a + b)[i] != (a + b)[j] {
      if j >= |a| {
        assert b[j - |a|] in b;
      }
    }
  }

  /** The overload has the demanded facets and no others. */
  predicate HasExactly(o: Overload, f: Flag) {
    o.inputs.Some? == f.inputs && o.output.Some? == f.output && o.payable.Some? == f.payable
    && o.readonly.Some? == f.readonly
  }

  /** Collapsing succeeds exactly when no facets are demanded or every overload has exactly
      those; the base then has precisely the network types that were supported before. */
  lemma CollapseKeepsNetworkTypes(m: Method, cs: Signature, f: Flag)
    ensures Collapse(m, cs, f).Ok? <==>
              f == Flag(false, false, false, false) || forall o | o in m.overloads :: HasExactly(o, f)
    ensures Collapse(m, cs, f).Ok? ==>
              var m' := Collapse(m, cs, f).spec;
              && m'.overloads == []
              && (forall nt :: nt in m'.networkTypes <==> Supports(m, nt))
              && (PlacedOnce(m) ==> NoDuplicates(m'.networkTypes))
  {
    assert forall o | o in m.overloads :: HasExactly(o, f) <==> FlagOf(o) == f;
    forall nt ensures nt in m.networkTypes + AllTypes(m.overloads) <==> Supports(m, nt) {
      AllTypesMembers(m.overloads, nt);
    }
    if PlacedOnce(m) {
      AllTypesNoDuplicates(m.overloads);
      forall nt | nt in AllTypes(m.overloads) ensures nt !in m.networkTypes {
        AllTypesMembers(m.overloads, nt);
      }
      NoDuplicatesAppend(m.networkTypes, AllTypes(m.overloads));
    }
  }

  /** A collapsed signature is the contract's when no facets are demanded. Otherwise it has the demanded
      ones of the contract, and keeps the others and those that are equal already. */
  lemma CollapseTakesFacets(m: Method, cs: Signature, f: Flag)
    requires Collapse(m, cs, f).Ok?
    ensures var sig := Collapse(m, cs, f).spec.sig;
            && (f == Flag(true, true, true, true) ==> SameSignature(sig, cs))
            && (f == Flag(false, false, false, false) ==> sig == cs)
            && (f != Flag(false, false, false, false) ==>
                  && (EqualsNameAndTypes(m.sig.inputs, cs.inputs) ==> sig.inputs == m.sig.inputs)
                  && (EqualsTypeSpec(m.sig.output, cs.output) ==> sig.output == m.sig.output)
                  && (if f.inputs then EqualsNameAndTypes(sig.inputs, cs.inputs) else sig.inputs == m.sig.inputs)
                  && (if f.output then EqualsTypeSpec(sig.output, cs.output) else sig.output == m.sig.output)
                  && sig.payable == (if f.payable then cs.payable else m.sig.payable)
                  && sig.readonly == (if f.readonly then cs.readonly else m.sig.readonly))
  {
    SignatureEqualsItself(cs);
  }

  // ----- expanding

  /** The overload a network type is dispatched to. */
  function Dispatched(ms: Method, nt: NetworkType): Overload
    requires FirstSupporting(ms.overloads, nt) < |ms.overloads|
  {
    ms.overloads[FirstSupporting(ms.overloads, nt)]
  }

  /** Searching behind one more overload finds the same one, one place later. */
  lemma FirstSupportingBehind(o: Overload, os: seq<Overload>, os': seq<Overload>, nt: NetworkType)
    requires nt !in o.networkTypes && |os'| == |os|
    requires forall j | 0 <= j < |os| :: os'[j].networkTypes == os[j].networkTypes
    ensures FirstSupporting([o] + os', nt) == 1 + FirstSupporting(os, nt)
  {
    var all, l := [o] + os', FirstSupporting(os, nt);
    forall i | 0 <= i < 1 + l ensures nt !in all[i].networkTypes {
      assert i > 0 ==> all[i].networkTypes == os[i - 1].networkTypes;
    }
    FirstSupportingIs(all, nt, 1 + l);
  }

  /** An expanded method has an overload for exactly the network types the original supports:
      the first for its base, then one for each of its overloads. */
  lemma DispatchFinds(merged: Method, origin: Method, nt: NetworkType)
    ensures var os := Reexpand(merged, origin).overloads;
            && Reexpand(merged, origin).sig == merged.sig
            && Reexpand(merged, origin).networkTypes == merged.networkTypes
            && |os| == 1 + |origin.overloads|
            && (FirstSupporting(os, nt) < |os| <==> Supports(origin, nt))
            && (Supports(origin, nt) ==>
                  FirstSupporting(os, nt) == if nt in origin.networkTypes then 0
                    else 1 + FirstSupporting(origin.overloads, nt))
  {
    var f := Compare(merged.sig, origin.sig);
    var o, os := NewOverload(f, origin.sig, origin.networkTypes),
      Reoverloads(merged.sig, origin.sig, f, origin.overloads);
    assert o.networkTypes == origin.networkTypes;
    if nt !in origin.networkTypes {
      FirstSupportingBehind(o, origin.overloads, os, nt);
    }
  }

  lemma ReoverloadKeepsInputs(merged: Signature, origin: Signature, oo: Overload)
    ensures var o := Reoverload(merged, origin, Compare(merged, origin), oo);
            var want := oo.inputs.Or(origin.inputs);
            && EqualsNameAndTypes(o.inputs.Or(merged.inputs), want)
            && (Differs(origin, oo) ==> (o.inputs.Some? <==> !EqualsNameAndTypes(merged.inputs, want)))
  {
    var want := oo.inputs.Or(origin.inputs);
    FieldEqualityIsEquivalence(want, want, want);
    FieldEqualityIsEquivalence(origin.inputs, merged.inputs, want);
    FieldEqualityIsEquivalence(merged.inputs, origin.inputs, want);
  }

  lemma ReoverloadKeepsOutput(merged: Signature, origin: Signature, oo: Overload)
    ensures var o := Reoverload(merged, origin, Compare(merged, origin), oo);
            var want := oo.output.Or(origin.output);
            && EqualsTypeSpec(o.output.Or(merged.output), want)
            && (Differs(origin, oo) ==> (o.output.Some? <==> !EqualsTypeSpec(merged.output, want)))
  {
    var want := oo.output.Or(origin.output);
    TypeEqualityIsEquivalence(want, want, want);
    TypeEqualityIsEquivalence(origin.output, merged.output, want);
    TypeEqualityIsEquivalence(merged.output, origin.output, want);
  }

  /** What the base's overload stands for next to the merged signature is the original base, facet by facet. */
  lemma BaseOverloadKeeps(merged: Signature, origin: Signature, nts: seq<NetworkType>)
    ensures SameSignature(Apply(merged, NewOverload(Compare(merged, origin), origin, nts)), origin)
  {
    SignatureEqualsItself(origin);
  }

  /** Expanding preserves every network type's inputs and output; and when each overload of the
      original overrides only facets that differ from its base, a converter override is present
      exactly where the network type's facet differs from the merged one. */
  lemma ReexpansionPreservesMeaning(merged: Method, origin: Method, nt: NetworkType)
    requires Supports(origin, nt)
    ensures FirstSupporting(Reexpand(merged, origin).overloads, nt) < |Reexpand(merged, origin).overloads|
    ensures var o, want := Dispatched(Reexpand(merged, origin), nt), Effective(origin, nt);
            && EqualsNameAndTypes(Apply(merged.sig, o).inputs, want.inputs)
            && EqualsTypeSpec(Apply(merged.sig, o).output, want.output)
            && (AllDiffer(origin) ==>
                  && (o.inputs.Some? <==> !EqualsNameAndTypes(merged.sig.inputs, want.inputs))
                  && (o.output.Some? <==> !EqualsTypeSpec(merged.sig.output, want.output)))
  {
    DispatchFinds(merged, origin, nt);
    if nt in origin.networkTypes {
      BaseOverloadKeeps(merged.sig, origin.sig, origin.networkTypes);
    } else {
      var oo := origin.overloads[FirstSupporting(origin.overloads, nt)];
      ReoverloadKeepsInputs(merged.sig, origin.sig, oo);
      ReoverloadKeepsOutput(merged.sig, origin.sig, oo);
    }
  }

  /** The payable and readonly facets survive for the original's base; for its overloads the
      merged ones show, so the whole signature survives exactly when these happen to be equal. */
  lemma ReexpansionKeepsFlagsExactly(merged: Method, origin: Method, nt: NetworkType)
    requires Supports(origin, nt)
    ensures FirstSupporting(Reexpand(merged, origin).overloads, nt) < |Reexpand(merged, origin).overloads|
    ensures var o, want := Dispatched(Reexpand(merged, origin), nt), Effective(origin, nt);
            SameSignature(Apply(merged.sig, o), want) <==>
              nt in origin.networkTypes || (merged.sig.payable == want.payable && merged.sig.readonly == want.readonly)
  {
    DispatchFinds(merged, origin, nt);
    ReexpansionPreservesMeaning(merged, origin, nt);
    if nt in origin.networkTypes {
      BaseOverloadKeeps(merged.sig, origin.sig, origin.networkTypes);
    }
  }

  // ----- from the contracts to the dispatched overload

  /** Does the place of a network type override the inputs (the output) exactly when its contract's differ
      from the base? */
  predicate InputsTracked(m: Method, nt: NetworkType, cs: Signature)
    requires Supports(m, nt)
  {
    nt in m.networkTypes || m.overloads[FirstSupporting(m.overloads, nt)].inputs.Some? == Compare(m.sig, cs).inputs
  }

  predicate OutputTracked(m: Method, nt: NetworkType, cs: Signature)
    requires Supports(m, nt)
  {
    nt in m.networkTypes || m.overloads[FirstSupporting(m.overloads, nt)].output.Some? == Compare(m.sig, cs).output
  }

  lemma EffectiveInputsAgree(m: Method, specs: map<NetworkType, Signature>, nt: NetworkType)
    requires Sound(m, specs) && nt in specs
    ensures EqualsNameAndTypes(Effective(m, nt).inputs, specs[nt].inputs) <==> InputsTracked(m, nt, specs[nt])
  {
    PlaceTellsContract(m, specs, nt);
    if nt !in m.networkTypes {
      var o := m.overloads[FirstSupporting(m.overloads, nt)];
      FieldEqualityIsEquivalence(specs[nt].inputs, o.inputs.Or(m.sig.inputs), m.sig.inputs);
      FieldEqualityIsEquivalence(m.sig.inputs, specs[nt].inputs, o.inputs.Or(m.sig.inputs));
      FieldEqualityIsEquivalence(o.inputs.Or(m.sig.inputs), specs[nt].inputs, m.sig.inputs);
    }
  }

  lemma EffectiveOutputAgrees(m: Method, specs: map<NetworkType, Signature>, nt: NetworkType)
    requires Sound(m, specs) && nt in specs
    ensures EqualsTypeSpec(Effective(m, nt).output, specs[nt].output) <==> OutputTracked(m, nt, specs[nt])
  {
    PlaceTellsContract(m, specs, nt);
    if nt !in m.networkTypes {
      var o := m.overloads[FirstSupporting(m.overloads, nt)];
      TypeEqualityIsEquivalence(specs[nt].output, o.output.Or(m.sig.output), m.sig.output);
      TypeEqualityIsEquivalence(m.sig.output, specs[nt].output, o.output.Or(m.sig.output));
      TypeEqualityIsEquivalence(o.output.Or(m.sig.output), specs[nt].output, m.sig.output);
    }
  }

  /** Merge the contracts of all network types, collapse the result, expand it again: every
      network type is still supported, is dispatched to an overload, and is converted to and
      from its own contract's inputs and output - exactly when merging overrode that facet
      where the contract differs from the base. */
  lemma DispatchServesContracts(contracts: seq<Contract>, cs: Signature, f: Flag, nt: NetworkType)
    requires |contracts| > 0 && OneContractEach(contracts) && nt in SpecsOf(contracts)
    requires Collapse(MergeAll(contracts), cs, f).Ok?
    ensures Supports(MergeAll(contracts), nt)
    ensures var origin, spec := MergeAll(contracts), SpecsOf(contracts)[nt];
            var merged := Collapse(origin, cs, f).spec;
            var e := Reexpand(merged, origin);
            && nt in merged.networkTypes
            && FirstSupporting(e.overloads, nt) < |e.overloads|
            && (EqualsNameAndTypes(Apply(merged.sig, Dispatched(e, nt)).inputs, spec.inputs) <==>
                  InputsTracked(origin, nt, spec))
            && (EqualsTypeSpec(Apply(merged.sig, Dispatched(e, nt)).output, spec.output) <==>
                  OutputTracked(origin, nt, spec))
  {
    var origin, specs := MergeAll(contracts), SpecsOf(contracts);
    var merged := Collapse(origin, cs, f).spec;
    MergeAllSound(contracts);
    CollapseKeepsNetworkTypes(origin, cs, f);
    ReexpansionPreservesMeaning(merged, origin, nt);
    EffectiveInputsAgree(origin, specs, nt);
    EffectiveOutputAgrees(origin, specs, nt);
    var got, want := Apply(merged.sig, Dispatched(Reexpand(merged, origin), nt)), Effective(origin, nt);
    FieldEqualityIsEquivalence(got.inputs, want.inputs, specs[nt].inputs);
    FieldEqualityIsEquivalence(want.inputs, got.inputs, specs[nt].inputs);
    TypeEqualityIsEquivalence(got.output, want.output, specs[nt].output);
    TypeEqualityIsEquivalence(want.output, got.output, specs[nt].output);
  }
}
