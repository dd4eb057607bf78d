/**
 Service specs: the contract methods of several network types merged into one base
 signature and overloads, collapsed, and expanded again relative to a merged signature.
 */
module ServiceSpec {
  import opened SpecTypes
  import opened Wrappers

  datatype NetworkType = NetworkType(name: string)

  datatype Signature = Signature(inputs: Fields, output: TypeSpec, payable: bool, readonly: bool)

  /** The facets in which two signatures differ. */
  datatype Flag = Flag(inputs: bool, output: bool, payable: bool, readonly: bool) {
    predicate None() {
      !inputs && !output && !payable && !readonly
    }
  }

  /** The facets some network types have instead of the base's; an absent facet is the base's. */
  datatype Overload = Overload(networkTypes: seq<NetworkType>,
    inputs: Option<Fields>, output: Option<TypeSpec>, payable: Option<bool>, readonly: Option<bool>)

  datatype Method = Method(networkTypes: seq<NetworkType>, sig: Signature, overloads: seq<Overload>)

  // ----- comparing

  function Compare(a: Signature, b: Signature): Flag {
    Flag(!EqualsNameAndTypes(a.inputs, b.inputs), !EqualsTypeSpec(a.output, b.output),
         a.payable != b.payable, a.readonly != b.readonly)
  }

  /** Does the contract agree with every facet the overload has? Absent facets are not looked at. */
  predicate Compatible(o: Overload, cs: Signature) {
    && (o.inputs.Some? ==> EqualsNameAndTypes(o.inputs.value, cs.inputs))
    && (o.output.Some? ==> EqualsTypeSpec(o.output.value, cs.output))
    && (o.payable.Some? ==> o.payable.value == cs.payable)
    && (o.readonly.Some? ==> o.readonly.value == cs.readonly)
  }

  function FlagOf(o: Overload): Flag {
    Flag(o.inputs.Some?, o.output.Some?, o.payable.Some?, o.readonly.Some?)
  }

  function NewOverload(f: Flag, cs: Signature, nts: seq<NetworkType>): Overload {
    Overload(nts,
      if f.inputs then Some(cs.inputs) else None,
      if f.output then Some(cs.output) else None,
      if f.payable then Some(cs.payable) else None,
      if f.readonly then Some(cs.readonly) else None)
  }

  /** The signature an overload stands for, next to a base signature. */
  function Apply(sig: Signature, o: Overload): Signature {
    Signature(o.inputs.Or(sig.inputs), o.output.Or(sig.output), o.payable.Or(sig.payable), o.readonly.Or(sig.readonly))
  }

  // ----- sets of network types, kept as lists

  function Removed(l: seq<NetworkType>, v: NetworkType): seq<NetworkType> {
    if l == [] then [] else if l[0] == v then l[1..] else [l[0]] + Removed(l[1..], v)
  }

  function RemovedAll(l: seq<NetworkType>, vs: seq<NetworkType>): seq<NetworkType>
    decreases |vs|
  {
    if vs == [] then l else RemovedAll(Removed(l, vs[0]), vs[1..])
  }

  /** `a` and the elements of `b` that are not in `a`. */
  function Merged(a: seq<NetworkType>, b: seq<NetworkType>): seq<NetworkType> {
    if b == [] then a
    else
      var init := b[..|b| - 1];
      var last := b[|b| - 1];
      Merged(a, init) + (if last in a then [] else [last])
  }

  // ----- finding overloads

  function FirstCompatible(os: seq<Overload>, cs: Signature, from: nat := 0): (j: nat)
    requires from <= |os|
    ensures from <= j <= |os| && (j < |os| ==> Compatible(os[j], cs))
    ensures forall i | from <= i < j :: !Compatible(os[i], cs)
    decreases |os| - from
  {
    if from == |os| || Compatible(os[from], cs) then from else FirstCompatible(os, cs, from + 1)
  }

  function FirstSupporting(os: seq<Overload>, nt: NetworkType, from: nat := 0): (j: nat)
    requires from <= |os|
    ensures from <= j <= |os| && (j < |os| ==> nt in os[j].networkTypes)
    ensures forall i | from <= i < j :: nt !in os[i].networkTypes
    decreases |os| - from
  {
    if from == |os| || nt in os[from].networkTypes then from else FirstSupporting(os, nt, from + 1)
  }

  // ----- merging a contract method

  function NewMethod(cs: Signature, nts: seq<NetworkType>): Method {
    Method(nts, cs, [])
  }

  /** One network type whose contract agrees with the base. */
  function AddToBase(m: Method, nt: NetworkType): Method {
    if nt in m.networkTypes then m
    else
      var j := FirstSupporting(m.overloads, nt);
      var os := if j == |m.overloads| then m.overloads
                else m.overloads[j := m.overloads[j].(networkTypes := Removed(m.overloads[j].networkTypes, nt))];
      m.(networkTypes := m.networkTypes + [nt], overloads := os)
  }

  function AddAllToBase(m: Method, nts: seq<NetworkType>): Method {
    if nts == [] then m else AddToBase(AddAllToBase(m, nts[..|nts| - 1]), nts[|nts| - 1])
  }

  /** Network types whose contract differs from the base in `f`. */
  function AddToOverload(m: Method, f: Flag, cs: Signature, nts: seq<NetworkType>): Method {
    var j := FirstCompatible(m.overloads, cs);
    var os := if j == |m.overloads| then m.overloads + [NewOverload(f, cs, nts)]
              else m.overloads[j := m.overloads[j].(networkTypes := Merged(m.overloads[j].networkTypes, nts))];
    m.(networkTypes := RemovedAll(m.networkTypes, nts), overloads := os)
  }

  function Merge(m: Method, cs: Signature, nts: seq<NetworkType>): Method {
    var f := Compare(m.sig, cs);
    if f.None() then AddAllToBase(m, nts) else AddToOverload(m, f, cs, nts)
  }

  // ----- collapsing and expanding

  datatype Collapsed = Ok(spec: Method) | Incompatible

  function AllTypes(os: seq<Overload>): seq<NetworkType> {
    if os == [] then [] else AllTypes(os[..|os| - 1]) + os[|os| - 1].networkTypes
  }

  /** Without flags the contract's signature replaces the base; with flags every overload must
      have exactly these facets, and of them those that differ are taken from the contract. */
  function Collapse(m: Method, cs: Signature, f: Flag): Collapsed {
    if !f.None() && exists j :: 0 <= j < |m.overloads| && FlagOf(m.overloads[j]) != f then Incompatible
    else
      var of := Compare(m.sig, cs);
      Ok(Method(m.networkTypes + AllTypes(m.overloads),
        Signature(
          if f.None() || (f.inputs && of.inputs) then cs.inputs else m.sig.inputs,
          if f.None() || (f.output && of.output) then cs.output else m.sig.output,
          if f.None() || (f.payable && of.payable) then cs.payable else m.sig.payable,
          if f.None() || (f.readonly && of.readonly) then cs.readonly else m.sig.readonly),
        []))
  }

  /** An overload of the original, as it differs from the merged signature. */
  function Reoverload(merged: Signature, origin: Signature, f: Flag, oo: Overload): Overload {
    Overload(oo.networkTypes,
      if oo.inputs.Some?
      then (if !f.inputs || !EqualsNameAndTypes(merged.inputs, oo.inputs.value) then oo.inputs else None)
      else if f.inputs then Some(origin.inputs) else None,
      if oo.output.Some?
      then (if !f.output || !EqualsTypeSpec(merged.output, oo.output.value) then oo.output else None)
      else if f.output then Some(origin.output) else None,
      None, None)
  }

  function Reoverloads(merged: Signature, origin: Signature, f: Flag, os: seq<Overload>): (r: seq<Overload>)
    ensures |r| == |os| && forall j | 0 <= j < |os| :: r[j] == Reoverload(merged, origin, f, os[j])
  {
    seq(|os|, j requires 0 <= j < |os| => Reoverload(merged, origin, f, os[j]))
  }

  function Reexpand(merged: Method, origin: Method): Method {
    var f := Compare(merged.sig, origin.sig);
    var base := NewOverload(f, origin.sig, origin.networkTypes);
    merged.(overloads := [base] + Reoverloads(merged.sig, origin.sig, f, origin.overloads))
  }

  // ----- what a method means for a network type

  predicate Supports(m: Method, nt: NetworkType) {
    nt in m.networkTypes || FirstSupporting(m.overloads, nt) < |m.overloads|
  }

  function Effective(m: Method, nt: NetworkType): Signature
    requires Supports(m, nt)
  {
    if nt in m.networkTypes then m.sig else Apply(m.sig, m.overloads[FirstSupporting(m.overloads, nt)])
  }
}
