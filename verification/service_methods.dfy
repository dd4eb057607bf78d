/**
 The method spec as the object its merges update in place, and the merged service built from it.
 */
module ServiceMethods {
  import opened SpecTypes
  import opened ServiceSpec
  import opened Wrappers
  import opened ServiceMerge
  import opened ServiceExpand
  import opened ServiceEvents

  // ----- string sets

  method StringSetIndex(l: seq<NetworkType>, v: NetworkType) returns (i: int)
    ensures -1 <= i < |l|
    ensures i >= 0 ==> l[i] == v && v !in l[..i]
    ensures i < 0 ==> v !in l
  {
    i := 0;
    while i < |l|
      invariant 0 <= i <= |l| && v !in l[..i]
    {
      if l[i] == v {
        return;
      }
      i := i + 1;
    }
    i := -1;
  }

  lemma {:induction false} RemovedCutsFirst(l: seq<NetworkType>, v: NetworkType, i: nat)
    requires i < |l| && l[i] == v && v !in l[..i]
    ensures Removed(l, v) == l[..i] + l[i + 1..]
  {
    if i > 0 {
      assert l[0] in l[..i];
      assert l[1..][..i - 1] == l[..i][1..];
      RemovedCutsFirst(l[1..], v, i - 1);
      assert l[1..][i..] == l[i + 1..];
    }
  }

  method StringSetRemove(l: seq<NetworkType>, v: NetworkType) returns (r: seq<NetworkType>, removed: bool)
    ensures r == Removed(l, v) && removed == (v in l)
    ensures if v in l then exists i | 0 <= i < |l| :: l[i] == v && v !in l[..i] && r == l[..i] + l[i + 1..] else r == l
  {
    var i := StringSetIndex(l, v);
    if i >= 0 {
      RemovedCutsFirst(l, v, i);
      return l[..i] + l[i + 1..], true;
    }
    RemovedAbsent(l, v);
    return l, false;
  }

  method StringSetMerge(a: seq<NetworkType>, b: seq<NetworkType>) returns (r: seq<NetworkType>)
    ensures r == Merged(a, b)
  {
    r := a;
    for k := 0 to |b|
      invariant r == Merged(a, b[..k])
    {
      assert b[..k + 1][..k] == b[..k];
      var i := StringSetIndex(a, b[k]);
      if i < 0 {
        r := r + [b[k]];
      }
    }
    assert b[..|b|] == b;
  }

  // ----- a method spec

  class MethodSpec {
    var networkTypes: seq<NetworkType>
    var inputs: Fields
    var output: TypeSpec
    var payable: bool
    var readonly: bool
    var overloads: seq<Overload>

    function Sig(): Signature
      reads this
    {
      Signature(inputs, output, payable, readonly)
    }

    function Value(): Method
      reads this
    {
      Method(networkTypes, Sig(), overloads)
    }

    constructor (cs: Signature, nts: seq<NetworkType>)
      ensures Value() == NewMethod(cs, nts)
    {
      networkTypes, inputs, output, payable, readonly := nts, cs.inputs, cs.output, cs.payable, cs.readonly;
      overloads := [];
    }

    constructor Copy(m: Method)
      ensures Value() == m
    {
      networkTypes, inputs, output, payable, readonly := m.networkTypes, m.sig.inputs, m.sig.output, m.sig.payable,
        m.sig.readonly;
      overloads := m.overloads;
    }

    /** The place of the first overload that supports the network type, or the number of overloads. */
    method FindOverload(nt: NetworkType) returns (j: nat)
      ensures j == FirstSupporting(overloads, nt)
    {
      j := 0;
      while j < |overloads|
        invariant j <= |overloads|
        invariant forall k | 0 <= k < j :: nt !in overloads[k].networkTypes
      {
        if nt in overloads[j].networkTypes {
          FirstSupportingIs(overloads, nt, j);
          return;
        }
        j := j + 1;
      }
    }

    method FindCompatible(cs: Signature) returns (j: nat)
      ensures j == FirstCompatible(overloads, cs)
    {
      j := 0;
      while j < |overloads|
        invariant j <= |overloads|
        invariant forall k | 0 <= k < j :: !Compatible(overloads[k], cs)
      {
        if Compatible(overloads[j], cs) {
          FirstCompatibleIs(overloads, cs, j);
          return;
        }
        j := j + 1;
      }
    }

    method MoveToBase(nt: NetworkType)
      modifies this`networkTypes, this`overloads
      ensures Value() == AddToBase(old(Value()), nt)
    {
      if nt !in networkTypes {
        var j := FindOverload(nt);
        if j < |overloads| {
          var rest, _ := StringSetRemove(overloads[j].networkTypes, nt);
          overloads := overloads[j := overloads[j].(networkTypes := rest)];
        }
        networkTypes := networkTypes + [nt];
      }
    }

    method RemoveFromBase(nts: seq<NetworkType>)
      modifies this`networkTypes
      ensures networkTypes == RemovedAll(old(networkTypes), nts)
    {
      for i := 0 to |nts|
        invariant RemovedAll(networkTypes, nts[i..]) == RemovedAll(old(networkTypes), nts)
      {
        assert nts[i..][1..] == nts[i + 1..];
        if nts[i] in networkTypes {
          var rest, _ := StringSetRemove(networkTypes, nts[i]);
          networkTypes := rest;
        } else {
          RemovedAbsent(networkTypes, nts[i]);
        }
      }
    }

    method MergeContract(cs: Signature, nts: seq<NetworkType>) returns (f: Flag)
      modifies this`networkTypes, this`overloads
      ensures f == Compare(old(Sig()), cs)
      ensures Value() == Merge(old(Value()), cs, nts)
    {
      f := Compare(Sig(), cs);
      if f.None() {
        for i := 0 to |nts|
          invariant Value() == AddAllToBase(old(Value()), nts[..i])
        {
          assert nts[..i + 1][..i] == nts[..i];
          MoveToBase(nts[i]);
        }
        assert nts[..|nts|] == nts;
      } else {
        RemoveFromBase(nts);
        var j := FindCompatible(cs);
        if j < |overloads| {
          var types := StringSetMerge(overloads[j].networkTypes, nts);
          overloads := overloads[j := overloads[j].(networkTypes := types)];
        } else {
          overloads := overloads + [NewOverload(f, cs, nts)];
        }
      }
    }

    /** The network types of all overloads, unless facets are demanded that one of them does not have. */
    method OverloadTypes(f: Flag) returns (ok: bool, supports: seq<NetworkType>)
      ensures ok <==> f.None() || forall k | 0 <= k < |overloads| :: FlagOf(overloads[k]) == f
      ensures ok ==> supports == AllTypes(overloads)
    {
      supports := [];
      for j := 0 to |overloads|
        invariant supports == AllTypes(overloads[..j])
        invariant f.None() || forall k | 0 <= k < j :: FlagOf(overloads[k]) == f
      {
        assert overloads[..j + 1][..j] == overloads[..j];
        if !f.None() && FlagOf(overloads[j]) != f {
          return false, supports;
        }
        supports := supports + overloads[j].networkTypes;
      }
      assert overloads[..|overloads|] == overloads;
      return true, supports;
    }

    /** Collapses the overloads, or changes nothing when one of them has other facets. */
    method MergeOverloads(cs: Signature, f: Flag) returns (ok: bool)
      modifies this
      ensures ok == Collapse(old(Value()), cs, f).Ok?
      ensures Value() == if ok then Collapse(old(Value()), cs, f).spec else old(Value())
    {
      var supports;
      ok, supports := OverloadTypes(f);
      if !ok {
        return;
      }
      networkTypes := networkTypes + supports;
      TakeFacets(cs, f);
      overloads := [];
    }

    /** The demanded facets that differ, or all when none are demanded. */
    method TakeFacets(cs: Signature, f: Flag)
      modifies `inputs, `output, `payable, `readonly
      ensures var of := Compare(old(Sig()), cs);
              && inputs == (if f.None() || (f.inputs && of.inputs) then cs.inputs else old(inputs))
              && output == (if f.None() || (f.output && of.output) then cs.output else old(output))
              && payable == (if f.None() || (f.payable && of.payable) then cs.payable else old(payable))
              && readonly == (if f.None() || (f.readonly && of.readonly) then cs.readonly else old(readonly))
    {
      var of := Compare(Sig(), cs);
      if f.None() || (f.inputs && of.inputs) {
        inputs := cs.inputs;
      }
      if f.None() || (f.output && of.output) {
        output := cs.output;
      }
      if f.None() || (f.payable && of.payable) {
        payable := cs.payable;
      }
      if f.None() || (f.readonly && of.readonly) {
        readonly := cs.readonly;
      }
    }
  }

  /** The original's base and overloads, each as it differs from the merged signature. */
  method NewMethodSpec(merged: Method, origin: Method) returns (m: MethodSpec)
    ensures fresh(m) && m.Value() == Reexpand(merged, origin)
  {
    var f := Compare(merged.sig, origin.sig);
    m := new MethodSpec.Copy(merged);
    m.overloads := [NewOverload(f, origin.sig, origin.networkTypes)];
    for j := 0 to |origin.overloads|
      invariant m.Value() == merged.(overloads := m.overloads) && |m.overloads| == j + 1
      invariant m.overloads[0] == NewOverload(f, origin.sig, origin.networkTypes)
      invariant forall k | 0 <= k < j ::
                  m.overloads[1 + k] == Reoverload(merged.sig, origin.sig, f, origin.overloads[k])
    {
      var oo := origin.overloads[j];
      var o := Overload(oo.networkTypes, None, None, None, None);
      if oo.inputs.Some? {
        if !f.inputs || !EqualsNameAndTypes(merged.sig.inputs, oo.inputs.value) {
          o := o.(inputs := oo.inputs);
        }
      } else if f.inputs {
        o := o.(inputs := Some(origin.sig.inputs));
      }
      if oo.output.Some? {
        if !f.output || !EqualsTypeSpec(merged.sig.output, oo.output.value) {
          o := o.(output := oo.output);
        }
      } else if f.output {
        o := o.(output := Some(origin.sig.output));
      }
      m.overloads := m.overloads + [o];
    }
    assert m.overloads == Reexpand(merged, origin).overloads;
  }

  // ----- the merged service

  /** What a merge handler answers for a method or an event: what it leaves behind, merged or as it was. */
  datatype Handling<+X> = Refused | Kept(spec: X) | Replaced(spec: X)

  type MethodHandler = (Name, Method) -> Handling<Method>

  type EventHandler = (Name, Event) -> Handling<Event>

  /** The merged specs, and those of them that were merged, expanded. */
  datatype Part<X> = Part(spec: map<Name, X>, expanded: map<Name, X>)

  /** How a part is merged: the handler, when overloads are left, and expanding. */
  datatype How<!X> = How(handle: (Name, X) -> Handling<X>, whole: X -> bool, expand: (X, X) -> X)

  function HowMethods(mh: MethodHandler): How<Method> {
    How(mh, (m: Method) => m.overloads == [], Reexpand)
  }

  function HowEvents(eh: EventHandler): How<Event> {
    How(eh, (e: Event) => e.overloads == [], ReexpandEvent)
  }

  datatype Service = Service(methods: map<Name, Method>, events: map<Name, Event>)

  datatype MergedService = MergedService(networks: map<Name, NetworkType>, methods: Part<Method>, events: Part<Event>)

  datatype Failure = HandlerFailed(name: Name) | NotMerged(name: Name)

  datatype Building = Built(service: MergedService) | MethodFailed(failure: Failure) | EventFailed(failure: Failure)

  /** The handler accepts the spec and leaves no overloads. */
  predicate CanMerge<X>(how: How<X>, name: Name, x: X) {
    !how.handle(name, x).Refused? && how.whole(how.handle(name, x).spec)
  }

  ghost predicate MergedAt<X>(p: Part<X>, spec: map<Name, X>, how: How<X>, name: Name)
    requires name in spec && name in p.spec
  {
    var h := how.handle(name, spec[name]);
    && CanMerge(how, name, spec[name]) && p.spec[name] == h.spec
    && (name in p.expanded <==> h.Replaced?)
    && (name in p.expanded ==> p.expanded[name] == how.expand(h.spec, spec[name]))
  }

  ghost predicate MergedInto<X>(p: Part<X>, spec: map<Name, X>, how: How<X>, done: set<Name>) {
    && p.spec.Keys == done && p.expanded.Keys <= done && done <= spec.Keys
    && forall name | name in done :: MergedAt(p, spec, how, name)
  }

  ghost predicate AllMerge<X>(spec: map<Name, X>, how: How<X>) {
    forall name | name in spec :: CanMerge(how, name, spec[name])
  }

  ghost predicate FailsAt<X>(f: Failure, spec: map<Name, X>, how: How<X>) {
    && f.name in spec
    && match f
       case HandlerFailed(name) => how.handle(name, spec[name]).Refused?
       case NotMerged(name) => !how.handle(name, spec[name]).Refused? && !how.whole(how.handle(name, spec[name]).spec)
  }

  /** One loop of the construction, over methods or events in any order. */
  method MergeAll<X>(spec: map<Name, X>, how: How<X>) returns (p: Part<X>, failure: Option<Failure>)
    ensures failure.None? <==> AllMerge(spec, how)
    ensures failure.None? ==> MergedInto(p, spec, how, spec.Keys)
    ensures failure.Some? ==> FailsAt(failure.value, spec, how)
  {
    p := Part(map[], map[]);
    var left := spec.Keys;
    ghost var done: set<Name> := {};
    while left != {}
      invariant left !! done && left + done == spec.Keys && MergedInto(p, spec, how, done)
    {
      var name :| name in left;
      var handling := how.handle(name, spec[name]);
      if handling.Refused? {
        assert !CanMerge(how, name, spec[name]);
        return p, Some(HandlerFailed(name));
      }
      if !how.whole(handling.spec) {
        assert !CanMerge(how, name, spec[name]);
        return p, Some(NotMerged(name));
      }
      ghost var before := p;
      p := p.(spec := p.spec[name := handling.spec]);
      if handling.Replaced? {
        p := p.(expanded := p.expanded[name := how.expand(handling.spec, spec[name])]);
      }
      OneMoreMerged(before, p, spec, how, done, name);
      left, done := left - {name}, done + {name};
    }
    assert done == spec.Keys;
    return p, None;
  }

  lemma OneMoreMerged<X>(p: Part<X>, p': Part<X>, spec: map<Name, X>, how: How<X>, done: set<Name>, name: Name)
    requires MergedInto(p, spec, how, done) && name in spec && name !in done && CanMerge(how, name, spec[name])
    requires var h := how.handle(name, spec[name]);
             && p'.spec == p.spec[name := h.spec]
             && p'.expanded == if h.Replaced? then p.expanded[name := how.expand(h.spec, spec[name])] else p.expanded
    ensures MergedInto(p', spec, how, done + {name})
  {
    forall other | other in done + {name} ensures MergedAt(p', spec, how, other) {
      assert other != name ==> MergedAt(p, spec, how, other);
    }
  }

  ghost predicate IsMerged(s: MergedService, spec: Service, mh: MethodHandler, eh: EventHandler) {
    && MergedInto(s.methods, spec.methods, HowMethods(mh), spec.methods.Keys)
    && MergedInto(s.events, spec.events, HowEvents(eh), spec.events.Keys)
  }

  /** The handler does not refuse the method, and what it leaves has no overloads. */
  predicate MethodMerges(mh: MethodHandler, name: Name, m: Method) {
    !mh(name, m).Refused? && mh(name, m).spec.overloads == []
  }

  predicate EventMerges(eh: EventHandler, name: Name, e: Event) {
    !eh(name, e).Refused? && eh(name, e).spec.overloads == []
  }

  method NewMergedService(spec: Service, networks: map<Name, NetworkType>, mh: MethodHandler, eh: EventHandler)
    returns (r: Building)
    ensures r.Built? <==> && (forall n | n in spec.methods :: MethodMerges(mh, n, spec.methods[n]))
                          && (forall n | n in spec.events :: EventMerges(eh, n, spec.events[n]))
    ensures r.Built? ==> r.service.networks == networks && IsMerged(r.service, spec, mh, eh)
    ensures r.MethodFailed? ==> FailsAt(r.failure, spec.methods, HowMethods(mh))
    ensures r.EventFailed? ==>
              && (forall n | n in spec.methods :: MethodMerges(mh, n, spec.methods[n]))
              && FailsAt(r.failure, spec.events, HowEvents(eh))
  {
    var methods, failure := MergeAll(spec.methods, HowMethods(mh));
    if failure.Some? {
      return MethodFailed(failure.value);
    }
    var events, eventFailure := MergeAll(spec.events, HowEvents(eh));
    if eventFailure.Some? {
      return EventFailed(eventFailure.value);
    }
    return Built(MergedService(networks, methods, events));
  }

  // ----- the merge handler of the BMC service

  /** The contract whose facets a method is to take. */
  datatype MergeInfo = MergeInfo(contract: Signature, flag: Flag)

  function InfoHandler(infos: map<Name, MergeInfo>): MethodHandler {
    (name, m) =>
      if name !in infos then Kept(m)
      else match Collapse(m, infos[name].contract, infos[name].flag)
        case Ok(merged) => Replaced(merged)
        case Incompatible => Refused
  }

  /** Methods that are not in the table stay as they are. Of the others those are refused that have an
      overload with other facets than demanded; the rest lose their overloads and keep all their network
      types. */
  lemma InfoHandlerMerges(infos: map<Name, MergeInfo>, name: Name, m: Method)
    ensures var r := InfoHandler(infos)(name, m);
            && (r.Kept? <==> name !in infos) && (r.Kept? ==> r.spec == m)
            && (r.Refused? <==> && name in infos && infos[name].flag != Flag(false, false, false, false)
                                && exists o | o in m.overloads :: !HasExactly(o, infos[name].flag))
            && (r.Replaced? ==> r.spec.overloads == []
                                && forall nt :: nt in r.spec.networkTypes <==> Supports(m, nt))
  {
    if name in infos {
      CollapseKeepsNetworkTypes(m, infos[name].contract, infos[name].flag);
    }
  }

  method MergeMethodOverloads(m: Method, infos: map<Name, MergeInfo>, name: Name) returns (r: Handling<Method>)
    ensures r == InfoHandler(infos)(name, m)
  {
    if name !in infos {
      return Kept(m);
    }
    var ms := new MethodSpec.Copy(m);
    var ok := ms.MergeOverloads(infos[name].contract, infos[name].flag);
    if !ok {
      return Refused;
    }
    return Replaced(ms.Value());
  }

  // ----- dispatching

  datatype Dispatch<+X, +O> =
    | NotFoundNetwork
    | NotFoundName
    | NotSupported
    | PassThrough
    | Converted(spec: X, overload: O)

  function MethodOverload(s: MergedService, network: Name, name: Name): Dispatch<Method, Overload> {
    if network !in s.networks then NotFoundNetwork
    else if name !in s.methods.expanded then (if name in s.methods.spec then PassThrough else NotFoundName)
    else
      var ms := s.methods.expanded[name];
      var j := FirstSupporting(ms.overloads, s.networks[network]);
      if j == |ms.overloads| then NotSupported else Converted(ms, ms.overloads[j])
  }

  function EventOverloadOf(s: MergedService, network: Name, name: Name): Dispatch<Event, EventOverload> {
    if network !in s.networks then NotFoundNetwork
    else if name !in s.events.expanded then (if name in s.events.spec then PassThrough else NotFoundName)
    else
      var es := s.events.expanded[name];
      var j := FirstEventFor(es.overloads, s.networks[network]);
      if j == |es.overloads| then NotSupported else Converted(es, es.overloads[j])
  }

  /** A built service converts a call exactly when the network is known, its method was merged
      and the original method supports the network's type; the conversion is then from and to
      the inputs and output the original has for it. */
  lemma ServiceDispatches(s: MergedService, spec: Service, mh: MethodHandler, eh: EventHandler, network: Name,
                          name: Name)
    requires IsMerged(s, spec, mh, eh)
    ensures var d, known := MethodOverload(s, network, name), network in s.networks && name in spec.methods;
            && (d.NotFoundNetwork? <==> network !in s.networks)
            && (d.NotFoundName? <==> network in s.networks && name !in spec.methods)
            && (d.PassThrough? <==> known && mh(name, spec.methods[name]).Kept?)
            && (d.NotSupported? <==> known && mh(name, spec.methods[name]).Replaced?
                                     && !Supports(spec.methods[name], s.networks[network]))
            && (d.Converted? ==>
                  var want := Effective(spec.methods[name], s.networks[network]);
                  && d.spec.sig == s.methods.spec[name].sig
                  && EqualsNameAndTypes(Apply(d.spec.sig, d.overload).inputs, want.inputs)
                  && EqualsTypeSpec(Apply(d.spec.sig, d.overload).output, want.output))
  {
    assert name in spec.methods ==> MergedAt(s.methods, spec.methods, HowMethods(mh), name);
    if network in s.networks && name in s.methods.expanded {
      var nt := s.networks[network];
      DispatchFinds(s.methods.spec[name], spec.methods[name], nt);
      if Supports(spec.methods[name], nt) {
        ReexpansionPreservesMeaning(s.methods.spec[name], spec.methods[name], nt);
      }
    }
  }

  /** The same for events: filters and callbacks get the parameters the original has for the network. */
  lemma ServiceDispatchesEvents(s: MergedService, spec: Service, mh: MethodHandler, eh: EventHandler, network: Name,
                                name: Name)
    requires IsMerged(s, spec, mh, eh)
    ensures var d, known := EventOverloadOf(s, network, name), network in s.networks && name in spec.events;
            && (d.NotFoundNetwork? <==> network !in s.networks)
            && (d.NotFoundName? <==> network in s.networks && name !in spec.events)
            && (d.PassThrough? <==> known && eh(name, spec.events[name]).Kept?)
            && (d.NotSupported? <==> known && eh(name, spec.events[name]).Replaced?
                                     && !EventSupports(spec.events[name], s.networks[network]))
            && (d.Converted? ==>
                  var want := EffectiveEvent(spec.events[name], s.networks[network]);
                  && d.spec.facets == s.events.spec[name].facets
                  && EqualsNameAndTypes(ApplyEvent(d.spec.facets, d.overload).inputs, want.inputs)
                  && EqualsIndexed(ApplyEvent(d.spec.facets, d.overload).indexed, want.indexed))
  {
    assert name in spec.events ==> MergedAt(s.events, spec.events, HowEvents(eh), name);
    if network in s.networks && name in s.events.expanded {
      var nt := s.networks[network];
      EventDispatchFinds(s.events.spec[name], spec.events[name], nt);
      if EventSupports(spec.events[name], nt) {
        EventReexpansionPreservesMeaning(s.events.spec[name], spec.events[name], nt);
      }
    }
  }
}
