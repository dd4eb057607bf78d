/**
 Type resolution of a contract specification: names become types, fields that name a struct
 come to point at its definition, and structs may refer to themselves and to each other.
 */
module SpecResolver {
  import opened SpecSignatures
  import opened Wrappers

  /** Types made at run time: predefined ones, slices, and records of a struct's fields. */
  datatype GoType = Basic(tag: Tag) | Slice(elem: GoType) | Record(fields: seq<(Name, GoType)>)

  function TypeOfTag(tag: Tag): Option<GoType> {
    if tag.Unknown? || tag.Void? then None else Some(Basic(tag))
  }

  function Slices(dimension: int, t: GoType): GoType
    decreases dimension
  {
    if dimension <= 0 then t else Slice(Slices(dimension - 1, t))
  }

  datatype Field = Field(name: Name, spec: TypeSpec)

  type Structs = map<Name, StructSpec>

  // ----- what resolution should come to

  predicate NamesStruct(t: TypeSpec, structs: Structs) {
    t.declared.Unknown? && t.name in structs
  }

  function FinalTag(t: TypeSpec, structs: Structs): Tag {
    if NamesStruct(t, structs) then Struct else t.declared
  }

  /** A value type other than Void, or the name of a struct. */
  predicate Typed(t: TypeSpec, structs: Structs) {
    !FinalTag(t, structs).Unknown? && !FinalTag(t, structs).Void?
  }

  function FinalType(t: TypeSpec, structs: Structs): GoType {
    Slices(t.dimension, Basic(FinalTag(t, structs)))
  }

  function FieldTypes(fields: seq<Field>, n: nat, structs: Structs): seq<(Name, GoType)>
    requires n <= |fields|
  {
    if n == 0 then []
    else FieldTypes(fields, n - 1, structs) + [(fields[n - 1].name, FinalType(fields[n - 1].spec, structs))]
  }

  function StructType(s: StructSpec, structs: Structs): GoType {
    Record(FieldTypes(s.fields, |s.fields|, structs))
  }

  predicate WellFormed(s: StructSpec, structs: Structs) {
    s.nameable && forall i | 0 <= i < |s.fields| :: Typed(s.fields[i].spec, structs)
  }

  ghost predicate AllWellFormed(structs: Structs) {
    forall name | name in structs :: WellFormed(structs[name], structs)
  }

  // ----- what every step keeps

  /** `open` are the type specs whose struct is being resolved further up. */
  ghost predicate SpecOk(t: TypeSpec, structs: Structs, open: set<TypeSpec>)
    reads t
  {
    && !t.declared.Struct?
    && (if t.tag.Struct? then
          && NamesStruct(t, structs) && t.resolved == structs[t.name]
          && (t !in open ==> t.resolvedType == Some(Slices(t.dimension, StructType(structs[t.name], structs))))
        else t.tag == t.declared && t.resolved == null && t.resolvedType == None)
    && (t.typ.Some? ==> t.tag == FinalTag(t, structs) && Typed(t, structs) && t.typ.value == FinalType(t, structs))
  }

  ghost predicate StructOk(s: StructSpec, structs: Structs, world: set<TypeSpec>)
    reads s
  {
    && (forall i | 0 <= i < |s.fields| :: s.fields[i].spec in world)
    && (s.typ.Some? ==> s.typ.value == StructType(s, structs))
  }

  ghost predicate AllOk(structs: Structs, world: set<TypeSpec>, open: set<TypeSpec>)
    reads world, structs.Values
  {
    && (forall t | t in world :: SpecOk(t, structs, open))
    && (forall s | s in structs.Values :: StructOk(s, structs, world))
  }

  /** The type specs that still have to be turned into structs. */
  ghost function Pending(structs: Structs, world: set<TypeSpec>): set<TypeSpec>
    reads world
  {
    set t | t in world && t.tag.Unknown? && t.name in structs
  }

  ghost predicate Settled(t: TypeSpec, structs: Structs)
    reads t
  {
    t.tag == FinalTag(t, structs) && (Typed(t, structs) ==> t.typ.Some?)
  }

  /** Nothing that was resolved is undone. */
  twostate predicate Progress(structs: Structs, world: set<TypeSpec>)
    reads world, structs.Values
  {
    && Pending(structs, world) <= old(Pending(structs, world))
    && (forall t | t in world :: old(Settled(t, structs)) ==> Settled(t, structs))
    && (forall t | t in world :: old(t.tag.Struct?) ==> t.tag.Struct?)
    && (forall s | s in structs.Values :: old(s.typ.Some?) ==> s.typ.Some?)
  }

  ghost function FieldSpecs(structs: Structs): set<TypeSpec> {
    set s, f | s in structs.Values && f in s.fields :: f.spec
  }

  /** Nothing gets another tag but fields of structs and what was to be resolved. */
  twostate predicate Spares(structs: Structs, world: set<TypeSpec>, resolved: set<TypeSpec>)
    reads world
  {
    forall t | t in world && t !in FieldSpecs(structs) && t !in resolved :: t.tag == old(t.tag)
  }

  ghost function AllOf(specs: seq<TypeSpec>): set<TypeSpec> {
    set t | t in specs
  }

  // ----- type specs and struct specs

  class TypeSpec {
    const name: Name
    const dimension: int
    const declared: Tag      // by the name alone
    var tag: Tag
    var resolved: StructSpec?
    var typ: Option<GoType>
    var resolvedType: Option<GoType>

    constructor (name: Name, dimension: int, declared: Tag)
      ensures this.name == name && this.dimension == dimension && this.declared == declared
      ensures tag == declared && resolved == null && typ == None && resolvedType == None
    {
      this.name, this.dimension, this.declared := name, dimension, declared;
      tag, resolved, typ, resolvedType := declared, null, None, None;
    }

    /** Fails - the program panics - only when a struct is not well-formed, or on a slice of no type. */
    method ResolveType(structs: Structs, ghost world: set<TypeSpec>, ghost open: set<TypeSpec>) returns (ok: bool)
      requires this in world && AllOk(structs, world, open)
      modifies world, structs.Values
      decreases Pending(structs, world), 1
      ensures ok ==> AllOk(structs, world, open) && Progress(structs, world) && Spares(structs, world, {this})
      ensures ok ==> Settled(this, structs) && (Typed(this, structs) || dimension <= 0)
      ensures !ok ==> !AllWellFormed(structs) || (!Typed(this, structs) && dimension > 0)
    {
      if tag.Unknown? && name in structs {
        ok := Descend(structs, world, open);
        if !ok {
          return false;
        }
      }
      var t := TypeOfTag(tag);
      var i := 0;
      while i < dimension
        invariant 0 <= i && (dimension >= 0 ==> i <= dimension) && (dimension < 0 ==> i == 0)
        invariant t.Some? <==> Typed(this, structs)
        invariant t.Some? ==> t.value == Slices(i, Basic(FinalTag(this, structs)))
        invariant i > 0 ==> t.Some?
      {
        if t.None? {
          return false;
        }
        t := Some(Slice(t.value));
        i := i + 1;
      }
      typ := t;
      return true;
    }

    /** Turns an unknown type into the struct it names, resolving the struct first if need be. */
    method Descend(structs: Structs, ghost world: set<TypeSpec>, ghost open: set<TypeSpec>) returns (ok: bool)
      requires this in world && AllOk(structs, world, open) && tag.Unknown? && name in structs
      modifies world, structs.Values
      decreases Pending(structs, world), 0
      ensures ok ==> AllOk(structs, world, open) && Progress(structs, world) && tag.Struct?
      ensures ok ==> Spares(structs, world, {this})
      ensures !ok ==> !AllWellFormed(structs)
    {
      var v := structs[name];
      MarkStruct(structs, world, open);
      if v.typ.None? {
        ok := v.ResolveType(structs, world, open + {this});
        if !ok {
          return;
        }
      }
      assert StructOk(v, structs, world);
      SetResolvedType(structs, world, open, v.typ.value);
      ok := true;
    }

    method MarkStruct(structs: Structs, ghost world: set<TypeSpec>, ghost open: set<TypeSpec>)
      requires this in world && AllOk(structs, world, open) && tag.Unknown? && name in structs
      modifies this`tag, this`resolved
      ensures AllOk(structs, world, open + {this}) && Progress(structs, world) && tag.Struct?
      ensures Pending(structs, world) < old(Pending(structs, world))
    {
      tag := Struct;
      resolved := structs[name];
      assert Pending(structs, world) == old(Pending(structs, world)) - {this};
    }

    method SetResolvedType(structs: Structs, ghost world: set<TypeSpec>, ghost open: set<TypeSpec>, t: GoType)
      requires this in world && AllOk(structs, world, open + {this}) && tag.Struct?
      requires t == StructType(structs[name], structs)
      modifies this`resolvedType
      ensures AllOk(structs, world, open) && Progress(structs, world) && tag.Struct?
    {
      resolvedType := Some(Slices(dimension, t));
    }
  }

  class StructSpec {
    const fields: seq<Field>
    const nameable: bool     // does the record type accept the field names?
    var typ: Option<GoType>

    constructor (fields: seq<Field>, nameable: bool)
      ensures this.fields == fields && this.nameable == nameable && typ == None
    {
      this.fields, this.nameable, typ := fields, nameable, None;
    }

    /** Every field in any order, then the record type. */
    method ResolveType(structs: Structs, ghost world: set<TypeSpec>, ghost open: set<TypeSpec>) returns (ok: bool)
      requires this in structs.Values && AllOk(structs, world, open)
      modifies world, structs.Values
      decreases Pending(structs, world), 3
      ensures ok ==> AllOk(structs, world, open) && Progress(structs, world) && Spares(structs, world, {})
      ensures ok ==> typ.Some? && WellFormed(this, structs)
      ensures ok ==> forall f | f in fields :: Settled(f.spec, structs)
      ensures !ok ==> !AllWellFormed(structs)
    {
      ok := ResolveFields(structs, world, open);
      if ok {
        ok := MakeType(structs, world, open);
      }
    }

    method ResolveFields(structs: Structs, ghost world: set<TypeSpec>, ghost open: set<TypeSpec>) returns (ok: bool)
      requires this in structs.Values && AllOk(structs, world, open)
      modifies world, structs.Values
      decreases Pending(structs, world), 2
      ensures ok ==> AllOk(structs, world, open) && Progress(structs, world) && Spares(structs, world, {})
      ensures ok ==> forall f | f in fields :: Settled(f.spec, structs)
      ensures !ok ==> !AllWellFormed(structs)
    {
      var left := set f | f in fields;
      while left != {}
        invariant forall f | f in left :: f in fields
        invariant AllOk(structs, world, open) && Progress(structs, world) && Spares(structs, world, {})
        invariant forall f | f in fields && f !in left :: Settled(f.spec, structs)
      {
        var f :| f in left;
        assert f.spec in FieldSpecs(structs);
        ok := f.spec.ResolveType(structs, world, open);
        if !ok {
          return;
        }
        left := left - {f};
      }
      ok := true;
    }

    method MakeType(structs: Structs, ghost world: set<TypeSpec>, ghost open: set<TypeSpec>) returns (ok: bool)
      requires this in structs.Values && AllOk(structs, world, open)
      requires forall f | f in fields :: Settled(f.spec, structs)
      modifies this`typ
      ensures ok ==> AllOk(structs, world, open) && Progress(structs, world) && typ.Some?
      ensures ok <==> WellFormed(this, structs)
    {
      var made := [];
      for i := 0 to |fields|
        invariant made == FieldTypes(fields, i, structs)
        invariant forall k | 0 <= k < i :: Typed(fields[k].spec, structs)
      {
        var f := fields[i];
        if f.spec.typ.None? {
          return false;
        }
        made := made + [(f.name, f.spec.typ.value)];
      }
      if !nameable {
        return false;
      }
      typ := Some(Record(made));
      ok := true;
    }
  }

  // ----- a whole specification

  /** As read: nothing resolved, and no name is the tag of structs. */
  ghost predicate AsRead(structs: Structs, world: set<TypeSpec>)
    reads world, structs.Values
  {
    && (forall t | t in world ::
          !t.declared.Struct? && t.tag == t.declared && t.resolved == null && t.typ == None && t.resolvedType == None)
    && (forall s | s in structs.Values :: s.typ == None && forall i | 0 <= i < |s.fields| :: s.fields[i].spec in world)
  }

  /** The type spec points to the struct it names, and has the types its name and dimension stand for. */
  ghost predicate Resolved(t: TypeSpec, structs: Structs)
    reads t
  {
    && t.tag == FinalTag(t, structs)
    && (if NamesStruct(t, structs)
        then t.resolved == structs[t.name]
             && t.resolvedType == Some(Slices(t.dimension, StructType(structs[t.name], structs)))
        else t.resolved == null && t.resolvedType == None)
    && t.typ == if Typed(t, structs) then Some(FinalType(t, structs)) else None
  }

  lemma SettledIsResolved(t: TypeSpec, structs: Structs)
    requires SpecOk(t, structs, {}) && Settled(t, structs)
    ensures Resolved(t, structs)
  {
  }

  // ----- what the types are

  /** How many slices are around a type, and what is inside. */
  function Depth(t: GoType): nat {
    if t.Slice? then 1 + Depth(t.elem) else 0
  }

  function Core(t: GoType): GoType {
    if t.Slice? then Core(t.elem) else t
  }

  lemma {:induction false} SlicesAre(dimension: int, t: GoType)
    requires !t.Slice?
    ensures Core(Slices(dimension, t)) == t && Depth(Slices(dimension, t)) == if dimension > 0 then dimension else 0
    decreases dimension
  {
    if dimension > 0 {
      SlicesAre(dimension - 1, t);
    }
  }

  /** A resolved type spec has the predefined type of its tag - of structs, if it names one - in as many
      slices as it has dimensions, and beside that, for a struct, the record of its fields in as many. */
  lemma ResolvedTypesAre(t: TypeSpec, structs: Structs)
    requires Resolved(t, structs)
    ensures var names := t.declared == Unknown && t.name in structs;
            var tag, depth := if names then Struct else t.declared, if t.dimension > 0 then t.dimension else 0;
            && t.tag == tag
            && (t.typ.Some? <==> tag != Unknown && tag != Void)
            && (t.typ.Some? ==> Core(t.typ.value) == Basic(tag) && Depth(t.typ.value) == depth)
            && (t.resolvedType.Some? <==> names)
            && (names ==> t.resolved == structs[t.name] && Core(t.resolvedType.value).Record?
                          && |Core(t.resolvedType.value).fields| == |structs[t.name].fields|
                          && Depth(t.resolvedType.value) == depth)
  {
    SlicesAre(t.dimension, Basic(FinalTag(t, structs)));
    if t.resolvedType.Some? {
      var s := structs[t.name];
      SlicesAre(t.dimension, StructType(s, structs));
      if s.fields != [] {
        FieldTypesAre(s.fields, |s.fields|, structs, 0);
      }
    }
  }

  method ResolveStructs(structs: Structs, ghost world: set<TypeSpec>) returns (ok: bool)
    requires AllOk(structs, world, {})
    modifies world, structs.Values
    ensures ok <==> AllWellFormed(structs)
    ensures ok ==> AllOk(structs, world, {}) && Spares(structs, world, {})
    ensures ok ==> forall s, f | s in structs.Values && f in s.fields :: Settled(f.spec, structs)
    ensures ok ==> forall s | s in structs.Values :: s.typ.Some?
  {
    var left := structs.Keys;
    while left != {}
      invariant left <= structs.Keys
      invariant AllOk(structs, world, {}) && Spares(structs, world, {})
      invariant forall name | name in structs.Keys - left ::
                  WellFormed(structs[name], structs) && structs[name].typ.Some?
      invariant forall name, f | name in structs.Keys - left && f in structs[name].fields :: Settled(f.spec, structs)
    {
      var name :| name in left;
      ok := structs[name].ResolveType(structs, world, {});
      if !ok {
        return;
      }
      left := left - {name};
    }
    ok := true;
  }

  /** Reading a specification: its structs first, then the inputs and outputs of its methods, then its
      events. It completes exactly when every struct is well-formed, no input or output is a slice of no
      type, and every event parameter - those overwritten by a later one of the same name, which are not
      resolved, included - has a type with a name and no negative dimension; cyclic structs are no
      obstacle. Every field and every other type spec then points to the struct it names, every struct
      has its record type and every event its signature. */
  method ResolveSpec(structs: Structs, others: seq<TypeSpec>, events: seq<EventSpec>, ghost world: set<TypeSpec>)
    returns (ok: bool)
    requires AsRead(structs, world) && forall t | t in others :: t in world
    requires Separate(structs, others, events, world)
    modifies world, structs.Values, events
    ensures ok <==> && AllWellFormed(structs) && (forall t | t in others :: Typed(t, structs) || t.dimension <= 0)
                    && forall e | e in events :: Signed(e, structs)
    ensures ok ==> forall s | s in structs.Values :: s.typ == Some(StructType(s, structs))
    ensures ok ==> forall s, f | s in structs.Values && f in s.fields :: Resolved(f.spec, structs)
    ensures ok ==> forall t | t in others :: Resolved(t, structs)
    ensures ok ==> forall e, t | e in events && t in LastSpecs(e.inputs) :: Resolved(t, structs)
    ensures ok ==> forall e | e in events :: SaysEvent(e.signature, e, structs)
  {
    ok := ResolveTypes(structs, others, events, world);
    if !ok {
      return;
    }
    ok := ResolveEvents(structs, events, world);
    if ok {
      AllResolved(structs, world);
      EventsThere(events);
    }
  }

  /** The structs and the inputs and outputs of methods. */
  method ResolveTypes(structs: Structs, others: seq<TypeSpec>, ghost events: seq<EventSpec>, ghost world: set<TypeSpec>)
    returns (ok: bool)
    requires AsRead(structs, world) && forall t | t in others :: t in world
    requires Separate(structs, others, events, world)
    modifies world, structs.Values
    ensures ok <==> AllWellFormed(structs) && forall t | t in others :: Typed(t, structs) || t.dimension <= 0
    ensures ok ==> AllOk(structs, world, {}) && Untouched(AllOverwritten(events))
    ensures ok ==> forall s | s in structs.Values :: s.typ.Some?
    ensures ok ==> forall s, f | s in structs.Values && f in s.fields :: Settled(f.spec, structs)
    ensures ok ==> forall t | t in others :: Settled(t, structs)
  {
    assert AllOk(structs, world, {});
    ok := ResolveStructs(structs, world);
    if !ok {
      return;
    }
    ok := ResolveOthers(structs, others, world);
  }

  lemma AllResolved(structs: Structs, world: set<TypeSpec>)
    requires AllOk(structs, world, {})
    ensures forall t | t in world && Settled(t, structs) :: Resolved(t, structs)
    ensures forall s | s in structs.Values && s.typ.Some? :: s.typ.value == StructType(s, structs)
  {
    forall t | t in world && Settled(t, structs) ensures Resolved(t, structs) {
      SettledIsResolved(t, structs);
    }
    assert forall s | s in structs.Values :: StructOk(s, structs, world);
  }

  method ResolveOthers(structs: Structs, others: seq<TypeSpec>, ghost world: set<TypeSpec>) returns (ok: bool)
    requires AllOk(structs, world, {}) && AllWellFormed(structs) && forall t | t in others :: t in world
    modifies world, structs.Values
    ensures ok <==> forall t | t in others :: Typed(t, structs) || t.dimension <= 0
    ensures ok ==> AllOk(structs, world, {}) && Progress(structs, world)
    ensures ok ==> Spares(structs, world, AllOf(others))
    ensures ok ==> forall t | t in others :: Settled(t, structs)
  {
    for i := 0 to |others|
      invariant AllOk(structs, world, {}) && Progress(structs, world) && Spares(structs, world, AllOf(others))
      invariant forall k | 0 <= k < i ::
                  Settled(others[k], structs) && (Typed(others[k], structs) || others[k].dimension <= 0)
    {
      ok := others[i].ResolveType(structs, world, {});
      if !ok {
        return;
      }
    }
    ok := true;
  }

  // ----- events

  /** No later parameter has the name: the map of parameters has this one. */
  predicate IsLast(inputs: seq<Field>, i: nat)
    requires i < |inputs|
  {
    forall j | i < j < |inputs| :: inputs[j].name != inputs[i].name
  }

  function LastSpecs(inputs: seq<Field>): set<TypeSpec> {
    set i | 0 <= i < |inputs| && IsLast(inputs, i) :: inputs[i].spec
  }

  function OverwrittenSpecs(inputs: seq<Field>): set<TypeSpec> {
    set i | 0 <= i < |inputs| && !IsLast(inputs, i) :: inputs[i].spec
  }

  /** The tag of a parameter when the signature is made: overwritten ones keep the one by name. */
  function ParameterTag(e: EventSpec, i: nat, structs: Structs): Tag
    requires i < |e.inputs|
  {
    if IsLast(e.inputs, i) then FinalTag(e.inputs[i].spec, structs) else e.inputs[i].spec.declared
  }

  function ParameterOf(e: EventSpec, i: nat, structs: Structs): Parameter
    requires i < |e.inputs|
  {
    Parameter(ParameterTag(e, i, structs), e.inputs[i].spec.dimension)
  }

  /** The types of the first `n` parameters. */
  function Parameters(e: EventSpec, n: nat, structs: Structs): (r: seq<Parameter>)
    requires n <= |e.inputs|
    ensures |r| == n && forall i | 0 <= i < n :: r[i] == ParameterOf(e, i, structs)
  {
    seq(n, i requires 0 <= i < n => ParameterOf(e, i, structs))
  }

  predicate Signed(e: EventSpec, structs: Structs) {
    forall i | 0 <= i < |e.inputs| :: Named(ParameterOf(e, i, structs))
  }

  /** The signature says the name of the event and the types of its parameters. */
  ghost predicate SaysEvent(signature: string, e: EventSpec, structs: Structs) {
    Reads(signature, e.name.text, Parameters(e, |e.inputs|, structs))
  }

  /** What is in the maps of the events' parameters, and what is not. */
  ghost function AllLast(events: seq<EventSpec>): set<TypeSpec> {
    set e: EventSpec, t: TypeSpec | e in events && t in LastSpecs(e.inputs) :: t
  }

  ghost function AllOverwritten(events: seq<EventSpec>): set<TypeSpec> {
    set e: EventSpec, t: TypeSpec | e in events && t in OverwrittenSpecs(e.inputs) :: t
  }

  /** Every parameter is a type spec of its own: an overwritten one is nobody else's. */
  ghost predicate Separate(structs: Structs, others: seq<TypeSpec>, events: seq<EventSpec>, world: set<TypeSpec>) {
    && AllLast(events) + AllOverwritten(events) <= world
    && AllOverwritten(events) !! FieldSpecs(structs) + AllOf(others) + AllLast(events)
  }

  /** These have the tag of their name. */
  ghost predicate Untouched(specs: set<TypeSpec>)
    reads specs
  {
    forall t | t in specs :: t.tag == t.declared
  }

  class EventSpec {
    const name: Name
    const inputs: seq<Field>
    var signature: string

    constructor (name: Name, inputs: seq<Field>)
      ensures this.name == name && this.inputs == inputs && signature == ""
    {
      this.name, this.inputs, signature := name, inputs, "";
    }

    /** The parameters in the map in any order, then the signature from all of them. */
    method ResolveType(structs: Structs, ghost world: set<TypeSpec>) returns (ok: bool)
      requires AllOk(structs, world, {}) && AllWellFormed(structs)
      requires LastSpecs(inputs) + OverwrittenSpecs(inputs) <= world && Untouched(OverwrittenSpecs(inputs))
      requires OverwrittenSpecs(inputs) !! FieldSpecs(structs) + LastSpecs(inputs)
      modifies world, structs.Values, this`signature
      ensures ok <==> Signed(this, structs)
      ensures ok ==> AllOk(structs, world, {}) && Progress(structs, world) && Spares(structs, world, LastSpecs(inputs))
      ensures ok ==> forall t | t in LastSpecs(inputs) :: Settled(t, structs)
      ensures ok ==> SaysEvent(signature, this, structs)
    {
      ok := ResolveInputs(structs, world);
      if ok {
        ok := Sign(structs);
      }
    }

    method ResolveInputs(structs: Structs, ghost world: set<TypeSpec>) returns (ok: bool)
      requires AllOk(structs, world, {}) && AllWellFormed(structs)
      requires LastSpecs(inputs) + OverwrittenSpecs(inputs) <= world && Untouched(OverwrittenSpecs(inputs))
      requires OverwrittenSpecs(inputs) !! FieldSpecs(structs) + LastSpecs(inputs)
      modifies world, structs.Values
      ensures !ok ==> !Signed(this, structs)
      ensures ok ==> AllOk(structs, world, {}) && Progress(structs, world) && Spares(structs, world, LastSpecs(inputs))
      ensures ok ==> Untouched(OverwrittenSpecs(inputs)) && forall t | t in LastSpecs(inputs) :: Settled(t, structs)
    {
      var left := set i | 0 <= i < |inputs| && IsLast(inputs, i);
      while left != {}
        invariant left <= set i | 0 <= i < |inputs| && IsLast(inputs, i)
        invariant AllOk(structs, world, {}) && Progress(structs, world) && Spares(structs, world, LastSpecs(inputs))
        invariant forall i | 0 <= i < |inputs| && IsLast(inputs, i) && i !in left :: Settled(inputs[i].spec, structs)
      {
        var i :| i in left;
        assert inputs[i].spec in LastSpecs(inputs);
        ok := inputs[i].spec.ResolveType(structs, world, {});
        if !ok {
          assert !Named(ParameterOf(this, i, structs));
          return;
        }
        left := left - {i};
      }
      ok := true;
    }

    /** A parameter as the signature has it: the tag it has now, by its name in signatures. */
    method SignParameter(i: nat, structs: Structs) returns (text: Option<string>)
      requires i < |inputs| && Untouched(OverwrittenSpecs(inputs))
      requires forall t | t in LastSpecs(inputs) :: Settled(t, structs)
      ensures text == if Named(ParameterOf(this, i, structs)) then Some(ParameterText(ParameterOf(this, i, structs)))
                      else None
    {
      TagWhenSigned(this, i, structs);
      var t := inputs[i].spec;
      var typeName := SignatureName(t.tag);
      if typeName.None? || t.dimension < 0 {
        return None;
      }
      return Some(typeName.value + Brackets(t.dimension));
    }

    method Sign(structs: Structs) returns (ok: bool)
      requires Untouched(OverwrittenSpecs(inputs)) && forall t | t in LastSpecs(inputs) :: Settled(t, structs)
      modifies this`signature
      ensures ok <==> Signed(this, structs)
      ensures ok ==> SaysEvent(signature, this, structs)
    {
      var text := "";
      for i := 0 to |inputs|
        invariant text == Joined(Parameters(this, i, structs))
        invariant forall k | 0 <= k < i :: Named(ParameterOf(this, k, structs))
      {
        var inputType := SignParameter(i, structs);
        if inputType.None? {
          return false;
        }
        text := text + (if i == 0 then "" else ",") + inputType.value;
        OneMoreParameter(this, i, structs);
      }
      signature := name.text + "(" + text + ")";
      EventReads(this, text, structs);
      return true;
    }
  }

  lemma EventReads(e: EventSpec, text: string, structs: Structs)
    requires Signed(e, structs) && text == Joined(Parameters(e, |e.inputs|, structs))
    ensures SaysEvent(e.name.text + "(" + text + ")", e, structs)
  {
    SignatureReads(e.name.text, Parameters(e, |e.inputs|, structs));
  }

  lemma OneMoreParameter(e: EventSpec, n: nat, structs: Structs)
    requires n < |e.inputs|
    ensures Joined(Parameters(e, n + 1, structs)) ==
            Joined(Parameters(e, n, structs)) + (if n == 0 then "" else ",") + ParameterText(ParameterOf(e, n, structs))
  {
    assert Parameters(e, n + 1, structs)[..n] == Parameters(e, n, structs);
  }

  /** The tags a signature is made of are those the parameters have when it is: settled, or by name alone. */
  lemma TagWhenSigned(e: EventSpec, i: nat, structs: Structs)
    requires i < |e.inputs| && Untouched(OverwrittenSpecs(e.inputs))
    requires forall t | t in LastSpecs(e.inputs) :: Settled(t, structs)
    ensures ParameterTag(e, i, structs) == e.inputs[i].spec.tag
  {
    assert e.inputs[i].spec in if IsLast(e.inputs, i) then LastSpecs(e.inputs) else OverwrittenSpecs(e.inputs);
  }

  /** A parameter that a later one of the same name overwrites keeps the tag of its own name; of the others
      those that name a struct are structs. */
  lemma ParameterTagIs(e: EventSpec, i: nat, structs: Structs)
    requires i < |e.inputs|
    ensures var t := e.inputs[i].spec;
            ParameterTag(e, i, structs) ==
            if t.declared == Unknown && t.name in structs && e.inputs[i].name !in LaterNames(e.inputs, i) then Struct
            else t.declared
  {
  }

  function LaterNames(inputs: seq<Field>, i: nat): set<Name>
    requires i < |inputs|
  {
    set j | i < j < |inputs| :: inputs[j].name
  }

  /** As many parameters, of the same tags and dimensions. */
  predicate SameParameters(e: EventSpec, e': EventSpec, structs: Structs) {
    && |e.inputs| == |e'.inputs|
    && forall i | 0 <= i < |e.inputs| :: ParameterOf(e, i, structs) == ParameterOf(e', i, structs)
  }

  lemma EqualLists(ps: seq<Parameter>, ps': seq<Parameter>)
    ensures ps == ps' <==> |ps| == |ps'| && forall i | 0 <= i < |ps| :: ps[i] == ps'[i]
  {
  }

  lemma ParametersAre(e: EventSpec, e': EventSpec, structs: Structs)
    ensures Parameters(e, |e.inputs|, structs) == Parameters(e', |e'.inputs|, structs)
            <==> SameParameters(e, e', structs)
  {
    EqualLists(Parameters(e, |e.inputs|, structs), Parameters(e', |e'.inputs|, structs));
  }

  /** Resolved events with plain names have the same signature - the string that filters match - exactly when
      they have the same name and as many parameters, of the same tags and dimensions. */
  lemma SameSignatureExactly(e: EventSpec, e': EventSpec, structs: Structs)
    requires SaysEvent(e.signature, e, structs) && SaysEvent(e'.signature, e', structs)
    requires PlainName(e.name.text) && PlainName(e'.name.text)
    ensures e.signature == e'.signature <==> e.name == e'.name && SameParameters(e, e', structs)
  {
    SignaturesTellEventsApart(e.signature, e.name.text, Parameters(e, |e.inputs|, structs),
                              e'.signature, e'.name.text, Parameters(e', |e'.inputs|, structs));
    ParametersAre(e, e', structs);
  }

  ghost predicate EventResolved(e: EventSpec, structs: Structs)
    reads e, LastSpecs(e.inputs)
  {
    && Signed(e, structs) && SaysEvent(e.signature, e, structs)
    && forall t | t in LastSpecs(e.inputs) :: Settled(t, structs)
  }

  lemma EventsThere(events: seq<EventSpec>)
    ensures forall e | e in events :: LastSpecs(e.inputs) <= AllLast(events)
    ensures forall e | e in events :: OverwrittenSpecs(e.inputs) <= AllOverwritten(events)
  {
  }

  /** The next event; those before stay resolved. */
  method ResolveEvent(structs: Structs, ghost events: seq<EventSpec>, ghost i: nat, e: EventSpec,
                      ghost world: set<TypeSpec>)
    returns (ok: bool)
    requires AllOk(structs, world, {}) && AllWellFormed(structs) && Separate(structs, [], events, world)
    requires Untouched(AllOverwritten(events)) && i < |events| && e == events[i]
    requires forall k | 0 <= k < i :: EventResolved(events[k], structs)
    modifies world, structs.Values, e`signature
    ensures ok <==> Signed(e, structs)
    ensures ok ==> AllOk(structs, world, {}) && Progress(structs, world) && Untouched(AllOverwritten(events))
    ensures ok ==> forall k | 0 <= k <= i :: EventResolved(events[k], structs)
  {
    EventsThere(events);
    assert LastSpecs(e.inputs) <= AllLast(events) && OverwrittenSpecs(e.inputs) <= AllOverwritten(events);
    ok := e.ResolveType(structs, world);
  }

  method ResolveEvents(structs: Structs, events: seq<EventSpec>, ghost world: set<TypeSpec>) returns (ok: bool)
    requires AllOk(structs, world, {}) && AllWellFormed(structs) && Separate(structs, [], events, world)
    requires Untouched(AllOverwritten(events))
    modifies world, structs.Values, events
    ensures ok <==> forall e | e in events :: Signed(e, structs)
    ensures ok ==> AllOk(structs, world, {}) && Progress(structs, world)
    ensures ok ==> forall e | e in events :: EventResolved(e, structs)
  {
    for i := 0 to |events|
      invariant AllOk(structs, world, {}) && Progress(structs, world) && Untouched(AllOverwritten(events))
      invariant forall k | 0 <= k < i :: EventResolved(events[k], structs)
    {
      ok := ResolveEvent(structs, events, i, events[i], world);
      if !ok {
        return;
      }
    }
    ok := true;
  }

  /** The record type has every field in order, at its predefined type: a struct stands in another
      only as the predefined struct type, so the types of cyclic structs are finite. */
  lemma {:induction false} FieldTypesAre(fields: seq<Field>, n: nat, structs: Structs, i: nat)
    requires i < n <= |fields|
    ensures |FieldTypes(fields, n, structs)| == n
    ensures FieldTypes(fields, n, structs)[i] == (fields[i].name, FinalType(fields[i].spec, structs))
    ensures var spec := fields[i].spec;
            && Core(FinalType(spec, structs)) ==
               Basic(if spec.declared == Unknown && spec.name in structs then Struct else spec.declared)
            && Depth(FinalType(spec, structs)) == if spec.dimension > 0 then spec.dimension else 0
  {
    SlicesAre(fields[i].spec.dimension, Basic(FinalTag(fields[i].spec, structs)));
    if i < n - 1 {
      FieldTypesAre(fields, n - 1, structs, i);
    } else if i > 0 {
      FieldTypesAre(fields, n - 1, structs, 0);
    }
  }
}
