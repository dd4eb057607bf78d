/**
 Resolved type specs of contract specifications, and the structural equality the service
 uses to compare the contracts of different networks.
 */
module SpecTypes {

  datatype ValueTag = TVoid | TInteger | TBoolean | TString | TBytes | TAddress

  /** A type name is a value type, a struct the specification defines, or unknown. A resolved
      struct carries its definition, so resolved types are trees. */
  datatype Kind = Unknown | Value(tag: ValueTag) | Struct(spec: StructSpec)

  datatype TypeSpec = TypeSpec(name: string, dimension: int, kind: Kind)

  datatype NameAndTypeSpec = NameAndTypeSpec(name: string, typ: TypeSpec, optional: bool)

  datatype Fields = Fields(byName: map<string, NameAndTypeSpec>)

  datatype StructSpec = StructSpec(name: string, fields: Fields)

  /** The constructor of a kind, without its contents. */
  predicate SameTypeId(a: Kind, b: Kind) {
    match a
    case Unknown => b.Unknown?
    case Value(tag) => b.Value? && b.tag == tag
    case Struct(_) => b.Struct?
  }

  predicate EqualsTypeSpec(a: TypeSpec, b: TypeSpec)
    decreases a
  {
    && a.dimension == b.dimension
    && SameTypeId(a.kind, b.kind)
    && match a.kind
       case Unknown => a.name == b.name
       case Struct(spec) => EqualsNameAndTypes(spec.fields, b.kind.spec.fields)
       case Value(_) => true
  }

  /** Equal sizes, and every key of the first in the second with an equal type. */
  predicate EqualsNameAndTypes(a: Fields, b: Fields)
    decreases a
  {
    && |a.byName| == |b.byName|
    && forall k | k in a.byName :: k in b.byName && EqualsTypeSpec(a.byName[k].typ, b.byName[k].typ)
  }

  // ----- what the equality sees

  /** A type without the names it may differ in: of structs, of value types, of parameters. */
  datatype Shape =
    | UnknownShape(dimension: int, name: string)
    | ValueShape(dimension: int, tag: ValueTag)
    | StructShape(dimension: int, fields: map<string, Shape>)

  function ShapeOf(t: TypeSpec): Shape
    decreases t
  {
    match t.kind
    case Unknown => UnknownShape(t.dimension, t.name)
    case Value(tag) => ValueShape(t.dimension, tag)
    case Struct(spec) => StructShape(t.dimension, ShapesOf(spec.fields))
  }

  function ShapesOf(f: Fields): map<string, Shape>
    decreases f
  {
    map k | k in f.byName :: ShapeOf(f.byName[k].typ)
  }

  /** Equal sizes turn the one-sided key check into equality of the key sets. */
  lemma SameKeys(a: map<string, NameAndTypeSpec>, b: map<string, NameAndTypeSpec>)
    requires |a| == |b| && forall k | k in a :: k in b
    ensures a.Keys == b.Keys
  {
    assert a.Keys <= b.Keys;
    SubsetOfSameSize(a.Keys, b.Keys);
  }

  lemma {:induction false} SubsetOfSameSize(a: set<string>, b: set<string>)
    requires a <= b && |a| == |b|
    ensures a == b
    decreases |a|
  {
    if a != {} {
      var x :| x in a;
      SubsetOfSameSize(a - {x}, b - {x});
      assert a == (a - {x}) + {x} && b == (b - {x}) + {x};
    }
  }

  /** Two types are equal exactly when their shapes are the same. */
  lemma {:induction false} EqualsIsSameShape(a: TypeSpec, b: TypeSpec)
    ensures EqualsTypeSpec(a, b) <==> ShapeOf(a) == ShapeOf(b)
    decreases a
  {
    if a.kind.Struct? && b.kind.Struct? {
      EqualsIsSameShapes(a.kind.spec.fields, b.kind.spec.fields);
    }
  }

  lemma {:induction false} EqualsIsSameShapes(a: Fields, b: Fields)
    ensures EqualsNameAndTypes(a, b) <==> ShapesOf(a) == ShapesOf(b)
    decreases a
  {
    forall k | k in a.byName && k in b.byName
      ensures EqualsTypeSpec(a.byName[k].typ, b.byName[k].typ) <==> ShapesOf(a)[k] == ShapesOf(b)[k]
    {
      EqualsIsSameShape(a.byName[k].typ, b.byName[k].typ);
    }
    if EqualsNameAndTypes(a, b) {
      SameKeys(a.byName, b.byName);
      assert ShapesOf(a) == ShapesOf(b);
    }
    if ShapesOf(a) == ShapesOf(b) {
      assert ShapesOf(a).Keys == a.byName.Keys && ShapesOf(b).Keys == b.byName.Keys;
      assert |a.byName| == |a.byName.Keys| && |b.byName| == |b.byName.Keys|;
    }
  }

  /** The equality of types is an equivalence relation, however deeply structs nest. */
  lemma TypeEqualityIsEquivalence(a: TypeSpec, b: TypeSpec, c: TypeSpec)
    ensures EqualsTypeSpec(a, a)
    ensures EqualsTypeSpec(a, b) ==> EqualsTypeSpec(b, a)
    ensures EqualsTypeSpec(a, b) && EqualsTypeSpec(b, c) ==> EqualsTypeSpec(a, c)
  {
    EqualsIsSameShape(a, a);
    EqualsIsSameShape(a, b);
    EqualsIsSameShape(b, a);
    EqualsIsSameShape(b, c);
    EqualsIsSameShape(a, c);
  }

  /** So is the equality of parameter lists: the check is one-sided, the relation is not. */
  lemma FieldEqualityIsEquivalence(a: Fields, b: Fields, c: Fields)
    ensures EqualsNameAndTypes(a, a)
    ensures EqualsNameAndTypes(a, b) ==> EqualsNameAndTypes(b, a)
    ensures EqualsNameAndTypes(a, b) && EqualsNameAndTypes(b, c) ==> EqualsNameAndTypes(a, c)
  {
    EqualsIsSameShapes(a, a);
    EqualsIsSameShapes(a, b);
    EqualsIsSameShapes(b, a);
    EqualsIsSameShapes(b, c);
    EqualsIsSameShapes(a, c);
  }
}
