/** The type-classification predicates that route a parameter (SqlMapper/Helpers/Extensions.cs). */
module Extensions {
  import opened Wrappers
  import opened Values

  /** A type that can hold null: string, or `Nullable<U>`. */
  predicate IsNullable(t: Ty) {
    t == Str || t.Nullable?
  }

  /** CLR primitives (int, bool), enums, string and DateTime; decimal is not a CLR primitive. */
  predicate IsPrimitiveExtend(t: Ty) {
    t == Int || t == Bool || t == Enum || t == Str || t == DateTime
  }

  /** Implements IEnumerable and is not string: the collection types. */
  predicate IsEnumerable(t: Ty) {
    t.Collection?
  }

  /** The first element an enumerator yields, or null for an empty sequence. */
  function FirstOrDefault(items: seq<Value>): (first: Value)
    ensures |items| == 0 ==> first == Null
    ensures |items| > 0 ==> first == items[0]
  {
    if |items| == 0 then Null else items[0]
  }

  /** Decided by the first element alone: it must exist, be non-null and have a primitive-like type. */
  predicate IsEnumerablePrimitive(items: seq<Value>) {
    var first := FirstOrDefault(items);
    first != Null && IsPrimitiveExtend(RuntimeType(first).value)
  }

  /** A collection that is not a collection of primitive-like values: a batch of parameter objects. */
  predicate IsObjectEnumerableUnprimitive(v: Value)
    requires v != Null
  {
    IsEnumerable(RuntimeType(v).value) && !IsEnumerablePrimitive(v.items)
  }

  lemma NullableTypes(t: Ty)
    ensures IsNullable(t) <==> (t == Str || exists u :: t == Nullable(u))
  {
    if t.Nullable? {
      assert t == Nullable(t.underlying);
    }
  }

  lemma DecimalIsNotPrimitive()
    ensures !IsPrimitiveExtend(Decimal)
    ensures forall u :: !IsPrimitiveExtend(Nullable(u))
    ensures IsPrimitiveExtend(Str) && !IsEnumerable(Str)
  {
  }

  /** Only the first element is ever looked at: sequences that agree on it agree on the predicate. */
  lemma EnumerablePrimitiveLooksAtFirstOnly(a: seq<Value>, b: seq<Value>)
    requires |a| > 0 && |b| > 0 && a[0] == b[0]
    ensures IsEnumerablePrimitive(a) == IsEnumerablePrimitive(b)
  {
  }

  lemma EnumerablePrimitiveCases(items: seq<Value>)
    ensures IsEnumerablePrimitive(items) <==>
              (|items| > 0 && items[0] != Null && IsPrimitiveExtend(RuntimeType(items[0]).value))
  {
  }

  /** Strings and scalars are never batches; an empty collection always is, whatever its declared
      element type; a collection whose first element is null is too. */
  lemma ObjectEnumerableUnprimitiveCases(v: Value)
    requires v != Null
    ensures !v.ListV? ==> !IsObjectEnumerableUnprimitive(v)
    ensures v.ListV? && |v.items| == 0 ==> IsObjectEnumerableUnprimitive(v)
    ensures v.ListV? && |v.items| > 0 && v.items[0] == Null ==> IsObjectEnumerableUnprimitive(v)
    ensures v.ListV? && |v.items| > 0 && v.items[0].RecordV? ==> IsObjectEnumerableUnprimitive(v)
    ensures v.ListV? && |v.items| > 0 && v.items[0].IntV? ==> !IsObjectEnumerableUnprimitive(v)
  {
  }
}
