/**
 * The runtime types and values the mapper inspects. Reflection is replaced by explicit data:
 * a record type carries its public instance properties in declaration order, which is the order
 * `GetProperties` returns them in.
 */
module Values {
  import opened Wrappers

  datatype Ty =
    | Int | Bool | Str | Enum | DateTime | Decimal | Object | DbNullType
    | Nullable(underlying: Ty)
    | Collection(element: Ty)   // `List<U>`
    | Record(name: string, fields: seq<Field>)

  datatype Field = Field(name: string, ty: Ty)

  /** `Null` is the C# null reference, `DbNull` is `DBNull.Value`, the SQL NULL marker. */
  datatype Value =
    | Null
    | DbNull
    | IntV(i: int)
    | BoolV(b: bool)
    | StrV(s: string)
    | EnumV(ordinal: int)
    | DateTimeV(ticks: int)
    | DecimalV(units: int)
    | ObjectV                   // a plain `new object()`, which has no state
    | ListV(elementTy: Ty, items: seq<Value>)
    | RecordV(typeName: string, props: seq<Prop>)

  /** A property of an object: its name, declared type and current value. */
  datatype Prop = Prop(name: string, ty: Ty, value: Value)

  function FieldsOf(props: seq<Prop>): seq<Field> {
    seq(|props|, k requires 0 <= k < |props| => Field(props[k].name, props[k].ty))
  }

  /** `GetType()`: the runtime type of a non-null value. A boxed `Nullable<U>` holding a value
      has runtime type U, so no value has a `Nullable` runtime type. */
  function RuntimeType(v: Value): (t: Option<Ty>)
    ensures t.None? <==> v == Null
    ensures t.Some? ==> !t.value.Nullable?
    ensures v.ListV? <==> (t.Some? && t.value.Collection?)
    ensures v.RecordV? <==> (t.Some? && t.value.Record?)
  {
    match v
    case Null => None
    case DbNull => Some(DbNullType)
    case IntV(_) => Some(Int)
    case BoolV(_) => Some(Bool)
    case StrV(_) => Some(Str)
    case EnumV(_) => Some(Enum)
    case DateTimeV(_) => Some(DateTime)
    case DecimalV(_) => Some(Decimal)
    case ObjectV => Some(Object)
    case ListV(e, _) => Some(Collection(e))
    case RecordV(n, ps) => Some(Record(n, FieldsOf(ps)))
  }

  /** The public instance properties of a type; only record types have any in this model. */
  function PropertiesOf(t: Ty): seq<Field> {
    if t.Record? then t.fields else []
  }

  /** The properties of an object (none for a value that is not a record). */
  function PropsOf(v: Value): seq<Prop> {
    if v.RecordV? then v.props else []
  }

  /** `default(T)`: zero for the value types, null for reference types and `Nullable<U>`. */
  function Default(t: Ty): (v: Value)
    ensures v == Null <==> !(t in {Int, Bool, Enum, DateTime, Decimal})
  {
    match t
    case Int => IntV(0)
    case Bool => BoolV(false)
    case Enum => EnumV(0)
    case DateTime => DateTimeV(0)
    case Decimal => DecimalV(0)
    case _ => Null
  }

  /** The types the typed deserializer can be compiled for. `new T()` needs a public
      parameterless constructor, which string and DBNull lack, and the compiled lambda returns
      `object`, to which a value type (int, bool, an enum, DateTime, decimal, `U?`) is not
      reference-assignable; either way compiling throws ArgumentException. */
  predicate Constructible(t: Ty) {
    t == Object || t.Collection? || t.Record?
  }

  /** `new T()`: a fresh instance of T; a record's properties start at their types' defaults. */
  function New(t: Ty): (v: Value)
    requires Constructible(t)
    ensures RuntimeType(v) == Some(t)
    ensures t.Collection? ==> v.ListV? && v.items == []
    ensures t.Record? ==> v.RecordV? && |v.props| == |t.fields|
    ensures t.Record? ==> forall k :: 0 <= k < |t.fields| ==>
              v.props[k] == Prop(t.fields[k].name, t.fields[k].ty, Default(t.fields[k].ty))
  {
    if t.Record? then
      var v := RecordV(t.name, seq(|t.fields|, k requires 0 <= k < |t.fields| =>
                                     Prop(t.fields[k].name, t.fields[k].ty, Default(t.fields[k].ty))));
      assert FieldsOf(v.props) == t.fields;
      v
    else if t.Collection? then ListV(t.element, [])
    else ObjectV
  }

  /** The value of the first property named exactly `name`, if the object has one. */
  function PropValue(props: seq<Prop>, name: string): Option<Value> {
    if |props| == 0 then None
    else if props[0].name == name then Some(props[0].value)
    else PropValue(props[1..], name)
  }

  /** An object has a value for every property of its runtime type. */
  lemma {:induction false} PropValueOfField(props: seq<Prop>, f: Field)
    requires f in FieldsOf(props)
    ensures PropValue(props, f.name).Some?
  {
    var k :| 0 <= k < |props| && FieldsOf(props)[k] == f;
    if props[0].name != f.name {
      assert k > 0;
      assert FieldsOf(props[1..])[k - 1] == f;
      PropValueOfField(props[1..], f);
    }
  }

  /** C#'s `v is T` for a non-null value: exact runtime type, a `Nullable<T>` wrapping it, or object. */
  predicate IsInstanceOf(v: Value, t: Ty) {
    v != Null &&
    (RuntimeType(v) == Some(t) || t == Object || (t.Nullable? && RuntimeType(v) == Some(t.underlying)))
  }
}
