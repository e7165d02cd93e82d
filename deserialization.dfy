/**
 * Row mapping: the typed deserializer (CreateDeserializer) and the untyped one (ConvertToDynamic).
 * A compiled deserializer is modelled by what its lambda closes over: the target type and, for
 * each matched column in ordinal order, the property it is assigned to. The cast of a column
 * value to the property's type is the `conv` parameter, which may fail.
 */
module Deserialization {
  import opened Wrappers
  import opened Values
  import opened Text

  /** Column `column` is assigned to property number `prop`, whose declared type is `propTy`. */
  datatype Member = Member(column: nat, prop: nat, propTy: Ty)

  datatype Deserializer = Deserializer(target: Ty, members: seq<Member>)

  /** The untyped row: an ExpandoObject, its entries in insertion order. */
  type Expando = seq<(string, Value)>

  predicate NameMatches(column: string, f: Field) {
    LowerStr(f.name) == LowerStr(column)
  }

  function FindPropertyFrom(fields: seq<Field>, column: string, from: nat): (r: Option<nat>)
    requires from <= |fields|
    decreases |fields| - from
    ensures r.Some? ==> from <= r.value < |fields| && NameMatches(column, fields[r.value])
    ensures r.Some? ==> forall k :: from <= k < r.value ==> !NameMatches(column, fields[k])
    ensures r.None? ==> forall k :: from <= k < |fields| ==> !NameMatches(column, fields[k])
  {
    if from == |fields| then None
    else if NameMatches(column, fields[from]) then Some(from)
    else FindPropertyFrom(fields, column, from + 1)
  }

  /** `Array.Find`: the first property whose lower-cased name is the lower-cased column name. */
  function FindProperty(fields: seq<Field>, column: string): Option<nat> {
    FindPropertyFrom(fields, column, 0)
  }

  /** The LINQ query over the columns from `from` on: matched columns, in ordinal order. */
  function MatchColumns(columns: seq<string>, fields: seq<Field>, from: nat): (ms: seq<Member>)
    requires from <= |columns|
    decreases |columns| - from
    ensures forall m :: m in ms ==>
              from <= m.column < |columns| && FindProperty(fields, columns[m.column]) == Some(m.prop) &&
              m.prop < |fields| && m.propTy == fields[m.prop].ty
    ensures forall i, j :: 0 <= i < j < |ms| ==> ms[i].column < ms[j].column
  {
    if from == |columns| then []
    else
      var rest := MatchColumns(columns, fields, from + 1);
      match FindProperty(fields, columns[from])
      case None => rest
      case Some(k) =>
        var ms := [Member(from, k, fields[k].ty)] + rest;
        assert forall m :: m in ms <==> m == ms[0] || m in rest;
        ms
  }

  /** Every column some property matches is in the query, and only those. */
  lemma {:induction false} MatchedIffFound(columns: seq<string>, fields: seq<Field>, from: nat, c: nat)
    requires from <= c < |columns|
    ensures FindProperty(fields, columns[c]).Some? <==>
            exists m :: m in MatchColumns(columns, fields, from) && m.column == c
    decreases |columns| - from
  {
    var rest := MatchColumns(columns, fields, from + 1);
    if c == from {
      match FindProperty(fields, columns[from])
      case None =>
        assert forall m :: m in rest ==> m.column > from;
      case Some(k) =>
        assert MatchColumns(columns, fields, from)[0].column == c;
    } else {
      MatchedIffFound(columns, fields, from + 1, c);
      var r := FindProperty(fields, columns[from]);
      if r.Some? {
        assert MatchColumns(columns, fields, from) == [Member(from, r.value, fields[r.value].ty)] + rest;
      }
    }
  }

  /** Compiling a deserializer from the reader's column names and the target type. Compiling
      throws ArgumentException for a type `new T()` cannot build or the lambda cannot return. */
  function CreateDeserializer(columns: seq<string>, t: Ty): (r: Result<Deserializer>)
    ensures r.Err? <==> !Constructible(t)
    ensures r.Err? ==> r.error == Argument
    ensures r.Ok? ==> r.value.target == t && Compiled(r.value)
    ensures r.Ok? ==> forall m :: m in r.value.members ==>
              m.column < |columns| && m.prop < |PropertiesOf(t)| &&
              NameMatches(columns[m.column], PropertiesOf(t)[m.prop]) && m.propTy == PropertiesOf(t)[m.prop].ty
    ensures r.Ok? ==> forall c :: 0 <= c < |columns| ==>
              ((exists m :: m in r.value.members && m.column == c) <==>
               (exists k :: 0 <= k < |PropertiesOf(t)| && NameMatches(columns[c], PropertiesOf(t)[k])))
  {
    if !Constructible(t) then Err(Argument) else
    var fields := PropertiesOf(t);
    var ms := MatchColumns(columns, fields, 0);
    forall c | 0 <= c < |columns|
      ensures (exists m :: m in ms && m.column == c) <==>
              (exists k :: 0 <= k < |fields| && NameMatches(columns[c], fields[k]))
    {
      MatchedIffFound(columns, fields, 0, c);
      var r := FindProperty(fields, columns[c]);
      if r.Some? {
        assert NameMatches(columns[c], fields[r.value]);
      }
    }
    Ok(Deserializer(t, ms))
  }

  /** The deserializer was compiled for its target: the target can be constructed, and only
      properties it has are written. */
  predicate Compiled(d: Deserializer) {
    Constructible(d.target) &&
    forall m :: m in d.members ==> m.prop < |PropertiesOf(d.target)|
  }

  /** The assignments for `members`, in order, on the properties of the new object: a DBNull
      column is skipped and leaves the property as it is; reading an ordinal the row does not
      have throws. */
  function AssignFrom(props: seq<Prop>, members: seq<Member>, row: seq<Value>, conv: (Value, Ty) -> Option<Value>): Result<seq<Prop>>
    requires forall m :: m in members ==> m.prop < |props|
    decreases |members|
  {
    if |members| == 0 then Ok(props)
    else if members[0].column >= |row| then Err(IndexOutOfRange)
    else
      var m := members[0];
      var v := row[m.column];
      if v == DbNull then AssignFrom(props, members[1..], row, conv)
      else
        match conv(v, m.propTy)
        case None => Err(InvalidCast)
        case Some(x) => AssignFrom(props[m.prop := props[m.prop].(value := x)], members[1..], row, conv)
  }

  /** What invoking the compiled deserializer on one row yields: a fresh object. */
  function Materialize(d: Deserializer, row: seq<Value>, conv: (Value, Ty) -> Option<Value>): (r: Result<Value>)
    requires Compiled(d)
    ensures !d.target.Record? ==> r == Ok(New(d.target))
    ensures d.target.Record? && r.Ok? ==> r.value.RecordV? && r.value.typeName == d.target.name
  {
    var obj := New(d.target);
    if obj.RecordV? then
      match AssignFrom(obj.props, d.members, row, conv)
      case Err(e) => Err(e)
      case Ok(props) => Ok(RecordV(obj.typeName, props))
    else Ok(obj)
  }

  // ---------------------------------------------------------------------------------------------
  // Properties of the typed row mapping

  /** Assignments keep the object's shape: the same properties with the same names and types. */
  lemma {:induction false} AssignKeepsShape(props: seq<Prop>, members: seq<Member>, row: seq<Value>, conv: (Value, Ty) -> Option<Value>)
    requires forall m :: m in members ==> m.prop < |props|
    ensures AssignFrom(props, members, row, conv).Ok? ==>
              var r := AssignFrom(props, members, row, conv).value;
              |r| == |props| && forall k :: 0 <= k < |props| ==> r[k].name == props[k].name && r[k].ty == props[k].ty
    decreases |members|
  {
    if |members| > 0 && members[0].column < |row| {
      var m := members[0];
      assert m in members;
      assert forall m' :: m' in members[1..] ==> m' in members;
      if row[m.column] == DbNull {
        AssignKeepsShape(props, members[1..], row, conv);
      } else if conv(row[m.column], m.propTy).Some? {
        var x := conv(row[m.column], m.propTy).value;
        AssignKeepsShape(props[m.prop := props[m.prop].(value := x)], members[1..], row, conv);
      }
    }
  }

  /** Every object a deserializer yields is an instance of its target type, so the cast
      `(TResult)obj` of the reading loop never throws. */
  lemma MaterializedIsInstance(d: Deserializer, row: seq<Value>, conv: (Value, Ty) -> Option<Value>)
    requires Compiled(d)
    ensures var r := Materialize(d, row, conv);
            r.Ok? ==> RuntimeType(r.value) == Some(d.target)
  {
    var obj := New(d.target);
    if obj.RecordV? {
      AssignKeepsShape(obj.props, d.members, row, conv);
      var a := AssignFrom(obj.props, d.members, row, conv);
      if a.Ok? {
        assert FieldsOf(a.value) == FieldsOf(obj.props);
      }
    }
  }

  /** A property that no column with a non-DBNull value is assigned to keeps its value (the
      default of its type, in a new object). */
  lemma {:induction false} UnassignedKeepsValue(props: seq<Prop>, members: seq<Member>, row: seq<Value>, conv: (Value, Ty) -> Option<Value>, k: nat)
    requires forall m :: m in members ==> m.column < |row| && m.prop < |props|
    requires k < |props|
    requires forall m :: m in members && m.prop == k ==> row[m.column] == DbNull
    ensures AssignFrom(props, members, row, conv).Ok? ==>
              |AssignFrom(props, members, row, conv).value| == |props| &&
              AssignFrom(props, members, row, conv).value[k] == props[k]
    decreases |members|
  {
    AssignKeepsShape(props, members, row, conv);
    if |members| > 0 {
      var m := members[0];
      assert m in members;
      assert forall m' :: m' in members[1..] ==> m' in members;
      if row[m.column] == DbNull {
        UnassignedKeepsValue(props, members[1..], row, conv, k);
      } else if conv(row[m.column], m.propTy).Some? {
        var x := conv(row[m.column], m.propTy).value;
        assert m.prop != k;
        UnassignedKeepsValue(props[m.prop := props[m.prop].(value := x)], members[1..], row, conv, k);
      }
    }
  }

  /** A column with a value is converted and assigned to its property, unless a later column is
      assigned to the same property. */
  lemma {:induction false} AssignedColumnWins(props: seq<Prop>, members: seq<Member>, row: seq<Value>, conv: (Value, Ty) -> Option<Value>, j: nat)
    requires forall m :: m in members ==> m.column < |row| && m.prop < |props|
    requires j < |members| && row[members[j].column] != DbNull
    requires forall i :: j < i < |members| ==> members[i].prop != members[j].prop
    ensures AssignFrom(props, members, row, conv).Ok? ==>
              conv(row[members[j].column], members[j].propTy).Some? &&
              |AssignFrom(props, members, row, conv).value| == |props| &&
              AssignFrom(props, members, row, conv).value[members[j].prop].value
                == conv(row[members[j].column], members[j].propTy).value
    decreases |members|
  {
    AssignKeepsShape(props, members, row, conv);
    var m := members[0];
    assert m in members;
    assert forall m' :: m' in members[1..] ==> m' in members;
    if j == 0 {
      if conv(row[m.column], m.propTy).Some? {
        var x := conv(row[m.column], m.propTy).value;
        var next := props[m.prop := props[m.prop].(value := x)];
        assert forall i :: 0 <= i < |members[1..]| ==> members[1..][i].prop != m.prop;
        UnassignedKeepsValue(next, members[1..], row, conv, m.prop);
      }
    } else {
      forall i | j - 1 < i < |members[1..]| ensures members[1..][i].prop != members[1..][j - 1].prop {
        assert members[1..][i] == members[i + 1];
      }
      if row[m.column] == DbNull {
        AssignedColumnWins(props, members[1..], row, conv, j - 1);
      } else if conv(row[m.column], m.propTy).Some? {
        var x := conv(row[m.column], m.propTy).value;
        AssignedColumnWins(props[m.prop := props[m.prop].(value := x)], members[1..], row, conv, j - 1);
      }
    }
  }

  /** Columns that no property matched are never read: rows that agree on the matched columns
      give the same object. */
  lemma {:induction false} UnmatchedColumnsIgnored(props: seq<Prop>, members: seq<Member>, row1: seq<Value>, row2: seq<Value>, conv: (Value, Ty) -> Option<Value>)
    requires |row1| == |row2|
    requires forall m :: m in members ==> m.column < |row1| && m.prop < |props|
    requires forall m :: m in members ==> row1[m.column] == row2[m.column]
    ensures AssignFrom(props, members, row1, conv) == AssignFrom(props, members, row2, conv)
    decreases |members|
  {
    if |members| > 0 {
      var m := members[0];
      assert m in members;
      assert forall m' :: m' in members[1..] ==> m' in members;
      if row1[m.column] == DbNull {
        UnmatchedColumnsIgnored(props, members[1..], row1, row2, conv);
      } else if conv(row1[m.column], m.propTy).Some? {
        var x := conv(row1[m.column], m.propTy).value;
        UnmatchedColumnsIgnored(props[m.prop := props[m.prop].(value := x)], members[1..], row1, row2, conv);
      }
    }
  }

  /** The member compiled for column `c`, which no later member overrides. */
  lemma MemberOfColumn(columns: seq<string>, fields: seq<Field>, c: nat, k: nat)
    requires c < |columns| && FindProperty(fields, columns[c]) == Some(k)
    requires forall c' :: 0 <= c' < |columns| && c' != c ==> FindProperty(fields, columns[c']) != Some(k)
    ensures var ms := MatchColumns(columns, fields, 0);
            exists j :: 0 <= j < |ms| && ms[j] == Member(c, k, fields[k].ty) &&
                        forall i :: j < i < |ms| ==> ms[i].prop != k
  {
    var ms := MatchColumns(columns, fields, 0);
    MatchedIffFound(columns, fields, 0, c);
    var m :| m in ms && m.column == c;
    var j :| 0 <= j < |ms| && ms[j] == m;
    forall i | j < i < |ms| ensures ms[i].prop != k {
      assert ms[i] in ms;
      assert ms[i].column != c;
    }
  }

  /** On a row of the reader it was compiled against, a column whose name matches property `k`
      and holds a value sets that property to the converted value, provided no other column
      also matches it. */
  lemma MaterializeAssignsMatchedColumn(columns: seq<string>, t: Ty, row: seq<Value>, conv: (Value, Ty) -> Option<Value>, c: nat, k: nat)
    requires t.Record? && |row| == |columns| && c < |columns|
    requires FindProperty(t.fields, columns[c]) == Some(k) && row[c] != DbNull
    requires forall c' :: 0 <= c' < |columns| && c' != c ==> FindProperty(t.fields, columns[c']) != Some(k)
    ensures var r := Materialize(CreateDeserializer(columns, t).value, row, conv);
            k < |t.fields| &&
            (r.Ok? ==> conv(row[c], t.fields[k].ty).Some? && |r.value.props| == |t.fields| &&
                       r.value.props[k] == Prop(t.fields[k].name, t.fields[k].ty, conv(row[c], t.fields[k].ty).value))
  {
    var ms := MatchColumns(columns, t.fields, 0);
    assert CreateDeserializer(columns, t).value.members == ms;
    var props := New(t).props;
    MemberOfColumn(columns, t.fields, c, k);
    var j :| 0 <= j < |ms| && ms[j] == Member(c, k, t.fields[k].ty) && forall i :: j < i < |ms| ==> ms[i].prop != k;
    assert forall m' :: m' in ms ==> m'.column < |row| && m'.prop < |props|;
    AssignedColumnWins(props, ms, row, conv, j);
    AssignKeepsShape(props, ms, row, conv);
    var a := AssignFrom(props, ms, row, conv);
    assert Materialize(CreateDeserializer(columns, t).value, row, conv) ==
           (if a.Ok? then Ok(RecordV(t.name, a.value)) else Err(a.error));
    if a.Ok? {
      assert a.value[k].name == t.fields[k].name && a.value[k].ty == t.fields[k].ty;
    }
  }

  /** A property that no column with a value is assigned to keeps the default of its type. */
  lemma MaterializeDefaultsUnassigned(columns: seq<string>, t: Ty, row: seq<Value>, conv: (Value, Ty) -> Option<Value>, k: nat)
    requires t.Record? && |row| == |columns| && k < |t.fields|
    requires forall c :: 0 <= c < |columns| && FindProperty(t.fields, columns[c]) == Some(k) ==> row[c] == DbNull
    ensures var r := Materialize(CreateDeserializer(columns, t).value, row, conv);
            r.Ok? ==> |r.value.props| == |t.fields| &&
                      r.value.props[k] == Prop(t.fields[k].name, t.fields[k].ty, Default(t.fields[k].ty))
  {
    var d := CreateDeserializer(columns, t).value;
    var obj := New(t);
    assert forall m :: m in d.members ==> m.column < |row| && m.prop < |obj.props|;
    UnassignedKeepsValue(obj.props, d.members, row, conv, k);
  }

  // ---------------------------------------------------------------------------------------------
  // The imperative operations

  /** Invoking a compiled deserializer: create the object, then assign the matched columns one
      by one, skipping DBNull. */
  method Deserialize(d: Deserializer, row: seq<Value>, conv: (Value, Ty) -> Option<Value>) returns (r: Result<Value>)
    requires Compiled(d)
    ensures r == Materialize(d, row, conv)
  {
    var obj := New(d.target);
    if !obj.RecordV? {
      return Ok(obj);
    }
    var props := obj.props;
    var k := 0;
    while k < |d.members|
      invariant 0 <= k <= |d.members|
      invariant |props| == |obj.props|
      invariant AssignFrom(props, d.members[k..], row, conv) == AssignFrom(obj.props, d.members, row, conv)
    {
      var m := d.members[k];
      assert m in d.members;
      assert d.members[k..][0] == m && d.members[k..][1..] == d.members[k + 1..];
      if m.column >= |row| {
        return Err(IndexOutOfRange);
      }
      var value := row[m.column];
      if value != DbNull {
        match conv(value, m.propTy)
        case None =>
          return Err(InvalidCast);
        case Some(x) =>
          props := props[m.prop := props[m.prop].(value := x)];
      }
      k := k + 1;
    }
    r := Ok(RecordV(obj.typeName, props));
  }

  predicate DistinctNames(columns: seq<string>) {
    forall i, j :: 0 <= i < j < |columns| ==> columns[i] != columns[j]
  }

  /** ConvertToDynamic: one entry per column, in ordinal order, null for DBNull; adding a column
      name a second time throws. */
  method ConvertToDynamic(columns: seq<string>, row: seq<Value>) returns (r: Result<Expando>)
    requires |row| == |columns|
    ensures r.Ok? <==> DistinctNames(columns)
    ensures r.Err? ==> r.error == DuplicateKey
    ensures r.Ok? ==> |r.value| == |columns|
    ensures r.Ok? ==> forall i :: 0 <= i < |columns| ==>
              r.value[i] == (columns[i], if row[i] == DbNull then Null else row[i])
  {
    var entries: Expando := [];
    var keys: set<string> := {};
    var i := 0;
    while i < |columns|
      invariant 0 <= i <= |columns|
      invariant |entries| == i
      invariant DistinctNames(columns[..i])
      invariant keys == set j | 0 <= j < i :: columns[j]
      invariant forall j :: 0 <= j < i ==> entries[j] == (columns[j], if row[j] == DbNull then Null else row[j])
    {
      if columns[i] in keys {
        var j :| 0 <= j < i && columns[j] == columns[i];
        return Err(DuplicateKey);
      }
      entries := entries + [(columns[i], if row[i] == DbNull then Null else row[i])];
      keys := keys + {columns[i]};
      i := i + 1;
    }
    assert columns[..i] == columns;
    r := Ok(entries);
  }
}
