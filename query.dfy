/**
 * The public entry points: Execute, Query, Query<T>, QueryFirstOrDefault, QuerySingleOrDefault.
 * The driver is replaced by data: a command is created with the SQL text, the mapper fills in
 * its text and parameters, and what the driver answers (the result set, the scalar) is given as
 * a parameter. Each method returns the command as it would be sent together with the mapped
 * result.
 */
module SqlExtension {
  import opened Wrappers
  import opened Values
  import opened Extensions
  import opened Commands
  import opened Binding
  import opened Deserialization
  import opened SignatureCache
  import opened Generation
  import opened Batch

  /** A result set: the column names and the rows, each with one value per column. */
  datatype Reader = Reader(columns: seq<string>, rows: seq<seq<Value>>)

  predicate Rectangular(reader: Reader) {
    forall i :: 0 <= i < |reader.rows| ==> |reader.rows[i]| == |reader.columns|
  }

  // ---------------------------------------------------------------------------------------------
  // Execute

  /** Execute: no parameter object leaves the command as it is; a collection of non-primitive
      values is a batch; anything else is bound adding DBNull for null values. */
  function ExecuteCommand(entries: map<Identity, Entry>, sql: string, param: Value): (g: Generated)
    ensures param == Null ==> g == Generated(Ok(CommandState(sql, [])), entries)
  {
    var st := CommandState(sql, []);
    if param == Null then Generated(Ok(st), entries)
    else if IsObjectEnumerableUnprimitive(param) then MultipleExec(entries, st, param.items)
    else Generate(entries, st, param, None, false, None)
  }

  method Execute(cache: Cache, sql: string, param: Value) returns (r: Result<CommandState>)
    modifies cache
    ensures var g := ExecuteCommand(old(cache.entries), sql, param);
            cache.entries == g.entries && r == g.result
  {
    var command := new Command(sql);
    if param != Null {
      if IsObjectEnumerableUnprimitive(param) {
        var o := InvokeParamGeneratorsForMultipleExec(cache, command, param.items);
        if o.Fail? {
          return Err(o.error);
        }
      } else {
        var o := InvokeParamtersGenerator(cache, command, param, None, false, None);
        if o.Fail? {
          return Err(o.error);
        }
      }
    }
    r := Ok(command.State());
  }

  /** An empty collection, or one whose first element is null, is taken for a batch and fails. */
  lemma ExecuteEmptyBatchFails(entries: map<Identity, Entry>, sql: string, param: Value)
    requires param.ListV? && (|param.items| == 0 || param.items[0] == Null)
    ensures ExecuteCommand(entries, sql, param) == Generated(Err(NullReference), entries)
  {
  }

  /** An object with scalar properties, on a text not bound before: one parameter per property
      the text mentions, a null nullable one sent as DBNull, and the text unchanged. */
  lemma {:induction false} ExecuteSendsEveryMentionedProperty(entries: map<Identity, Entry>, sql: string, param: Value)
    requires param.RecordV? && ScalarFields(PropertiesOf(RuntimeType(param).value))
    requires Identity(sql, None, RuntimeType(param)) !in entries
    ensures var fields := BoundFields(PropertiesOf(RuntimeType(param).value), sql);
            HasFields(param, fields) &&
            ExecuteCommand(entries, sql, param).result == Ok(CommandState(sql, AllFieldParams(fields, param, false, None))) &&
            |AllFieldParams(fields, param, false, None)| == |fields|
  {
    var t := RuntimeType(param).value;
    var fields := BoundFields(PropertiesOf(t), sql);
    assert ScalarFields(fields);
    assert HasFields(param, fields) by {
      forall f | f in fields ensures PropValue(PropsOf(param), f.name).Some? {
        PropValueOfField(param.props, f);
      }
    }
    assert !IsObjectEnumerableUnprimitive(param);
    FreshIdentityCompiles(entries, CommandState(sql, []), param, None, false, None);
    BindScalars(CommandState(sql, []), fields, param, false, None);
    assert [] + AllFieldParams(fields, param, false, None) == AllFieldParams(fields, param, false, None);
    OneParamPerField(fields, param, None);
  }

  // ---------------------------------------------------------------------------------------------
  // Query (dynamic rows)

  /** The command of Query, QueryFirstOrDefault and QuerySingleOrDefault: bound ignoring nulls. */
  function QueryCommand(entries: map<Identity, Entry>, sql: string, param: Value): (g: Generated)
    ensures param == Null ==> g == Generated(Ok(CommandState(sql, [])), entries)
  {
    if param == Null then Generated(Ok(CommandState(sql, [])), entries)
    else Generate(entries, CommandState(sql, []), param, None, true, None)
  }

  function DynamicValue(v: Value): Value {
    if v == DbNull then Null else v
  }

  /** Row i of the result is the dynamic object for reader row i. */
  predicate DynamicRows(columns: seq<string>, rows: seq<seq<Value>>, objs: seq<Expando>)
    requires forall i :: 0 <= i < |rows| ==> |rows[i]| == |columns|
  {
    |objs| == |rows| &&
    forall i :: 0 <= i < |rows| ==>
      |objs[i]| == |columns| &&
      forall j :: 0 <= j < |columns| ==> objs[i][j] == (columns[j], DynamicValue(rows[i][j]))
  }

  /** The `while (reader.Read())` loop of the untyped query. */
  method ReadDynamicRows(reader: Reader) returns (r: Result<seq<Expando>>)
    requires Rectangular(reader)
    ensures r.Ok? <==> |reader.rows| == 0 || DistinctNames(reader.columns)
    ensures r.Ok? ==> DynamicRows(reader.columns, reader.rows, r.value)
    ensures r.Err? ==> r.error == DuplicateKey
  {
    var objs: seq<Expando> := [];
    var i := 0;
    while i < |reader.rows|
      invariant 0 <= i <= |reader.rows|
      invariant i > 0 ==> DistinctNames(reader.columns)
      invariant DynamicRows(reader.columns, reader.rows[..i], objs)
    {
      var obj := ConvertToDynamic(reader.columns, reader.rows[i]);
      if obj.Err? {
        return Err(obj.error);
      }
      objs := objs + [obj.value];
      i := i + 1;
      assert reader.rows[..i] == reader.rows[..i - 1] + [reader.rows[i - 1]];
    }
    assert reader.rows[..i] == reader.rows;
    r := Ok(objs);
  }

  method Query(cache: Cache, sql: string, param: Value, reader: Reader) returns (r: Result<(CommandState, seq<Expando>)>)
    requires Rectangular(reader)
    modifies cache
    ensures var g := QueryCommand(old(cache.entries), sql, param);
            cache.entries == g.entries &&
            (g.result.Err? ==> r == Err(g.result.error)) &&
            (g.result.Ok? ==> (r.Ok? <==> |reader.rows| == 0 || DistinctNames(reader.columns))) &&
            (g.result.Ok? && r.Ok? ==> r.value.0 == g.result.value && DynamicRows(reader.columns, reader.rows, r.value.1)) &&
            (g.result.Ok? && r.Err? ==> r.error == DuplicateKey)
  {
    var command := new Command(sql);
    if param != Null {
      var o := InvokeParamtersGenerator(cache, command, param, None, true, None);
      if o.Fail? {
        return Err(o.error);
      }
    }
    var rows := ReadDynamicRows(reader);
    if rows.Err? {
      return Err(rows.error);
    }
    r := Ok((command.State(), rows.value));
  }

  /** The reader a first-row query reads from. `CommandBehavior.SingleRow` is only a hint to
      the driver, which may return more rows; cutting them off here changes nothing because
      FirstOrDefault stops after the first row. */
  function SingleRow(reader: Reader): (single: Reader)
    ensures Rectangular(reader) ==> Rectangular(single)
    ensures single.columns == reader.columns
    ensures |single.rows| == if |reader.rows| == 0 then 0 else 1
    ensures |reader.rows| > 0 ==> single.rows == [reader.rows[0]]
  {
    Reader(reader.columns, if |reader.rows| == 0 then [] else [reader.rows[0]])
  }

  /** QueryFirstOrDefault: the first row as a dynamic object, or null when there is none. */
  method QueryFirstOrDefault(cache: Cache, sql: string, param: Value, reader: Reader) returns (r: Result<(CommandState, Option<Expando>)>)
    requires Rectangular(reader)
    modifies cache
    ensures var g := QueryCommand(old(cache.entries), sql, param);
            cache.entries == g.entries &&
            (g.result.Err? ==> r == Err(g.result.error)) &&
            (g.result.Ok? && |reader.rows| == 0 ==> r == Ok((g.result.value, None))) &&
            (g.result.Ok? && |reader.rows| > 0 && !DistinctNames(reader.columns) ==> r == Err(DuplicateKey)) &&
            (g.result.Ok? && |reader.rows| > 0 && DistinctNames(reader.columns) ==>
               r.Ok? && r.value.0 == g.result.value && r.value.1.Some? && |r.value.1.value| == |reader.columns| &&
               forall j :: 0 <= j < |reader.columns| ==> r.value.1.value[j] == (reader.columns[j], DynamicValue(reader.rows[0][j])))
  {
    var single := SingleRow(reader);
    var result := Query(cache, sql, param, single);
    if result.Err? {
      return Err(result.error);
    }
    var objs := result.value.1;
    if |objs| == 0 {
      r := Ok((result.value.0, None));
    } else {
      assert single.rows[0] == reader.rows[0];
      r := Ok((result.value.0, Some(objs[0])));
    }
  }

  // ---------------------------------------------------------------------------------------------
  // Query<T>

  /** The identity a typed query caches under: the text, T and the parameter's runtime type. */
  function TypedIdentity(sql: string, t: Ty, param: Value): (id: Identity)
    ensures id.sql == sql && id.resultType == Some(t) && id.parametersType == RuntimeType(param)
  {
    Identity(sql, Some(t), RuntimeType(param))
  }

  /** The binder a typed query uses: the cached one, else, when there is a parameter object, one
      compiled for its runtime type that ignores nulls. */
  function TypedBinder(entries: map<Identity, Entry>, sql: string, t: Ty, param: Value): (b: Option<Binder>)
    ensures param != Null ==> b.Some?
    ensures b.None? ==> param == Null
  {
    var cached := Lookup(entries, TypedIdentity(sql, t, param));
    var generator := if cached.Some? then cached.value.generator else None;
    if param != Null && generator.None? then Some(CreateParamGenerator(RuntimeType(param).value, sql, true, None))
    else generator
  }

  /** The command of a typed query: parameters are bound only when there is a parameter object. */
  function TypedCommand(entries: map<Identity, Entry>, sql: string, t: Ty, param: Value): (c: Result<CommandState>)
    ensures param == Null ==> c == Ok(CommandState(sql, []))
  {
    var st := CommandState(sql, []);
    if param == Null then Ok(st) else Bind(TypedBinder(entries, sql, t, param).value, st, param)
  }

  /** The deserializer of a typed query: the cached one, else one compiled against this result
      set's column names, which may throw. */
  function TypedDeserializer(entries: map<Identity, Entry>, sql: string, t: Ty, param: Value, columns: seq<string>): Result<Deserializer>
  {
    var cached := Lookup(entries, TypedIdentity(sql, t, param));
    if cached.Some? && cached.value.deserializer.Some? then Ok(cached.value.deserializer.value)
    else CreateDeserializer(columns, t)
  }

  /** The cache after a typed query whose command was bound: a deserializer miss offers both
      halves to the cache, unless compiling the deserializer threw first. */
  function TypedEntries(entries: map<Identity, Entry>, sql: string, t: Ty, param: Value, columns: seq<string>): (r: map<Identity, Entry>)
    ensures entries.Keys <= r.Keys
    ensures forall k :: k in entries ==> r[k] == entries[k]
    ensures !Constructible(t) ==> r.Keys == entries.Keys
  {
    var id := TypedIdentity(sql, t, param);
    var cached := Lookup(entries, id);
    if cached.Some? && cached.value.deserializer.Some? then entries
    else match CreateDeserializer(columns, t)
      case Err(_) => entries
      case Ok(d) => TryAdd(entries, id, Entry(Some(d), TypedBinder(entries, sql, t, param)))
  }

  /** A typed query keeps every cached deserializer compiled for its identity's result type; it
      has a deserializer exactly when T can be constructed, and that one is compiled for T. */
  lemma TypedQueryKeepsDeserializersFit(entries: map<Identity, Entry>, sql: string, t: Ty, param: Value, columns: seq<string>)
    requires DeserializersFit(entries)
    ensures DeserializersFit(TypedEntries(entries, sql, t, param, columns))
    ensures var d := TypedDeserializer(entries, sql, t, param, columns);
            (d.Ok? <==> Constructible(t)) &&
            (d.Ok? ==> d.value.target == t && Compiled(d.value)) &&
            (d.Err? ==> d.error == Argument)
  {
    var id := TypedIdentity(sql, t, param);
    var d := CreateDeserializer(columns, t);
    if d.Ok? {
      AddKeepsDeserializersFit(entries, id, Entry(Some(d.value), TypedBinder(entries, sql, t, param)));
    }
  }

  /** Query<T> for a type the deserializer cannot be compiled for (a value type, string, DBNull)
      throws ArgumentException on every call and never stores anything for the identity. */
  lemma UnconstructibleQueryThrows(entries: map<Identity, Entry>, sql: string, t: Ty, param: Value, columns: seq<string>)
    requires DeserializersFit(entries) && !Constructible(t)
    ensures TypedDeserializer(entries, sql, t, param, columns) == Err(Argument)
    ensures TypedEntries(entries, sql, t, param, columns) == entries
  {
    TypedQueryKeepsDeserializersFit(entries, sql, t, param, columns);
  }

  /** Every object a typed query returns is an instance of T. */
  lemma {:induction false} MappedRowsAreInstances(d: Deserializer, rows: seq<seq<Value>>, conv: (Value, Ty) -> Option<Value>, objs: seq<Value>)
    requires Compiled(d) && MappedRows(d, rows, conv, objs)
    ensures forall i :: 0 <= i < |objs| ==> RuntimeType(objs[i]) == Some(d.target)
  {
    forall i | 0 <= i < |objs| ensures RuntimeType(objs[i]) == Some(d.target) {
      MaterializedIsInstance(d, rows[i], conv);
    }
  }

  /** Row i of the result is the object the deserializer materializes from reader row i. */
  predicate MappedRows(d: Deserializer, rows: seq<seq<Value>>, conv: (Value, Ty) -> Option<Value>, objs: seq<Value>)
    requires Compiled(d)
  {
    |objs| == |rows| && forall i :: 0 <= i < |rows| ==> Materialize(d, rows[i], conv) == Ok(objs[i])
  }

  /** Materializing stops at the first row that throws, with that row's exception. */
  predicate FailsAtRow(d: Deserializer, rows: seq<seq<Value>>, conv: (Value, Ty) -> Option<Value>, e: Failure)
    requires Compiled(d)
  {
    exists i :: 0 <= i < |rows| && Materialize(d, rows[i], conv) == Err(e) &&
      forall k :: 0 <= k < i ==> Materialize(d, rows[k], conv).Ok?
  }

  /** The `while (reader.Read())` loop of the typed query. */
  method ReadRows(d: Deserializer, rows: seq<seq<Value>>, conv: (Value, Ty) -> Option<Value>) returns (r: Result<seq<Value>>)
    requires Compiled(d)
    ensures r.Ok? <==> forall i :: 0 <= i < |rows| ==> Materialize(d, rows[i], conv).Ok?
    ensures r.Ok? ==> MappedRows(d, rows, conv, r.value)
    ensures r.Err? ==> FailsAtRow(d, rows, conv, r.error)
  {
    var objs: seq<Value> := [];
    var i := 0;
    while i < |rows|
      invariant 0 <= i <= |rows|
      invariant |objs| == i
      invariant forall k :: 0 <= k < i ==> Materialize(d, rows[k], conv) == Ok(objs[k])
    {
      var obj := Deserialize(d, rows[i], conv);
      if obj.Err? {
        return Err(obj.error);
      }
      objs := objs + [obj.value];
      i := i + 1;
    }
    r := Ok(objs);
  }

  /** Binding the typed query's command with the cached binder, or a fresh one ignoring nulls. */
  method BindTyped(command: Command, ghost entries: map<Identity, Entry>, cached: Option<Entry>, sql: string, t: Ty, param: Value)
    returns (o: Outcome, generator: Option<Binder>)
    requires cached == Lookup(entries, TypedIdentity(sql, t, param))
    requires command.State() == CommandState(sql, [])
    modifies command
    ensures generator == TypedBinder(entries, sql, t, param)
    ensures var c := TypedCommand(entries, sql, t, param);
            (c.Ok? ==> o == Pass && command.State() == c.value) &&
            (c.Err? ==> o == Fail(c.error))
  {
    generator := if cached.Some? then cached.value.generator else None;
    o := Pass;
    if param != Null {
      if generator.None? {
        generator := Some(CreateParamGenerator(RuntimeType(param).value, sql, true, None));
      }
      o := InvokeBinder(command, generator.value, param);
    }
  }

  /** The cached deserializer, or one compiled against this result set that is then offered to
      the cache together with the binder. */
  method GetOrAddDeserializer(cache: Cache, cached: Option<Entry>, sql: string, t: Ty, param: Value, columns: seq<string>, generator: Option<Binder>)
    returns (deserializer: Result<Deserializer>)
    requires cached == Lookup(cache.entries, TypedIdentity(sql, t, param))
    requires generator == TypedBinder(cache.entries, sql, t, param)
    modifies cache
    ensures deserializer == TypedDeserializer(old(cache.entries), sql, t, param, columns)
    ensures cache.entries == TypedEntries(old(cache.entries), sql, t, param, columns)
  {
    if cached.Some? && cached.value.deserializer.Some? {
      deserializer := Ok(cached.value.deserializer.value);
    } else {
      deserializer := CreateDeserializer(columns, t);
      if deserializer.Ok? {
        cache.AddCache(Identity(sql, Some(t), RuntimeType(param)), Some(deserializer.value), generator);
      }
    }
  }

  method QueryTyped(cache: Cache, sql: string, param: Value, t: Ty, reader: Reader, conv: (Value, Ty) -> Option<Value>)
    returns (r: Result<(CommandState, seq<Value>)>)
    requires DeserializersFit(cache.entries)
    modifies cache
    ensures DeserializersFit(cache.entries)
    ensures var c := TypedCommand(old(cache.entries), sql, t, param);
            var d := TypedDeserializer(old(cache.entries), sql, t, param, reader.columns);
            (d.Ok? ==> Compiled(d.value)) &&
            (c.Err? ==> r == Err(c.error) && cache.entries == old(cache.entries)) &&
            (c.Ok? ==> cache.entries == TypedEntries(old(cache.entries), sql, t, param, reader.columns)) &&
            (c.Ok? && d.Err? ==> r == Err(d.error)) &&
            (c.Ok? && d.Ok? && r.Ok? ==> r.value.0 == c.value && MappedRows(d.value, reader.rows, conv, r.value.1)) &&
            (c.Ok? && d.Ok? && r.Err? ==> FailsAtRow(d.value, reader.rows, conv, r.error))
  {
    TypedQueryKeepsDeserializersFit(cache.entries, sql, t, param, reader.columns);
    var command := new Command(sql);
    var cached := cache.GetCache(Identity(sql, Some(t), RuntimeType(param)));
    var o, paramsGenerator := BindTyped(command, cache.entries, cached, sql, t, param);
    if o.Fail? {
      return Err(o.error);
    }
    var deserializer := GetOrAddDeserializer(cache, cached, sql, t, param, reader.columns, paramsGenerator);
    if deserializer.Err? {
      return Err(deserializer.error);
    }
    var objs := ReadRows(deserializer.value, reader.rows, conv);
    if objs.Err? {
      return Err(objs.error);
    }
    r := Ok((command.State(), objs.value));
  }

  /** The first typed query on an identity caches both halves: the deserializer compiled against
      its columns and the binder compiled ignoring nulls. */
  lemma FirstTypedQueryCachesBoth(entries: map<Identity, Entry>, sql: string, t: Ty, param: Value, columns: seq<string>)
    requires param != Null && TypedIdentity(sql, t, param) !in entries
    ensures TypedDeserializer(entries, sql, t, param, columns) == CreateDeserializer(columns, t)
    ensures var d := CreateDeserializer(columns, t);
            TypedEntries(entries, sql, t, param, columns) ==
            if d.Err? then entries
            else entries[TypedIdentity(sql, t, param) :=
                           Entry(Some(d.value), Some(CreateParamGenerator(RuntimeType(param).value, sql, true, None)))]
  {
  }

  /** Later typed queries on the same text, T and parameter type reuse both cached halves: the
      deserializer compiled against the first result set's columns, whatever columns the later
      result set has, and the cache no longer changes. */
  lemma {:induction false} LaterTypedQueryReusesFirst(entries: map<Identity, Entry>, sql: string, t: Ty, param: Value, param2: Value,
                                                      columns: seq<string>, columns2: seq<string>)
    requires param != Null && RuntimeType(param2) == RuntimeType(param)
    requires TypedIdentity(sql, t, param) !in entries
    ensures var after := TypedEntries(entries, sql, t, param, columns);
            TypedDeserializer(after, sql, t, param2, columns2) == CreateDeserializer(columns, t) &&
            TypedBinder(after, sql, t, param2) == TypedBinder(entries, sql, t, param) &&
            TypedEntries(after, sql, t, param2, columns2) == after
  {
    FirstTypedQueryCachesBoth(entries, sql, t, param, columns);
    assert TypedIdentity(sql, t, param2) == TypedIdentity(sql, t, param);
  }

  /** An object with scalar properties, on an identity not seen before: the typed query sends one
      parameter per mentioned property except the null nullable ones, and leaves the text alone. */
  lemma {:induction false} TypedQueryIgnoresNulls(entries: map<Identity, Entry>, sql: string, t: Ty, param: Value)
    requires param.RecordV? && ScalarFields(PropertiesOf(RuntimeType(param).value))
    requires TypedIdentity(sql, t, param) !in entries
    ensures var fields := BoundFields(PropertiesOf(RuntimeType(param).value), sql);
            HasFields(param, fields) &&
            TypedCommand(entries, sql, t, param) == Ok(CommandState(sql, AllFieldParams(fields, param, true, None)))
  {
    var fields := BoundFields(PropertiesOf(RuntimeType(param).value), sql);
    assert ScalarFields(fields);
    assert HasFields(param, fields) by {
      forall f | f in fields ensures PropValue(PropsOf(param), f.name).Some? {
        PropValueOfField(param.props, f);
      }
    }
    BindScalars(CommandState(sql, []), fields, param, true, None);
    assert [] + AllFieldParams(fields, param, true, None) == AllFieldParams(fields, param, true, None);
  }

  /** The untyped query and Execute share the binder cache key, so an Execute after a query on
      the same text and parameter type ignores null properties like the query did, instead of
      sending them as DBNull. */
  lemma {:induction false} QueryThenExecuteIgnoresNulls(entries: map<Identity, Entry>, sql: string, param: Value)
    requires param.RecordV? && ScalarFields(PropertiesOf(RuntimeType(param).value))
    requires Identity(sql, None, RuntimeType(param)) !in entries
    ensures var fields := BoundFields(PropertiesOf(RuntimeType(param).value), sql);
            HasFields(param, fields) &&
            ExecuteCommand(QueryCommand(entries, sql, param).entries, sql, param).result ==
              Ok(CommandState(sql, AllFieldParams(fields, param, true, None)))
  {
    var st := CommandState(sql, []);
    var fields := BoundFields(PropertiesOf(RuntimeType(param).value), sql);
    assert ScalarFields(fields);
    assert HasFields(param, fields) by {
      forall f | f in fields ensures PropValue(PropsOf(param), f.name).Some? {
        PropValueOfField(param.props, f);
      }
    }
    assert !IsObjectEnumerableUnprimitive(param);
    SecondCallReusesFirstBinder(entries, st, param, true, None, st, param, false, None);
    BindScalars(st, fields, param, true, None);
    assert [] + AllFieldParams(fields, param, true, None) == AllFieldParams(fields, param, true, None);
  }

  /** QueryFirstOrDefault<T>: the first row as a T, or `default(T)` when there is none. */
  method QueryFirstOrDefaultTyped(cache: Cache, sql: string, param: Value, t: Ty, reader: Reader, conv: (Value, Ty) -> Option<Value>)
    returns (r: Result<(CommandState, Value)>)
    requires DeserializersFit(cache.entries)
    modifies cache
    ensures DeserializersFit(cache.entries)
    ensures var c := TypedCommand(old(cache.entries), sql, t, param);
            var d := TypedDeserializer(old(cache.entries), sql, t, param, reader.columns);
            (d.Ok? ==> Compiled(d.value)) &&
            (c.Err? ==> r == Err(c.error) && cache.entries == old(cache.entries)) &&
            (c.Ok? ==> cache.entries == TypedEntries(old(cache.entries), sql, t, param, reader.columns)) &&
            (c.Ok? && d.Err? ==> r == Err(d.error)) &&
            (c.Ok? && d.Ok? && |reader.rows| == 0 ==> r == Ok((c.value, Default(t)))) &&
            (c.Ok? && d.Ok? && |reader.rows| > 0 ==>
               match Materialize(d.value, reader.rows[0], conv)
               case Ok(obj) => r == Ok((c.value, obj))
               case Err(e) => r == Err(e))
  {
    var single := SingleRow(reader);
    var result := QueryTyped(cache, sql, param, t, single, conv);
    if result.Err? {
      return Err(result.error);
    }
    var objs := result.value.1;
    if |objs| == 0 {
      r := Ok((result.value.0, Default(t)));
    } else {
      r := Ok((result.value.0, objs[0]));
    }
  }

  // ---------------------------------------------------------------------------------------------
  // QuerySingleOrDefault<T>

  /** The exceptions `Convert.ChangeType` throws for a non-null value: no conversion between
      the types, a string that does not parse, a number out of the target's range. */
  predicate ChangeTypeFailure(e: Failure) {
    e == InvalidCast || e == Format || e == Overflow
  }

  /** The scalar as a T: null and DBNull give `default(T)`, an instance of T is returned as it
      is, anything else goes through `Convert.ChangeType`, which may throw. */
  function ScalarResult(res: Value, t: Ty, changeType: (Value, Ty) -> Result<Value>): (r: Result<Value>)
    ensures r.Err? ==> res != Null && res != DbNull && !IsInstanceOf(res, t) && r == changeType(res, t)
  {
    if res == Null || res == DbNull then Ok(Default(t))
    else if IsInstanceOf(res, t) then Ok(res)
    else changeType(res, t)
  }

  /** With a conversion that only produces instances of T and only throws what ChangeType
      throws, the result is `default(T)` or an instance of T; a missing scalar is never an error,
      an instance of T is never converted, and a failure is one of ChangeType's. */
  lemma ScalarResultHasRequestedType(res: Value, t: Ty, changeType: (Value, Ty) -> Result<Value>)
    requires forall v :: changeType(v, t).Ok? ==> IsInstanceOf(changeType(v, t).value, t)
    requires forall v :: changeType(v, t).Err? ==> ChangeTypeFailure(changeType(v, t).error)
    ensures var r := ScalarResult(res, t, changeType);
            (r.Ok? ==> r.value == Default(t) || IsInstanceOf(r.value, t)) &&
            (res == Null || res == DbNull || IsInstanceOf(res, t) ==> r.Ok?) &&
            (r.Err? <==> res != Null && res != DbNull && !IsInstanceOf(res, t) && changeType(res, t).Err?) &&
            (r.Err? ==> ChangeTypeFailure(r.error))
  {
  }

  method QuerySingleOrDefault(cache: Cache, sql: string, param: Value, t: Ty, scalar: Value, changeType: (Value, Ty) -> Result<Value>)
    returns (r: Result<(CommandState, Value)>)
    modifies cache
    ensures var g := QueryCommand(old(cache.entries), sql, param);
            cache.entries == g.entries &&
            (g.result.Err? ==> r == Err(g.result.error)) &&
            (g.result.Ok? ==> match ScalarResult(scalar, t, changeType)
                              case Ok(v) => r == Ok((g.result.value, v))
                              case Err(e) => r == Err(e))
  {
    var command := new Command(sql);
    if param != Null {
      var o := InvokeParamtersGenerator(cache, command, param, None, true, None);
      if o.Fail? {
        return Err(o.error);
      }
    }
    var res := scalar;
    if res == Null || res == DbNull {
      return Ok((command.State(), Default(t)));
    }
    if IsInstanceOf(res, t) {
      return Ok((command.State(), res));
    }
    var converted := changeType(res, t);
    if converted.Err? {
      return Err(converted.error);
    }
    r := Ok((command.State(), converted.value));
  }
}
