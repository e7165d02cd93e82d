# SqlMapper core in Dafny

SqlMapper is a small micro-ORM: extension methods on a database connection that run SQL text
with a parameter object and map the result rows to dynamic objects or to instances of a type.
This project models its core and proves properties of the model:

- **the parameter binder** that `CreateParamGenerator` compiles. It binds the public properties
  whose names occur in the SQL text, ignoring case. Each becomes a parameter `@P`, or `@P_i` for
  element `i` of a batch. A null nullable property is either left out or sent as DBNull. A
  collection property is expanded into an IN list;
- **the IN-list expander** (`HandleEnumerableParam`). It adds one numbered parameter per element
  and rewrites the text, either replacing `@name` or replacing every `@token` through the
  `@([^ ]+)` regular expression;
- **the batch rewriter** for `Execute` over a collection of objects. It makes one suffixed copy
  of the text per element and splices the placeholders using running-offset arithmetic;
- **row mapping**. The compiled typed deserializer matches columns to properties ignoring case,
  creates `new T()` and assigns non-DBNull columns through a cast. `ConvertToDynamic` turns a
  row into an ExpandoObject;
- **the signature cache**. It is keyed by (SQL, result type, parameter type). `AddCache` is
  `TryAdd`;
- **the type predicates** of `Extensions.cs` that route a parameter;
- **the public entry points** `Execute`, `Query`, `Query<T>`, `QueryFirstOrDefault`,
  `QueryFirstOrDefault<T>` and `QuerySingleOrDefault<T>`.

Compiled lambdas are modelled by what they close over:
- `Binder`: the selected properties, plus the `ignoreNull` and batch index baked into it;
- `Deserializer`: the target type and the column-to-property assignments.

`Bind` and `Materialize` state what invoking them does. The parts that change state are
imperative:
- the `Command` object, whose text and parameter list the binder mutates;
- the `Cache` object, holding the dictionary as a map field;
- the loops of the expander, the batch rewriter, the deserializer, `ConvertToDynamic` and the
  reader loops.

Each of these is proved equal to a specification function, except `ConvertToDynamic`. Its
`ensures` states the resulting object directly: entry by entry, and the duplicate-name failure.

The properties are then proved about those functions. The driver is replaced by data: a command
is created with the SQL text; the result set (column names and rows) and the scalar are given as
parameters. The deserializer's casts are a given, possibly failing conversion
`conv: (Value, Ty) -> Option<Value>`; a failed cast is an InvalidCastException.
`Convert.ChangeType` is a given `changeType: (Value, Ty) -> Result<Value>` that may fail with
InvalidCast, Format or Overflow. An exception the source would throw is an `Err` carrying its kind.

Where a plain reading of the design and the code differ, the model follows the code:
- The anonymous IN list replaces every `@token` of the text, not only the first.
  `Binding.AnonymousInListReplacesEveryPlaceholder` shows this.
- `AddCache` is `TryAdd`. A second store for a present identity changes nothing, so a
  binder-only entry is never completed with a deserializer. `SignatureCache.FirstWriterWins`
  shows this.
- The batch rewriter splices placeholders in property declaration order, not in textual order,
  and corrupts the copy when the two differ. `Batch.OutOfOrderCorrupts` exhibits
  `VALUES(@I@Id_0Name_0)`.
- The binder cache key ignores `ignoreNull` and the batch index. An `Execute` after a `Query` on
  the same text and parameter type therefore reuses the query's null-ignoring binder.
  `SqlExtension.QueryThenExecuteIgnoresNulls` shows this.

## Model

| member | source | states |
|---|---|---|
| Values.RuntimeType | SqlMapper/Core/SqlExtension.Reader.cs:154 | `GetType()` is defined exactly for non-null values; no value has a `Nullable` runtime type; collections and records have collection and record types |
| Values.Default | SqlMapper/Core/SqlExtension.cs:68-72 | `default(T)` is null exactly for the reference types and `Nullable<U>` |
| Values.New | SqlMapper/Core/SqlExtension.Reader.cs:50-53 | `new T()` is a fresh instance of T: an empty list for `List<U>`, and for a record every declared property, in order, holding its type's default |
| Values.PropValueOfField | SqlMapper/Core/SqlExtension.Reader.cs:188 | an object has a value for every property of its runtime type, so `param.Property` can be read |
| Extensions.FirstOrDefault | SqlMapper/Helpers/Extensions.cs:42-52 | null for an empty sequence, otherwise the first element |
| Extensions.NullableTypes | SqlMapper/Helpers/Extensions.cs:7-10 | `IsNullable` holds iff the type is string or some `Nullable<U>` |
| Extensions.DecimalIsNotPrimitive | SqlMapper/Helpers/Extensions.cs:12-20 | decimal and `Nullable<U>` are not primitive-like; string is primitive-like and not enumerable |
| Extensions.EnumerablePrimitiveLooksAtFirstOnly | SqlMapper/Helpers/Extensions.cs:32-40 | two non-empty sequences with the same first element agree on `IsEnumerablePrimitive` |
| Extensions.EnumerablePrimitiveCases | SqlMapper/Helpers/Extensions.cs:32-40 | `IsEnumerablePrimitive` iff non-empty, with a non-null first element of primitive-like type |
| Extensions.ObjectEnumerableUnprimitiveCases | SqlMapper/Helpers/Extensions.cs:22-30 | false for non-collections and for a collection starting with a scalar; true for an empty collection, a null first element or a record first element |
| Text.ContainsImpliesIgnoreCase | SqlMapper/Core/SqlExtension.Reader.cs:127-128 | an ordinal occurrence is also a case-insensitive one |
| Text.IndexOfFrom | SqlMapper/Core/SqlExtension.Reader.cs:128 | the result is an occurrence at or after the start, with none before it; None means there is none at all |
| Text.IndexOfFindsContained | SqlMapper/Core/SqlExtension.Reader.cs:127-128 | `IndexOf` finds a position iff the text contains the key |
| Text.ReplaceAbsent | SqlMapper/Core/SqlExtension.Reader.cs:288 | `Replace` leaves a text without the pattern unchanged |
| Text.ReplaceCopiesPrefix | SqlMapper/Core/SqlExtension.Reader.cs:288 | a prefix in which no occurrence starts is copied unchanged |
| Text.ReplaceLeftmost | SqlMapper/Core/SqlExtension.Reader.cs:288 | `Replace` substitutes the leftmost occurrence and resumes after it |
| Text.RunLengthIsMaximal | SqlMapper/Core/SqlExtension.Reader.cs:292-293 | `[^ ]+` consumes a maximal run of non-space characters |
| Text.ReplaceParametersNoAt | SqlMapper/Core/SqlExtension.Reader.cs:284-293 | the regular expression changes nothing in a text without `@` |
| Text.ReplaceParametersCopiesPrefix | SqlMapper/Core/SqlExtension.Reader.cs:284-293 | a prefix without `@` is copied unchanged |
| Text.ReplaceParametersLeftmost | SqlMapper/Core/SqlExtension.Reader.cs:284-293 | the first `@token` is replaced as a whole, up to the next space, and the scan continues after it |
| Text.NatToString | SqlMapper/Core/SqlExtension.Reader.cs:273 | `index.ToString()` is a non-empty string of decimal digits without a leading zero |
| Text.NatToStringRoundTrip | SqlMapper/Core/SqlExtension.Reader.cs:273 | reading the digits back gives the number |
| Text.NatToStringInjective | SqlMapper/Core/SqlExtension.Reader.cs:273 | distinct indexes give distinct parameter-name suffixes |
| Binding.ParamNameInjective | SqlMapper/Core/SqlExtension.Reader.cs:212-216 | distinct properties get distinct parameter names, with or without a batch index |
| Binding.BoundFields | SqlMapper/Core/SqlExtension.Reader.cs:163-164 | a property is selected iff it is declared and its name occurs in the text, ignoring case |
| Binding.BoundFieldsAppend | SqlMapper/Core/SqlExtension.Reader.cs:163-164 | the selection keeps declaration order: a later-declared property is appended after those already selected, or dropped |
| Binding.CreateParamGenerator | SqlMapper/Core/SqlExtension.Reader.cs:152-251 | a collection type gets the IN-list binder; any other type gets a property binder over exactly the mentioned properties, with the given `ignoreNull` and index |
| Binding.HandleEnumerableSpec | SqlMapper/Core/SqlExtension.Reader.cs:253-279 | fails with InvalidOperation iff the sequence is empty or its first element is null or not primitive-like; otherwise appends `base0..base(n-1)` holding the elements in order and keeps the earlier parameters |
| Binding.ParamListOfTwo | SqlMapper/Core/SqlExtension.Reader.cs:281-288 | two elements give the list `(@param0,@param1)` |
| Binding.AnonymousInList | SqlMapper/Core/SqlExtension.Reader.cs:281-293 | with one placeholder, the placeholder becomes the IN list and the rest of the text is kept |
| Binding.AnonymousInListReplacesEveryPlaceholder | SqlMapper/Core/SqlExtension.Reader.cs:284-293 | two placeholders both become the same IN list |
| Binding.NamedInList | SqlMapper/Core/SqlExtension.Reader.cs:286-289 | the named case replaces `@name` with the list of `@name0..` |
| Binding.BindScalars | SqlMapper/Core/SqlExtension.Reader.cs:185-244 | binding scalar properties never fails, keeps the text and appends each property's parameters in declaration order |
| Binding.ScalarBindKeepsText | SqlMapper/Core/SqlExtension.Reader.cs:206-243 | a binder of scalar properties never changes the text |
| Binding.ParamsComeFromFields | SqlMapper/Core/SqlExtension.Reader.cs:185-244 | every added parameter is named after a selected property |
| Binding.FieldsAddTheirValues | SqlMapper/Core/SqlExtension.Reader.cs:221-243 | a non-nullable property, or a nullable one holding a value, adds its value; a null nullable one adds DBNull when nulls are not ignored |
| Binding.IgnoredNullAddsNothing | SqlMapper/Core/SqlExtension.Reader.cs:232-243 | under `ignoreNull`, a null nullable property adds no parameter under its name |
| Binding.OneParamPerField | SqlMapper/Core/SqlExtension.Reader.cs:221-243 | with nulls not ignored, each selected property adds exactly one parameter |
| Binding.HandleEnumerableParam | SqlMapper/Core/SqlExtension.Reader.cs:253-290 | the loop leaves the command as `HandleEnumerable` specifies, and untouched on failure |
| Binding.InvokeBinder | SqlMapper/Core/SqlExtension.Reader.cs:155-244 | invoking the compiled binder leaves the command in the state `Bind` specifies, or reports its exception |
| Deserialization.FindPropertyFrom | SqlMapper/Core/SqlExtension.Reader.cs:37 | `Array.Find` returns the first property whose lower-cased name equals the lower-cased column name, or none |
| Deserialization.MatchColumns | SqlMapper/Core/SqlExtension.Reader.cs:35-45 | each member is a column in range with its found property and type; members are in ascending column order |
| Deserialization.MatchedIffFound | SqlMapper/Core/SqlExtension.Reader.cs:35-45 | a column has a member iff some property matches it |
| Deserialization.CreateDeserializer | SqlMapper/Core/SqlExtension.Reader.cs:28-91 | throws Argument iff `new T()` cannot be compiled into the `object`-typed lambda; otherwise targets T, every member's column and property names match ignoring case, and a column is kept iff some property matches it |
| Deserialization.Materialize | SqlMapper/Core/SqlExtension.Reader.cs:50-86 | a non-record T yields a fresh `new T()`; a record T yields an object of that type |
| Deserialization.MaterializedIsInstance | SqlMapper/Core/SqlExtension.Reader.cs:50-86 | every object the compiled deserializer yields has runtime type T, so the `(TResult)obj` cast succeeds |
| Deserialization.AssignKeepsShape | SqlMapper/Core/SqlExtension.Reader.cs:63-83 | assignments keep the object's properties, names and types |
| Deserialization.UnassignedKeepsValue | SqlMapper/Core/SqlExtension.Reader.cs:63-83 | a property whose columns are all DBNull keeps its value |
| Deserialization.AssignedColumnWins | SqlMapper/Core/SqlExtension.Reader.cs:63-83 | a non-DBNull column is converted and stored unless a later column targets the same property |
| Deserialization.UnmatchedColumnsIgnored | SqlMapper/Core/SqlExtension.Reader.cs:35-45 | rows that agree on the matched columns give the same result |
| Deserialization.MemberOfColumn | SqlMapper/Core/SqlExtension.Reader.cs:35-45 | the only column matching property `k` compiles to a member for `k` with that property's type, and no later member targets `k` |
| Deserialization.MaterializeAssignsMatchedColumn | SqlMapper/Core/SqlExtension.Reader.cs:28-86 | the only column matching a property sets it to the converted value when not DBNull |
| Deserialization.MaterializeDefaultsUnassigned | SqlMapper/Core/SqlExtension.Reader.cs:28-86 | a property with no matching non-DBNull column keeps the value `new T()` left in it |
| Deserialization.Deserialize | SqlMapper/Core/SqlExtension.Reader.cs:63-86 | the member-by-member loop computes `Materialize`, including a cast failure or a missing column ordinal |
| Deserialization.ConvertToDynamic | SqlMapper/Core/SqlExtension.Reader.cs:15-26 | succeeds iff the column names are distinct (else DuplicateKey); entry i is column i's name with null for DBNull, otherwise its value |
| SignatureCache.IdentityEquals | SqlMapper/Core/SqlExtension.Cache.cs:22-33 | equal iff the other is an identity with the same three fields; false for null |
| SignatureCache.EqualIdentitiesHashEqual | SqlMapper/Core/SqlExtension.Cache.cs:35 | equal identities have equal hash codes |
| SignatureCache.Lookup | SqlMapper/Core/SqlExtension.Cache.cs:49-53 | `TryGetValue` finds an entry iff the key is present, and then returns that entry |
| SignatureCache.TryAdd | SqlMapper/Core/SqlExtension.Cache.cs:55-64 | the key is added with the given entry only when absent; other keys are unchanged |
| SignatureCache.FirstWriterWins | SqlMapper/Core/SqlExtension.Cache.cs:59-63 | a second add for the same identity changes nothing; halves are not merged |
| SignatureCache.AddNeverEvicts | SqlMapper/Core/SqlExtension.Cache.cs:47-64 | a lookup hit stays the same after any add |
| SignatureCache.AddKeepsDeserializersFit | SqlMapper/Core/SqlExtension.Cache.cs:55-64 | adding a binder-only entry or a deserializer compiled for the identity's result type keeps every cached deserializer fitting its identity |
| SignatureCache.Cache.constructor | SqlMapper/Core/SqlExtension.Cache.cs:47 | the dictionary starts empty |
| SignatureCache.Cache.GetCache | SqlMapper/Core/SqlExtension.Cache.cs:49-53 | returns the stored entry iff the identity is present |
| SignatureCache.Cache.AddCache | SqlMapper/Core/SqlExtension.Cache.cs:55-64 | the new dictionary is `TryAdd` of the old one |
| Generation.BinderIdentity | SqlMapper/Core/SqlExtension.Reader.cs:108 | the key is the given SQL, else the command text, with no result type and the parameter's runtime type |
| Generation.Generate | SqlMapper/Core/SqlExtension.Reader.cs:102-117 | a null parameter throws NullReference; entries are only ever added, and existing ones are unchanged |
| Generation.FreshIdentityCompiles | SqlMapper/Core/SqlExtension.Reader.cs:109-114 | on a miss, a binder compiled with this call's flags is invoked and stored |
| Generation.CachedBinderIgnoresFlags | SqlMapper/Core/SqlExtension.Reader.cs:108-116 | on a hit, the result does not depend on `ignoreNull` or the index, and the cache is unchanged |
| Generation.SecondCallReusesFirstBinder | SqlMapper/Core/SqlExtension.Reader.cs:108-116 | a second call with the same text and type binds with the first call's flags |
| Generation.GenerateKeepsCacheFitting | SqlMapper/Core/SqlExtension.Reader.cs:108-116 | every cached binder stays compiled for its identity's parameter type, and the binder used fits the parameter |
| Generation.GenerateKeepsDeserializersFit | SqlMapper/Core/SqlExtension.Reader.cs:113 | storing a binder leaves cached deserializers fitting |
| Generation.GetOrAddGenerator | SqlMapper/Core/SqlExtension.Reader.cs:109-114 | returns the cached binder, or compiles one and offers it to the cache |
| Generation.InvokeParamtersGenerator | SqlMapper/Core/SqlExtension.Reader.cs:102-117 | the command and the cache end as `Generate` specifies |
| Batch.PlaceholderKeys | SqlMapper/Core/SqlExtension.Reader.cs:124-127 | the keys are `@P` for exactly the properties whose `@P` occurs in the text, ignoring case |
| Batch.IndexOrMinusOne | SqlMapper/Core/SqlExtension.Reader.cs:128 | the first ordinal occurrence, or -1 when there is none |
| Batch.Placeholders | SqlMapper/Core/SqlExtension.Reader.cs:124-128 | `ToDictionary` throws DuplicateKey iff a key repeats; otherwise the keys are the mentioned `@P` in order, each with `IndexOf`'s result: its first ordinal position, -1 when absent |
| Batch.Suffix | SqlMapper/Core/SqlExtension.Reader.cs:135-140 | the suffix is `_` followed by the index's digits |
| Batch.SpliceFrom | SqlMapper/Core/SqlExtension.Reader.cs:137-143 | the only exception the splices throw is ArgumentOutOfRange |
| Batch.RebuildEmptySuffix | SqlMapper/Core/SqlExtension.Reader.cs:134-143 | renaming in-order placeholders with an empty suffix gives the text back |
| Batch.RebuildLength | SqlMapper/Core/SqlExtension.Reader.cs:135-143 | a copy is longer than the text by one suffix per placeholder |
| Batch.CopyRebuilds | SqlMapper/Core/SqlExtension.Reader.cs:134-143 | with in-order, located placeholders, the running-offset splices equal renaming each placeholder at its first occurrence |
| Batch.OutOfOrderCorrupts | SqlMapper/Core/SqlExtension.Reader.cs:124-143 | for properties Name, Id in `VALUES(@Id,@Name)`, the first copy is `VALUES(@I@Id_0Name_0)` |
| Batch.MultipleExec | SqlMapper/Core/SqlExtension.Reader.cs:119-128 | an empty batch or a null first element throws NullReference and leaves the cache unchanged |
| Batch.PlaceholdersLocated | SqlMapper/Core/SqlExtension.Reader.cs:128 | each recorded position is an occurrence of its key |
| Batch.NullElementStopsBatch | SqlMapper/Core/SqlExtension.Reader.cs:132-145 | a null element throws NullReference |
| Batch.BatchFromScalar | SqlMapper/Core/SqlExtension.Reader.cs:132-149 | over same-typed objects with scalar properties and in-order placeholders, the remaining elements succeed and the text becomes the concatenated copies |
| Batch.CopiesDiffer | SqlMapper/Core/SqlExtension.Reader.cs:135-145 | once the text has a placeholder, different elements get different copies, so their binder identities differ |
| Batch.BindFreshScalarElement | SqlMapper/Core/SqlExtension.Reader.cs:145 | an element whose copy has no cached binder compiles one with `ignoreNull` false and its index, caches it under the copy, keeps the text and appends `@P_i` for each property the copy mentions, nulls as DBNull |
| Batch.ScalarParamsStep | SqlMapper/Core/SqlExtension.Reader.cs:132-146 | one element of such a batch on a cache without its copy: the batch continues from the same text with that element's parameters appended |
| Batch.ScalarStepUncached | SqlMapper/Core/SqlExtension.Reader.cs:145 | binding one copy leaves the later copies uncached |
| Batch.BatchFromScalarParams | SqlMapper/Core/SqlExtension.Reader.cs:132-146 | with none of the copies cached, the parameters sent are the elements' `@P_i` lists, element after element |
| Batch.BatchOfScalarRecords | SqlMapper/Core/SqlExtension.Reader.cs:119-150 | such a batch succeeds, and the final text is `copy_0;copy_1;...`; when no copy is cached, the parameters are each element's `@P_i` lists in element order, nulls as DBNull |
| Batch.BatchFromKeepsDeserializersFit | SqlMapper/Core/SqlExtension.Reader.cs:145 | a batch only stores binders |
| Batch.SpliceCopy | SqlMapper/Core/SqlExtension.Reader.cs:134-143 | the `offset * suffixLength` loop computes `Copy` |
| Batch.BatchElement | SqlMapper/Core/SqlExtension.Reader.cs:132-145 | one pass of the loop body: on success the rest of the batch from the next element gives the same outcome as `BatchFrom` from this one; on failure, that outcome is the exception |
| Batch.RunBatch | SqlMapper/Core/SqlExtension.Reader.cs:128-148 | the `foreach` over the elements and the final `CommandText` assignment end as `BatchFrom` from element 0 specifies |
| Batch.InvokeParamGeneratorsForMultipleExec | SqlMapper/Core/SqlExtension.Reader.cs:119-150 | the command and cache end as `MultipleExec` specifies |
| SqlExtension.ExecuteCommand | SqlMapper/Core/SqlExtension.cs:88-97 | a null parameter leaves the command text as given, with no parameters, and the cache unchanged |
| SqlExtension.Execute | SqlMapper/Core/SqlExtension.cs:82-101 | the command and cache end as `ExecuteCommand` routes: a batch, or one binding with nulls sent as DBNull |
| SqlExtension.ExecuteEmptyBatchFails | SqlMapper/Core/SqlExtension.cs:88-93 | an empty collection, or one whose first element is null, is routed to the batch and throws NullReference |
| SqlExtension.ExecuteSendsEveryMentionedProperty | SqlMapper/Core/SqlExtension.cs:94-97 | for a fresh identity and scalar properties, one parameter per mentioned property, with null nullable ones as DBNull, and the text unchanged |
| SqlExtension.QueryCommand | SqlMapper/Core/SqlExtension.cs:122-125 | without a parameter object, the text is unchanged, there are no parameters and the cache is untouched |
| SqlExtension.ReadDynamicRows | SqlMapper/Core/SqlExtension.cs:127-131 | one dynamic object per row; fails with DuplicateKey iff there is a row and the column names repeat |
| SqlExtension.Query | SqlMapper/Core/SqlExtension.cs:114-132 | binds ignoring nulls, then maps every row through `ConvertToDynamic` |
| SqlExtension.SingleRow | SqlMapper/Core/SqlExtension.cs:35-37 | the reader keeps its columns and, when there are rows, exactly the first one |
| SqlExtension.QueryFirstOrDefault | SqlMapper/Core/SqlExtension.cs:31-38 | the first row as a dynamic object, or null when there are no rows |
| SqlExtension.TypedIdentity | SqlMapper/Core/SqlExtension.cs:142 | the typed key is (SQL, T, runtime type of the parameter) |
| SqlExtension.TypedBinder | SqlMapper/Core/SqlExtension.cs:144-147 | there is a binder whenever there is a parameter object |
| SqlExtension.TypedCommand | SqlMapper/Core/SqlExtension.cs:145-149 | without a parameter object, the command is the bare text |
| SqlExtension.TypedEntries | SqlMapper/Core/SqlExtension.cs:152-157 | a typed query only adds entries, and existing ones are unchanged |
| SqlExtension.TypedQueryKeepsDeserializersFit | SqlMapper/Core/SqlExtension.cs:152-157 | the deserializer is obtained iff `new T()` compiles, and then is compiled for T; otherwise the failure is Argument; the cache stays consistent |
| SqlExtension.UnconstructibleQueryThrows | SqlMapper/Core/SqlExtension.cs:152-157 | for a T without a usable `new T()`, compiling the deserializer throws Argument before `AddCache`, so the cache is unchanged |
| SqlExtension.ReadRows | SqlMapper/Core/SqlExtension.cs:159-163 | each row is materialized in order; fails with the first failing row's exception iff some row fails |
| SqlExtension.MappedRowsAreInstances | SqlMapper/Core/SqlExtension.cs:159-163 | every object read is an instance of T, so the `(TResult)obj` cast succeeds |
| SqlExtension.BindTyped | SqlMapper/Core/SqlExtension.cs:144-149 | binds with the cached binder, or a fresh one ignoring nulls |
| SqlExtension.GetOrAddDeserializer | SqlMapper/Core/SqlExtension.cs:152-157 | returns the cached deserializer, or compiles one and offers it to the cache with the binder |
| SqlExtension.QueryTyped | SqlMapper/Core/SqlExtension.cs:134-164 | a bind failure leaves the cache unchanged; a T without a usable `new T()` throws Argument before any row is read; otherwise the cache is updated, and each row is mapped by the deserializer or the first failure is reported |
| SqlExtension.FirstTypedQueryCachesBoth | SqlMapper/Core/SqlExtension.cs:142-157 | on a miss, the deserializer for these columns and the null-ignoring binder are stored together |
| SqlExtension.LaterTypedQueryReusesFirst | SqlMapper/Core/SqlExtension.cs:142-157 | later queries reuse both halves whatever their columns, and the cache no longer changes |
| SqlExtension.TypedQueryIgnoresNulls | SqlMapper/Core/SqlExtension.cs:145-149 | for a fresh identity, the typed query binds the mentioned scalar properties ignoring nulls |
| SqlExtension.QueryThenExecuteIgnoresNulls | SqlMapper/Core/SqlExtension.Reader.cs:108-114 | an Execute after a Query with the same text and type ignores nulls |
| SqlExtension.QueryFirstOrDefaultTyped | SqlMapper/Core/SqlExtension.cs:40-46 | a T without a usable `new T()` throws Argument even when there are no rows; otherwise the first row materialized as T, or `default(T)` when there are no rows |
| SqlExtension.ScalarResult | SqlMapper/Core/SqlExtension.cs:68-79 | a failure happens only for a value that is neither null, DBNull nor an instance of T, and is `Convert.ChangeType`'s own exception |
| SqlExtension.ScalarResultHasRequestedType | SqlMapper/Core/SqlExtension.cs:68-79 | null and DBNull give `default(T)`; an instance of T is returned unchanged; failure happens iff the conversion fails, and then is InvalidCast, Format or Overflow; the result is `default(T)` or an instance of T |
| SqlExtension.QuerySingleOrDefault | SqlMapper/Core/SqlExtension.cs:56-80 | binds ignoring nulls, then maps the scalar as `ScalarResult` does |

## Left out

- Driver I/O is not modelled: opening connections, `ExecuteReader`, `ExecuteScalar`, `ExecuteNonQuery` and disposal. Result sets and scalars are parameters; the row count `Execute` returns is not modelled.
- Transactions are not modelled: the `trans` argument and SqlMapper/Core/TransactionalOperation.cs are not part of this model.
- The asynchronous API is not modelled. SqlMapper/Core/SqlExtension.Async.cs is not part of this model; its `ExecuteAsync` binds ignoring nulls and drops the transaction.
- Building expression trees and `Compile()` are not modelled: compiled lambdas are data (`Binder`, `Deserializer`). SqlMapper/Helpers/ReflectionInfos.cs is not part of this model.
- Reflection is an explicit ordered property list in `Ty.Record`, assumed to be in declaration order.
- `Dictionary` enumeration is assumed to follow insertion order, which holds for a dictionary that is never removed from.
- Casts and `Convert.ChangeType` are the `conv` and `changeType` parameters; which conversions succeed, and with which exception they fail, is not modelled.
- Culture-sensitive `ToLower` and `IndexOf` are modelled as ASCII case folding and ordinal search.
- `ConcurrentDictionary` thread-safety is not modelled: the cache is a sequential map, and the race between two threads compiling for the same identity is not modelled.
- `GetHashCode` is modelled as any function of the identity's three fields; the runtime's tuple hash is not modelled.
- The `lazy` flag and deferred enumeration are not modelled: results are read eagerly. With `lazy` the binding and caching would happen at first enumeration.
- Command behaviours other than `SingleRow` are not modelled. `SequentialAccess` only constrains how the driver reads columns.
- Values.New: a constructor body and property initializers are not modelled. A record's properties start at their types' defaults, and `List<U>`'s own properties (`Capacity`, `Count`) are not modelled.
- Values.New: read-only properties are not modelled. Every property of a record is assignable, so the Argument exception the source throws at SqlExtension.Reader.cs:76 for a matched property without a setter does not arise.
- Deserialization.MaterializeDefaultsUnassigned: the value kept is what `Values.New` gives, which is the type's default. In the source it is whatever the constructor and initializers set.
- Deserialization.CreateDeserializer: other reference types with a parameterless constructor are not modelled; the model's types are `object`, `List<U>`, records, string, DBNull and the value types.
- Properties whose names differ only by case are not modelled. `Expression.Property` resolves the name case-insensitively and may then be ambiguous; the model uses the first match.
- Batch.CopyRebuilds: the intended copy is defined by `Batch.Rebuild`. A separate statement that each placeholder appears renamed at its shifted position is not proved; its length and empty-suffix identity are proved instead.
- The driver's limit on the number of parameters in one command is not modelled.
