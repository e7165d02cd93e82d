/**
 * Invoking parameter binders on a command (InvokeParamtersGenerator) and the batch form of
 * Execute (InvokeParamGeneratorsForMultipleExec). The cache is keyed by the SQL text and the
 * parameter's runtime type only, so a binder compiled once is reused whatever `ignoreNull` and
 * batch index a later call asks for.
 */
module Generation {
  import opened Wrappers
  import opened Values
  import opened Extensions
  import opened Text
  import opened Commands
  import opened Binding
  import opened SignatureCache

  /** What a call leaves behind: the command (or the exception) and the cache. */
  datatype Generated = Generated(result: Result<CommandState>, entries: map<Identity, Entry>)

  /** The cache key of a binder: the given SQL, else the command's text, and the runtime type. */
  function BinderIdentity(text: string, param: Value, sql: Option<string>): (id: Identity)
    ensures id.resultType.None? && id.parametersType == RuntimeType(param)
    ensures sql.Some? ==> id.sql == sql.value
    ensures sql.None? ==> id.sql == text
  {
    Identity(sql.GetOr(text), None, RuntimeType(param))
  }

  /** The binder a call invokes: the cached one, or a fresh one that is then offered to the cache. */
  function ResolveBinder(entries: map<Identity, Entry>, id: Identity, t: Ty, ignoreNull: bool, index: Option<nat>): (Binder, map<Identity, Entry>)
  {
    var cached := Lookup(entries, id);
    if cached.Some? && cached.value.generator.Some? then (cached.value.generator.value, entries)
    else
      var b := CreateParamGenerator(t, id.sql, ignoreNull, index);
      (b, TryAdd(entries, id, Entry(None, Some(b))))
  }

  /** InvokeParamtersGenerator on a command in state `st`. */
  function Generate(entries: map<Identity, Entry>, st: CommandState, param: Value, sql: Option<string>, ignoreNull: bool, index: Option<nat>): (g: Generated)
    ensures param == Null ==> g == Generated(Err(NullReference), entries)
    ensures entries.Keys <= g.entries.Keys
    ensures forall k :: k in entries ==> g.entries[k] == entries[k]
  {
    if param == Null then Generated(Err(NullReference), entries)
    else
      var id := BinderIdentity(st.text, param, sql);
      var (b, m) := ResolveBinder(entries, id, RuntimeType(param).value, ignoreNull, index);
      Generated(Bind(b, st, param), m)
  }

  // ---------------------------------------------------------------------------------------------
  // Properties of binder resolution

  /** An identity seen for the first time gets a binder compiled with this call's flags, and the
      cache remembers it. */
  lemma FreshIdentityCompiles(entries: map<Identity, Entry>, st: CommandState, param: Value, sql: Option<string>, ignoreNull: bool, index: Option<nat>)
    requires param != Null && BinderIdentity(st.text, param, sql) !in entries
    ensures var id := BinderIdentity(st.text, param, sql);
            var b := CreateParamGenerator(RuntimeType(param).value, id.sql, ignoreNull, index);
            Generate(entries, st, param, sql, ignoreNull, index) == Generated(Bind(b, st, param), entries[id := Entry(None, Some(b))])
  {
  }

  /** Once an identity has a binder, the flags of later calls make no difference. */
  lemma CachedBinderIgnoresFlags(entries: map<Identity, Entry>, st: CommandState, param: Value, sql: Option<string>,
                                 ignoreNull1: bool, index1: Option<nat>, ignoreNull2: bool, index2: Option<nat>)
    requires param != Null
    requires var id := BinderIdentity(st.text, param, sql); id in entries && entries[id].generator.Some?
    ensures Generate(entries, st, param, sql, ignoreNull1, index1) == Generate(entries, st, param, sql, ignoreNull2, index2)
    ensures Generate(entries, st, param, sql, ignoreNull1, index1).entries == entries
  {
  }

  /** A second call with the same SQL and parameter type binds with the flags of the first one:
      a query (ignoring nulls) followed by an Execute (adding DBNull) on the same text and type
      still ignores nulls. */
  lemma {:induction false} SecondCallReusesFirstBinder(entries: map<Identity, Entry>, st: CommandState, param: Value, ignoreNull1: bool, index1: Option<nat>,
                                                       st2: CommandState, param2: Value, ignoreNull2: bool, index2: Option<nat>)
    requires param != Null && param2 != Null && RuntimeType(param2) == RuntimeType(param)
    requires st2.text == st.text
    requires BinderIdentity(st.text, param, None) !in entries
    ensures var first := Generate(entries, st, param, None, ignoreNull1, index1);
            var b := CreateParamGenerator(RuntimeType(param).value, st.text, ignoreNull1, index1);
            Generate(first.entries, st2, param2, None, ignoreNull2, index2) == Generated(Bind(b, st2, param2), first.entries)
  {
    FreshIdentityCompiles(entries, st, param, None, ignoreNull1, index1);
  }

  /** A binder fits a runtime type when it is what compiling for that type can produce. */
  predicate BinderFits(b: Binder, t: Ty) {
    (b.EnumerableBinder? <==> IsEnumerable(t)) &&
    (b.PropertyBinder? ==> forall f :: f in b.fields ==> f in PropertiesOf(t))
  }

  /** Every cached binder was compiled for the parameter type of its identity. */
  predicate CacheFits(entries: map<Identity, Entry>) {
    forall id :: id in entries && entries[id].generator.Some? ==>
      id.parametersType.Some? && BinderFits(entries[id].generator.value, id.parametersType.value)
  }

  /** Binder invocations keep the cache consistent, and only ever use a binder fitting the
      parameter's type. */
  lemma GenerateKeepsCacheFitting(entries: map<Identity, Entry>, st: CommandState, param: Value, sql: Option<string>, ignoreNull: bool, index: Option<nat>)
    requires CacheFits(entries) && param != Null
    ensures CacheFits(Generate(entries, st, param, sql, ignoreNull, index).entries)
    ensures var id := BinderIdentity(st.text, param, sql);
            var (b, _) := ResolveBinder(entries, id, RuntimeType(param).value, ignoreNull, index);
            BinderFits(b, RuntimeType(param).value)
  {
  }

  /** Binder invocations only ever add binder entries, so cached deserializers stay as they were. */
  lemma GenerateKeepsDeserializersFit(entries: map<Identity, Entry>, st: CommandState, param: Value, sql: Option<string>, ignoreNull: bool, index: Option<nat>)
    requires DeserializersFit(entries)
    ensures DeserializersFit(Generate(entries, st, param, sql, ignoreNull, index).entries)
  {
    if param != Null {
      var id := BinderIdentity(st.text, param, sql);
      var cached := Lookup(entries, id);
      if !(cached.Some? && cached.value.generator.Some?) {
        var b := CreateParamGenerator(RuntimeType(param).value, id.sql, ignoreNull, index);
        AddKeepsDeserializersFit(entries, id, Entry(None, Some(b)));
      }
    }
  }

  // ---------------------------------------------------------------------------------------------
  // The imperative operation

  /** The cached binder for an identity, or a fresh one that is then offered to the cache. */
  method GetOrAddGenerator(cache: Cache, id: Identity, t: Ty, ignoreNull: bool, index: Option<nat>) returns (generator: Binder)
    modifies cache
    ensures (generator, cache.entries) == ResolveBinder(old(cache.entries), id, t, ignoreNull, index)
  {
    var cached := cache.GetCache(id);
    if cached.Some? && cached.value.generator.Some? {
      generator := cached.value.generator.value;
    } else {
      generator := CreateParamGenerator(t, id.sql, ignoreNull, index);
      cache.AddCache(id, None, Some(generator));
    }
  }

  method InvokeParamtersGenerator(cache: Cache, cmd: Command, param: Value, sql: Option<string>, ignoreNull: bool, index: Option<nat>)
    returns (r: Outcome)
    modifies cache, cmd
    ensures var g := Generate(old(cache.entries), old(cmd.State()), param, sql, ignoreNull, index);
            cache.entries == g.entries &&
            (g.result.Ok? ==> r == Pass && cmd.State() == g.result.value) &&
            (g.result.Err? ==> r == Fail(g.result.error))
  {
    if param == Null {
      return Fail(NullReference);
    }
    var id := Identity(if sql.Some? then sql.value else cmd.text, None, RuntimeType(param));
    assert id == BinderIdentity(cmd.text, param, sql);
    var generator := GetOrAddGenerator(cache, id, RuntimeType(param).value, ignoreNull, index);
    r := InvokeBinder(cmd, generator, param);
  }
}
