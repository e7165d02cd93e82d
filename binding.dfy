/**
 * The parameter binder (CreateParamGenerator) and the IN-list expander (HandleEnumerableParam).
 * The source compiles an expression tree into a lambda; the lambda's behaviour depends only on
 * the properties it selected and on the `ignoreNull` and `multiExecIndex` values baked into it,
 * so a compiled binder is modelled by exactly that data, and `Bind` is what invoking it does.
 */
module Binding {
  import opened Wrappers
  import opened Values
  import opened Extensions
  import opened Text
  import opened Commands

  datatype Binder =
    | EnumerableBinder
    | PropertyBinder(fields: seq<Field>, ignoreNull: bool, index: Option<nat>)

  /** `@P`, or `@P_i` for the i-th element of a batch. */
  function ParamName(prop: string, index: Option<nat>): string {
    if index.None? then "@" + prop else "@" + prop + "_" + NatToString(index.value)
  }

  lemma ParamNameInjective(a: string, b: string, index: Option<nat>)
    requires ParamName(a, index) == ParamName(b, index)
    ensures a == b
  {
    var sfx := if index.None? then "" else "_" + NatToString(index.value);
    assert ParamName(a, index) == "@" + a + sfx;
    assert ParamName(b, index) == "@" + b + sfx;
    assert a == ("@" + a + sfx)[1..1 + |a|];
    assert b == ("@" + b + sfx)[1..1 + |b|];
  }

  /** The properties whose name occurs, ignoring case, anywhere in the SQL text, in declaration order. */
  function BoundFields(fields: seq<Field>, sql: string): (bound: seq<Field>)
    ensures forall f :: f in bound <==> f in fields && ContainsIgnoreCase(sql, f.name)
    ensures |bound| <= |fields|
  {
    if |fields| == 0 then []
    else
      var rest := BoundFields(fields[1..], sql);
      assert forall f :: f in fields <==> f == fields[0] || f in fields[1..];
      if ContainsIgnoreCase(sql, fields[0].name) then [fields[0]] + rest else rest
  }

  /** Filtering keeps declaration order: a property declared after the others lands after the
      ones kept before it, or is dropped when the text does not mention it. */
  lemma {:induction false} BoundFieldsAppend(fields: seq<Field>, f: Field, sql: string)
    ensures BoundFields(fields + [f], sql)
         == BoundFields(fields, sql) + (if ContainsIgnoreCase(sql, f.name) then [f] else [])
  {
    if |fields| == 0 {
      assert fields + [f] == [f];
      assert BoundFields([f][1..], sql) == [];
    } else {
      assert (fields + [f])[1..] == fields[1..] + [f];
      BoundFieldsAppend(fields[1..], f, sql);
    }
  }

  /** What compiling a binder for runtime type `t` and text `sql` captures. */
  function CreateParamGenerator(t: Ty, sql: string, ignoreNull: bool, index: Option<nat>): (b: Binder)
    ensures IsEnumerable(t) <==> b == EnumerableBinder
    ensures b.PropertyBinder? ==> b.ignoreNull == ignoreNull && b.index == index
    ensures b.PropertyBinder? ==>
              forall f :: f in b.fields <==> f in PropertiesOf(t) && ContainsIgnoreCase(sql, f.name)
  {
    if IsEnumerable(t) then EnumerableBinder
    else PropertyBinder(BoundFields(PropertiesOf(t), sql), ignoreNull, index)
  }

  /** The expanded parameter names `base0`, `base1`, ... */
  function ExpandedNames(base: string, n: nat): seq<string> {
    seq(n, k requires 0 <= k < n => base + NatToString(k))
  }

  function ExpandedParams(base: string, items: seq<Value>): seq<Param> {
    seq(|items|, k requires 0 <= k < |items| => Param(base + NatToString(k), items[k]))
  }

  /** `(base0,base1,...)` */
  function InList(base: string, n: nat): string {
    "(" + Join(ExpandedNames(base, n), ",") + ")"
  }

  /** HandleEnumerableParam: one parameter per element, then the placeholder rewritten into an
      IN list; the anonymous case (no name) replaces every `@token` of the text. */
  function HandleEnumerable(st: CommandState, items: seq<Value>, name: Option<string>): Result<CommandState> {
    if !IsEnumerablePrimitive(items) then Err(InvalidOperation)
    else
      var base := "@" + name.GetOr("param");
      var list := InList(base, |items|);
      var text := if name.None? then ReplaceParameters(st.text, list) else Replace(st.text, base, list);
      Ok(CommandState(text, st.params + ExpandedParams(base, items)))
  }

  /** What one scalar property adds: a null nullable value adds nothing under `ignoreNull`, and a
      DBNull-valued parameter otherwise; every other value adds itself. */
  function FieldParams(f: Field, v: Value, ignoreNull: bool, index: Option<nat>): seq<Param> {
    var name := ParamName(f.name, index);
    if !IsNullable(f.ty) then [Param(name, v)]
    else if v == Null then (if ignoreNull then [] else [Param(name, DbNull)])
    else [Param(name, v)]
  }

  function BindField(st: CommandState, f: Field, param: Value, ignoreNull: bool, index: Option<nat>): Result<CommandState> {
    match PropValue(PropsOf(param), f.name)
    case None => Err(InvalidCast)
    case Some(v) =>
      if IsEnumerable(f.ty) then
        if v == Null then Err(NullReference)
        else if !v.ListV? then Err(InvalidCast)
        else HandleEnumerable(st, v.items, Some(f.name))
      else Ok(CommandState(st.text, st.params + FieldParams(f, v, ignoreNull, index)))
  }

  function BindFields(st: CommandState, fields: seq<Field>, param: Value, ignoreNull: bool, index: Option<nat>): Result<CommandState>
    decreases |fields|
  {
    if |fields| == 0 then Ok(st)
    else
      match BindField(st, fields[0], param, ignoreNull, index)
      case Err(e) => Err(e)
      case Ok(next) => BindFields(next, fields[1..], param, ignoreNull, index)
  }

  /** Invoking a compiled binder on a command and a parameter object. */
  function Bind(b: Binder, st: CommandState, param: Value): Result<CommandState> {
    match b
    case EnumerableBinder =>
      if param.ListV? then HandleEnumerable(st, param.items, None) else Err(InvalidCast)
    case PropertyBinder(fields, ignoreNull, index) => BindFields(st, fields, param, ignoreNull, index)
  }

  // ---------------------------------------------------------------------------------------------
  // Properties of the IN-list expander

  /** It fails, before adding anything, exactly when the first element is missing, null or not
      primitive-like; otherwise it appends base0..base(n-1) holding the elements in order. */
  lemma HandleEnumerableSpec(st: CommandState, items: seq<Value>, name: Option<string>)
    ensures HandleEnumerable(st, items, name).Err? <==>
              (|items| == 0 || items[0] == Null || !IsPrimitiveExtend(RuntimeType(items[0]).value))
    ensures HandleEnumerable(st, items, name).Err? ==> HandleEnumerable(st, items, name).error == InvalidOperation
    ensures HandleEnumerable(st, items, name).Ok? ==>
              var r := HandleEnumerable(st, items, name).value;
              |r.params| == |st.params| + |items| && r.params[..|st.params|] == st.params &&
              forall k :: 0 <= k < |items| ==>
                r.params[|st.params| + k] == Param("@" + name.GetOr("param") + NatToString(k), items[k])
  {
  }

  lemma ParamListOfTwo()
    ensures InList("@param", 2) == "(@param0,@param1)"
  {
    var ns := ExpandedNames("@param", 2);
    assert ns[0] == "@param" + NatToString(0) == "@param0";
    assert ns[1] == "@param" + NatToString(1) == "@param1";
    assert ns == ["@param0", "@param1"];
  }

  /** The anonymous case with one placeholder (QueryTest's `Name IN @Names`): the placeholder,
      up to the next space, becomes the IN list and the rest of the text is kept. */
  lemma {:induction false} AnonymousInList(before: string, token: string, after: string, st: CommandState, items: seq<Value>)
    requires '@' !in before && '@' !in after
    requires |token| > 0 && ' ' !in token
    requires |after| == 0 || after[0] == ' '
    requires IsEnumerablePrimitive(items)
    requires st.text == before + "@" + token + after
    ensures HandleEnumerable(st, items, None)
         == Ok(CommandState(before + InList("@param", |items|) + after, st.params + ExpandedParams("@param", items)))
  {
    var list := InList("@param", |items|);
    assert "@" + None.GetOr("param") == "@param";
    ReplaceParametersLeftmost(before, token, after, list);
    ReplaceParametersNoAt(after, list);
    assert ReplaceParameters(st.text, list) == before + list + after;
  }

  /** The anonymous case rewrites every placeholder, not only the first: two placeholders both
      become the same IN list. */
  lemma {:induction false} AnonymousInListReplacesEveryPlaceholder(
    before: string, t1: string, middle: string, t2: string, st: CommandState, items: seq<Value>)
    requires '@' !in before && '@' !in middle
    requires |t1| > 0 && ' ' !in t1 && |t2| > 0 && ' ' !in t2
    requires |middle| > 0 && middle[0] == ' '
    requires IsEnumerablePrimitive(items)
    requires st.text == before + "@" + t1 + middle + "@" + t2
    ensures HandleEnumerable(st, items, None).Ok?
    ensures HandleEnumerable(st, items, None).value.text
         == before + InList("@param", |items|) + middle + InList("@param", |items|)
  {
    var list := InList("@param", |items|);
    assert st.text == before + "@" + t1 + (middle + "@" + t2);
    ReplaceParametersLeftmost(before, t1, middle + "@" + t2, list);
    assert middle + "@" + t2 == middle + "@" + t2 + "";
    ReplaceParametersLeftmost(middle, t2, "", list);
    ReplaceParametersNoAt("", list);
    assert "@" + None.GetOr("param") == "@param";
    assert ReplaceParameters(st.text, list) == before + list + (middle + list);
  }

  /** The named case replaces every occurrence of `@name` (QueryTest's `Id IN @Ids`). */
  lemma {:induction false} NamedInList(before: string, name: string, after: string, st: CommandState, items: seq<Value>)
    requires forall i: nat :: i < |before| ==> !OccursAt(before + ("@" + name) + after, "@" + name, i)
    requires !Contains(after, "@" + name)
    requires IsEnumerablePrimitive(items)
    requires st.text == before + "@" + name + after
    ensures HandleEnumerable(st, items, Some(name))
         == Ok(CommandState(before + InList("@" + name, |items|) + after, st.params + ExpandedParams("@" + name, items)))
  {
    var list := InList("@" + name, |items|);
    assert before + "@" + name + after == before + ("@" + name) + after;
    ReplaceLeftmost(before, "@" + name, after, list);
    ReplaceAbsent(after, "@" + name, list);
  }

  // ---------------------------------------------------------------------------------------------
  // Properties of the scalar binder

  predicate ScalarFields(fields: seq<Field>) {
    forall f :: f in fields ==> !IsEnumerable(f.ty)
  }

  /** The object has every property the binder reads (it has the type the binder was compiled for). */
  predicate HasFields(param: Value, fields: seq<Field>) {
    forall f :: f in fields ==> PropValue(PropsOf(param), f.name).Some?
  }

  /** An object has every property its runtime type declares. */
  lemma HasFieldsOfType(param: Value, t: Ty, fields: seq<Field>)
    requires RuntimeType(param) == Some(t)
    requires forall f :: f in fields ==> f in PropertiesOf(t)
    ensures HasFields(param, fields)
  {
    forall f | f in fields ensures PropValue(PropsOf(param), f.name).Some? {
      PropValueOfField(param.props, f);
    }
  }

  function ValueOf(param: Value, f: Field): Value
    requires PropValue(PropsOf(param), f.name).Some?
  {
    PropValue(PropsOf(param), f.name).value
  }

  /** The parameters the scalar properties add, property after property. */
  function AllFieldParams(fields: seq<Field>, param: Value, ignoreNull: bool, index: Option<nat>): seq<Param>
    requires HasFields(param, fields)
  {
    if |fields| == 0 then []
    else FieldParams(fields[0], ValueOf(param, fields[0]), ignoreNull, index)
         + AllFieldParams(fields[1..], param, ignoreNull, index)
  }

  lemma BindScalarField(st: CommandState, f: Field, param: Value, ignoreNull: bool, index: Option<nat>)
    requires !IsEnumerable(f.ty) && PropValue(PropsOf(param), f.name).Some?
    ensures BindField(st, f, param, ignoreNull, index)
         == Ok(CommandState(st.text, st.params + FieldParams(f, ValueOf(param, f), ignoreNull, index)))
  {
  }

  lemma TailFields(fields: seq<Field>, param: Value)
    requires |fields| > 0 && HasFields(param, fields)
    ensures HasFields(param, fields[1..])
    ensures ScalarFields(fields) ==> ScalarFields(fields[1..])
  {
    assert forall g :: g in fields[1..] ==> g in fields;
  }

  /** Binding scalar properties never fails and never touches the text. */
  lemma {:induction false} BindScalars(st: CommandState, fields: seq<Field>, param: Value, ignoreNull: bool, index: Option<nat>)
    requires ScalarFields(fields) && HasFields(param, fields)
    ensures BindFields(st, fields, param, ignoreNull, index)
         == Ok(CommandState(st.text, st.params + AllFieldParams(fields, param, ignoreNull, index)))
    decreases |fields|
  {
    if |fields| == 0 {
      assert st.params + [] == st.params;
    } else {
      var f := fields[0];
      assert f in fields;
      var first := FieldParams(f, ValueOf(param, f), ignoreNull, index);
      var next := CommandState(st.text, st.params + first);
      BindScalarField(st, f, param, ignoreNull, index);
      assert BindFields(st, fields, param, ignoreNull, index) == BindFields(next, fields[1..], param, ignoreNull, index);
      TailFields(fields, param);
      BindScalars(next, fields[1..], param, ignoreNull, index);
      var rest := AllFieldParams(fields[1..], param, ignoreNull, index);
      assert st.params + first + rest == st.params + (first + rest);
    }
  }

  /** Scalar properties never touch the text, even when a property is missing. */
  lemma {:induction false} ScalarBindKeepsText(st: CommandState, fields: seq<Field>, param: Value, ignoreNull: bool, index: Option<nat>)
    requires ScalarFields(fields)
    ensures BindFields(st, fields, param, ignoreNull, index).Ok? ==> BindFields(st, fields, param, ignoreNull, index).value.text == st.text
    decreases |fields|
  {
    if |fields| > 0 {
      assert fields[0] in fields;
      assert forall g :: g in fields[1..] ==> g in fields;
      match BindField(st, fields[0], param, ignoreNull, index)
      case Err(_) =>
      case Ok(next) =>
        ScalarBindKeepsText(next, fields[1..], param, ignoreNull, index);
    }
  }

  /** Only the selected properties add parameters, under their own names. */
  lemma {:induction false} ParamsComeFromFields(fields: seq<Field>, param: Value, ignoreNull: bool, index: Option<nat>)
    requires HasFields(param, fields)
    ensures forall p :: p in AllFieldParams(fields, param, ignoreNull, index) ==>
              exists f :: f in fields && p.name == ParamName(f.name, index)
  {
    if |fields| > 0 {
      ParamsComeFromFields(fields[1..], param, ignoreNull, index);
      assert forall f :: f in fields[1..] ==> f in fields;
      assert fields[0] in fields;
    }
  }

  /** A non-nullable property, or a nullable one holding a value, adds its value; a null nullable
      property adds DBNull when nulls are not ignored. */
  lemma {:induction false} FieldsAddTheirValues(fields: seq<Field>, param: Value, ignoreNull: bool, index: Option<nat>)
    requires HasFields(param, fields)
    ensures forall f :: f in fields && (!IsNullable(f.ty) || ValueOf(param, f) != Null) ==>
              Param(ParamName(f.name, index), ValueOf(param, f)) in AllFieldParams(fields, param, ignoreNull, index)
    ensures forall f :: f in fields && IsNullable(f.ty) && ValueOf(param, f) == Null && !ignoreNull ==>
              Param(ParamName(f.name, index), DbNull) in AllFieldParams(fields, param, ignoreNull, index)
  {
    if |fields| > 0 {
      FieldsAddTheirValues(fields[1..], param, ignoreNull, index);
      assert forall f :: f in fields ==> f == fields[0] || f in fields[1..];
    }
  }

  /** Under `ignoreNull`, a null nullable property adds no parameter at all (property names are
      distinct, as in any CLR type). */
  lemma {:induction false} IgnoredNullAddsNothing(fields: seq<Field>, param: Value, index: Option<nat>, g: Field)
    requires HasFields(param, fields)
    requires forall i, j :: 0 <= i < j < |fields| ==> fields[i].name != fields[j].name
    requires g in fields && IsNullable(g.ty) && ValueOf(param, g) == Null
    ensures forall p :: p in AllFieldParams(fields, param, true, index) ==> p.name != ParamName(g.name, index)
  {
    if fields[0] == g {
      forall p | p in AllFieldParams(fields[1..], param, true, index)
        ensures p.name != ParamName(g.name, index)
      {
        ParamsComeFromFields(fields[1..], param, true, index);
        var f :| f in fields[1..] && p.name == ParamName(f.name, index);
        var j :| 0 <= j < |fields[1..]| && fields[1..][j] == f;
        assert fields[j + 1] == f;
        if p.name == ParamName(g.name, index) {
          ParamNameInjective(f.name, g.name, index);
        }
      }
    } else {
      assert g in fields[1..];
      forall i, j | 0 <= i < j < |fields[1..]| ensures fields[1..][i].name != fields[1..][j].name {
        assert fields[1..][i] == fields[i + 1] && fields[1..][j] == fields[j + 1];
      }
      IgnoredNullAddsNothing(fields[1..], param, index, g);
      var f0 := fields[0];
      forall p | p in FieldParams(f0, ValueOf(param, f0), true, index)
        ensures p.name != ParamName(g.name, index)
      {
        assert p.name == ParamName(f0.name, index);
        var k :| 0 <= k < |fields| && fields[k] == g;
        assert k > 0;
        if p.name == ParamName(g.name, index) {
          ParamNameInjective(f0.name, g.name, index);
        }
      }
    }
  }

  /** With nulls not ignored, every selected scalar property adds exactly one parameter. */
  lemma {:induction false} OneParamPerField(fields: seq<Field>, param: Value, index: Option<nat>)
    requires HasFields(param, fields)
    ensures |AllFieldParams(fields, param, false, index)| == |fields|
  {
    if |fields| > 0 {
      OneParamPerField(fields[1..], param, index);
    }
  }

  // ---------------------------------------------------------------------------------------------
  // The imperative operations: the expander's loop and the compiled binder's invocation

  method HandleEnumerableParam(cmd: Command, items: seq<Value>, name: Option<string>) returns (r: Outcome)
    modifies cmd
    ensures HandleEnumerable(old(cmd.State()), items, name).Ok? ==>
              r == Pass && cmd.State() == HandleEnumerable(old(cmd.State()), items, name).value
    ensures HandleEnumerable(old(cmd.State()), items, name).Err? ==>
              r == Fail(HandleEnumerable(old(cmd.State()), items, name).error) && cmd.State() == old(cmd.State())
  {
    if !IsEnumerablePrimitive(items) {
      return Fail(InvalidOperation);
    }
    var base := "@" + name.GetOr("param");
    var index := 0;
    var names: seq<string> := [];
    while index < |items|
      invariant 0 <= index <= |items|
      invariant names == ExpandedNames(base, index)
      invariant cmd.params == old(cmd.params) + ExpandedParams(base, items[..index])
      invariant cmd.text == old(cmd.text)
    {
      var paramName := base + NatToString(index);
      cmd.params := cmd.params + [Param(paramName, items[index])];
      names := names + [paramName];
      assert ExpandedParams(base, items[..index + 1]) == ExpandedParams(base, items[..index]) + [Param(paramName, items[index])];
      index := index + 1;
    }
    assert items[..index] == items;
    var list := "(" + Join(names, ",") + ")";
    if name.None? {
      cmd.text := ReplaceParameters(cmd.text, list);
    } else {
      cmd.text := Replace(cmd.text, base, list);
    }
    r := Pass;
  }

  method InvokeBinder(cmd: Command, b: Binder, param: Value) returns (r: Outcome)
    modifies cmd
    ensures Bind(b, old(cmd.State()), param).Ok? ==>
              r == Pass && cmd.State() == Bind(b, old(cmd.State()), param).value
    ensures Bind(b, old(cmd.State()), param).Err? ==> r == Fail(Bind(b, old(cmd.State()), param).error)
  {
    match b
    case EnumerableBinder =>
      if !param.ListV? {
        return Fail(InvalidCast);
      }
      r := HandleEnumerableParam(cmd, param.items, None);
    case PropertyBinder(fields, ignoreNull, index) =>
      var k := 0;
      while k < |fields|
        invariant 0 <= k <= |fields|
        invariant BindFields(cmd.State(), fields[k..], param, ignoreNull, index)
               == BindFields(old(cmd.State()), fields, param, ignoreNull, index)
      {
        var f := fields[k];
        assert fields[k..][0] == f && fields[k..][1..] == fields[k + 1..];
        ghost var pre := cmd.State();
        var v := PropValue(PropsOf(param), f.name);
        if v.None? {
          return Fail(InvalidCast);
        }
        if IsEnumerable(f.ty) {
          if v.value == Null {
            return Fail(NullReference);
          }
          if !v.value.ListV? {
            return Fail(InvalidCast);
          }
          var o := HandleEnumerableParam(cmd, v.value.items, Some(f.name));
          if o.Fail? {
            return o;
          }
          assert BindField(pre, f, param, ignoreNull, index) == Ok(cmd.State());
        } else {
          var paramName := ParamName(f.name, index);
          if !IsNullable(f.ty) {
            cmd.params := cmd.params + [Param(paramName, v.value)];
          } else if v.value == Null {
            if !ignoreNull {
              cmd.params := cmd.params + [Param(paramName, DbNull)];
            }
          } else {
            cmd.params := cmd.params + [Param(paramName, v.value)];
          }
          assert cmd.State() == CommandState(pre.text, pre.params + FieldParams(f, v.value, ignoreNull, index));
          assert BindField(pre, f, param, ignoreNull, index) == Ok(cmd.State());
        }
        k := k + 1;
      }
      r := Pass;
  }
}
