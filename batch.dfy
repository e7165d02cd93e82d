/**
 * Execute with a collection of parameter objects. The text is copied once per element; in each
 * copy every placeholder `@P` whose position was recorded beforehand is renamed `@P_i` by
 * splicing at that position, shifted by the suffixes already inserted. The copies, each followed
 * by `;`, become the command text, and each element is bound against its own copy.
 */
module Batch {
  import opened Wrappers
  import opened Values
  import opened Extensions
  import opened Text
  import opened Commands
  import opened Binding
  import opened SignatureCache
  import opened Generation

  /** A dictionary entry: the placeholder `@P` and the position `IndexOf` found for it (-1 if none). */
  datatype Placeholder = Placeholder(key: string, pos: int)

  /** `@P` for each property whose placeholder occurs in the text up to case, in declaration order. */
  function PlaceholderKeys(fields: seq<Field>, text: string): (keys: seq<string>)
    ensures |keys| <= |fields|
    ensures forall k :: k in keys <==> exists f :: f in fields && k == "@" + f.name && ContainsIgnoreCase(text, "@" + f.name)
  {
    if |fields| == 0 then []
    else
      var rest := PlaceholderKeys(fields[1..], text);
      assert forall f :: f in fields <==> f == fields[0] || f in fields[1..];
      var key := "@" + fields[0].name;
      if ContainsIgnoreCase(text, key) then [key] + rest else rest
  }

  predicate DistinctKeys(keys: seq<string>) {
    forall i, j :: 0 <= i < j < |keys| ==> keys[i] != keys[j]
  }

  /** `text.IndexOf(key)`, with -1 for "not found". */
  function IndexOrMinusOne(text: string, key: string): (pos: int)
    ensures pos >= 0 ==> OccursAt(text, key, pos) && forall q :: 0 <= q < pos ==> !OccursAt(text, key, q)
    ensures pos < 0 ==> pos == -1 && !Contains(text, key)
  {
    IndexOfFindsContained(text, key);
    match IndexOf(text, key)
    case None => -1
    case Some(p) => p
  }

  /** The `ToDictionary` of placeholders and their first ordinal positions; a repeated key throws. */
  function Placeholders(fields: seq<Field>, text: string): (r: Result<seq<Placeholder>>)
    ensures r.Err? ==> r.error == DuplicateKey && !DistinctKeys(PlaceholderKeys(fields, text))
    ensures r.Ok? ==> DistinctKeys(PlaceholderKeys(fields, text)) && |r.value| == |PlaceholderKeys(fields, text)|
    ensures r.Ok? ==> forall k :: 0 <= k < |r.value| ==>
              r.value[k].key == PlaceholderKeys(fields, text)[k] &&
              r.value[k].pos == IndexOrMinusOne(text, r.value[k].key) &&
              (r.value[k].pos >= 0 <==> Contains(text, r.value[k].key)) &&
              (r.value[k].pos >= 0 ==> OccursAt(text, r.value[k].key, r.value[k].pos))
  {
    var keys := PlaceholderKeys(fields, text);
    if !DistinctKeys(keys) then Err(DuplicateKey)
    else
      Ok(seq(|keys|, k requires 0 <= k < |keys| => Placeholder(keys[k], IndexOrMinusOne(text, keys[k]))))
  }

  /** `_i`, the suffix of the i-th copy. */
  function Suffix(i: nat): (s: string)
    ensures |s| >= 2 && s[0] == '_'
  {
    "_" + NatToString(i)
  }

  /** The splices for placeholders k.. of one copy, the k-th one shifted by k suffix lengths;
      `Substring` throws when a shifted position falls outside the text. */
  function SpliceFrom(cur: string, ph: seq<Placeholder>, k: nat, suffix: string): (r: Result<string>)
    requires k <= |ph|
    decreases |ph| - k
    ensures r.Err? ==> r.error == ArgumentOutOfRange
  {
    if k == |ph| then Ok(cur)
    else
      var at := ph[k].pos + Shift(k, |suffix|);
      var end := at + |ph[k].key|;
      if at < 0 || end > |cur| then Err(ArgumentOutOfRange)
      else SpliceFrom(cur[..at] + ph[k].key + suffix + cur[end..], ph, k + 1, suffix)
  }

  /** The i-th copy of the text. */
  function Copy(text: string, ph: seq<Placeholder>, i: nat): Result<string> {
    SpliceFrom(text, ph, 0, Suffix(i))
  }

  // ---------------------------------------------------------------------------------------------
  // The intended copy, defined independently of the splice loop

  /** The recorded spans lie inside the text, in the order the dictionary lists them, without
      overlapping. */
  predicate Ordered(sql: string, ph: seq<Placeholder>) {
    (forall k :: 0 <= k < |ph| ==> 0 <= ph[k].pos && ph[k].pos + |ph[k].key| <= |sql|) &&
    (forall j, k :: 0 <= j < k < |ph| ==> ph[j].pos + |ph[j].key| <= ph[k].pos)
  }

  /** Every placeholder occurs where it was recorded. */
  predicate Located(sql: string, ph: seq<Placeholder>) {
    forall k :: 0 <= k < |ph| && 0 <= ph[k].pos ==> OccursAt(sql, ph[k].key, ph[k].pos)
  }

  predicate InOrder(sql: string, ph: seq<Placeholder>) {
    Ordered(sql, ph) && Located(sql, ph)
  }

  /** The text from position e on, with placeholders k.. renamed by appending `suffix`. */
  function RebuildFrom(sql: string, ph: seq<Placeholder>, k: nat, e: nat, suffix: string): (s: string)
    requires Ordered(sql, ph) && k <= |ph| && e <= |sql|
    requires k < |ph| ==> e <= ph[k].pos
    decreases |ph| - k
  {
    if k == |ph| then sql[e..]
    else
      var next := ph[k].pos + |ph[k].key|;
      sql[e..ph[k].pos] + ph[k].key + suffix + RebuildFrom(sql, ph, k + 1, next, suffix)
  }

  /** The text with each recorded placeholder renamed. */
  function Rebuild(sql: string, ph: seq<Placeholder>, suffix: string): string
    requires Ordered(sql, ph)
  {
    RebuildFrom(sql, ph, 0, 0, suffix)
  }

  /** Renaming with an empty suffix gives the text back. */
  lemma {:induction false} RebuildFromEmptySuffix(sql: string, ph: seq<Placeholder>, k: nat, e: nat)
    requires InOrder(sql, ph) && k <= |ph| && e <= |sql|
    requires k < |ph| ==> e <= ph[k].pos
    ensures RebuildFrom(sql, ph, k, e, "") == sql[e..]
    decreases |ph| - k
  {
    if k < |ph| {
      var p := ph[k].pos;
      var key := ph[k].key;
      var next := p + |key|;
      RebuildFromUnfold(sql, ph, k, e, "");
      RebuildFromEmptySuffix(sql, ph, k + 1, next);
      assert sql[e..p] + key + "" + sql[next..] == sql[e..] by {
        assert OccursAt(sql, key, p);
        SplitAtPlaceholder(sql, key, e, p);
      }
    }
  }

  lemma RebuildEmptySuffix(sql: string, ph: seq<Placeholder>)
    requires InOrder(sql, ph)
    ensures Rebuild(sql, ph, "") == sql
  {
    RebuildFromEmptySuffix(sql, ph, 0, 0);
  }

  /** How far the k-th splice position moves (`offset * suffixLength`): k suffixes have been
      inserted before it. Written as repeated addition, which is what the proofs need. */
  function Shift(k: nat, width: nat): nat {
    if k == 0 then 0 else Shift(k - 1, width) + width
  }

  lemma {:induction false} ShiftIsProduct(k: nat, width: nat)
    ensures Shift(k, width) == k * width
  {
    if k > 0 {
      ShiftIsProduct(k - 1, width);
    }
  }

  lemma ShiftStep(k: nat, width: nat)
    ensures Shift(k + 1, width) == Shift(k, width) + width
  {
  }

  /** The text from e on splits around a placeholder found at p. */
  lemma SplitAtPlaceholder(sql: string, key: string, e: nat, p: nat)
    requires e <= p && OccursAt(sql, key, p)
    ensures sql[e..] == sql[e..p] + key + sql[p + |key|..]
  {
    assert sql[p..p + |key|] == key;
  }

  /** One splice on a text made of a prefix, a gap, the placeholder and the rest. */
  lemma SpliceStep(pre: string, gap: string, key: string, rest: string, suffix: string)
    ensures var cur := pre + gap + key + rest;
            var at := |pre| + |gap|;
            at + |key| <= |cur| &&
            cur[..at] + key + suffix + cur[at + |key|..] == (pre + gap + key + suffix) + rest
  {
    var cur := pre + gap + key + rest;
    var at := |pre| + |gap|;
    assert cur[..at] == pre + gap;
    assert cur[at + |key|..] == rest;
  }

  lemma RebuildFromUnfold(sql: string, ph: seq<Placeholder>, k: nat, e: nat, suffix: string)
    requires Ordered(sql, ph) && k < |ph| && e <= ph[k].pos
    ensures ph[k].pos + |ph[k].key| <= |sql| && (k + 1 < |ph| ==> ph[k].pos + |ph[k].key| <= ph[k + 1].pos)
    ensures RebuildFrom(sql, ph, k, e, suffix) ==
            sql[e..ph[k].pos] + ph[k].key + suffix + RebuildFrom(sql, ph, k + 1, ph[k].pos + |ph[k].key|, suffix)
  {
  }

  /** Each placeholder gains exactly one suffix: the copy is longer by |ph| suffixes. */
  lemma {:induction false} RebuildFromLength(sql: string, ph: seq<Placeholder>, k: nat, e: nat, suffix: string)
    requires Ordered(sql, ph) && k <= |ph| && e <= |sql|
    requires k < |ph| ==> e <= ph[k].pos
    ensures |RebuildFrom(sql, ph, k, e, suffix)| == |sql| - e + Shift(|ph| - k, |suffix|)
    decreases |ph| - k
  {
    if k < |ph| {
      var next := ph[k].pos + |ph[k].key|;
      RebuildFromUnfold(sql, ph, k, e, suffix);
      RebuildFromLength(sql, ph, k + 1, next, suffix);
      ShiftStep(|ph| - (k + 1), |suffix|);
    }
  }

  lemma RebuildLength(sql: string, ph: seq<Placeholder>, suffix: string)
    requires Ordered(sql, ph)
    ensures |Rebuild(sql, ph, suffix)| == |sql| + |ph| * |suffix|
  {
    RebuildFromLength(sql, ph, 0, 0, suffix);
    ShiftIsProduct(|ph|, |suffix|);
  }

  /** One step of the splice loop on a text whose first e characters have been dealt with. */
  lemma SpliceFromStep(sql: string, ph: seq<Placeholder>, k: nat, e: nat, suffix: string, pre: string)
    requires InOrder(sql, ph) && k < |ph| && e <= ph[k].pos
    requires |pre| == e + Shift(k, |suffix|)
    ensures var next := ph[k].pos + |ph[k].key|;
            var pre' := pre + sql[e..ph[k].pos] + ph[k].key + suffix;
            next <= |sql| && |pre'| == next + Shift(k + 1, |suffix|) &&
            SpliceFrom(pre + sql[e..], ph, k, suffix) == SpliceFrom(pre' + sql[next..], ph, k + 1, suffix) &&
            pre + RebuildFrom(sql, ph, k, e, suffix) == pre' + RebuildFrom(sql, ph, k + 1, next, suffix)
  {
    var p := ph[k].pos;
    var key := ph[k].key;
    var next := p + |key|;
    var gap := sql[e..p];
    var rest := sql[next..];
    assert pre + sql[e..] == pre + gap + key + rest by {
      SplitAtPlaceholder(sql, key, e, p);
    }
    assert |pre + gap| == p + Shift(k, |suffix|);
    SpliceStep(pre, gap, key, rest, suffix);
    ShiftStep(k, |suffix|);
    var tail := RebuildFrom(sql, ph, k + 1, next, suffix);
    assert RebuildFrom(sql, ph, k, e, suffix) == gap + key + suffix + tail;
    Regroup(pre, gap, key, suffix, tail);
  }

  lemma Regroup(pre: string, gap: string, key: string, suffix: string, tail: string)
    ensures pre + (gap + key + suffix + tail) == (pre + gap + key + suffix) + tail
  {
  }

  /** When the placeholders are in order, the splice loop computes the intended copy. */
  lemma {:induction false} SpliceFromRebuilds(sql: string, ph: seq<Placeholder>, k: nat, e: nat, suffix: string, pre: string)
    requires InOrder(sql, ph) && k <= |ph| && e <= |sql|
    requires k < |ph| ==> e <= ph[k].pos
    requires |pre| == e + Shift(k, |suffix|)
    ensures SpliceFrom(pre + sql[e..], ph, k, suffix) == Ok(pre + RebuildFrom(sql, ph, k, e, suffix))
    decreases |ph| - k
  {
    if k < |ph| {
      var next := ph[k].pos + |ph[k].key|;
      var pre' := pre + sql[e..ph[k].pos] + ph[k].key + suffix;
      SpliceFromStep(sql, ph, k, e, suffix, pre);
      SpliceFromRebuilds(sql, ph, k + 1, next, suffix, pre');
    }
  }

  lemma CopyRebuilds(sql: string, ph: seq<Placeholder>, i: nat)
    requires InOrder(sql, ph)
    ensures Copy(sql, ph, i) == Ok(Rebuild(sql, ph, Suffix(i)))
  {
    assert "" + sql[0..] == sql;
    SpliceFromRebuilds(sql, ph, 0, 0, Suffix(i), "");
    assert "" + Rebuild(sql, ph, Suffix(i)) == Rebuild(sql, ph, Suffix(i));
  }

  /** Positions are shifted as if the placeholders appeared in declaration order; when they do
      not, the copy is corrupted: for properties Name, Id of `VALUES(@Id,@Name)` the first copy
      is `VALUES(@I@Id_0Name_0)` rather than `VALUES(@Id_0,@Name_0)`. */
  lemma OutOfOrderCorrupts()
    ensures SpliceFrom("VALUES(@Id,@Name)", [Placeholder("@Name", 11), Placeholder("@Id", 7)], 0, "_0")
         == Ok("VALUES(@I@Id_0Name_0)")
  {
    var s0 := "VALUES(@Id,@Name)";
    var s1 := s0[..11] + "@Name" + "_0" + s0[16..];
    assert s1 == "VALUES(@Id,@Name_0)";
    var s2 := s1[..9] + "@Id" + "_0" + s1[12..];
    assert s2 == "VALUES(@I@Id_0Name_0)";
  }

  // ---------------------------------------------------------------------------------------------
  // The batch

  /** Elements i.. of the batch, with `built` holding the copies made so far. */
  function BatchFrom(entries: map<Identity, Entry>, st: CommandState, ph: seq<Placeholder>, items: seq<Value>, i: nat, built: string): (g: Generated)
    requires i <= |items|
    decreases |items| - i
  {
    if i == |items| then Generated(Ok(CommandState(built, st.params)), entries)
    else
      match Copy(st.text, ph, i)
      case Err(e) => Generated(Err(e), entries)
      case Ok(current) =>
        var g := Generate(entries, st, items[i], Some(current), false, Some(i));
        match g.result
        case Err(_) => g
        case Ok(next) => BatchFrom(g.entries, next, ph, items, i + 1, built + current + ";")
  }

  /** InvokeParamGeneratorsForMultipleExec: the placeholder table comes from the first element's
      type, which must exist and be non-null. */
  function MultipleExec(entries: map<Identity, Entry>, st: CommandState, items: seq<Value>): (g: Generated)
    ensures FirstOrDefault(items) == Null ==> g == Generated(Err(NullReference), entries)
  {
    var first := FirstOrDefault(items);
    if first == Null then Generated(Err(NullReference), entries)
    else
      match Placeholders(PropertiesOf(RuntimeType(first).value), st.text)
      case Err(e) => Generated(Err(e), entries)
      case Ok(ph) => BatchFrom(entries, st, ph, items, 0, "")
  }

  /** A batch only adds binder entries to the cache. */
  lemma {:induction false} BatchFromKeepsDeserializersFit(entries: map<Identity, Entry>, st: CommandState, ph: seq<Placeholder>, items: seq<Value>, i: nat, built: string)
    requires i <= |items| && DeserializersFit(entries)
    ensures DeserializersFit(BatchFrom(entries, st, ph, items, i, built).entries)
    decreases |items| - i
  {
    if i < |items| && Copy(st.text, ph, i).Ok? {
      var current := Copy(st.text, ph, i).value;
      var g := Generate(entries, st, items[i], Some(current), false, Some(i));
      GenerateKeepsDeserializersFit(entries, st, items[i], Some(current), false, Some(i));
      BatchFromStep(entries, st, ph, items, i, built);
      if g.result.Ok? {
        BatchFromKeepsDeserializersFit(g.entries, g.result.value, ph, items, i + 1, built + current + ";");
      }
    }
  }

  /** One element of the batch: its copy is bound, and on success the batch goes on with the
      next element from the command and cache that binding left. */
  lemma BatchFromStep(entries: map<Identity, Entry>, st: CommandState, ph: seq<Placeholder>, items: seq<Value>, i: nat, built: string)
    requires i < |items| && Copy(st.text, ph, i).Ok?
    ensures var current := Copy(st.text, ph, i).value;
            var g := Generate(entries, st, items[i], Some(current), false, Some(i));
            BatchFrom(entries, st, ph, items, i, built)
            == if g.result.Ok? then BatchFrom(g.entries, g.result.value, ph, items, i + 1, built + current + ";") else g
  {
  }

  /** The copies 0..n-1 of the intended renaming, each followed by `;`. */
  function Copies(sql: string, ph: seq<Placeholder>, n: nat): string
    requires Ordered(sql, ph)
  {
    if n == 0 then "" else Copies(sql, ph, n - 1) + Rebuild(sql, ph, Suffix(n - 1)) + ";"
  }

  /** The positions the table records are where the placeholders occur. */
  lemma PlaceholdersLocated(fields: seq<Field>, text: string)
    requires Placeholders(fields, text).Ok?
    ensures Located(text, Placeholders(fields, text).value)
  {
  }

  /** A null element stops the batch with a NullReferenceException at its GetType(). */
  lemma NullElementStopsBatch(entries: map<Identity, Entry>, st: CommandState, ph: seq<Placeholder>, items: seq<Value>, i: nat, built: string)
    requires i < |items| && items[i] == Null && Copy(st.text, ph, i).Ok?
    ensures BatchFrom(entries, st, ph, items, i, built) == Generated(Err(NullReference), entries)
  {
  }

  /** One element of a homogeneous batch of objects with scalar properties: binding succeeds,
      leaves the text alone and keeps the cache consistent. */
  lemma BindScalarElement(entries: map<Identity, Entry>, st: CommandState, param: Value, current: string, i: nat, t: Ty)
    requires CacheFits(entries)
    requires param != Null && RuntimeType(param) == Some(t)
    requires !IsEnumerable(t) && ScalarFields(PropertiesOf(t))
    ensures var g := Generate(entries, st, param, Some(current), false, Some(i));
            g.result.Ok? && g.result.value.text == st.text && CacheFits(g.entries)
  {
    var id := BinderIdentity(st.text, param, Some(current));
    var (b, _) := ResolveBinder(entries, id, t, false, Some(i));
    GenerateKeepsCacheFitting(entries, st, param, Some(current), false, Some(i));
    assert b.PropertyBinder?;
    assert ScalarFields(b.fields);
    assert HasFields(param, b.fields) by {
      forall f | f in b.fields ensures PropValue(PropsOf(param), f.name).Some? {
        assert f in PropertiesOf(t);
        PropValueOfField(param.props, f);
      }
    }
    BindScalars(st, b.fields, param, b.ignoreNull, b.index);
  }

  lemma {:induction false} BatchFromScalar(entries: map<Identity, Entry>, st: CommandState, ph: seq<Placeholder>, items: seq<Value>,
                                           i: nat, built: string, sql: string, t: Ty)
    requires CacheFits(entries)
    requires st.text == sql && InOrder(sql, ph)
    requires i <= |items| && built == Copies(sql, ph, i)
    requires forall x :: x in items ==> x != Null && RuntimeType(x) == Some(t)
    requires !IsEnumerable(t) && ScalarFields(PropertiesOf(t))
    ensures BatchFrom(entries, st, ph, items, i, built).result.Ok?
    ensures BatchFrom(entries, st, ph, items, i, built).result.value.text == Copies(sql, ph, |items|)
    decreases |items| - i
  {
    if i < |items| {
      CopyRebuilds(sql, ph, i);
      var current := Rebuild(sql, ph, Suffix(i));
      assert items[i] in items;
      BindScalarElement(entries, st, items[i], current, i, t);
      var g := Generate(entries, st, items[i], Some(current), false, Some(i));
      assert BatchFrom(entries, st, ph, items, i, built) == BatchFrom(g.entries, g.result.value, ph, items, i + 1, built + current + ";");
      BatchFromScalar(g.entries, g.result.value, ph, items, i + 1, built + current + ";", sql, t);
    }
  }

  /** Copies for different elements are different texts once the text has a placeholder: they
      differ in length, or else in the suffix right after the first renamed placeholder. */
  lemma CopiesDiffer(sql: string, ph: seq<Placeholder>, i: nat, j: nat)
    requires Ordered(sql, ph) && |ph| > 0 && i != j
    ensures Rebuild(sql, ph, Suffix(i)) != Rebuild(sql, ph, Suffix(j))
  {
    var si, sj := Suffix(i), Suffix(j);
    RebuildLength(sql, ph, si);
    RebuildLength(sql, ph, sj);
    if |si| == |sj| {
      RebuildFromUnfold(sql, ph, 0, 0, si);
      RebuildFromUnfold(sql, ph, 0, 0, sj);
      var l := ph[0].pos + |ph[0].key|;
      var ci := Rebuild(sql, ph, si);
      var cj := Rebuild(sql, ph, sj);
      assert ci[l..l + |si|] == si;
      assert cj[l..l + |sj|] == sj;
      if ci == cj {
        assert NatToString(i) == si[1..] == sj[1..] == NatToString(j);
        NatToStringInjective(i, j);
      }
    } else {
      MulStrict(|ph|, |si|, |sj|);
    }
  }

  lemma MulStrict(n: nat, a: nat, b: nat)
    requires n > 0 && a != b
    ensures n * a != n * b
  {
    if a < b {
      assert n * b == n * a + n * (b - a);
    } else {
      assert n * a == n * b + n * (a - b);
    }
  }

  /** What element i of a homogeneous batch sends when its own binder is compiled: the
      properties its copy mentions, named `@P_i`, with nulls sent as DBNull. */
  function ElementParams(copy: string, x: Value, t: Ty, i: nat): seq<Param>
    requires RuntimeType(x) == Some(t)
  {
    var fields := BoundFields(PropertiesOf(t), copy);
    HasFieldsOfType(x, t, fields);
    AllFieldParams(fields, x, false, Some(i))
  }

  /** The parameters elements i.. of a homogeneous batch send, element after element. */
  function BatchParamsFrom(sql: string, ph: seq<Placeholder>, items: seq<Value>, t: Ty, i: nat): seq<Param>
    requires Ordered(sql, ph) && i <= |items|
    requires forall x :: x in items ==> RuntimeType(x) == Some(t)
    decreases |items| - i
  {
    if i == |items| then []
    else
      assert items[i] in items;
      ElementParams(Rebuild(sql, ph, Suffix(i)), items[i], t, i) + BatchParamsFrom(sql, ph, items, t, i + 1)
  }

  /** No copy from element i on has a binder cached yet. */
  predicate CopiesUncached(entries: map<Identity, Entry>, sql: string, ph: seq<Placeholder>, t: Ty, i: nat, n: nat)
    requires Ordered(sql, ph)
  {
    forall k :: i <= k < n ==> Identity(Rebuild(sql, ph, Suffix(k)), None, Some(t)) !in entries
  }

  /** An element whose copy has no cached binder compiles one with `ignoreNull` false and its
      index, caches it under the copy, and appends its parameters, leaving the text alone. */
  lemma BindFreshScalarElement(entries: map<Identity, Entry>, st: CommandState, x: Value, current: string, i: nat, t: Ty)
    requires RuntimeType(x) == Some(t) && !IsEnumerable(t) && ScalarFields(PropertiesOf(t))
    requires Identity(current, None, Some(t)) !in entries
    ensures var g := Generate(entries, st, x, Some(current), false, Some(i));
            g.result == Ok(CommandState(st.text, st.params + ElementParams(current, x, t, i))) &&
            g.entries == entries[Identity(current, None, Some(t)) := Entry(None, Some(CreateParamGenerator(t, current, false, Some(i))))]
  {
    var fields := BoundFields(PropertiesOf(t), current);
    HasFieldsOfType(x, t, fields);
    assert ScalarFields(fields);
    FreshIdentityCompiles(entries, st, x, Some(current), false, Some(i));
    BindScalars(st, fields, x, false, Some(i));
  }

  /** One element of the batch on a cache without its copy: the batch goes on from the text
      and the parameters with that element's appended. */
  lemma ScalarParamsStep(entries: map<Identity, Entry>, st: CommandState, ph: seq<Placeholder>, items: seq<Value>,
                         i: nat, built: string, sql: string, t: Ty)
    requires st.text == sql && InOrder(sql, ph)
    requires i < |items| && RuntimeType(items[i]) == Some(t)
    requires Identity(Rebuild(sql, ph, Suffix(i)), None, Some(t)) !in entries
    requires !IsEnumerable(t) && ScalarFields(PropertiesOf(t))
    ensures var current := Rebuild(sql, ph, Suffix(i));
            var g := Generate(entries, st, items[i], Some(current), false, Some(i));
            BatchFrom(entries, st, ph, items, i, built)
            == BatchFrom(g.entries, CommandState(sql, st.params + ElementParams(current, items[i], t, i)), ph, items, i + 1, built + current + ";")
  {
    CopyRebuilds(sql, ph, i);
    BindFreshScalarElement(entries, st, items[i], Rebuild(sql, ph, Suffix(i)), i, t);
    BatchFromStep(entries, st, ph, items, i, built);
  }

  /** Binding copy i caches only that copy, so the later copies stay uncached. */
  lemma ScalarStepUncached(entries: map<Identity, Entry>, st: CommandState, ph: seq<Placeholder>, items: seq<Value>,
                           i: nat, sql: string, t: Ty)
    requires Ordered(sql, ph) && |ph| > 0
    requires i < |items| && RuntimeType(items[i]) == Some(t) && CopiesUncached(entries, sql, ph, t, i, |items|)
    requires !IsEnumerable(t) && ScalarFields(PropertiesOf(t))
    ensures var g := Generate(entries, st, items[i], Some(Rebuild(sql, ph, Suffix(i))), false, Some(i));
            CopiesUncached(g.entries, sql, ph, t, i + 1, |items|)
  {
    var current := Rebuild(sql, ph, Suffix(i));
    BindFreshScalarElement(entries, st, items[i], current, i, t);
    var g := Generate(entries, st, items[i], Some(current), false, Some(i));
    forall k | i + 1 <= k < |items| ensures Identity(Rebuild(sql, ph, Suffix(k)), None, Some(t)) !in g.entries {
      CopiesDiffer(sql, ph, i, k);
    }
  }

  lemma BatchParamsFromStep(sql: string, ph: seq<Placeholder>, items: seq<Value>, t: Ty, i: nat, before: seq<Param>)
    requires Ordered(sql, ph) && i < |items|
    requires forall x :: x in items ==> RuntimeType(x) == Some(t)
    ensures before + ElementParams(Rebuild(sql, ph, Suffix(i)), items[i], t, i) + BatchParamsFrom(sql, ph, items, t, i + 1)
         == before + BatchParamsFrom(sql, ph, items, t, i)
  {
  }

  /** On a cache that has none of the copies, every element compiles its own binder, with
      `ignoreNull` false and its index, so element i sends `@P_i` for each property its copy
      mentions, and the batch sends those lists one after the other. */
  lemma {:induction false} BatchFromScalarParams(entries: map<Identity, Entry>, st: CommandState, ph: seq<Placeholder>, items: seq<Value>,
                                                 i: nat, built: string, sql: string, t: Ty)
    requires st.text == sql && InOrder(sql, ph) && |ph| > 0
    requires i <= |items| && CopiesUncached(entries, sql, ph, t, i, |items|)
    requires forall x :: x in items ==> RuntimeType(x) == Some(t)
    requires !IsEnumerable(t) && ScalarFields(PropertiesOf(t))
    ensures var g := BatchFrom(entries, st, ph, items, i, built);
            g.result.Ok? && g.result.value.params == st.params + BatchParamsFrom(sql, ph, items, t, i)
    decreases |items| - i
  {
    if i < |items| {
      var current := Rebuild(sql, ph, Suffix(i));
      var g := Generate(entries, st, items[i], Some(current), false, Some(i));
      var next := CommandState(sql, st.params + ElementParams(current, items[i], t, i));
      assert items[i] in items;
      ScalarParamsStep(entries, st, ph, items, i, built, sql, t);
      ScalarStepUncached(entries, st, ph, items, i, sql, t);
      BatchParamsFromStep(sql, ph, items, t, i, st.params);
      BatchFromScalarParams(g.entries, next, ph, items, i + 1, built + current + ";", sql, t);
    } else {
      assert st.params + [] == st.params;
    }
  }

  /** Execute with a batch of objects of one type whose properties are all scalar, and whose
      placeholders appear in the text in declaration order: the batch succeeds and the command
      text is the renamed copies, one per element, each followed by `;`. */
  lemma BatchOfScalarRecords(entries: map<Identity, Entry>, st: CommandState, items: seq<Value>)
    requires CacheFits(entries)
    requires |items| > 0 && forall x :: x in items ==> x != Null && RuntimeType(x) == RuntimeType(items[0])
    requires var t := RuntimeType(items[0]).value;
             !IsEnumerable(t) && ScalarFields(PropertiesOf(t)) &&
             Placeholders(PropertiesOf(t), st.text).Ok? && Ordered(st.text, Placeholders(PropertiesOf(t), st.text).value)
    ensures var t := RuntimeType(items[0]).value;
            var ph := Placeholders(PropertiesOf(t), st.text).value;
            var g := MultipleExec(entries, st, items);
            g.result.Ok? &&
            g.result.value.text == Copies(st.text, ph, |items|) &&
            (|ph| > 0 && CopiesUncached(entries, st.text, ph, t, 0, |items|) ==>
               g.result.value.params == st.params + BatchParamsFrom(st.text, ph, items, t, 0))
  {
    var t := RuntimeType(items[0]).value;
    var ph := Placeholders(PropertiesOf(t), st.text).value;
    PlaceholdersLocated(PropertiesOf(t), st.text);
    assert items[0] in items;
    BatchFromScalar(entries, st, ph, items, 0, "", st.text, t);
    if |ph| > 0 && CopiesUncached(entries, st.text, ph, t, 0, |items|) {
      BatchFromScalarParams(entries, st, ph, items, 0, "", st.text, t);
    }
  }

  // ---------------------------------------------------------------------------------------------
  // The imperative operation

  /** The inner loop of the batch: splice each recorded placeholder of the i-th copy. */
  method SpliceCopy(text: string, ph: seq<Placeholder>, index: nat) returns (r: Result<string>)
    ensures r == Copy(text, ph, index)
  {
    var currentSql := text;
    var suffixLength := |NatToString(index)| + 1;
    var suffix := "_" + NatToString(index);
    var offset := 0;
    while offset < |ph|
      invariant 0 <= offset <= |ph|
      invariant SpliceFrom(currentSql, ph, offset, suffix) == Copy(text, ph, index)
    {
      ShiftIsProduct(offset, suffixLength);
      var at := ph[offset].pos + offset * suffixLength;
      var end := at + |ph[offset].key|;
      if at < 0 || end > |currentSql| {
        return Err(ArgumentOutOfRange);
      }
      currentSql := currentSql[..at] + ph[offset].key + suffix + currentSql[end..];
      offset := offset + 1;
    }
    r := Ok(currentSql);
  }

  /** One pass of the batch loop: splice the element's copy, append it to the builder and bind
      the element on the command as it stands. */
  method BatchElement(cache: Cache, cmd: Command, ph: seq<Placeholder>, items: seq<Value>, index: nat, built: string)
    returns (o: Outcome, builder: string)
    requires index < |items|
    modifies cache, cmd
    ensures var g := BatchFrom(old(cache.entries), old(cmd.State()), ph, items, index, built);
            (o.Pass? ==> BatchFrom(cache.entries, cmd.State(), ph, items, index + 1, builder) == g) &&
            (o.Fail? ==> g == Generated(Err(o.error), cache.entries))
  {
    var copy := SpliceCopy(cmd.text, ph, index);
    if copy.Err? {
      return Fail(copy.error), built;
    }
    var currentSql := copy.value;
    builder := built + currentSql + ";";
    o := InvokeParamtersGenerator(cache, cmd, items[index], Some(currentSql), false, Some(index));
  }

  /** The loop over the elements, with the placeholder table already built. */
  method RunBatch(cache: Cache, cmd: Command, ph: seq<Placeholder>, items: seq<Value>) returns (r: Outcome)
    modifies cache, cmd
    ensures var g := BatchFrom(old(cache.entries), old(cmd.State()), ph, items, 0, "");
            cache.entries == g.entries &&
            (g.result.Ok? ==> r == Pass && cmd.State() == g.result.value) &&
            (g.result.Err? ==> r == Fail(g.result.error))
  {
    var sqlBuilder := "";
    var index := 0;
    while index < |items|
      invariant 0 <= index <= |items|
      invariant BatchFrom(cache.entries, cmd.State(), ph, items, index, sqlBuilder)
             == BatchFrom(old(cache.entries), old(cmd.State()), ph, items, 0, "")
    {
      var o;
      o, sqlBuilder := BatchElement(cache, cmd, ph, items, index, sqlBuilder);
      if o.Fail? {
        return o;
      }
      index := index + 1;
    }
    cmd.text := sqlBuilder;
    r := Pass;
  }

  method InvokeParamGeneratorsForMultipleExec(cache: Cache, cmd: Command, items: seq<Value>) returns (r: Outcome)
    modifies cache, cmd
    ensures var g := MultipleExec(old(cache.entries), old(cmd.State()), items);
            cache.entries == g.entries &&
            (g.result.Ok? ==> r == Pass && cmd.State() == g.result.value) &&
            (g.result.Err? ==> r == Fail(g.result.error))
  {
    var first := FirstOrDefault(items);
    if first == Null {
      return Fail(NullReference);
    }
    var dict := Placeholders(PropertiesOf(RuntimeType(first).value), cmd.text);
    if dict.Err? {
      return Fail(dict.error);
    }
    r := RunBatch(cache, cmd, dict.value, items);
  }
}
