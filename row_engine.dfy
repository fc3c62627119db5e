/**
 * The row path of `run_mapping`: one table -> composite key -> row index,
 * updated in place while every traversal visits its contexts, then turned
 * into row lists with `id` injected for single-component keys.
 */
module RowEngine {
  import opened Wrappers
  import opened Values
  import opened Transforms
  import opened Specs
  import opened Traversal

  /** A composite join key, the tuple of the join-key transforms' values. */
  type Key = seq<Json>

  /** A row: field name -> value. */
  type Row = map<string, Json>

  /** `table_to_index`: table -> composite key -> row, both levels in insertion order. */
  type RowIndex = OMap<string, OMap<Key, Row>>

  /** A list or a dict inside a tuple used as a dict key raises `TypeError` and aborts the run. */
  datatype Failure = UnhashableKey(table: string, key: Key)

  /** The key is skipped when one of its parts is null or the empty string. */
  predicate SkippedKey(parts: seq<Json>) {
    exists i :: 0 <= i < |parts| && Dropped(parts[i])
  }

  predicate Hashable(v: Json) {
    !v.JArr? && !v.JObj?
  }

  predicate HashableKey(parts: seq<Json>) {
    forall i :: 0 <= i < |parts| ==> Hashable(parts[i])
  }

  ghost predicate IndexValid(idx: RowIndex) {
    idx.Valid() && forall t :: t in idx.m ==> idx.m[t].Valid()
  }

  /** Writes each field's value, evaluated at `ctx`, into the row in order; a later field of the same name overwrites. */
  function ApplyFields(row: Row, ctx: Context, fields: seq<Field>): Row
    decreases |fields|
  {
    if fields == [] then row
    else
      var f := fields[|fields| - 1];
      ApplyFields(row, ctx, fields[..|fields| - 1])[f.name := Eval(f.transform, ctx)]
  }

  function TableOf(idx: RowIndex, table: string): (t: OMap<Key, Row>)
    ensures IndexValid(idx) ==> t.Valid()
  {
    if table in idx.m then idx.m[table] else EmptyOMap()
  }

  function RowOf(t: OMap<Key, Row>, key: Key): Row {
    if key in t.m then t.m[key] else map[]
  }

  /** One (context, row emit) pair: skip, fail, or fetch-or-create the row and write its fields. */
  function RowStep(idx: RowIndex, ctx: Context, e: TableEmit): (r: Result<RowIndex, Failure>)
    ensures IndexValid(idx) && r.Ok? ==> IndexValid(r.value)
  {
    var parts := EvalAll(e.joinKeys, ctx);
    if SkippedKey(parts) then Ok(idx)
    else if !HashableKey(parts) then Err(UnhashableKey(e.table, parts))
    else
      var t := TableOf(idx, e.table);
      var row := ApplyFields(RowOf(t, parts), ctx, e.fields);
      t.PutValid(parts, row);
      idx.PutValid(e.table, t.Put(parts, row));
      Ok(idx.Put(e.table, t.Put(parts, row)))
  }

  /** The row index after processing `es` in order; the first failure aborts. */
  function FoldRows(start: Result<RowIndex, Failure>, es: seq<(Context, TableEmit)>): (r: Result<RowIndex, Failure>)
    ensures start.Ok? && IndexValid(start.value) && r.Ok? ==> IndexValid(r.value)
    decreases |es|
  {
    if es == [] then start
    else
      var prev := FoldRows(start, es[..|es| - 1]);
      if prev.Err? then prev else RowStep(prev.value, es[|es| - 1].0, es[|es| - 1].1)
  }

  /** Once the run has failed, processing more emissions keeps that failure. */
  lemma {:induction false} FoldRowsErr(e: Failure, q: seq<(Context, TableEmit)>)
    ensures FoldRows(Err(e), q) == Err(e)
    decreases |q|
  {
    if q != [] {
      FoldRowsErr(e, q[..|q| - 1]);
    }
  }

  /** Processing `p + q` is processing `p`, then `q` from where `p` left off. */
  lemma {:induction false} FoldRowsAppend(start: Result<RowIndex, Failure>, p: seq<(Context, TableEmit)>, q: seq<(Context, TableEmit)>)
    ensures FoldRows(start, p + q) == FoldRows(FoldRows(start, p), q)
    decreases |q|
  {
    if q == [] {
      assert p + q == p;
    } else {
      assert (p + q)[..|p + q| - 1] == p + q[..|q| - 1];
      FoldRowsAppend(start, p, q[..|q| - 1]);
    }
  }

  /** A failure within a prefix of the emissions is the failure of the whole run. */
  lemma FoldRowsErrPrefix(start: Result<RowIndex, Failure>, p: seq<(Context, TableEmit)>, q: seq<(Context, TableEmit)>)
    requires p <= q && FoldRows(start, p).Err?
    ensures FoldRows(start, q) == FoldRows(start, p)
  {
    PrefixSplit(p, q);
    FoldRowsAppend(start, p, q[|p|..]);
    FoldRowsErr(FoldRows(start, p).error, q[|p|..]);
  }

  lemma FoldRowsSnoc(start: Result<RowIndex, Failure>, p: seq<(Context, TableEmit)>, e: (Context, TableEmit))
    ensures FoldRows(start, p + [e]) ==
      if FoldRows(start, p).Err? then FoldRows(start, p) else RowStep(FoldRows(start, p).value, e.0, e.1)
  {
    assert (p + [e])[..|p|] == p;
  }

  // ---------------------------------------------------------------
  // Materialisation
  // ---------------------------------------------------------------

  /** A row whose key has a single part and which has no `id` field gets that part as its `id`. */
  function WithId(key: Key, row: Row): Row {
    if |key| == 1 && "id" !in row then row["id" := key[0]] else row
  }

  /** The rows of one table, one per composite key, in key insertion order. */
  function TableRows(t: OMap<Key, Row>): (rows: seq<Row>)
    requires t.Valid()
    ensures |rows| == |t.keys|
  {
    seq(|t.keys|, i requires 0 <= i < |t.keys| => WithId(t.keys[i], t.m[t.keys[i]]))
  }

  /** The result after the first `n` tables of the index. */
  function MaterializeUpTo(idx: RowIndex, n: nat): (r: OMap<string, seq<Row>>)
    requires IndexValid(idx) && n <= |idx.keys|
    ensures r.Valid() && r.keys == idx.keys[..n]
    ensures forall t :: t in r.m ==> r.m[t] == TableRows(idx.m[t])
  {
    if n == 0 then EmptyOMap()
    else
      var t := idx.keys[n - 1];
      TakeSnoc(idx.keys, n);
      MaterializeUpTo(idx, n - 1).PutValid(t, TableRows(idx.m[t]));
      MaterializeUpTo(idx, n - 1).Put(t, TableRows(idx.m[t]))
  }

  /** One row list per table of the index, in table order. */
  function Materialize(idx: RowIndex): (r: OMap<string, seq<Row>>)
    requires IndexValid(idx)
    ensures r.Valid() && r.keys == idx.keys
    ensures forall t :: t in idx.m ==> t in r.m && r.m[t] == TableRows(idx.m[t])
  {
    TakeAll(idx.keys);
    MaterializeUpTo(idx, |idx.keys|)
  }

  lemma TakeAll<T>(s: seq<T>)
    ensures s[..|s|] == s
  {
  }

  lemma TakeSnoc<T>(s: seq<T>, n: nat)
    requires 0 < n <= |s|
    ensures s[..n] == s[..n - 1] + [s[n - 1]]
  {
  }

  /** What `run_mapping` returns for `spec` over `root`. */
  function Rows(root: Json, spec: MappingSpec<TableEmit>): Result<OMap<string, seq<Row>>, Failure> {
    var r := FoldRows(Ok(EmptyOMap()), Emissions(root, spec.traversals));
    if r.Err? then Err(r.error) else Ok(Materialize(r.value))
  }

  /** The body of the innermost loop of `run_mapping` for one (context, emit) pair. */
  method ProcessRowEmit(tableToIndex: RowIndex, ctx: Context, emit: TableEmit) returns (r: Result<RowIndex, Failure>)
    ensures r == RowStep(tableToIndex, ctx, emit)
  {
    var keyParts := EvalAll(emit.joinKeys, ctx);
    if SkippedKey(keyParts) {
      return Ok(tableToIndex);
    }
    if !HashableKey(keyParts) {
      return Err(UnhashableKey(emit.table, keyParts));
    }
    var index := if emit.table in tableToIndex.m then tableToIndex.m[emit.table] else EmptyOMap();
    var row := if keyParts in index.m then index.m[keyParts] else map[];
    ghost var row0 := row;
    for fi := 0 to |emit.fields|
      invariant row == ApplyFields(row0, ctx, emit.fields[..fi])
    {
      var fld := emit.fields[fi];
      assert emit.fields[..fi + 1][..fi] == emit.fields[..fi];
      row := row[fld.name := Eval(fld.transform, ctx)];
    }
    assert emit.fields[..|emit.fields|] == emit.fields;
    return Ok(tableToIndex.Put(emit.table, index.Put(keyParts, row)));
  }

  /** The rows of one table, `id` injected. */
  method MaterializeTable(index: OMap<Key, Row>) returns (rows: seq<Row>)
    requires index.Valid()
    ensures rows == TableRows(index)
  {
    rows := [];
    for r := 0 to |index.keys|
      invariant |rows| == r
      invariant forall j :: 0 <= j < r ==> rows[j] == WithId(index.keys[j], index.m[index.keys[j]])
    {
      var keyTuple := index.keys[r];
      var data := index.m[keyTuple];
      if |keyTuple| == 1 && "id" !in data {
        data := data["id" := keyTuple[0]];
      }
      rows := rows + [data];
    }
  }

  /** The final loop of `run_mapping`: one row list per table. */
  method MaterializeIndex(tableToIndex: RowIndex) returns (out: OMap<string, seq<Row>>)
    requires IndexValid(tableToIndex)
    ensures out == Materialize(tableToIndex)
  {
    out := EmptyOMap();
    var tables := tableToIndex.keys;
    for t := 0 to |tables|
      invariant out == MaterializeUpTo(tableToIndex, t)
    {
      var rows := MaterializeTable(tableToIndex.m[tables[t]]);
      out := out.Put(tables[t], rows);
    }
  }

  /** The loop over one context's emits. */
  method ProcessContext(tableToIndex: RowIndex, ctx: Context, emits: seq<TableEmit>) returns (r: Result<RowIndex, Failure>)
    ensures r == FoldRows(Ok(tableToIndex), Pairs(ctx, emits))
  {
    var index := tableToIndex;
    for ei := 0 to |emits|
      invariant FoldRows(Ok(tableToIndex), Pairs(ctx, emits[..ei])) == Ok(index)
    {
      PairsSnoc(ctx, emits, ei);
      FoldRowsSnoc(Ok(tableToIndex), Pairs(ctx, emits[..ei]), (ctx, emits[ei]));
      var step := ProcessRowEmit(index, ctx, emits[ei]);
      if step.Err? {
        PairsSplit(ctx, emits, ei + 1);
        FoldRowsErrPrefix(Ok(tableToIndex), Pairs(ctx, emits[..ei + 1]), Pairs(ctx, emits));
        return step;
      }
      index := step.value;
    }
    assert emits[..|emits|] == emits;
    return Ok(index);
  }

  /** The loop over the contexts of one traversal. */
  method ProcessTraversal(tableToIndex: RowIndex, ctxs: seq<Context>, emits: seq<TableEmit>) returns (r: Result<RowIndex, Failure>)
    ensures r == FoldRows(Ok(tableToIndex), CtxEmissions(ctxs, emits))
  {
    var index := tableToIndex;
    for ci := 0 to |ctxs|
      invariant FoldRows(Ok(tableToIndex), CtxEmissions(ctxs[..ci], emits)) == Ok(index)
    {
      CtxEmissionsSnoc(ctxs, emits, ci);
      FoldRowsAppend(Ok(tableToIndex), CtxEmissions(ctxs[..ci], emits), Pairs(ctxs[ci], emits));
      var step := ProcessContext(index, ctxs[ci], emits);
      if step.Err? {
        CtxEmissionsPrefix(ctxs, ci + 1, emits);
        FoldRowsErrPrefix(Ok(tableToIndex), CtxEmissions(ctxs[..ci + 1], emits), CtxEmissions(ctxs, emits));
        return step;
      }
      index := step.value;
    }
    assert ctxs[..|ctxs|] == ctxs;
    return Ok(index);
  }

  /** `run_mapping` of etielle/main.py. */
  method RunMapping(root: Json, spec: MappingSpec<TableEmit>) returns (result: Result<OMap<string, seq<Row>>, Failure>)
    ensures result == Rows(root, spec)
  {
    var ts := spec.traversals;
    var tableToIndex: RowIndex := EmptyOMap();
    for ti := 0 to |ts|
      invariant FoldRows(Ok(EmptyOMap()), Emissions(root, ts[..ti])) == Ok(tableToIndex)
    {
      var ctxs := Traverse(root, ts[ti]);
      EmissionsSnoc(root, ts, ti);
      FoldRowsAppend(Ok(EmptyOMap()), Emissions(root, ts[..ti]), CtxEmissions(ctxs, ts[ti].emits));
      var step := ProcessTraversal(tableToIndex, ctxs, ts[ti].emits);
      if step.Err? {
        EmissionsPrefix(root, ts, ti + 1);
        FoldRowsErrPrefix(Ok(EmptyOMap()), Emissions(root, ts[..ti + 1]), Emissions(root, ts));
        return Err(step.error);
      }
      tableToIndex := step.value;
    }
    assert ts[..|ts|] == ts;
    var out := MaterializeIndex(tableToIndex);
    return Ok(out);
  }

  // ---------------------------------------------------------------
  // What the index holds after a run
  // ---------------------------------------------------------------

  /** The composite key of one (context, emit) pair. */
  function KeyOf(em: (Context, TableEmit)): Key {
    EvalAll(em.1.joinKeys, em.0)
  }

  /** The pair writes to row `key` of `table`. */
  predicate Writes(em: (Context, TableEmit), table: string, key: Key) {
    em.1.table == table && KeyOf(em) == key && !SkippedKey(key)
  }

  /** The pair is not skipped and its key cannot be hashed. */
  predicate Unhashable(em: (Context, TableEmit)) {
    !SkippedKey(KeyOf(em)) && !HashableKey(KeyOf(em))
  }

  /** Reference: the tables written to, in the order they are first written. */
  function TablesWritten(es: seq<(Context, TableEmit)>): seq<string>
    decreases |es|
  {
    if es == [] then []
    else
      var ts := TablesWritten(es[..|es| - 1]);
      var em := es[|es| - 1];
      if !SkippedKey(KeyOf(em)) && em.1.table !in ts then ts + [em.1.table] else ts
  }

  /** Reference: the keys of `table` written to, in the order they are first written. */
  function KeysWritten(es: seq<(Context, TableEmit)>, table: string): seq<Key>
    decreases |es|
  {
    if es == [] then []
    else
      var ks := KeysWritten(es[..|es| - 1], table);
      var em := es[|es| - 1];
      if em.1.table == table && !SkippedKey(KeyOf(em)) && KeyOf(em) !in ks then ks + [KeyOf(em)] else ks
  }

  /** The value the last of `fields` named `f` writes, if any. */
  function FieldWrite(fields: seq<Field>, ctx: Context, f: string): Option<Json>
    decreases |fields|
  {
    if fields == [] then None
    else if fields[|fields| - 1].name == f then Some(Eval(fields[|fields| - 1].transform, ctx))
    else FieldWrite(fields[..|fields| - 1], ctx, f)
  }

  /** Reference: the value of field `f` of row `key` of `table` is the one written last. */
  function LastWrite(es: seq<(Context, TableEmit)>, table: string, key: Key, f: string): Option<Json>
    decreases |es|
  {
    if es == [] then None
    else
      var em := es[|es| - 1];
      if Writes(em, table, key) && FieldWrite(em.1.fields, em.0, f).Some? then FieldWrite(em.1.fields, em.0, f)
      else LastWrite(es[..|es| - 1], table, key, f)
  }

  lemma {:induction false} KeysWrittenSpec(es: seq<(Context, TableEmit)>, table: string, key: Key)
    ensures key in KeysWritten(es, table) <==> exists j :: 0 <= j < |es| && Writes(es[j], table, key)
    decreases |es|
  {
    if es != [] {
      var p := es[..|es| - 1];
      KeysWrittenSpec(p, table, key);
      assert forall j :: 0 <= j < |p| ==> p[j] == es[j];
      if exists j :: 0 <= j < |es| && Writes(es[j], table, key) {
        var j :| 0 <= j < |es| && Writes(es[j], table, key);
        if j < |p| {
          assert Writes(p[j], table, key);
        }
      }
    }
  }

  /** A skipped pair changes nothing. */
  lemma SkippedEmitIsNoOp(idx: RowIndex, ctx: Context, e: TableEmit)
    requires SkippedKey(EvalAll(e.joinKeys, ctx))
    ensures RowStep(idx, ctx, e) == Ok(idx)
  {
  }

  lemma {:induction false} ApplyFieldsValue(row: Row, ctx: Context, fields: seq<Field>, f: string)
    ensures var r := ApplyFields(row, ctx, fields);
      && (f in r <==> f in row || FieldWrite(fields, ctx, f).Some?)
      && (f in r ==> r[f] == if FieldWrite(fields, ctx, f).Some? then FieldWrite(fields, ctx, f).value else row[f])
    decreases |fields|
  {
    if fields != [] {
      ApplyFieldsValue(row, ctx, fields[..|fields| - 1], f);
    }
  }

  /**
   * A run that does not fail creates the tables, and within each table
   * the rows, in the order of their first write.
   */
  lemma {:induction false} RowOrder(es: seq<(Context, TableEmit)>, table: string)
    requires FoldRows(Ok(EmptyOMap()), es).Ok?
    ensures var idx := FoldRows(Ok(EmptyOMap()), es).value;
      idx.keys == TablesWritten(es) && TableOf(idx, table).keys == KeysWritten(es, table)
    decreases |es|
  {
    if es != [] {
      var p := es[..|es| - 1];
      var em := es[|es| - 1];
      RowOrder(p, table);
      RowStepKeys(FoldRows(Ok(EmptyOMap()), p).value, em.0, em.1, table);
    }
  }

  /** What one step does to the table order and to the key order of `table`. */
  lemma RowStepKeys(idx: RowIndex, ctx: Context, e: TableEmit, table: string)
    requires IndexValid(idx) && RowStep(idx, ctx, e).Ok?
    ensures var idx' := RowStep(idx, ctx, e).value;
      var key := EvalAll(e.joinKeys, ctx);
      var t := TableOf(idx, table);
      && idx'.keys == (if !SkippedKey(key) && e.table !in idx.keys then idx.keys + [e.table] else idx.keys)
      && TableOf(idx', table).keys ==
           (if e.table == table && !SkippedKey(key) && key !in t.keys then t.keys + [key] else t.keys)
  {
  }

  /** Every field of every row holds the value written to it last; no other field is present. */
  lemma {:induction false} RowFieldValue(es: seq<(Context, TableEmit)>, table: string, key: Key, f: string)
    requires FoldRows(Ok(EmptyOMap()), es).Ok?
    ensures var t := TableOf(FoldRows(Ok(EmptyOMap()), es).value, table);
      && (LastWrite(es, table, key, f).Some? ==>
            key in t.m && f in t.m[key] && t.m[key][f] == LastWrite(es, table, key, f).value)
      && (LastWrite(es, table, key, f).None? ==> f !in RowOf(t, key))
    decreases |es|
  {
    if es != [] {
      var p := es[..|es| - 1];
      var em := es[|es| - 1];
      RowFieldValue(p, table, key, f);
      var idx := FoldRows(Ok(EmptyOMap()), p).value;
      if Writes(em, table, key) {
        var t := TableOf(idx, table);
        ApplyFieldsValue(RowOf(t, key), em.0, em.1.fields, f);
        RowStepWrites(idx, em.0, em.1, f);
      } else {
        RowStepOthers(idx, em.0, em.1, table, key);
      }
    }
  }

  /** The row a pair writes to: its fields' writes over the row as it was. */
  lemma RowStepWrites(idx: RowIndex, ctx: Context, e: TableEmit, f: string)
    requires RowStep(idx, ctx, e).Ok? && !SkippedKey(EvalAll(e.joinKeys, ctx))
    ensures var key := EvalAll(e.joinKeys, ctx);
      var t' := TableOf(RowStep(idx, ctx, e).value, e.table);
      key in t'.m && t'.m[key] == ApplyFields(RowOf(TableOf(idx, e.table), key), ctx, e.fields)
  {
  }

  /** Every other row is as it was. */
  lemma RowStepOthers(idx: RowIndex, ctx: Context, e: TableEmit, table: string, key: Key)
    requires RowStep(idx, ctx, e).Ok? && !Writes((ctx, e), table, key)
    ensures RowOf(TableOf(RowStep(idx, ctx, e).value, table), key) == RowOf(TableOf(idx, table), key)
    ensures key in TableOf(RowStep(idx, ctx, e).value, table).m <==> key in TableOf(idx, table).m
  {
  }

  /** Every row of the index was written by some pair. */
  lemma RowPresence(es: seq<(Context, TableEmit)>, table: string, key: Key)
    requires FoldRows(Ok(EmptyOMap()), es).Ok?
    ensures key in TableOf(FoldRows(Ok(EmptyOMap()), es).value, table).m <==>
      exists j :: 0 <= j < |es| && Writes(es[j], table, key)
  {
    RowOrder(es, table);
    KeysWrittenSpec(es, table, key);
  }

  /** The run fails exactly when some pair that is not skipped has an unhashable key; the first one is reported. */
  /** One step fails exactly on an unhashable key, and reports that key. */
  lemma RowStepFails(idx: RowIndex, ctx: Context, e: TableEmit)
    ensures RowStep(idx, ctx, e).Err? <==> Unhashable((ctx, e))
    ensures RowStep(idx, ctx, e).Err? ==> RowStep(idx, ctx, e).error == UnhashableKey(e.table, KeyOf((ctx, e)))
  {
  }

  lemma {:induction false} RowsFailure(es: seq<(Context, TableEmit)>)
    ensures FoldRows(Ok(EmptyOMap()), es).Err? <==> exists j :: 0 <= j < |es| && Unhashable(es[j])
    ensures FoldRows(Ok(EmptyOMap()), es).Err? ==>
      exists j :: 0 <= j < |es| && Unhashable(es[j]) && (forall i :: 0 <= i < j ==> !Unhashable(es[i]))
        && FoldRows(Ok(EmptyOMap()), es).error == UnhashableKey(es[j].1.table, KeyOf(es[j]))
    decreases |es|
  {
    if es != [] {
      var p := es[..|es| - 1];
      var em := es[|es| - 1];
      assert es == p + [em];
      var prev := FoldRows(Ok(EmptyOMap()), p);
      FoldRowsSnoc(Ok(EmptyOMap()), p, em);
      RowsFailure(p);
      assert forall j :: 0 <= j < |p| ==> p[j] == es[j];
      if prev.Err? {
        assert FoldRows(Ok(EmptyOMap()), es) == prev;
        var j :| 0 <= j < |p| && Unhashable(p[j]) && (forall i :: 0 <= i < j ==> !Unhashable(p[i]))
          && prev.error == UnhashableKey(p[j].1.table, KeyOf(p[j]));
        assert Unhashable(es[j]);
      } else {
        assert FoldRows(Ok(EmptyOMap()), es) == RowStep(prev.value, em.0, em.1);
        RowStepFails(prev.value, em.0, em.1);
        assert forall i :: 0 <= i < |p| ==> !Unhashable(es[i]);
        if Unhashable(em) {
          assert Unhashable(es[|p|]);
        }
      }
    }
  }

  /**
   * Row `i` of a table is its stored row, plus `id` set to the key's only
   * component when the key has one component and the row has no `id`.
   */
  lemma TableRowsInjectId(t: OMap<Key, Row>, i: nat)
    requires t.Valid() && i < |t.keys|
    ensures var k := t.keys[i]; var row := t.m[k]; var out := TableRows(t)[i];
      && (forall f :: f != "id" ==> (f in out <==> f in row) && (f in row ==> out[f] == row[f]))
      && ("id" in row ==> "id" in out && out["id"] == row["id"])
      && ("id" !in row ==> ("id" in out <==> |k| == 1) && (|k| == 1 ==> out["id"] == k[0]))
  {
  }

  /**
   * A successful run returns one row list per table written to, in
   * first-write order.  Row `i` of a table belongs to the `i`-th distinct
   * key written to it.  Each field of the row holds its last write.  `id`
   * is that key's only component when the key has one component and no
   * pair wrote `id`.
   */
  lemma RowsResult(root: Json, spec: MappingSpec<TableEmit>, table: string)
    requires Rows(root, spec).Ok?
    ensures var es := Emissions(root, spec.traversals);
      var out := Rows(root, spec).value;
      var ks := KeysWritten(es, table);
      && out.keys == TablesWritten(es)
      && (table in out.m ==>
            && |out.m[table]| == |ks|
            && (forall i, f :: 0 <= i < |ks| && f != "id" ==>
                  (f in out.m[table][i] <==> LastWrite(es, table, ks[i], f).Some?)
                  && (f in out.m[table][i] ==> out.m[table][i][f] == LastWrite(es, table, ks[i], f).value))
            && (forall i :: 0 <= i < |ks| ==>
                  if LastWrite(es, table, ks[i], "id").Some? then
                    "id" in out.m[table][i] && out.m[table][i]["id"] == LastWrite(es, table, ks[i], "id").value
                  else
                    ("id" in out.m[table][i] <==> |ks[i]| == 1) && (|ks[i]| == 1 ==> out.m[table][i]["id"] == ks[i][0])))
  {
    var es := Emissions(root, spec.traversals);
    var idx := FoldRows(Ok(EmptyOMap()), es).value;
    var out := Rows(root, spec).value;
    var ks := KeysWritten(es, table);
    RowOrder(es, table);
    if table in out.m {
      var t := idx.m[table];
      assert t.keys == ks;
      forall i, f | 0 <= i < |ks|
        ensures f != "id" ==>
          (f in out.m[table][i] <==> LastWrite(es, table, ks[i], f).Some?)
          && (f in out.m[table][i] ==> out.m[table][i][f] == LastWrite(es, table, ks[i], f).value)
      {
        RowFieldValue(es, table, ks[i], f);
        TableRowsInjectId(t, i);
      }
      forall i | 0 <= i < |ks|
        ensures if LastWrite(es, table, ks[i], "id").Some? then
            "id" in out.m[table][i] && out.m[table][i]["id"] == LastWrite(es, table, ks[i], "id").value
          else
            ("id" in out.m[table][i] <==> |ks[i]| == 1) && (|ks[i]| == 1 ==> out.m[table][i]["id"] == ks[i][0])
      {
        RowFieldValue(es, table, ks[i], "id");
        TableRowsInjectId(t, i);
      }
    }
  }
}
