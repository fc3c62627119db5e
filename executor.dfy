/**
 * `run_mapping` of etielle/executor.py: the row path of the row engine plus
 * instance emission, where each non-skipped pair sends one update of merged
 * field values to the table's builder, and each builder is finalised at the end.
 */
module Executor {
  import opened Wrappers
  import opened Values
  import opened Transforms
  import opened Specs
  import opened Traversal
  import opened RowEngine

  /** One `builder.update(composite_key, updates)` call. */
  type Update = (Key, map<string, Json>)

  /**
   * `instance_tables[table]`: the builder registered first, the shadow
   * buckets of merged values per key, the merged policies, and the update
   * calls the builder has received so far, in order.
   */
  datatype InstanceTable = InstanceTable(
    builder: BuilderRef,
    shadow: map<Key, map<string, Json>>,
    policies: map<string, Policy>,
    sent: seq<Update>)

  datatype State = State(rows: RowIndex, instances: OMap<string, InstanceTable>)

  ghost predicate StateValid(st: State) {
    IndexValid(st.rows) && st.instances.Valid()
  }

  /**
   * Collaborators whose code is not part of this model:
   * `resolve_field_name_for_builder` and `policy.merge(prev, value)`.
   */
  datatype Hooks = Hooks(
    fieldName: (BuilderRef, FieldSpec) -> string,
    merge: (Policy, Json, Json) -> Json)

  /** The bucket's value for `name`, or null when it has none. */
  function Prev(bucket: map<string, Json>, name: string): Json {
    if name in bucket then bucket[name] else JNull
  }

  /** The value forwarded for a field: merged with `prev` through its policy, or the new value itself. */
  function Forward(hooks: Hooks, policies: map<string, Policy>, name: string, prev: Json, value: Json): Json {
    if name in policies then hooks.merge(policies[name], prev, value) else value
  }

  function FieldName(hooks: Hooks, builder: BuilderRef, fs: FieldSpec): string {
    hooks.fieldName(builder, fs)
  }

  /** The names the fields of an instance emit resolve to. */
  function FieldNames(hooks: Hooks, builder: BuilderRef, fields: seq<FieldSpec>): set<string> {
    set i | 0 <= i < |fields| :: FieldName(hooks, builder, fields[i])
  }

  /**
   * The loop over an instance emit's fields, started on shadow bucket
   * `bucket`: the bucket afterwards and the `updates` dict.
   */
  function FieldUpdates(hooks: Hooks, builder: BuilderRef, policies: map<string, Policy>,
                        bucket: map<string, Json>, ctx: Context, fields: seq<FieldSpec>): (r: (map<string, Json>, map<string, Json>))
    ensures r.0 == bucket + r.1
    ensures r.1.Keys == FieldNames(hooks, builder, fields)
    decreases |fields|
  {
    if fields == [] then (bucket, map[])
    else
      var prior := FieldUpdates(hooks, builder, policies, bucket, ctx, fields[..|fields| - 1]);
      var fs := fields[|fields| - 1];
      var name := FieldName(hooks, builder, fs);
      var value := Forward(hooks, policies, name, Prev(prior.0, name), Eval(fs.transform, ctx));
      FieldNamesSnoc(hooks, builder, fields);
      OverwriteThrough(bucket, prior.1, name, value);
      (prior.0[name := value], prior.1[name := value])
  }

  /** Writing one name through to both the bucket and the updates keeps the bucket the old one overwritten by the updates. */
  lemma OverwriteThrough<K, V>(bucket: map<K, V>, updates: map<K, V>, k: K, v: V)
    ensures (bucket + updates)[k := v] == bucket + updates[k := v]
  {
  }

  lemma FieldNamesSnoc(hooks: Hooks, builder: BuilderRef, fields: seq<FieldSpec>)
    requires fields != []
    ensures FieldNames(hooks, builder, fields)
      == FieldNames(hooks, builder, fields[..|fields| - 1]) + {FieldName(hooks, builder, fields[|fields| - 1])}
  {
    assert forall i :: 0 <= i < |fields| - 1 ==> fields[..|fields| - 1][i] == fields[i];
  }

  /** The entry of a table not seen before. */
  function NewTable(e: InstanceEmit): InstanceTable {
    InstanceTable(e.builder, map[], e.policies, [])
  }

  /** One non-skipped (context, instance emit) pair with a hashable key. */
  function InstanceStep(tables: OMap<string, InstanceTable>, ctx: Context, e: InstanceEmit, key: Key, hooks: Hooks): (r: OMap<string, InstanceTable>)
    ensures tables.Valid() ==> r.Valid()
    ensures r.keys == if e.table in tables.m then tables.keys else tables.keys + [e.table]
    ensures r.m.Keys == tables.m.Keys + {e.table}
  {
    var tbl := if e.table in tables.m then tables.m[e.table] else NewTable(e);
    var policies := tbl.policies + e.policies;
    var bucket := if key in tbl.shadow then tbl.shadow[key] else map[];
    var r := FieldUpdates(hooks, tbl.builder, policies, bucket, ctx, e.fields);
    tables.PutValid(e.table, InstanceTable(tbl.builder, tbl.shadow[key := r.0], policies, tbl.sent + [(key, r.1)]));
    tables.Put(e.table, InstanceTable(tbl.builder, tbl.shadow[key := r.0], policies, tbl.sent + [(key, r.1)]))
  }

  /** One (context, emit) pair: skip, dispatch on the emit's type, or fail on an unhashable key. */
  function ExecStep(st: State, ctx: Context, e: Emit, hooks: Hooks): (r: Result<State, Failure>)
    ensures StateValid(st) && r.Ok? ==> StateValid(r.value)
  {
    var parts := EvalAll(JoinKeys(e), ctx);
    if SkippedKey(parts) then Ok(st)
    else
      match e
      case Table(t) =>
        var rows := RowStep(st.rows, ctx, t);
        if rows.Err? then Err(rows.error) else Ok(st.(rows := rows.value))
      case Instance(i) =>
        if !HashableKey(parts) then Err(UnhashableKey(i.table, parts))
        else Ok(st.(instances := InstanceStep(st.instances, ctx, i, parts, hooks)))
      case Unrecognised(_) => Ok(st)
  }

  function InitState(): (st: State)
    ensures StateValid(st)
  {
    State(EmptyOMap(), EmptyOMap())
  }

  /** The state after processing `es` in order; the first failure aborts. */
  function FoldExec(start: Result<State, Failure>, es: seq<(Context, Emit)>, hooks: Hooks): (r: Result<State, Failure>)
    ensures start.Ok? && StateValid(start.value) && r.Ok? ==> StateValid(r.value)
    decreases |es|
  {
    if es == [] then start
    else
      var prev := FoldExec(start, es[..|es| - 1], hooks);
      if prev.Err? then prev else ExecStep(prev.value, es[|es| - 1].0, es[|es| - 1].1, hooks)
  }

  lemma {:induction false} FoldExecErr(e: Failure, q: seq<(Context, Emit)>, hooks: Hooks)
    ensures FoldExec(Err(e), q, hooks) == Err(e)
    decreases |q|
  {
    if q != [] {
      FoldExecErr(e, q[..|q| - 1], hooks);
    }
  }

  lemma {:induction false} FoldExecAppend(start: Result<State, Failure>, p: seq<(Context, Emit)>, q: seq<(Context, Emit)>, hooks: Hooks)
    ensures FoldExec(start, p + q, hooks) == FoldExec(FoldExec(start, p, hooks), q, hooks)
    decreases |q|
  {
    if q == [] {
      assert p + q == p;
    } else {
      assert (p + q)[..|p + q| - 1] == p + q[..|q| - 1];
      FoldExecAppend(start, p, q[..|q| - 1], hooks);
    }
  }

  lemma FoldExecErrPrefix(start: Result<State, Failure>, p: seq<(Context, Emit)>, q: seq<(Context, Emit)>, hooks: Hooks)
    requires p <= q && FoldExec(start, p, hooks).Err?
    ensures FoldExec(start, q, hooks) == FoldExec(start, p, hooks)
  {
    PrefixSplit(p, q);
    FoldExecAppend(start, p, q[|p|..], hooks);
    FoldExecErr(FoldExec(start, p, hooks).error, q[|p|..], hooks);
  }

  lemma FoldExecSnoc(start: Result<State, Failure>, p: seq<(Context, Emit)>, e: (Context, Emit), hooks: Hooks)
    ensures FoldExec(start, p + [e], hooks) ==
      if FoldExec(start, p, hooks).Err? then FoldExec(start, p, hooks) else ExecStep(FoldExec(start, p, hooks).value, e.0, e.1, hooks)
  {
    assert (p + [e])[..|p|] == p;
  }

  // ---------------------------------------------------------------
  // Result
  // ---------------------------------------------------------------

  /** A result table: a list of rows, or the instances a builder finalised. */
  datatype Output<I> = RowList(rows: seq<Row>) | InstanceList(items: seq<I>)

  function LiftRows<I>(o: OMap<string, seq<Row>>): (r: OMap<string, Output<I>>)
    ensures o.Valid() ==> r.Valid()
  {
    OMap(o.keys, map t | t in o.m :: RowList(o.m[t]))
  }

  /**
   * The result `base` (the row tables), then the first `n` instance tables
   * put in, each the list of instances its builder finalises, as given by
   * `finalizeAll` for the builder and the update calls it received.
   */
  function FinalizeUpTo<I>(base: OMap<string, Output<I>>, ins: OMap<string, InstanceTable>,
                           finalizeAll: (BuilderRef, seq<Update>) -> seq<I>, n: nat): (r: OMap<string, Output<I>>)
    requires n <= |ins.keys|
    requires forall i :: 0 <= i < |ins.keys| ==> ins.keys[i] in ins.m
  {
    if n == 0 then base
    else
      var t := ins.keys[n - 1];
      FinalizeUpTo(base, ins, finalizeAll, n - 1).Put(t, InstanceList(finalizeAll(ins.m[t].builder, ins.m[t].sent)))
  }

  /** One more instance table is put into the result. */
  lemma FinalizeUpToStep<I>(base: OMap<string, Output<I>>, ins: OMap<string, InstanceTable>,
                            finalizeAll: (BuilderRef, seq<Update>) -> seq<I>, n: nat)
    requires 0 < n <= |ins.keys|
    requires forall i :: 0 <= i < |ins.keys| ==> ins.keys[i] in ins.m
    ensures var k := ins.keys[n - 1];
      FinalizeUpTo(base, ins, finalizeAll, n)
        == FinalizeUpTo(base, ins, finalizeAll, n - 1).Put(k, InstanceList(finalizeAll(ins.m[k].builder, ins.m[k].sent)))
  {
  }

  /** Finalizing keeps a valid dictionary that starts with the row tables. */
  lemma {:induction false} FinalizeUpToValid<I>(base: OMap<string, Output<I>>, ins: OMap<string, InstanceTable>,
                                                finalizeAll: (BuilderRef, seq<Update>) -> seq<I>, n: nat)
    requires base.Valid() && n <= |ins.keys|
    requires forall i :: 0 <= i < |ins.keys| ==> ins.keys[i] in ins.m
    ensures var r := FinalizeUpTo(base, ins, finalizeAll, n); r.Valid() && base.keys <= r.keys
    decreases n
  {
    if n > 0 {
      FinalizeUpToValid(base, ins, finalizeAll, n - 1);
      var k := ins.keys[n - 1];
      FinalizeUpToStep(base, ins, finalizeAll, n);
      FinalizeUpTo(base, ins, finalizeAll, n - 1).PutValid(k, InstanceList(finalizeAll(ins.m[k].builder, ins.m[k].sent)));
    }
  }

  /** The names among the first `n` of `ks`. */
  ghost function Seen(ks: seq<string>, n: nat): set<string>
    requires n <= |ks|
  {
    if n == 0 then {} else Seen(ks, n - 1) + {ks[n - 1]}
  }

  lemma {:induction false} SeenTake(ks: seq<string>, n: nat, t: string)
    requires n <= |ks|
    ensures t in Seen(ks, n) <==> t in ks[..n]
    decreases n
  {
    if n > 0 {
      SeenTake(ks, n - 1, t);
      assert ks[..n] == ks[..n - 1] + [ks[n - 1]];
    }
  }

  /** The entries of `FinalizeUpTo`, without the key order. */
  ghost function FinalizeMap<I>(bm: map<string, Output<I>>, ins: OMap<string, InstanceTable>,
                                finalizeAll: (BuilderRef, seq<Update>) -> seq<I>, n: nat): map<string, Output<I>>
    requires n <= |ins.keys|
    requires forall i :: 0 <= i < |ins.keys| ==> ins.keys[i] in ins.m
  {
    if n == 0 then bm
    else
      var k := ins.keys[n - 1];
      FinalizeMap(bm, ins, finalizeAll, n - 1)[k := InstanceList(finalizeAll(ins.m[k].builder, ins.m[k].sent))]
  }

  lemma {:induction false} FinalizeUpToMap<I>(base: OMap<string, Output<I>>, ins: OMap<string, InstanceTable>,
                                              finalizeAll: (BuilderRef, seq<Update>) -> seq<I>, n: nat)
    requires n <= |ins.keys|
    requires forall i :: 0 <= i < |ins.keys| ==> ins.keys[i] in ins.m
    ensures FinalizeUpTo(base, ins, finalizeAll, n).m == FinalizeMap(base.m, ins, finalizeAll, n)
    decreases n
  {
    if n > 0 {
      var k := ins.keys[n - 1];
      FinalizeUpToMap(base, ins, finalizeAll, n - 1);
      FinalizeUpToStepMap(base, ins, finalizeAll, n);
    }
  }

  lemma FinalizeUpToStepMap<I>(base: OMap<string, Output<I>>, ins: OMap<string, InstanceTable>,
                               finalizeAll: (BuilderRef, seq<Update>) -> seq<I>, n: nat)
    requires 0 < n <= |ins.keys|
    requires forall i :: 0 <= i < |ins.keys| ==> ins.keys[i] in ins.m
    ensures var k := ins.keys[n - 1];
      FinalizeUpTo(base, ins, finalizeAll, n).m
        == FinalizeUpTo(base, ins, finalizeAll, n - 1).m[k := InstanceList(finalizeAll(ins.m[k].builder, ins.m[k].sent))]
  {
  }

  /** The tables present after the first `n` instance tables were put in. */
  lemma {:induction false} FinalizeMapHas<I>(bm: map<string, Output<I>>, ins: OMap<string, InstanceTable>,
                                             finalizeAll: (BuilderRef, seq<Update>) -> seq<I>, n: nat, t: string)
    requires n <= |ins.keys|
    requires forall i :: 0 <= i < |ins.keys| ==> ins.keys[i] in ins.m
    ensures t in FinalizeMap(bm, ins, finalizeAll, n) <==> t in bm || t in Seen(ins.keys, n)
    decreases n
  {
    if n > 0 {
      FinalizeMapHas(bm, ins, finalizeAll, n - 1, t);
    }
  }

  /** A finalized instance table holds its builder's `finalize_all` result. */
  lemma {:induction false} FinalizeMapInstance<I>(bm: map<string, Output<I>>, ins: OMap<string, InstanceTable>,
                                                  finalizeAll: (BuilderRef, seq<Update>) -> seq<I>, n: nat, t: string)
    requires n <= |ins.keys| && t in Seen(ins.keys, n) && t in ins.m
    requires forall i :: 0 <= i < |ins.keys| ==> ins.keys[i] in ins.m
    ensures t in FinalizeMap(bm, ins, finalizeAll, n)
    ensures FinalizeMap(bm, ins, finalizeAll, n)[t] == InstanceList(finalizeAll(ins.m[t].builder, ins.m[t].sent))
    decreases n
  {
    if t != ins.keys[n - 1] {
      FinalizeMapInstance(bm, ins, finalizeAll, n - 1, t);
    }
  }

  /** A row table not yet replaced keeps its entry. */
  lemma {:induction false} FinalizeMapRows<I>(bm: map<string, Output<I>>, ins: OMap<string, InstanceTable>,
                                              finalizeAll: (BuilderRef, seq<Update>) -> seq<I>, n: nat, t: string)
    requires n <= |ins.keys| && t in bm && t !in Seen(ins.keys, n)
    requires forall i :: 0 <= i < |ins.keys| ==> ins.keys[i] in ins.m
    ensures t in FinalizeMap(bm, ins, finalizeAll, n)
    ensures FinalizeMap(bm, ins, finalizeAll, n)[t] == bm[t]
    decreases n
  {
    if n > 0 {
      FinalizeMapRows(bm, ins, finalizeAll, n - 1, t);
    }
  }

  /** The instance tables whose name is not in `taken`, in instance-table order. */
  function InstanceOnly(ks: seq<string>, taken: set<string>): seq<string>
    decreases |ks|
  {
    if ks == [] then []
    else InstanceOnly(ks[..|ks| - 1], taken) + (if ks[|ks| - 1] in taken then [] else [ks[|ks| - 1]])
  }

  /** Exactly the listed tables that are not taken. */
  lemma {:induction false} InstanceOnlyMembers(ks: seq<string>, taken: set<string>, t: string)
    ensures t in InstanceOnly(ks, taken) <==> t in ks && t !in taken
    decreases |ks|
  {
    if ks != [] {
      var p := ks[..|ks| - 1];
      InstanceOnlyMembers(p, taken, t);
      assert ks == p + [ks[|ks| - 1]];
    }
  }

  /** After the first `n` instance tables: the row tables, then the new ones among those `n`. */
  lemma {:induction false} FinalizeUpToKeys<I>(base: OMap<string, Output<I>>, ins: OMap<string, InstanceTable>,
                                               finalizeAll: (BuilderRef, seq<Update>) -> seq<I>, n: nat)
    requires n <= |ins.keys|
    requires forall i :: 0 <= i < |ins.keys| ==> ins.keys[i] in ins.m
    requires forall i, j :: 0 <= i < j < |ins.keys| ==> ins.keys[i] != ins.keys[j]
    ensures FinalizeUpTo(base, ins, finalizeAll, n).keys == base.keys + InstanceOnly(ins.keys[..n], base.m.Keys)
    decreases n
  {
    var ks := ins.keys;
    if n == 0 {
      assert ks[..0] == [];
    } else {
      var k := ks[n - 1];
      var prev := FinalizeUpTo(base, ins, finalizeAll, n - 1);
      FinalizeUpToKeys(base, ins, finalizeAll, n - 1);
      FinalizeUpToStep(base, ins, finalizeAll, n);
      FinalizeUpToMap(base, ins, finalizeAll, n - 1);
      FinalizeMapHas(base.m, ins, finalizeAll, n - 1, k);
      DistinctLast(ks, n);
      SeenTake(ks, n - 1, k);
      InstanceOnlyTake(ks, n, base.m.Keys);
      KeysStep(prev.keys, base.keys, InstanceOnly(ks[..n - 1], base.m.Keys), k, k in prev.m, k in base.m);
    }
  }

  /** The arithmetic of one step of `FinalizeUpToKeys`, on plain sequences. */
  lemma KeysStep<T>(prevKeys: seq<T>, baseKeys: seq<T>, io: seq<T>, k: T, inPrev: bool, inBase: bool)
    requires prevKeys == baseKeys + io && inPrev == inBase
    ensures (if inPrev then prevKeys else prevKeys + [k]) == baseKeys + (io + if inBase then [] else [k])
  {
    if !inBase {
      assert (baseKeys + io) + [k] == baseKeys + (io + [k]);
    } else {
      assert io + [] == io;
    }
  }

  lemma InstanceOnlyTake(ks: seq<string>, n: nat, taken: set<string>)
    requires 0 < n <= |ks|
    ensures InstanceOnly(ks[..n], taken) == InstanceOnly(ks[..n - 1], taken) + (if ks[n - 1] in taken then [] else [ks[n - 1]])
  {
    assert ks[..n][..n - 1] == ks[..n - 1];
  }

  lemma DistinctLast<T>(ks: seq<T>, n: nat)
    requires 0 < n <= |ks|
    requires forall i, j :: 0 <= i < j < |ks| ==> ks[i] != ks[j]
    ensures ks[n - 1] !in ks[..n - 1]
  {
  }

  /** The row tables, lifted, before any instance table. */
  lemma MaterializedTables<I>(idx: RowIndex)
    requires IndexValid(idx)
    ensures var r := LiftRows<I>(Materialize(idx));
      && r.Valid() && r.keys == idx.keys && r.m.Keys == idx.m.Keys
      && forall t :: t in idx.m ==> r.m[t] == RowList(TableRows(idx.m[t]))
  {
  }

  /** Row tables first; an instance table's list replaces a row table of the same name. */
  function Finalize<I>(st: State, finalizeAll: (BuilderRef, seq<Update>) -> seq<I>): (r: OMap<string, Output<I>>)
    requires StateValid(st)
    ensures r.Valid() && st.rows.keys <= r.keys
    ensures r.keys == st.rows.keys + InstanceOnly(st.instances.keys, st.rows.m.Keys)
    ensures forall t :: t in r.m <==> t in st.rows.m || t in st.instances.m
    ensures forall t :: t in st.instances.m ==>
      r.m[t] == InstanceList(finalizeAll(st.instances.m[t].builder, st.instances.m[t].sent))
    ensures forall t :: t in st.rows.m && t !in st.instances.m ==> r.m[t] == RowList(TableRows(st.rows.m[t]))
  {
    var base := LiftRows<I>(Materialize(st.rows));
    MaterializedTables<I>(st.rows);
    FinalizeUpToAll(base, st.instances, finalizeAll);
    FinalizeUpTo(base, st.instances, finalizeAll, |st.instances.keys|)
  }

  /** All instance tables put in: the facts `Finalize` promises, for any valid start. */
  lemma FinalizeUpToAll<I>(base: OMap<string, Output<I>>, ins: OMap<string, InstanceTable>,
                           finalizeAll: (BuilderRef, seq<Update>) -> seq<I>)
    requires base.Valid() && ins.Valid()
    ensures forall i :: 0 <= i < |ins.keys| ==> ins.keys[i] in ins.m
    ensures var r := FinalizeUpTo(base, ins, finalizeAll, |ins.keys|);
      && r.Valid() && base.keys <= r.keys
      && r.keys == base.keys + InstanceOnly(ins.keys, base.m.Keys)
      && (forall t :: t in r.m <==> t in base.m || t in ins.m)
      && (forall t :: t in ins.m ==> r.m[t] == InstanceList(finalizeAll(ins.m[t].builder, ins.m[t].sent)))
      && (forall t :: t in base.m && t !in ins.m ==> r.m[t] == base.m[t])
  {
    var ks := ins.keys;
    var n := |ks|;
    ins.ValidAt();
    TakeAll(ks);
    var r := FinalizeUpTo(base, ins, finalizeAll, n);
    FinalizeUpToValid(base, ins, finalizeAll, n);
    FinalizeUpToKeys(base, ins, finalizeAll, n);
    FinalizeUpToMap(base, ins, finalizeAll, n);
    forall t ensures t in r.m <==> t in base.m || t in ins.m {
      SeenTake(ks, n, t);
      FinalizeMapHas(base.m, ins, finalizeAll, n, t);
    }
    forall t | t in ins.m ensures r.m[t] == InstanceList(finalizeAll(ins.m[t].builder, ins.m[t].sent)) {
      SeenTake(ks, n, t);
      FinalizeMapInstance(base.m, ins, finalizeAll, n, t);
    }
    forall t | t in base.m && t !in ins.m ensures r.m[t] == base.m[t] {
      SeenTake(ks, n, t);
      FinalizeMapRows(base.m, ins, finalizeAll, n, t);
    }
  }

  /** What `run_mapping` returns for `spec` over `root`. */
  function Execute<I>(root: Json, spec: MappingSpec<Emit>, hooks: Hooks, finalizeAll: (BuilderRef, seq<Update>) -> seq<I>): Result<OMap<string, Output<I>>, Failure> {
    var r := FoldExec(Ok(InitState()), Emissions(root, spec.traversals), hooks);
    if r.Err? then Err(r.error) else Ok(Finalize(r.value, finalizeAll))
  }

  // ---------------------------------------------------------------
  // The loops
  // ---------------------------------------------------------------

  /** The loop over an instance emit's fields, writing through to the shadow bucket. */
  method BuildUpdates(hooks: Hooks, builder: BuilderRef, policies: map<string, Policy>,
                      bucket: map<string, Json>, ctx: Context, fields: seq<FieldSpec>)
    returns (shadowBucket: map<string, Json>, updates: map<string, Json>)
    ensures (shadowBucket, updates) == FieldUpdates(hooks, builder, policies, bucket, ctx, fields)
  {
    shadowBucket := bucket;
    updates := map[];
    for fi := 0 to |fields|
      invariant (shadowBucket, updates) == FieldUpdates(hooks, builder, policies, bucket, ctx, fields[..fi])
    {
      var specField := fields[fi];
      assert fields[..fi + 1][..fi] == fields[..fi];
      var fieldName := hooks.fieldName(builder, specField);
      var value := Eval(specField.transform, ctx);
      if fieldName in policies {
        var prev := if fieldName in shadowBucket then shadowBucket[fieldName] else JNull;
        value := hooks.merge(policies[fieldName], prev, value);
      }
      shadowBucket := shadowBucket[fieldName := value];
      updates := updates[fieldName := value];
    }
    assert fields[..|fields|] == fields;
  }

  /** The instance branch of the innermost loop, for a key already known to be hashable. */
  method ProcessInstanceEmit(instanceTables: OMap<string, InstanceTable>, ctx: Context, emit: InstanceEmit, compositeKey: Key, hooks: Hooks)
    returns (r: OMap<string, InstanceTable>)
    ensures r == InstanceStep(instanceTables, ctx, emit, compositeKey, hooks)
  {
    var tbl := if emit.table in instanceTables.m then instanceTables.m[emit.table] else NewTable(emit);
    tbl := tbl.(policies := tbl.policies + emit.policies);
    var bucket := if compositeKey in tbl.shadow then tbl.shadow[compositeKey] else map[];
    var shadowBucket, updates := BuildUpdates(hooks, tbl.builder, tbl.policies, bucket, ctx, emit.fields);
    tbl := tbl.(shadow := tbl.shadow[compositeKey := shadowBucket], sent := tbl.sent + [(compositeKey, updates)]);
    r := instanceTables.Put(emit.table, tbl);
  }

  /** The body of the innermost loop for one (context, emit) pair. */
  method ProcessEmit(st: State, ctx: Context, emit: Emit, hooks: Hooks) returns (r: Result<State, Failure>)
    ensures r == ExecStep(st, ctx, emit, hooks)
  {
    var keyParts := EvalAll(JoinKeys(emit), ctx);
    if SkippedKey(keyParts) {
      return Ok(st);
    }
    match emit {
      case Table(t) =>
        var rows := ProcessRowEmit(st.rows, ctx, t);
        if rows.Err? {
          return Err(rows.error);
        }
        return Ok(st.(rows := rows.value));
      case Instance(i) =>
        if !HashableKey(keyParts) {
          return Err(UnhashableKey(i.table, keyParts));
        }
        var tables := ProcessInstanceEmit(st.instances, ctx, i, keyParts, hooks);
        return Ok(st.(instances := tables));
      case Unrecognised(_) =>
        return Ok(st);
    }
  }

  method ProcessContext(st: State, ctx: Context, emits: seq<Emit>, hooks: Hooks) returns (r: Result<State, Failure>)
    ensures r == FoldExec(Ok(st), Pairs(ctx, emits), hooks)
  {
    var cur := st;
    for ei := 0 to |emits|
      invariant FoldExec(Ok(st), Pairs(ctx, emits[..ei]), hooks) == Ok(cur)
    {
      PairsSnoc(ctx, emits, ei);
      FoldExecSnoc(Ok(st), Pairs(ctx, emits[..ei]), (ctx, emits[ei]), hooks);
      var step := ProcessEmit(cur, ctx, emits[ei], hooks);
      if step.Err? {
        PairsSplit(ctx, emits, ei + 1);
        FoldExecErrPrefix(Ok(st), Pairs(ctx, emits[..ei + 1]), Pairs(ctx, emits), hooks);
        return step;
      }
      cur := step.value;
    }
    assert emits[..|emits|] == emits;
    return Ok(cur);
  }

  method ProcessTraversal(st: State, ctxs: seq<Context>, emits: seq<Emit>, hooks: Hooks) returns (r: Result<State, Failure>)
    ensures r == FoldExec(Ok(st), CtxEmissions(ctxs, emits), hooks)
  {
    var cur := st;
    for ci := 0 to |ctxs|
      invariant FoldExec(Ok(st), CtxEmissions(ctxs[..ci], emits), hooks) == Ok(cur)
    {
      CtxEmissionsSnoc(ctxs, emits, ci);
      FoldExecAppend(Ok(st), CtxEmissions(ctxs[..ci], emits), Pairs(ctxs[ci], emits), hooks);
      var step := ProcessContext(cur, ctxs[ci], emits, hooks);
      if step.Err? {
        CtxEmissionsPrefix(ctxs, ci + 1, emits);
        FoldExecErrPrefix(Ok(st), CtxEmissions(ctxs[..ci + 1], emits), CtxEmissions(ctxs, emits), hooks);
        return step;
      }
      cur := step.value;
    }
    assert ctxs[..|ctxs|] == ctxs;
    return Ok(cur);
  }

  /** The final loops: row tables with `id` injected, then each instance table's finalised builder. */
  method FinalizeTables<I>(st: State, finalizeAll: (BuilderRef, seq<Update>) -> seq<I>) returns (result: OMap<string, Output<I>>)
    requires StateValid(st)
    ensures result == Finalize(st, finalizeAll)
  {
    var rows := MaterializeIndex(st.rows);
    result := FinalizeInstances(LiftRows(rows), st.instances, finalizeAll);
    FinalizeAsFold(st, finalizeAll);
  }

  /** The loop over the instance tables, each put in as its builder's finalised list. */
  method FinalizeInstances<I>(base: OMap<string, Output<I>>, ins: OMap<string, InstanceTable>,
                              finalizeAll: (BuilderRef, seq<Update>) -> seq<I>) returns (result: OMap<string, Output<I>>)
    requires forall i :: 0 <= i < |ins.keys| ==> ins.keys[i] in ins.m
    ensures result == FinalizeUpTo(base, ins, finalizeAll, |ins.keys|)
  {
    result := base;
    var tables := ins.keys;
    for t := 0 to |tables|
      invariant result == FinalizeUpTo(base, ins, finalizeAll, t)
    {
      var meta := ins.m[tables[t]];
      var instances := finalizeAll(meta.builder, meta.sent);
      FinalizeUpToStep(base, ins, finalizeAll, t + 1);
      result := result.Put(tables[t], InstanceList(instances));
    }
  }

  /** What `Finalize` returns, as the fold the final loops compute. */
  lemma FinalizeAsFold<I>(st: State, finalizeAll: (BuilderRef, seq<Update>) -> seq<I>)
    requires StateValid(st)
    ensures Finalize(st, finalizeAll) == FinalizeUpTo(LiftRows<I>(Materialize(st.rows)), st.instances, finalizeAll, |st.instances.keys|)
  {
  }

  /** `run_mapping` of etielle/executor.py. */
  method RunMapping<I>(root: Json, spec: MappingSpec<Emit>, hooks: Hooks, finalizeAll: (BuilderRef, seq<Update>) -> seq<I>)
    returns (result: Result<OMap<string, Output<I>>, Failure>)
    ensures result == Execute(root, spec, hooks, finalizeAll)
  {
    var ts := spec.traversals;
    var st := InitState();
    for ti := 0 to |ts|
      invariant FoldExec(Ok(InitState()), Emissions(root, ts[..ti]), hooks) == Ok(st)
    {
      var ctxs := Traverse(root, ts[ti]);
      EmissionsSnoc(root, ts, ti);
      FoldExecAppend(Ok(InitState()), Emissions(root, ts[..ti]), CtxEmissions(ctxs, ts[ti].emits), hooks);
      var step := ProcessTraversal(st, ctxs, ts[ti].emits, hooks);
      if step.Err? {
        EmissionsPrefix(root, ts, ti + 1);
        FoldExecErrPrefix(Ok(InitState()), Emissions(root, ts[..ti + 1]), Emissions(root, ts), hooks);
        return Err(step.error);
      }
      st := step.value;
    }
    assert ts[..|ts|] == ts;
    var out := FinalizeTables(st, finalizeAll);
    return Ok(out);
  }

  // ---------------------------------------------------------------
  // Instance tables, one at a time
  // ---------------------------------------------------------------

  /** The composite key of one (context, emit) pair. */
  function KeyOfEmit(em: (Context, Emit)): Key {
    EvalAll(JoinKeys(em.1), em.0)
  }

  /** The pair reaches the builder of `table`. */
  predicate SendsTo(em: (Context, Emit), table: string) {
    em.1.Instance? && em.1.inst.table == table && !SkippedKey(KeyOfEmit(em))
  }

  /** Reference: the pairs that reach the builder of `table`, in order. */
  function Senders(es: seq<(Context, Emit)>, table: string): seq<(Context, InstanceEmit)>
    decreases |es|
  {
    if es == [] then []
    else
      var prior := Senders(es[..|es| - 1], table);
      var em := es[|es| - 1];
      if SendsTo(em, table) then prior + [(em.0, em.1.inst)] else prior
  }

  /** The policies after each sender's `policies` were merged in with `update`, in order. */
  function MergedPolicies(ws: seq<(Context, InstanceEmit)>): map<string, Policy>
    decreases |ws|
  {
    if ws == [] then map[] else MergedPolicies(ws[..|ws| - 1]) + ws[|ws| - 1].1.policies
  }

  function Bucket(shadow: map<Key, map<string, Json>>, key: Key): map<string, Json> {
    if key in shadow then shadow[key] else map[]
  }

  /** The shadow buckets after the given update calls: each call's values written into its key's bucket. */
  function Accumulate(sent: seq<Update>): map<Key, map<string, Json>>
    decreases |sent|
  {
    if sent == [] then map[]
    else
      var prior := Accumulate(sent[..|sent| - 1]);
      var u := sent[|sent| - 1];
      prior[u.0 := Bucket(prior, u.0) + u.1]
  }

  /**
   * Reference: the update calls the builder of one table receives, computed
   * from that table's senders alone.  Each call carries the sender's key
   * and one value per resolved field name.
   */
  function Replay(hooks: Hooks, builder: BuilderRef, ws: seq<(Context, InstanceEmit)>): (r: seq<Update>)
    ensures |r| == |ws|
    decreases |ws|
  {
    if ws == [] then []
    else
      var prior := Replay(hooks, builder, ws[..|ws| - 1]);
      var w := ws[|ws| - 1];
      var key := EvalAll(w.1.joinKeys, w.0);
      prior + [(key, FieldUpdates(hooks, builder, MergedPolicies(ws), Bucket(Accumulate(prior), key), w.0, w.1.fields).1)]
  }

  /** Update `i` carries the key of sender `i` and exactly its resolved field names. */
  lemma {:induction false} ReplayShape(hooks: Hooks, builder: BuilderRef, ws: seq<(Context, InstanceEmit)>, i: nat)
    requires i < |ws|
    ensures var r := Replay(hooks, builder, ws);
      r[i].0 == EvalAll(ws[i].1.joinKeys, ws[i].0) && r[i].1.Keys == FieldNames(hooks, builder, ws[i].1.fields)
    decreases |ws|
  {
    var p := ws[..|ws| - 1];
    if i < |p| {
      ReplayShape(hooks, builder, p, i);
      assert p[i] == ws[i];
    }
  }

  /** The table an instance step writes: merged policies, one more update call, the bucket written through. */
  lemma InstanceStepAt(tables: OMap<string, InstanceTable>, ctx: Context, e: InstanceEmit, key: Key, hooks: Hooks)
    ensures var tbl := if e.table in tables.m then tables.m[e.table] else NewTable(e);
      var policies := tbl.policies + e.policies;
      var r := FieldUpdates(hooks, tbl.builder, policies, Bucket(tbl.shadow, key), ctx, e.fields);
      InstanceStep(tables, ctx, e, key, hooks).m[e.table]
        == InstanceTable(tbl.builder, tbl.shadow[key := r.0], policies, tbl.sent + [(key, r.1)])
  {
  }

  lemma InstanceStepOthers(tables: OMap<string, InstanceTable>, ctx: Context, e: InstanceEmit, key: Key, hooks: Hooks, t: string)
    requires t != e.table
    ensures t in InstanceStep(tables, ctx, e, key, hooks).m <==> t in tables.m
    ensures t in tables.m ==> InstanceStep(tables, ctx, e, key, hooks).m[t] == tables.m[t]
  {
  }

  /** Instance table `table` of `ins` is the one its senders `ws` build. */
  ghost predicate TableMatches(ins: OMap<string, InstanceTable>, table: string, ws: seq<(Context, InstanceEmit)>, hooks: Hooks) {
    && (table in ins.m <==> ws != [])
    && (table in ins.m ==>
          var tbl := ins.m[table];
          && tbl.builder == ws[0].1.builder
          && tbl.policies == MergedPolicies(ws)
          && tbl.sent == Replay(hooks, tbl.builder, ws)
          && tbl.shadow == Accumulate(tbl.sent))
  }

  lemma MergedPoliciesSnoc(ws: seq<(Context, InstanceEmit)>, w: (Context, InstanceEmit))
    ensures MergedPolicies(ws + [w]) == MergedPolicies(ws) + w.1.policies
  {
    assert (ws + [w])[..|ws|] == ws;
  }

  lemma ReplaySnoc(hooks: Hooks, builder: BuilderRef, ws: seq<(Context, InstanceEmit)>, w: (Context, InstanceEmit))
    ensures var prior := Replay(hooks, builder, ws);
      var key := EvalAll(w.1.joinKeys, w.0);
      Replay(hooks, builder, ws + [w]) ==
        prior + [(key, FieldUpdates(hooks, builder, MergedPolicies(ws + [w]), Bucket(Accumulate(prior), key), w.0, w.1.fields).1)]
  {
    assert (ws + [w])[..|ws|] == ws;
  }

  lemma AccumulateSnoc(sent: seq<Update>, u: Update)
    ensures Accumulate(sent + [u]) == Accumulate(sent)[u.0 := Bucket(Accumulate(sent), u.0) + u.1]
  {
    assert (sent + [u])[..|sent|] == sent;
  }

  /** One more sender keeps the table in step with its senders. */
  lemma SendStep(ins: OMap<string, InstanceTable>, ctx: Context, e: InstanceEmit, key: Key,
                 ws: seq<(Context, InstanceEmit)>, hooks: Hooks)
    requires key == EvalAll(e.joinKeys, ctx)
    requires TableMatches(ins, e.table, ws, hooks)
    ensures TableMatches(InstanceStep(ins, ctx, e, key, hooks), e.table, ws + [(ctx, e)], hooks)
  {
    var w := (ctx, e);
    var ws' := ws + [w];
    InstanceStepAt(ins, ctx, e, key, hooks);
    var tbl := if e.table in ins.m then ins.m[e.table] else NewTable(e);
    var policies := tbl.policies + e.policies;
    MergedPoliciesSnoc(ws, w);
    if e.table !in ins.m {
      assert ws == [];
      assert policies == MergedPolicies(ws') by {
        assert MergedPolicies(ws) == map[];
        assert e.policies + e.policies == map[] + e.policies;
      }
      assert Replay(hooks, tbl.builder, ws) == [] == tbl.sent;
      assert Accumulate([]) == map[] == tbl.shadow;
    } else {
      assert ws'[0] == ws[0];
    }
    ReplaySnoc(hooks, tbl.builder, ws, w);
    var r := FieldUpdates(hooks, tbl.builder, policies, Bucket(tbl.shadow, key), ctx, e.fields);
    AccumulateSnoc(tbl.sent, (key, r.1));
  }

  /** What one step does to the instance tables. */
  lemma ExecStepInstances(st: State, ctx: Context, e: Emit, hooks: Hooks)
    requires ExecStep(st, ctx, e, hooks).Ok?
    ensures var key := EvalAll(JoinKeys(e), ctx);
      ExecStep(st, ctx, e, hooks).value.instances ==
        if e.Instance? && !SkippedKey(key) then InstanceStep(st.instances, ctx, e.inst, key, hooks) else st.instances
  {
  }

  lemma {:induction false} InstanceTablesMatch(es: seq<(Context, Emit)>, table: string, hooks: Hooks)
    requires FoldExec(Ok(InitState()), es, hooks).Ok?
    ensures TableMatches(FoldExec(Ok(InitState()), es, hooks).value.instances, table, Senders(es, table), hooks)
    decreases |es|
  {
    if es != [] {
      var p := es[..|es| - 1];
      var em := es[|es| - 1];
      InstanceTablesMatch(p, table, hooks);
      var st := FoldExec(Ok(InitState()), p, hooks).value;
      assert FoldExec(Ok(InitState()), es, hooks) == ExecStep(st, em.0, em.1, hooks);
      ExecStepInstances(st, em.0, em.1, hooks);
      assert Senders(es, table) == if SendsTo(em, table) then Senders(p, table) + [(em.0, em.1.inst)] else Senders(p, table);
      if SendsTo(em, table) {
        SendStep(st.instances, em.0, em.1.inst, KeyOfEmit(em), Senders(p, table), hooks);
      } else if em.1.Instance? && !SkippedKey(KeyOfEmit(em)) {
        InstanceStepOthers(st.instances, em.0, em.1.inst, KeyOfEmit(em), hooks, table);
      }
    }
  }

  /**
   * Each instance table exists once some pair has reached it.  It keeps the
   * builder of the first such pair.  Its policies, update calls and shadow
   * are those of its own senders, as `MergedPolicies`, `Replay` and
   * `Accumulate` compute them.
   */
  lemma InstanceTableOf(es: seq<(Context, Emit)>, table: string, hooks: Hooks)
    requires FoldExec(Ok(InitState()), es, hooks).Ok?
    ensures var ins := FoldExec(Ok(InitState()), es, hooks).value.instances;
      var ws := Senders(es, table);
      && (table in ins.m <==> ws != [])
      && (table in ins.m ==>
            var tbl := ins.m[table];
            && tbl.builder == ws[0].1.builder
            && tbl.policies == MergedPolicies(ws)
            && tbl.sent == Replay(hooks, tbl.builder, ws)
            && tbl.shadow == Accumulate(tbl.sent))
  {
    InstanceTablesMatch(es, table, hooks);
  }

  /** The update calls of the first `n` senders are the first `n` update calls. */
  lemma ReplayPrefix(hooks: Hooks, builder: BuilderRef, ws: seq<(Context, InstanceEmit)>, n: nat)
    requires n <= |ws|
    ensures Replay(hooks, builder, ws[..n]) == Replay(hooks, builder, ws)[..n]
  {
    var f := v => Replay(hooks, builder, v);
    assert forall v :: |f(v)| == |v|;
    forall v: seq<(Context, InstanceEmit)>, x: (Context, InstanceEmit)
      ensures f(v + [x])[..|v|] == f(v)
    {
      ReplayDropLast(hooks, builder, v + [x]);
      assert (v + [x])[..|v|] == v;
    }
    PrefixClosed(f, ws, n);
  }

  /** A map on sequences that commutes with dropping the last element commutes with every prefix. */
  lemma {:induction false} PrefixClosed<T, U>(f: seq<T> -> seq<U>, ws: seq<T>, n: nat)
    requires n <= |ws|
    requires forall v: seq<T> :: |f(v)| == |v|
    requires forall v: seq<T>, x: T :: f(v + [x])[..|v|] == f(v)
    ensures f(ws[..n]) == f(ws)[..n]
    decreases |ws|
  {
    if n < |ws| {
      var p := ws[..|ws| - 1];
      var fw := f(ws);
      PrefixClosed(f, p, n);
      TakeTake(ws, |ws| - 1, n);
      SnocOfTake(ws);
      TakeTake(fw, |ws| - 1, n);
    } else {
      TakeAll(ws);
    }
  }

  lemma SnocOfTake<T>(s: seq<T>)
    requires s != []
    ensures s == s[..|s| - 1] + [s[|s| - 1]]
  {
  }

  lemma TakeTake<T>(s: seq<T>, m: nat, n: nat)
    requires n <= m <= |s|
    ensures s[..m][..n] == s[..n]
  {
  }

  /** Dropping the last sender drops the last update call. */
  lemma ReplayDropLast(hooks: Hooks, builder: BuilderRef, ws: seq<(Context, InstanceEmit)>)
    requires ws != []
    ensures Replay(hooks, builder, ws)[..|ws| - 1] == Replay(hooks, builder, ws[..|ws| - 1])
  {
  }

  /** No two fields of the emit resolve to the same name. */
  predicate DistinctNames(hooks: Hooks, builder: BuilderRef, fields: seq<FieldSpec>) {
    forall i, j :: 0 <= i < j < |fields| ==> FieldName(hooks, builder, fields[i]) != FieldName(hooks, builder, fields[j])
  }

  /**
   * With distinct field names, each field forwards its new value merged
   * through its policy with the bucket's previous value (null if none),
   * or the new value itself when it has no policy.
   */
  lemma {:induction false} ForwardedValues(hooks: Hooks, builder: BuilderRef, policies: map<string, Policy>,
                                           bucket: map<string, Json>, ctx: Context, fields: seq<FieldSpec>)
    requires DistinctNames(hooks, builder, fields)
    ensures var r := FieldUpdates(hooks, builder, policies, bucket, ctx, fields);
      forall q :: 0 <= q < |fields| ==>
        var name := FieldName(hooks, builder, fields[q]);
        r.1[name] == Forward(hooks, policies, name, Prev(bucket, name), Eval(fields[q].transform, ctx))
  {
    forall q | 0 <= q < |fields|
      ensures var name := FieldName(hooks, builder, fields[q]);
        FieldUpdates(hooks, builder, policies, bucket, ctx, fields).1[name]
          == Forward(hooks, policies, name, Prev(bucket, name), Eval(fields[q].transform, ctx))
    {
      ForwardedValueAt(hooks, builder, policies, bucket, ctx, fields, q);
    }
  }

  /** The last field's value is forwarded into the updates of the fields before it. */
  lemma FieldUpdatesLast(hooks: Hooks, builder: BuilderRef, policies: map<string, Policy>,
                         bucket: map<string, Json>, ctx: Context, fields: seq<FieldSpec>)
    requires fields != []
    ensures var prior := FieldUpdates(hooks, builder, policies, bucket, ctx, fields[..|fields| - 1]);
      var fs := fields[|fields| - 1];
      var name := FieldName(hooks, builder, fs);
      var value := Forward(hooks, policies, name, Prev(prior.0, name), Eval(fs.transform, ctx));
      FieldUpdates(hooks, builder, policies, bucket, ctx, fields) == (prior.0[name := value], prior.1[name := value])
  {
  }

  /** A name no field resolves to is not among the resolved names. */
  lemma NotAFieldName(hooks: Hooks, builder: BuilderRef, fields: seq<FieldSpec>, name: string)
    requires forall k :: 0 <= k < |fields| ==> FieldName(hooks, builder, fields[k]) != name
    ensures name !in FieldNames(hooks, builder, fields)
  {
  }

  /** Dropping the last field keeps the names distinct, and the last name is not among the others. */
  lemma DistinctNamesDropLast(hooks: Hooks, builder: BuilderRef, fields: seq<FieldSpec>)
    requires fields != [] && DistinctNames(hooks, builder, fields)
    ensures var p := fields[..|fields| - 1];
      DistinctNames(hooks, builder, p) && FieldName(hooks, builder, fields[|fields| - 1]) !in FieldNames(hooks, builder, p)
  {
    var p := fields[..|fields| - 1];
    assert forall k :: 0 <= k < |p| ==> p[k] == fields[k];
    NotAFieldName(hooks, builder, p, FieldName(hooks, builder, fields[|fields| - 1]));
  }

  /** `ForwardedValues` for the field at position `q`. */
  lemma {:induction false} ForwardedValueAt(hooks: Hooks, builder: BuilderRef, policies: map<string, Policy>,
                                            bucket: map<string, Json>, ctx: Context, fields: seq<FieldSpec>, q: nat)
    requires DistinctNames(hooks, builder, fields) && q < |fields|
    ensures var name := FieldName(hooks, builder, fields[q]);
      FieldUpdates(hooks, builder, policies, bucket, ctx, fields).1[name]
        == Forward(hooks, policies, name, Prev(bucket, name), Eval(fields[q].transform, ctx))
    decreases |fields|
  {
    var p := fields[..|fields| - 1];
    var last := FieldName(hooks, builder, fields[|fields| - 1]);
    var prior := FieldUpdates(hooks, builder, policies, bucket, ctx, p);
    FieldUpdatesLast(hooks, builder, policies, bucket, ctx, fields);
    DistinctNamesDropLast(hooks, builder, fields);
    if q == |fields| - 1 {
      assert last !in prior.1;
      assert Prev(prior.0, last) == Prev(bucket, last);
    } else {
      assert p[q] == fields[q];
      ForwardedValueAt(hooks, builder, policies, bucket, ctx, p, q);
      assert FieldName(hooks, builder, fields[q]) != last;
    }
  }

  /**
   * The `i`-th update call a builder receives: each field, when the
   * sender's names are distinct, carries the sender's value merged through
   * the policies in force at that point with the value its key's bucket
   * held after the earlier calls.
   */
  lemma ReplayValues(hooks: Hooks, builder: BuilderRef, ws: seq<(Context, InstanceEmit)>, i: nat, q: nat)
    requires i < |ws| && q < |ws[i].1.fields| && DistinctNames(hooks, builder, ws[i].1.fields)
    ensures var sent := Replay(hooks, builder, ws);
      var name := FieldName(hooks, builder, ws[i].1.fields[q]);
      name in sent[i].1 && sent[i].1[name] == Forward(hooks, MergedPolicies(ws[..i + 1]), name,
                                 Prev(Bucket(Accumulate(sent[..i]), sent[i].0), name),
                                 Eval(ws[i].1.fields[q].transform, ws[i].0))
  {
    var sent := Replay(hooks, builder, ws);
    var w := ws[i];
    var key := EvalAll(w.1.joinKeys, w.0);
    ReplayAt(hooks, builder, ws, i);
    assert FieldName(hooks, builder, w.1.fields[q]) in FieldNames(hooks, builder, w.1.fields);
    ForwardedValues(hooks, builder, MergedPolicies(ws[..i + 1]), Bucket(Accumulate(sent[..i]), key), w.0, w.1.fields);
  }

  /** Update call `i`: sender `i`'s key and the updates its fields make on the bucket left by the earlier calls. */
  lemma ReplayAt(hooks: Hooks, builder: BuilderRef, ws: seq<(Context, InstanceEmit)>, i: nat)
    requires i < |ws|
    ensures var sent := Replay(hooks, builder, ws);
      var w := ws[i];
      var key := EvalAll(w.1.joinKeys, w.0);
      sent[i] == (key, FieldUpdates(hooks, builder, MergedPolicies(ws[..i + 1]), Bucket(Accumulate(sent[..i]), key), w.0, w.1.fields).1)
  {
    var sent := Replay(hooks, builder, ws);
    var pre := ws[..i + 1];
    TakeTake(ws, i + 1, i);
    ReplayPrefix(hooks, builder, ws, i + 1);
    ReplayPrefix(hooks, builder, ws, i);
    assert sent[i] == sent[..i + 1][i];
  }

  /** A policy is in force for `name` exactly when some sender declared one. */
  lemma {:induction false} MergedPoliciesDomain(ws: seq<(Context, InstanceEmit)>, name: string)
    ensures name in MergedPolicies(ws) <==> exists i :: 0 <= i < |ws| && name in ws[i].1.policies
    decreases |ws|
  {
    if ws != [] {
      var p := ws[..|ws| - 1];
      MergedPoliciesDomain(p, name);
      assert forall i :: 0 <= i < |p| ==> p[i] == ws[i];
    }
  }

  /** The sender seen last that declares a policy for `name` decides it. */
  lemma {:induction false} LaterPolicyWins(ws: seq<(Context, InstanceEmit)>, name: string, j: nat)
    requires j < |ws| && name in ws[j].1.policies
    requires forall i :: j < i < |ws| ==> name !in ws[i].1.policies
    ensures name in MergedPolicies(ws) && MergedPolicies(ws)[name] == ws[j].1.policies[name]
    decreases |ws|
  {
    if j < |ws| - 1 {
      var p := ws[..|ws| - 1];
      assert name !in ws[|ws| - 1].1.policies;
      LaterPolicyWins(p, name, j);
    }
  }

  /** The senders of a table are exactly the pairs that reach it. */
  lemma {:induction false} SendersSpec(es: seq<(Context, Emit)>, table: string)
    ensures forall j :: 0 <= j < |es| && SendsTo(es[j], table) ==> (es[j].0, es[j].1.inst) in Senders(es, table)
    ensures forall w :: w in Senders(es, table) ==>
      exists j :: 0 <= j < |es| && SendsTo(es[j], table) && w == (es[j].0, es[j].1.inst)
    decreases |es|
  {
    if es != [] {
      var p := es[..|es| - 1];
      SendersSpec(p, table);
      assert forall j :: 0 <= j < |p| ==> p[j] == es[j];
    }
  }

  // ---------------------------------------------------------------
  // Failure, skipping, unknown emits
  // ---------------------------------------------------------------

  /** A skipped pair changes nothing, whatever the emit's type. */
  lemma SkippedPairIsNoOp(st: State, ctx: Context, e: Emit, hooks: Hooks)
    requires SkippedKey(EvalAll(JoinKeys(e), ctx))
    ensures ExecStep(st, ctx, e, hooks) == Ok(st)
  {
  }

  /** An emit of an unrecognised type is ignored, even with an unhashable key. */
  lemma UnrecognisedIgnored(st: State, ctx: Context, keys: seq<Transform>, hooks: Hooks)
    ensures ExecStep(st, ctx, Unrecognised(keys), hooks) == Ok(st)
  {
  }

  function EmitTable(e: Emit): string {
    match e
    case Table(t) => t.table
    case Instance(i) => i.table
    case Unrecognised(_) => ""
  }

  /** The pair reaches a dict-key lookup with a key that cannot be hashed. */
  predicate ExecUnhashable(em: (Context, Emit)) {
    !em.1.Unrecognised? && !SkippedKey(KeyOfEmit(em)) && !HashableKey(KeyOfEmit(em))
  }

  /** The run fails exactly when some row or instance pair that is not skipped has an unhashable key; the first one is reported. */
  /** One step fails exactly on an unhashable key of a row or instance emit, and reports that key. */
  lemma ExecStepFails(st: State, ctx: Context, e: Emit, hooks: Hooks)
    ensures ExecStep(st, ctx, e, hooks).Err? <==> ExecUnhashable((ctx, e))
    ensures ExecStep(st, ctx, e, hooks).Err? ==>
      ExecStep(st, ctx, e, hooks).error == UnhashableKey(EmitTable(e), KeyOfEmit((ctx, e)))
  {
    if e.Table? {
      RowStepFails(st.rows, ctx, e.row);
    }
  }

  lemma {:induction false} ExecFailure(es: seq<(Context, Emit)>, hooks: Hooks)
    ensures FoldExec(Ok(InitState()), es, hooks).Err? <==> exists j :: 0 <= j < |es| && ExecUnhashable(es[j])
    ensures FoldExec(Ok(InitState()), es, hooks).Err? ==>
      exists j :: 0 <= j < |es| && ExecUnhashable(es[j]) && (forall i :: 0 <= i < j ==> !ExecUnhashable(es[i]))
        && FoldExec(Ok(InitState()), es, hooks).error == UnhashableKey(EmitTable(es[j].1), KeyOfEmit(es[j]))
    decreases |es|
  {
    if es != [] {
      var p := es[..|es| - 1];
      var em := es[|es| - 1];
      var prev := FoldExec(Ok(InitState()), p, hooks);
      ExecFailure(p, hooks);
      assert forall j :: 0 <= j < |p| ==> p[j] == es[j];
      if prev.Err? {
        assert FoldExec(Ok(InitState()), es, hooks) == prev;
        var j :| 0 <= j < |p| && ExecUnhashable(p[j]) && (forall i :: 0 <= i < j ==> !ExecUnhashable(p[i]))
          && prev.error == UnhashableKey(EmitTable(p[j].1), KeyOfEmit(p[j]));
        assert ExecUnhashable(es[j]);
      } else {
        assert FoldExec(Ok(InitState()), es, hooks) == ExecStep(prev.value, em.0, em.1, hooks);
        ExecStepFails(prev.value, em.0, em.1, hooks);
        assert forall i :: 0 <= i < |p| ==> !ExecUnhashable(es[i]);
        if ExecUnhashable(em) {
          assert ExecUnhashable(es[|p|]);
        }
      }
    }
  }

  // ---------------------------------------------------------------
  // Agreement with the row engine
  // ---------------------------------------------------------------

  function LiftEmits(emits: seq<TableEmit>): (r: seq<Emit>)
    ensures |r| == |emits|
  {
    seq(|emits|, i requires 0 <= i < |emits| => Table(emits[i]))
  }

  function LiftTraversal(t: TraversalSpec<TableEmit>): TraversalSpec<Emit> {
    TraversalSpec(t.path, t.iterateItems, LiftEmits(t.emits), t.innerPath, t.innerIterateItems)
  }

  function LiftTraversals(ts: seq<TraversalSpec<TableEmit>>): (r: seq<TraversalSpec<Emit>>)
    ensures |r| == |ts|
  {
    seq(|ts|, i requires 0 <= i < |ts| => LiftTraversal(ts[i]))
  }

  /** A row-only mapping spec, as the executor receives it. */
  function LiftSpec(spec: MappingSpec<TableEmit>): MappingSpec<Emit> {
    MappingSpec(LiftTraversals(spec.traversals))
  }

  function LiftPairs(es: seq<(Context, TableEmit)>): (r: seq<(Context, Emit)>)
    ensures |r| == |es|
  {
    seq(|es|, i requires 0 <= i < |es| => (es[i].0, Table(es[i].1)))
  }

  lemma LiftPairsAppend(a: seq<(Context, TableEmit)>, b: seq<(Context, TableEmit)>)
    ensures LiftPairs(a + b) == LiftPairs(a) + LiftPairs(b)
  {
  }

  lemma TraverseLift(root: Json, t: TraversalSpec<TableEmit>)
    ensures Traverse(root, LiftTraversal(t)) == Traverse(root, t)
  {
    assert OuterContexts(root, LiftTraversal(t)) == OuterContexts(root, t);
    assert HasInner(LiftTraversal(t)) == HasInner(t);
  }

  lemma {:induction false} CtxEmissionsLift(ctxs: seq<Context>, emits: seq<TableEmit>)
    ensures CtxEmissions(ctxs, LiftEmits(emits)) == LiftPairs(CtxEmissions(ctxs, emits))
    decreases |ctxs|
  {
    if ctxs != [] {
      CtxEmissionsLift(ctxs[..|ctxs| - 1], emits);
      var a := CtxEmissions(ctxs[..|ctxs| - 1], emits);
      var b := Pairs(ctxs[|ctxs| - 1], emits);
      assert Pairs(ctxs[|ctxs| - 1], LiftEmits(emits)) == LiftPairs(b);
      LiftPairsAppend(a, b);
    }
  }

  /** The executor visits the same pairs, with each row emit wrapped. */
  lemma {:induction false} EmissionsLift(root: Json, ts: seq<TraversalSpec<TableEmit>>)
    ensures Emissions(root, LiftTraversals(ts)) == LiftPairs(Emissions(root, ts))
    decreases |ts|
  {
    if ts != [] {
      var p := ts[..|ts| - 1];
      var t := ts[|ts| - 1];
      EmissionsLift(root, p);
      assert LiftTraversals(ts)[..|ts| - 1] == LiftTraversals(p);
      assert LiftTraversals(ts)[|ts| - 1] == LiftTraversal(t);
      TraverseLift(root, t);
      CtxEmissionsLift(Traverse(root, t), t.emits);
      var a := Emissions(root, p);
      var b := CtxEmissions(Traverse(root, t), t.emits);
      assert Emissions(root, ts) == a + b;
      assert Emissions(root, LiftTraversals(ts)) ==
        Emissions(root, LiftTraversals(p)) + CtxEmissions(Traverse(root, LiftTraversal(t)), LiftEmits(t.emits));
      LiftPairsAppend(a, b);
    }
  }

  /** On row emits alone, the executor's state is the row engine's index and no instance table. */
  lemma {:induction false} FoldLift(es: seq<(Context, TableEmit)>, hooks: Hooks)
    ensures var rows := FoldRows(Ok(EmptyOMap()), es);
      FoldExec(Ok(InitState()), LiftPairs(es), hooks)
        == if rows.Err? then Err(rows.error) else Ok(State(rows.value, EmptyOMap()))
    decreases |es|
  {
    if es != [] {
      var p := es[..|es| - 1];
      var em := es[|es| - 1];
      assert es == p + [em];
      LiftPairsAppend(p, [em]);
      FoldExecSnoc(Ok(InitState()), LiftPairs(p), (em.0, Table(em.1)), hooks);
      FoldRowsSnoc(Ok(EmptyOMap()), p, em);
      FoldLift(p, hooks);
      var rows := FoldRows(Ok(EmptyOMap()), p);
      if rows.Ok? {
        ExecStepTable(State(rows.value, EmptyOMap()), em.0, em.1, hooks);
      }
    }
  }

  /** A row emit steps the executor's row index exactly as the row engine steps it. */
  lemma ExecStepTable(st: State, ctx: Context, e: TableEmit, hooks: Hooks)
    ensures var rows := RowStep(st.rows, ctx, e);
      ExecStep(st, ctx, Table(e), hooks) == if rows.Err? then Err(rows.error) else Ok(st.(rows := rows.value))
  {
  }

  /** On a row-only spec, etielle/executor.py returns what etielle/main.py returns. */
  lemma ExecutorAgreesOnRows<I>(root: Json, spec: MappingSpec<TableEmit>, hooks: Hooks, finalizeAll: (BuilderRef, seq<Update>) -> seq<I>)
    ensures var rows := Rows(root, spec);
      Execute(root, LiftSpec(spec), hooks, finalizeAll)
        == if rows.Err? then Err(rows.error) else Ok(LiftRows(rows.value))
  {
    EmissionsLift(root, spec.traversals);
    FoldLift(Emissions(root, spec.traversals), hooks);
    var r := FoldRows(Ok(EmptyOMap()), Emissions(root, spec.traversals));
    if r.Ok? {
      var st := State(r.value, EmptyOMap());
      assert st.instances.keys[..0] == st.instances.keys;
    }
  }

  /** The row emits among `es`, in order, each with its context. */
  function TablePairs(es: seq<(Context, Emit)>): (r: seq<(Context, TableEmit)>)
    decreases |es|
  {
    if es == [] then []
    else
      var em := es[|es| - 1];
      TablePairs(es[..|es| - 1]) + (if em.1.Table? then [(em.0, em.1.row)] else [])
  }

  /** A row pair of `es` is kept, and nothing else is. */
  lemma {:induction false} TablePairsMembers(es: seq<(Context, Emit)>, ctx: Context, e: TableEmit)
    ensures (ctx, e) in TablePairs(es) <==> (ctx, Table(e)) in es
    decreases |es|
  {
    if es != [] {
      var p := es[..|es| - 1];
      TablePairsMembers(p, ctx, e);
      assert es == p + [es[|es| - 1]];
    }
  }

  /** A step that succeeds changes the rows as the row engine's step does, and only on a row emit. */
  lemma ExecStepRows(st: State, ctx: Context, e: Emit, hooks: Hooks)
    requires ExecStep(st, ctx, e, hooks).Ok?
    ensures e.Table? ==>
              RowStep(st.rows, ctx, e.row).Ok? && ExecStep(st, ctx, e, hooks).value.rows == RowStep(st.rows, ctx, e.row).value
    ensures !e.Table? ==> ExecStep(st, ctx, e, hooks).value.rows == st.rows
  {
  }

  /**
   * On any spec, row and instance emits mixed, a successful run's row
   * index is the row engine's index over the row emits alone.
   */
  lemma {:induction false} RowsOfMixed(es: seq<(Context, Emit)>, hooks: Hooks)
    requires FoldExec(Ok(InitState()), es, hooks).Ok?
    ensures FoldRows(Ok(EmptyOMap()), TablePairs(es)) == Ok(FoldExec(Ok(InitState()), es, hooks).value.rows)
    decreases |es|
  {
    if es != [] {
      var p := es[..|es| - 1];
      var em := es[|es| - 1];
      var prev := FoldExec(Ok(InitState()), p, hooks);
      RowsOfMixed(p, hooks);
      ExecStepRows(prev.value, em.0, em.1, hooks);
      if em.1.Table? {
        FoldRowsSnoc(Ok(EmptyOMap()), TablePairs(p), (em.0, em.1.row));
      } else {
        assert TablePairs(es) == TablePairs(p) + [] == TablePairs(p);
      }
    }
  }

  /**
   * In the result of a successful run on any spec, a row table that no
   * instance table replaced holds the row engine's rows for the row emits.
   */
  lemma MixedRowTables<I>(root: Json, spec: MappingSpec<Emit>, hooks: Hooks,
                          finalizeAll: (BuilderRef, seq<Update>) -> seq<I>, t: string)
    requires Execute(root, spec, hooks, finalizeAll).Ok?
    ensures var es := Emissions(root, spec.traversals);
      var st := FoldExec(Ok(InitState()), es, hooks).value;
      var rows := FoldRows(Ok(EmptyOMap()), TablePairs(es));
      rows.Ok? && rows.value == st.rows &&
      (t in rows.value.m && t !in st.instances.m ==>
        Execute(root, spec, hooks, finalizeAll).value.m[t] == RowList(TableRows(rows.value.m[t])))
  {
    RowsOfMixed(Emissions(root, spec.traversals), hooks);
  }
}
