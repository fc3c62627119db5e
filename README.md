# etielle traversal-and-merge engine in Dafny

etielle turns a nested JSON-like tree into rows keyed by join keys, or into
instances managed by builders. This project models the engine behind that in
Dafny and proves what it does.

- **Path resolver** (`Paths`). `_resolve_path` walks string and integer
  segments through mappings and lists. It is modelled twice:
  - `Resolve`, a function;
  - `ResolvePath`, the source's loop, proved to compute `Resolve`.
  Dotted path strings (`"a.0.b"`) are split, empty pieces are dropped, and
  all-digit pieces become integer segments.
- **Transform library** (`Transforms`). Transforms are a closed datatype,
  evaluated against a traversal `Context`. It covers `literal`, `key`, `index`,
  `get`, `get_from_root`, `get_from_parent`, `parent_key`, `len_of`, `concat`,
  `format_id` and `coalesce`. The factories are functions of the same names.
- **Traversal** (`Traversal`). `_iter_traversal_nodes` becomes `Traverse`,
  which returns the finite list of contexts the generator yields:
  - mapping mode;
  - list mode;
  - single-node mode;
  - an optional inner level under every outer context.
  The code is identical in `main.py` and `executor.py`, so it is modelled once.
  `Emissions` flattens the three nested loops of `run_mapping` into the
  sequence of (context, emit) pairs they visit.
- **Row engine** (`RowEngine`). `main.run_mapping` is the method `RunMapping`:
  a `for` loop per loop level of the source, over an insertion-ordered
  dictionary `OMap` shaped table → composite key → row. It is proved equal to
  the fold `Rows`. Lemmas relate `Rows` to independent reference definitions:
  - which tables and keys are written, and in what order;
  - the last value written to each field;
  - `id` injection;
  - when the run fails.
- **Executor** (`Executor`). `executor.run_mapping` adds the instance-emit
  branch. Each instance table holds:
  - its builder, fixed by the first emit;
  - the merged policy map;
  - the shadow accumulator;
  - the log of `builder.update` calls.
  Finalization hands that log to `finalize_all`. Lemmas characterise each
  table against reference definitions (`Senders`, `MergedPolicies`, `Replay`,
  `Accumulate`). `ExecutorAgreesOnRows` proves that on table emits alone the
  executor returns exactly what the row engine returns. `RowsOfMixed` proves
  that on any spec the executor's row index is the row engine's index over the
  row emits alone.
- **Scenarios** (`Scenarios`). Two concrete runs are proved end to end, down
  to what the run returns:
  - a list of users becomes one row per user;
  - the add-policy counter of `tests/test_instances.py` returns the one table
    `user_counts`, holding `finalize_all` of its three updates.

Some collaborators' code is not part of this model. They are parameters
(`Executor.Hooks` and the `finalizeAll` argument):
- `resolve_field_name_for_builder` is `fieldName: (BuilderRef, FieldSpec) -> string`. It receives the builder and the whole field spec;
- `policy.merge(prev, value)` is `merge: (Policy, Json, Json) -> Json`;
- `builder.finalize_all()` is `finalizeAll: (BuilderRef, seq<Update>) -> seq<I>`.
  It receives the builder and the sequence of `update(key, values)` calls the
  builder received.

A dictionary used as a key raises `TypeError` in Python; so does a list. Such
a join key is modelled as `Err(UnhashableKey(table, key))`, which ends the run.

The inner traversal level behaves as follows, and the model keeps it:
- An inner context's `path` is its outer context's path plus the position or
  key. The `inner_path` segments are not included.
- Even though `Context` documents `path` as absolute, such a path does not
  resolve back to the node. `Traversal.InnerPathOmitsInnerSegments` exhibits
  this.
- `Traversal.AbsolutePaths` proves that without an inner level the path does
  resolve to the node.

## Model

| member | source | states |
|---|---|---|
| Paths.ResolvePath | etielle/main.py:93-108 | the segment loop returns exactly `Resolve(obj, path)` |
| Paths.ResolveCases | etielle/main.py:93-108 | the empty path returns the object unchanged; each of the following gives `None`: a missing key, an integer segment on a mapping, an out-of-range index, a string segment on a list, any segment on a scalar or a string |
| Paths.ResolveAppend | etielle/main.py:93-108 | resolving `p + q` is resolving `q` from the result of `p` |
| Paths.ResolveNullAbsorbs | etielle/main.py:93-108 | once a value is `None`, no further segment recovers |
| Paths.LookupMiss | etielle/main.py:96-97 | `value.get(seg, None)` on a mapping without that key is `None` |
| Paths.LookupUnique | etielle/main.py:96-97 | with distinct keys, the lookup of entry i's key is entry i's value |
| Paths.SplitDots | etielle/main.py:164-165 | `str.split(".")` gives at least one piece, and no piece contains a dot |
| Paths.JoinSplit | etielle/main.py:164-165 | splitting dot-joined dot-free pieces gives the pieces back |
| Paths.ParsePathRoundTrip | etielle/main.py:164-167 | every path with non-empty, dot-free, non-numeric keys and non-negative indices parses back from its dotted spelling |
| Paths.ParsePathSingleKey | etielle/main.py:164-167 | a non-empty dot-free key not starting with a digit parses to that single key |
| Paths.ParsePathMixed | etielle/main.py:164-167 | `"a.0.b"` parses to the keys `a`, `b` around the index `0` |
| Paths.ParsePathDropsEmpty | etielle/main.py:164-167 | `".x..7."` drops the empty pieces and parses to `x, 7` |
| Values.NatDigitsValue | etielle/main.py:164 | the decimal digits of n read back as n, so `int(seg)` inverts `str(i)` |
| Transforms.LiteralIsConstant | etielle/main.py:129-140 | `literal(v)` gives `v` in every context; a transform passed to it is returned unchanged |
| Transforms.KeyAndIndexReadContext | etielle/main.py:143-154 | `key()` and `index()` are `None` exactly when the context has no key or index, and otherwise give it |
| Transforms.GetPathForms | etielle/main.py:157-198 | the dotted spelling and the segment list of a path give the same value, relative to the node for `get` and to the root for `get_from_root` |
| Transforms.GetComposes | etielle/main.py:157-198 | `get(p + q)` is `q` resolved from the value of `get(p)`, and the same for `get_from_root` |
| Transforms.ParentAtClimbs | etielle/main.py:207-211 | the ancestor loop climbs `max(depth, 1)` levels and yields nothing when the chain is shorter |
| Transforms.GetFromParentReadsAncestor | etielle/main.py:201-214 | `get_from_parent(p, depth)` resolves `p` from the ancestor `max(depth, 1)` levels up, and is `None` when there is none |
| Transforms.ParentKeyReadsAncestor | etielle/main.py:217-224 | `parent_key(depth)` is that ancestor's key, and `None` when there is no such ancestor or it has no key |
| Transforms.LenOfSizes | etielle/main.py:227-234 | `len_of` is the length of a list, mapping or string, and `None` exactly for other values |
| Transforms.ConcatLaws | etielle/main.py:237-244 | `concat` of `a + b` is the text of `a` followed by that of `b`; a `None` part renders as `""` and any other part as `str(v)` |
| Transforms.FormatIdJoinsParts | etielle/main.py:247-254 | when no part is `None` or `""`, `format_id` joins the parts' `str()` with `sep` |
| Transforms.FormatIdSkipsEmpty | etielle/main.py:247-254 | a `None` or `""` part changes nothing, wherever it stands |
| Transforms.FirstNonNull | etielle/main.py:258-263 | the result is `None` iff every value is; otherwise it is some value all of whose predecessors are `None` |
| Transforms.CoalesceFirstNonNull | etielle/main.py:257-265 | `coalesce` is `None` iff every inner transform is; otherwise it is the first non-`None` inner value |
| Traversal.MappingMode | etielle/main.py:276-287 | over a mapping of n entries, mapping mode yields n contexts; the entry's key, no index, path extended by the key, parent the base context |
| Traversal.MappingModeNonMapping | etielle/main.py:276-287 | mapping mode over anything but a mapping yields nothing |
| Traversal.SequenceMode | etielle/main.py:289-299 | over a list of n elements, list mode yields n contexts; context i has `index = i`, no key, path extended by `i`, node element i |
| Traversal.SingleNodeMode | etielle/main.py:300-310 | list mode over a non-list yields exactly one context, wrapping the container, with the parent's path unchanged |
| Traversal.InnerLevel | etielle/main.py:313-322 | with an inner path, every yielded context's parent is an outer context, and the context comes from that parent's inner container |
| Traversal.InnerDefaults | etielle/main.py:313-322 | a missing `inner_iterate_items` acts as `False`; an empty `inner_path` acts as none |
| Traversal.ContextShape | etielle/main.py:273-322 | every yielded context has the run's root and a parent chain of length one, or two with an inner level, ending at the base context |
| Traversal.AbsolutePaths | etielle/main.py:273-310 | without an inner level, resolving a context's path from the root gives its node |
| Traversal.InnerPathOmitsInnerSegments | etielle/main.py:313-322 | an illustration on one concrete input: an inner context's path leaves out the inner path and so does not resolve to its node |
| Traversal.LenOfCountsContexts | etielle/main.py:227-234 | `len_of(get_from_root(path))` equals the number of contexts a list or mapping traversal yields |
| Traversal.GroupKeyIsParentKey | etielle/main.py:217-224 | under a mapping-mode outer level, `parent_key()` of every inner context is the key of its outer entry |
| Values.OMap.Put | etielle/main.py:343 | dict assignment: the value is replaced; a new key goes last and an existing key keeps its position |
| RowEngine.ProcessRowEmit | etielle/main.py:337-348 | one emit at one context does what `RowStep` specifies |
| RowEngine.ProcessContext | etielle/main.py:336-348 | the emit loop folds `RowStep` over the context's emits |
| RowEngine.ProcessTraversal | etielle/main.py:335-348 | the context loop folds over every (context, emit) pair of the traversal |
| RowEngine.RunMapping | etielle/main.py:325-359 | the whole function returns `Rows(root, spec)` |
| RowEngine.MaterializeTable | etielle/main.py:352-357 | the row list of one table is `TableRows` of its index |
| RowEngine.MaterializeIndex | etielle/main.py:350-358 | the result keeps table order, and each table maps to its materialised rows |
| RowEngine.Materialize | etielle/main.py:350-358 | the result is a valid ordered dict with the index's tables in order, each mapped to `TableRows` |
| RowEngine.SkippedEmitIsNoOp | etielle/main.py:338-340 | an emit with a `None` or `""` key part leaves the index unchanged |
| RowEngine.KeysWrittenSpec | etielle/main.py:338-343 | a key is listed for a table iff some pair that is not skipped writes it |
| RowEngine.ApplyFieldsValue | etielle/main.py:346-348 | after the field loop a field is present iff it was present or is written, and it holds the last write |
| RowEngine.RowOrder | etielle/main.py:343 | tables appear in order of first write, and rows in order of first write of their key |
| RowEngine.RowPresence | etielle/main.py:338-343 | a row exists for a key iff some pair that is not skipped writes that key to that table |
| RowEngine.RowFieldValue | etielle/main.py:343-348 | a field of a row holds the last value written to it for that key, and is absent if never written |
| RowEngine.RowStepFails | etielle/main.py:338-343 | one pair fails exactly when it is not skipped and its key has a list or mapping part, and the error names that table and key |
| RowEngine.RowStepKeys | etielle/main.py:343 | one pair appends its table to the table order only on first write, and its key to the row order only on first write |
| RowEngine.RowsFailure | etielle/main.py:341-343 | the run fails iff some pair that is not skipped has a key with a list or mapping part; the first such pair is reported |
| RowEngine.TableRowsInjectId | etielle/main.py:353-356 | `id` is added, equal to the key's only part, exactly when the key has one part and no `id` was written; other fields are untouched |
| RowEngine.RowsResult | etielle/main.py:325-359 | end to end: table order, one row per written key in first-write order, each field's last write, and the `id` rule |
| Executor.FieldUpdates | etielle/executor.py:114-123 | the shadow bucket afterwards is the old bucket overwritten by the updates, and the updates' names are exactly the resolved field names |
| Executor.BuildUpdates | etielle/executor.py:114-123 | the field loop computes `FieldUpdates` |
| Executor.ForwardedValues | etielle/executor.py:117-123 | each field forwards `merge(policy, prev, new)` with `prev` the bucket's old value, or `None`; with no policy it forwards the raw value |
| Executor.ProcessInstanceEmit | etielle/executor.py:97-126 | one instance emit does what `InstanceStep` specifies |
| Executor.InstanceStepAt | etielle/executor.py:97-125 | in the target table: builder kept, policies merged, only this key's bucket rewritten, one update appended |
| Executor.InstanceStepOthers | etielle/executor.py:97-125 | every other instance table is unchanged |
| Executor.ProcessEmit | etielle/executor.py:82-129 | one emit at one context: skip, row branch, instance branch or ignore |
| Executor.ProcessContext | etielle/executor.py:82-129 | the emit loop folds `ExecStep` over the context's emits |
| Executor.ProcessTraversal | etielle/executor.py:81-129 | the context loop folds over every (context, emit) pair of the traversal |
| Executor.FinalizeTables | etielle/executor.py:131-145 | the finalisation loops compute `Finalize` |
| Executor.FinalizeInstances | etielle/executor.py:140-145 | the instance-table loop, started from the row tables, puts in every instance table in order, each as its builder's `finalize_all` list |
| Executor.FinalizeAsFold | etielle/executor.py:131-145 | `Finalize` is that instance-table loop run over the materialised row tables |
| Executor.FinalizeUpToAll | etielle/executor.py:140-145 | after the loop: a valid ordered dict; the row tables first, then the instance-only tables; a table is present iff it is a row or an instance table; an instance table holds its builder's `finalize_all` list; any other row table keeps its rows |
| Executor.Finalize | etielle/executor.py:131-145 | the row tables come first in their order, then the instance tables without a row table of the same name, in their order; an instance table maps to its builder's `finalize_all` of its updates, with no `id`, replacing a row table of the same name |
| Executor.InstanceOnlyMembers | etielle/executor.py:140-145 | the tables appended after the row tables are exactly the instance tables that are not row tables |
| Executor.FinalizeUpToKeys | etielle/executor.py:140-145 | after the first n instance tables, the keys are the row tables followed by the new tables among those n |
| Executor.RunMapping | etielle/executor.py:64-146 | the whole function returns `Execute(root, spec, hooks, finalizeAll)` |
| Executor.InstanceTableOf | etielle/executor.py:97-126 | an instance table exists iff some pair reaches it; its builder is the first emit's, its policies are the merge of all emits', its updates replay the senders in order, its shadow accumulates them |
| Executor.Replay | etielle/executor.py:114-125 | one `update` call per sending pair |
| Executor.ReplayShape | etielle/executor.py:114-125 | update call i carries sender i's key and exactly its resolved field names |
| Executor.ReplayPrefix | etielle/executor.py:114-125 | the first n update calls depend only on the first n senders |
| Executor.ReplayAt | etielle/executor.py:110-125 | update call i is sender i's key with the updates its fields make on the bucket the earlier calls left, under the policies merged up to sender i |
| Executor.ReplayValues | etielle/executor.py:110-125 | each update value merges the new value with the shadow's value left by the earlier updates, under the policies merged so far |
| Executor.MergedPoliciesDomain | etielle/executor.py:99-108 | a field has a merged policy iff some emit declares one |
| Executor.LaterPolicyWins | etielle/executor.py:99-108 | the merged policy of a field is the one from the last emit that declares it |
| Executor.SendersSpec | etielle/executor.py:80-126 | the senders of a table are exactly the pairs that are not skipped and have an instance emit for it |
| Executor.SkippedPairIsNoOp | etielle/executor.py:84-87 | a pair with a `None` or `""` key part changes neither rows nor instance tables |
| Executor.UnrecognisedIgnored | etielle/executor.py:128-129 | an emit of unknown type changes nothing |
| Executor.ExecStepFails | etielle/executor.py:84-111 | one pair fails exactly when it is a row or instance emit, not skipped, with an unhashable key; the error names its table and key |
| Executor.ExecFailure | etielle/executor.py:84-111 | the run fails iff some row or instance pair that is not skipped has an unhashable key; the first is reported |
| Executor.TraverseLift | etielle/executor.py:12-61 | the executor's traversal yields the same contexts as `main.py`'s |
| Executor.FoldLift | etielle/executor.py:90-95 | on row emits only, the executor's fold builds the row engine's index and no instance table |
| Executor.ExecutorAgreesOnRows | etielle/executor.py:90-95 | on table emits only, the executor's result is the row engine's result, including its failure |
| Executor.TablePairsMembers | etielle/executor.py:90-95 | the row pairs picked out of a run are exactly its pairs with a row emit |
| Executor.ExecStepTable | etielle/executor.py:90-95 | a row emit steps the executor's row index exactly as the row engine steps it, failure included, and leaves the instance tables alone |
| Executor.ExecStepRows | etielle/executor.py:84-95 | a successful step changes the row index as the row engine's step does on a row emit, and leaves it unchanged otherwise |
| Executor.RowsOfMixed | etielle/executor.py:82-129 | on any spec, row and instance emits mixed, a successful run's row index is the row engine's fold over its row emits alone |
| Executor.MixedRowTables | etielle/executor.py:133-139 | in a successful run's result, a row table no instance table replaced holds exactly the row engine's rows for the row emits |
| Scenarios.UsersRows | etielle/main.py:325-359 | users `[{id 1, Alice}, {id 2, Bob}]` with join key `id` give exactly two rows, in order |
| Scenarios.AddPolicyCounts | tests/test_instances.py:53-92 | with an add policy on a constant-1 `count` keyed by `user_id`, events `u1, u1, u2` leave shadow counts 2 and 1 and send updates 1, 2, 1 |
| Scenarios.AddPolicyResult | tests/test_instances.py:53-92 | the whole run returns exactly one table, `user_counts`, holding the builder's `finalize_all` of those three updates |

## Left out

- Input and output, and the network: the Supabase adapter is not part of this model.
- Relationship resolution, binding and dependency-ordered flushing: `relationships.py` is not part of this model.
- The fluent API (`fluent.py`): it holds only frozen dataclasses.
- The concrete builders, the policy classes and `resolve_field_name_for_builder`: their code is not part of this model. They are parameters.
  - The executor's `update`/`finalize_all` effect is a log of update calls handed to `finalizeAll`.
  - `merge` and field-name resolution are functions in `Executor.Hooks`.
- Builder objects shared between two instance tables: a builder is a reference value, not aliased state, so tables sharing one builder object do not see each other's updates.
- A builder's state from before the run: a builder object reused across runs starts from what it already holds, while the model hands `finalizeAll` only this run's updates.
- Exceptions from collaborators: `merge`, field-name resolution, `update` and `finalize_all` are total functions here, while the source's may raise.
- Python values other than JSON `None`, ints, strings, lists and mappings, in particular floats and booleans: the `Json` datatype has no such values.
- Arbitrary user callables as transforms: transforms are a closed datatype of the library's combinators.
- Context `slots`: no combinator reads them.
- `str()` of values is modelled exactly for ints and strings. Lists and mappings get a repr without quote escaping.
- `str.isdigit` decides only ASCII digits. Unicode digits are not modelled.
- Generator laziness: traversal is a finite list, so interleaving with later failures is not observable.
- The order of fields within a row: rows are maps. The order of tables and of rows is modelled.
- Duplicate keys in mappings: the model's lookup takes the first entry, and `Traversal.AbsolutePaths` only covers traversals whose mapping has distinct keys.
- Integer keys of mappings: mapping keys are strings, so an integer segment never finds a key.
- `TypeError` on an unhashable join key is an `Err` result, not an exception. State mutated before the raise is not observable.
- Executor.ForwardedValues: requires distinct resolved field names. With a repeated name, the later field's value overwrites the earlier one, and its `prev` is the earlier field's value.
- Executor.ReplayValues: requires distinct resolved field names, for the same reason.
- tests/test_field_selectors.py targets another executor API (`mode="auto"`, `.instances` results) that is not part of this model.
