/** Worked runs of both engines on small inputs. */
module Scenarios {
  import opened Wrappers
  import opened Values
  import opened Paths
  import opened Transforms
  import opened Specs
  import opened Traversal
  import opened RowEngine
  import opened Executor

  function User(id: int, name: string): Json {
    JObj([("id", JInt(id)), ("name", JStr(name))])
  }

  function UsersRoot(): Json {
    JObj([("users", JArr([User(1, "Alice"), User(2, "Bob")]))])
  }

  function UsersEmit(): TableEmit {
    TableEmit("users", [Field("name", Get(Segments([S("name")])))], [Get(Segments([S("id")]))])
  }

  function UsersSpec(): MappingSpec<TableEmit> {
    MappingSpec([TraversalSpec([S("users")], false, [UsersEmit()], None, None)])
  }

  /** The paths `get("name")`, `get("id")` and `get("user_id")` parse to. */
  lemma DottedKeys()
    ensures Get(Dotted("name")) == Get(Segments([S("name")]))
    ensures Get(Dotted("id")) == Get(Segments([S("id")]))
    ensures Get(Dotted("user_id")) == Get(Segments([S("user_id")]))
  {
    ParsePathSingleKey("name");
    ParsePathSingleKey("id");
    ParsePathSingleKey("user_id");
  }

  /** The context of the `i`-th element of the list at `key` of `root`. */
  function ElementCtx(root: Json, key: string, i: nat, node: Json): Context {
    Context(root, node, [S(key), I(i)], Some(BaseContext(root, [S(key)])), None, Some(i))
  }

  lemma UsersEmissions()
    ensures Emissions(UsersRoot(), UsersSpec().traversals) ==
      [(UserCtx(0, 1, "Alice"), UsersEmit()), (UserCtx(1, 2, "Bob"), UsersEmit())]
  {
    var root := UsersRoot();
    var t := UsersSpec().traversals[0];
    var c0 := UserCtx(0, 1, "Alice");
    var c1 := UserCtx(1, 2, "Bob");
    assert Resolve(root, [S("users")]) == JArr([User(1, "Alice"), User(2, "Bob")]);
    SequenceMode(root, t);
    var r := Traverse(root, t);
    assert [S("users")] + [I(0)] == c0.path && [S("users")] + [I(1)] == c1.path;
    assert r[0] == c0 && r[1] == c1;
    assert r == [c0, c1];
    assert CtxEmissions([c0, c1], t.emits) == [(c0, UsersEmit()), (c1, UsersEmit())] by {
      assert [c0, c1][..1] == [c0];
      assert [c0][..0] == [];
    }
    assert UsersSpec().traversals[..0] == [];
  }

  function UserCtx(i: nat, id: int, name: string): Context {
    ElementCtx(UsersRoot(), "users", i, User(id, name))
  }

  lemma UserRowStep(idx: RowIndex, i: nat, id: int, name: string)
    ensures RowStep(idx, UserCtx(i, id, name), UsersEmit()) ==
      var t := TableOf(idx, "users");
      Ok(idx.Put("users", t.Put([JInt(id)], RowOf(t, [JInt(id)])["name" := JStr(name)])))
  {
    var ctx := UserCtx(i, id, name);
    var e := UsersEmit();
    assert Resolve(User(id, name), [S("id")]) == JInt(id);
    var entries := [("id", JInt(id)), ("name", JStr(name))];
    assert entries[1..] == [("name", JStr(name))];
    assert Lookup(entries, "name") == JStr(name);
    assert Resolve(User(id, name), [S("name")]) == JStr(name);
    assert EvalAll(e.joinKeys, ctx) == [JInt(id)];
    assert !SkippedKey([JInt(id)]) && HashableKey([JInt(id)]);
    assert e.fields[..0] == [];
  }

  function AliceRow(): Row { map["name" := JStr("Alice")] }
  function BobRow(): Row { map["name" := JStr("Bob")] }

  /** The index after the first user, and after both. */
  function UsersIndex1(): RowIndex {
    OMap(["users"], map["users" := OMap([[JInt(1)]], map[[JInt(1)] := AliceRow()])])
  }

  function UsersIndex2(): RowIndex {
    OMap(["users"], map["users" := OMap([[JInt(1)], [JInt(2)]], map[[JInt(1)] := AliceRow(), [JInt(2)] := BobRow()])])
  }

  lemma UsersStep1()
    ensures RowStep(EmptyOMap(), UserCtx(0, 1, "Alice"), UsersEmit()) == Ok(UsersIndex1())
  {
    var empty: RowIndex := EmptyOMap();
    UserRowStep(empty, 0, 1, "Alice");
    var t0: OMap<Key, Row> := EmptyOMap();
    assert TableOf(empty, "users") == t0;
    assert RowOf(t0, [JInt(1)])["name" := JStr("Alice")] == AliceRow();
    assert t0.Put([JInt(1)], AliceRow()) == UsersIndex1().m["users"];
    assert empty.Put("users", UsersIndex1().m["users"]) == UsersIndex1();
  }

  lemma UsersStep2()
    ensures RowStep(UsersIndex1(), UserCtx(1, 2, "Bob"), UsersEmit()) == Ok(UsersIndex2())
  {
    var idx := UsersIndex1();
    UserRowStep(idx, 1, 2, "Bob");
    assert TableOf(idx, "users") == idx.m["users"];
    assert [JInt(2)] != [JInt(1)];
    assert RowOf(idx.m["users"], [JInt(2)])["name" := JStr("Bob")] == BobRow();
    assert idx.m["users"].Put([JInt(2)], BobRow()) == UsersIndex2().m["users"];
    assert idx.Put("users", UsersIndex2().m["users"]) == UsersIndex2();
  }

  lemma UsersFold()
    ensures FoldRows(Ok(EmptyOMap()), [(UserCtx(0, 1, "Alice"), UsersEmit()), (UserCtx(1, 2, "Bob"), UsersEmit())])
      == Ok(UsersIndex2())
  {
    var e := UsersEmit();
    var c0 := UserCtx(0, 1, "Alice");
    var c1 := UserCtx(1, 2, "Bob");
    UsersStep1();
    UsersStep2();
    FoldRowsSnoc(Ok(EmptyOMap()), [], (c0, e));
    assert [] + [(c0, e)] == [(c0, e)];
    FoldRowsSnoc(Ok(EmptyOMap()), [(c0, e)], (c1, e));
    assert [(c0, e)] + [(c1, e)] == [(c0, e), (c1, e)];
  }

  /** Two users keyed by `id`: one row each, in input order, `id` injected from the key. */
  lemma UsersRows()
    ensures Rows(UsersRoot(), UsersSpec()) ==
      Ok(OMap(["users"], map["users" := [map["name" := JStr("Alice"), "id" := JInt(1)],
                                         map["name" := JStr("Bob"), "id" := JInt(2)]]]))
  {
    UsersEmissions();
    UsersFold();
    UsersMaterialized();
  }

  /** The row list of the users table: `id` injected into both rows. */
  lemma UsersTableRows()
    ensures TableRows(UsersIndex2().m["users"]) == [AliceRow()["id" := JInt(1)], BobRow()["id" := JInt(2)]]
  {
    var t := UsersIndex2().m["users"];
    assert t.keys == [[JInt(1)], [JInt(2)]];
    assert WithId(t.keys[0], t.m[t.keys[0]]) == AliceRow()["id" := JInt(1)];
    assert WithId(t.keys[1], t.m[t.keys[1]]) == BobRow()["id" := JInt(2)];
  }

  lemma UsersMaterialized()
    ensures Materialize(UsersIndex2()) ==
      OMap(["users"], map["users" := [map["name" := JStr("Alice"), "id" := JInt(1)],
                                     map["name" := JStr("Bob"), "id" := JInt(2)]]])
  {
    var idx := UsersIndex2();
    UsersTableRows();
    var r := Materialize(idx);
    assert r.keys == ["users"];
    assert r.m.Keys == {"users"};
    assert AliceRow()["id" := JInt(1)] == map["name" := JStr("Alice"), "id" := JInt(1)];
    assert BobRow()["id" := JInt(2)] == map["name" := JStr("Bob"), "id" := JInt(2)];
  }

  // ---------------------------------------------------------------

  function Event(user: string): Json {
    JObj([("user_id", JStr(user))])
  }

  function EventsRoot(): Json {
    JObj([("events", JArr([Event("u1"), Event("u1"), Event("u2")]))])
  }

  function CountEmit(): InstanceEmit {
    InstanceEmit("user_counts", [Get(Segments([S("user_id")]))],
      [FieldSpec(ByName("user_id"), Get(Segments([S("user_id")]))), FieldSpec(ByName("count"), Literal(Plain(JInt(1))))],
      BuilderRef(0), map["count" := AddPolicy])
  }

  function CountsSpec(): MappingSpec<Emit> {
    MappingSpec([TraversalSpec([S("events")], false, [Instance(CountEmit())], None, None)])
  }

  function Counted(user: string, n: int): map<string, Json> {
    map["user_id" := JStr(user), "count" := JInt(n)]
  }

  function EventCtx(i: nat, user: string): Context {
    ElementCtx(EventsRoot(), "events", i, Event(user))
  }

  lemma EventsEmissions()
    ensures Emissions(EventsRoot(), CountsSpec().traversals) ==
      [(EventCtx(0, "u1"), Instance(CountEmit())), (EventCtx(1, "u1"), Instance(CountEmit())),
       (EventCtx(2, "u2"), Instance(CountEmit()))]
  {
    var root := EventsRoot();
    var t := CountsSpec().traversals[0];
    var c0 := EventCtx(0, "u1");
    var c1 := EventCtx(1, "u1");
    var c2 := EventCtx(2, "u2");
    assert Resolve(root, [S("events")]) == JArr([Event("u1"), Event("u1"), Event("u2")]);
    SequenceMode(root, t);
    var r := Traverse(root, t);
    assert [S("events")] + [I(0)] == c0.path && [S("events")] + [I(1)] == c1.path && [S("events")] + [I(2)] == c2.path;
    assert r[0] == c0 && r[1] == c1 && r[2] == c2;
    assert r == [c0, c1, c2];
    var e := Instance(CountEmit());
    assert Pairs(c0, t.emits) == [(c0, e)] && Pairs(c1, t.emits) == [(c1, e)] && Pairs(c2, t.emits) == [(c2, e)];
    var cs := [c0, c1, c2];
    CtxEmissionsSnoc(cs, t.emits, 0);
    CtxEmissionsSnoc(cs, t.emits, 1);
    CtxEmissionsSnoc(cs, t.emits, 2);
    assert cs[..0] == [] && cs[..3] == cs;
    assert CtxEmissions(cs, t.emits) == [(c0, e), (c1, e), (c2, e)];
    assert CountsSpec().traversals[..0] == [];
  }

  /** The add-policy hooks the scenario relies on. */
  ghost predicate AddHooks(hooks: Hooks) {
    && (forall b, n, t :: hooks.fieldName(b, FieldSpec(ByName(n), t)) == n)
    && (forall v :: hooks.merge(AddPolicy, JNull, v) == v)
    && (forall a, b :: hooks.merge(AddPolicy, JInt(a), JInt(b)) == JInt(a + b))
  }

  lemma CountUpdates(hooks: Hooks, i: nat, user: string, bucket: map<string, Json>, n: int)
    requires AddHooks(hooks)
    requires (bucket == map[] && n == 1) || bucket == Counted(user, n - 1)
    ensures FieldUpdates(hooks, BuilderRef(0), map["count" := AddPolicy], bucket, EventCtx(i, user), CountEmit().fields)
      == (Counted(user, n), Counted(user, n))
  {
    var fields := CountEmit().fields;
    var ctx := EventCtx(i, user);
    var b := BuilderRef(0);
    var pol := map["count" := AddPolicy];
    CountFields(hooks, i, user);
    ForwardedValues(hooks, b, pol, bucket, ctx, fields);
    var r := FieldUpdates(hooks, b, pol, bucket, ctx, fields);
    assert FieldNames(hooks, b, fields) == {"user_id", "count"};
    assert r.1["user_id"] == JStr(user);
    assert r.1["count"] == JInt(n);
    assert r.1 == Counted(user, n);
    assert bucket.Keys <= r.1.Keys;
    assert r.0 == bucket + r.1 == r.1;
  }

  /** The two fields of the count emit: `user_id` carries the user, `count` carries 1. */
  lemma CountFields(hooks: Hooks, i: nat, user: string)
    requires AddHooks(hooks)
    ensures var fields := CountEmit().fields;
      && |fields| == 2
      && FieldName(hooks, BuilderRef(0), fields[0]) == "user_id" && FieldName(hooks, BuilderRef(0), fields[1]) == "count"
      && Eval(fields[0].transform, EventCtx(i, user)) == JStr(user)
      && Eval(fields[1].transform, EventCtx(i, user)) == JInt(1)
  {
    assert Resolve(Event(user), [S("user_id")]) == JStr(user);
  }

  lemma EventKey(i: nat, user: string)
    requires user != ""
    ensures KeyOfEmit((EventCtx(i, user), Instance(CountEmit()))) == [JStr(user)]
    ensures !SkippedKey([JStr(user)]) && HashableKey([JStr(user)])
  {
    assert Dropped(JStr(user)) ==> user == "";
  }

  function CountsTable(shadow: map<Key, map<string, Json>>, sent: seq<Update>): State {
    State(EmptyOMap(), OMap(["user_counts"], map["user_counts" := InstanceTable(BuilderRef(0), shadow, map["count" := AddPolicy], sent)]))
  }

  /** The instance step of the first event: the table is created with its first bucket and update. */
  lemma CountFirstInstanceStep(hooks: Hooks, i: nat, user: string)
    requires AddHooks(hooks)
    ensures InstanceStep(EmptyOMap(), EventCtx(i, user), CountEmit(), [JStr(user)], hooks)
      == OMap(["user_counts"], map["user_counts" := InstanceTable(BuilderRef(0),
           map[[JStr(user)] := Counted(user, 1)], map["count" := AddPolicy], [([JStr(user)], Counted(user, 1))])])
  {
    var ins: OMap<string, InstanceTable> := EmptyOMap();
    var pol := map["count" := AddPolicy];
    assert pol + pol == pol;
    assert NewTable(CountEmit()) == InstanceTable(BuilderRef(0), map[], pol, []);
    assert Bucket(map[], [JStr(user)]) == map[];
    CountUpdates(hooks, i, user, map[], 1);
    InstanceStepAt(ins, EventCtx(i, user), CountEmit(), [JStr(user)], hooks);
    var r := InstanceStep(ins, EventCtx(i, user), CountEmit(), [JStr(user)], hooks);
    assert r.m.Keys == {"user_counts"};
    assert [] + [([JStr(user)], Counted(user, 1))] == [([JStr(user)], Counted(user, 1))];
    assert map[][[JStr(user)] := Counted(user, 1)] == map[[JStr(user)] := Counted(user, 1)];
  }

  /** The instance step of a later event, on the existing table. */
  lemma CountInstanceStep(hooks: Hooks, ins: OMap<string, InstanceTable>, i: nat, user: string, n: int)
    requires AddHooks(hooks)
    requires ins.keys == ["user_counts"] && ins.m.Keys == {"user_counts"}
    requires ins.m["user_counts"].builder == BuilderRef(0) && ins.m["user_counts"].policies == map["count" := AddPolicy]
    requires var b := Bucket(ins.m["user_counts"].shadow, [JStr(user)]);
      (b == map[] && n == 1) || b == Counted(user, n - 1)
    ensures var tbl := ins.m["user_counts"];
      InstanceStep(ins, EventCtx(i, user), CountEmit(), [JStr(user)], hooks)
        == OMap(["user_counts"], map["user_counts" := InstanceTable(BuilderRef(0),
             tbl.shadow[[JStr(user)] := Counted(user, n)], map["count" := AddPolicy], tbl.sent + [([JStr(user)], Counted(user, n))])])
  {
    var tbl := ins.m["user_counts"];
    var pol := map["count" := AddPolicy];
    assert tbl.policies + pol == pol;
    CountUpdates(hooks, i, user, Bucket(tbl.shadow, [JStr(user)]), n);
    InstanceStepAt(ins, EventCtx(i, user), CountEmit(), [JStr(user)], hooks);
    var r := InstanceStep(ins, EventCtx(i, user), CountEmit(), [JStr(user)], hooks);
    assert r.m.Keys == {"user_counts"};
  }

  /** The executor step of event `i` of `user`: the key is kept and the instance step applies. */
  lemma CountExecStep(hooks: Hooks, st: State, i: nat, user: string)
    requires user != ""
    ensures ExecStep(st, EventCtx(i, user), Instance(CountEmit()), hooks)
      == Ok(st.(instances := InstanceStep(st.instances, EventCtx(i, user), CountEmit(), [JStr(user)], hooks)))
  {
    EventKey(i, user);
  }

  function K(user: string): Key { [JStr(user)] }

  function CountsState1(): State {
    CountsTable(map[K("u1") := Counted("u1", 1)], [(K("u1"), Counted("u1", 1))])
  }

  function CountsState2(): State {
    CountsTable(map[K("u1") := Counted("u1", 2)], [(K("u1"), Counted("u1", 1)), (K("u1"), Counted("u1", 2))])
  }

  function CountsState3(): State {
    CountsTable(map[K("u1") := Counted("u1", 2), K("u2") := Counted("u2", 1)],
                [(K("u1"), Counted("u1", 1)), (K("u1"), Counted("u1", 2)), (K("u2"), Counted("u2", 1))])
  }

  lemma CountsStage1(hooks: Hooks)
    requires AddHooks(hooks)
    ensures ExecStep(InitState(), EventCtx(0, "u1"), Instance(CountEmit()), hooks) == Ok(CountsState1())
  {
    CountExecStep(hooks, InitState(), 0, "u1");
    CountFirstInstanceStep(hooks, 0, "u1");
  }

  lemma CountsStage2(hooks: Hooks)
    requires AddHooks(hooks)
    ensures ExecStep(CountsState1(), EventCtx(1, "u1"), Instance(CountEmit()), hooks) == Ok(CountsState2())
  {
    var tbl := CountsState1().instances.m["user_counts"];
    assert Bucket(tbl.shadow, K("u1")) == Counted("u1", 1);
    assert tbl.shadow[K("u1") := Counted("u1", 2)] == map[K("u1") := Counted("u1", 2)];
    assert tbl.sent + [(K("u1"), Counted("u1", 2))] == [(K("u1"), Counted("u1", 1)), (K("u1"), Counted("u1", 2))];
    CountExecStep(hooks, CountsState1(), 1, "u1");
    CountInstanceStep(hooks, CountsState1().instances, 1, "u1", 2);
  }

  lemma CountsStage3(hooks: Hooks)
    requires AddHooks(hooks)
    ensures ExecStep(CountsState2(), EventCtx(2, "u2"), Instance(CountEmit()), hooks) == Ok(CountsState3())
  {
    assert K("u2") != K("u1");
    var tbl := CountsState2().instances.m["user_counts"];
    assert Bucket(tbl.shadow, K("u2")) == map[];
    assert tbl.shadow[K("u2") := Counted("u2", 1)] == map[K("u1") := Counted("u1", 2), K("u2") := Counted("u2", 1)];
    assert tbl.sent + [(K("u2"), Counted("u2", 1))] ==
      [(K("u1"), Counted("u1", 1)), (K("u1"), Counted("u1", 2)), (K("u2"), Counted("u2", 1))];
    CountExecStep(hooks, CountsState2(), 2, "u2");
    CountInstanceStep(hooks, CountsState2().instances, 2, "u2", 1);
  }

  /**
   * Events `u1, u1, u2` with an add policy on a constant-1 `count`: the
   * builder receives three updates, the second carrying count 2, and the
   * shadow buckets end at counts 2 and 1.
   */
  lemma AddPolicyCounts(hooks: Hooks)
    requires AddHooks(hooks)
    ensures FoldExec(Ok(InitState()), Emissions(EventsRoot(), CountsSpec().traversals), hooks) ==
      Ok(CountsTable(map[[JStr("u1")] := Counted("u1", 2), [JStr("u2")] := Counted("u2", 1)],
                     [([JStr("u1")], Counted("u1", 1)), ([JStr("u1")], Counted("u1", 2)), ([JStr("u2")], Counted("u2", 1))]))
  {
    EventsEmissions();
    var e := Instance(CountEmit());
    var c0 := EventCtx(0, "u1");
    var c1 := EventCtx(1, "u1");
    var c2 := EventCtx(2, "u2");
    CountsStage1(hooks);
    CountsStage2(hooks);
    CountsStage3(hooks);
    FoldExecSnoc(Ok(InitState()), [], (c0, e), hooks);
    assert [] + [(c0, e)] == [(c0, e)];
    FoldExecSnoc(Ok(InitState()), [(c0, e)], (c1, e), hooks);
    assert [(c0, e)] + [(c1, e)] == [(c0, e), (c1, e)];
    FoldExecSnoc(Ok(InitState()), [(c0, e), (c1, e)], (c2, e), hooks);
    assert [(c0, e), (c1, e)] + [(c2, e)] == [(c0, e), (c1, e), (c2, e)];
  }

  /** The three update calls the counting builder receives. */
  function CountsSent(): seq<Update> {
    [(K("u1"), Counted("u1", 1)), (K("u1"), Counted("u1", 2)), (K("u2"), Counted("u2", 1))]
  }

  lemma OneTableValid<V>(o: OMap<string, V>)
    requires o.keys == ["user_counts"] && o.m.Keys == {"user_counts"}
    ensures o.Valid()
  {
  }

  /** Finalising a state whose only table is the instance table `user_counts`. */
  lemma FinalizeCountsTable<I>(tbl: InstanceTable, finalizeAll: (BuilderRef, seq<Update>) -> seq<I>)
    ensures var st := State(EmptyOMap(), OMap(["user_counts"], map["user_counts" := tbl]));
      StateValid(st) &&
      Finalize(st, finalizeAll) == OMap(["user_counts"], map["user_counts" := InstanceList(finalizeAll(tbl.builder, tbl.sent))])
  {
    var st := State(EmptyOMap(), OMap(["user_counts"], map["user_counts" := tbl]));
    OneTableValid(st.instances);
    var r := Finalize(st, finalizeAll);
    assert r.keys == ["user_counts"] by {
      assert ["user_counts"][..0] == [];
      assert InstanceOnly(["user_counts"], st.rows.m.Keys) == ["user_counts"];
    }
    assert r.m == map["user_counts" := InstanceList(finalizeAll(tbl.builder, tbl.sent))] by {
      assert r.m.Keys == {"user_counts"};
    }
  }

  /**
   * The whole run: the result holds the one table `user_counts`, whose
   * value is what the builder's `finalize_all` makes of the three updates.
   */
  lemma AddPolicyResult<I>(hooks: Hooks, finalizeAll: (BuilderRef, seq<Update>) -> seq<I>)
    requires AddHooks(hooks)
    ensures Execute(EventsRoot(), CountsSpec(), hooks, finalizeAll) ==
      Ok(OMap(["user_counts"], map["user_counts" := InstanceList(finalizeAll(BuilderRef(0), CountsSent()))]))
  {
    AddPolicyCounts(hooks);
    FinalizeCountsTable(CountsState3().instances.m["user_counts"], finalizeAll);
  }
}
