/** `_iter_traversal_nodes`: the contexts one traversal visits, in order. */
module Traversal {
  import opened Wrappers
  import opened Values
  import opened Paths
  import opened Transforms
  import opened Specs

  /** `yield_from_container`: the contexts produced below `parent` from `container`. */
  function FromContainer(root: Json, parent: Context, container: Json, iterateItems: bool): seq<Context> {
    if iterateItems then
      match container
      case JObj(es) =>
        seq(|es|, i requires 0 <= i < |es| =>
          Context(root, es[i].1, parent.path + [S(es[i].0)], Some(parent), Some(es[i].0), None))
      case _ => []
    else
      match container
      case JArr(xs) =>
        seq(|xs|, i requires 0 <= i < |xs| =>
          Context(root, xs[i], parent.path + [I(i)], Some(parent), None, Some(i)))
      case _ => [Context(root, container, parent.path, Some(parent), None, None)]
  }

  /** `_iter_nodes`: the context of the outer container itself. */
  function BaseContext(root: Json, path: seq<Segment>): Context {
    Context(root, Resolve(root, path), path, None, None, None)
  }

  /** `if not spec.inner_path`: `None` and the empty path both mean "no inner level". */
  predicate HasInner<E>(spec: TraversalSpec<E>) {
    spec.innerPath.Some? && spec.innerPath.value != []
  }

  /** Whether the inner level iterates mapping entries; a missing flag means no. */
  function InnerItems<E>(spec: TraversalSpec<E>): bool {
    spec.innerIterateItems == Some(true)
  }

  /** The contexts below each outer context, outer by outer. */
  function InnerContexts(root: Json, outers: seq<Context>, innerPath: seq<Segment>, items: bool): seq<Context>
    decreases |outers|
  {
    if outers == [] then []
    else
      var last := outers[|outers| - 1];
      InnerContexts(root, outers[..|outers| - 1], innerPath, items)
        + FromContainer(root, last, Resolve(last.node, innerPath), items)
  }

  function OuterContexts<E>(root: Json, spec: TraversalSpec<E>): seq<Context> {
    var base := BaseContext(root, spec.path);
    FromContainer(root, base, base.node, spec.iterateItems)
  }

  /** `_iter_traversal_nodes(root, spec)`, as the finite list of what it yields. */
  function Traverse<E>(root: Json, spec: TraversalSpec<E>): seq<Context> {
    var outers := OuterContexts(root, spec);
    if !HasInner(spec) then outers
    else InnerContexts(root, outers, spec.innerPath.value, InnerItems(spec))
  }

  // ---------------------------------------------------------------
  // The three ways of iterating the outer container
  // ---------------------------------------------------------------

  /**
   * List mode over a list of N elements yields N contexts; context i holds
   * element i, `index = i`, no key, and the base path extended by `i`.
   */
  lemma SequenceMode<E>(root: Json, spec: TraversalSpec<E>)
    requires !HasInner(spec) && !spec.iterateItems && Resolve(root, spec.path).JArr?
    ensures var xs := Resolve(root, spec.path).elems;
      var r := Traverse(root, spec);
      && |r| == |xs|
      && forall i :: 0 <= i < |r| ==>
        && r[i].index == Some(i) && r[i].key == None
        && r[i].path == spec.path + [I(i)] && r[i].node == xs[i]
        && r[i].parent == Some(BaseContext(root, spec.path)) && r[i].root == root
  {
  }

  /**
   * Mapping mode over a mapping yields one context per entry, in entry order:
   * the entry's value, `key = k`, no index, and the base path extended by `k`.
   */
  lemma MappingMode<E>(root: Json, spec: TraversalSpec<E>)
    requires !HasInner(spec) && spec.iterateItems && Resolve(root, spec.path).JObj?
    ensures var es := Resolve(root, spec.path).entries;
      var r := Traverse(root, spec);
      && |r| == |es|
      && forall i :: 0 <= i < |r| ==>
        && r[i].key == Some(es[i].0) && r[i].index == None
        && r[i].path == spec.path + [S(es[i].0)] && r[i].node == es[i].1
        && r[i].parent == Some(BaseContext(root, spec.path)) && r[i].root == root
  {
  }

  /** Mapping mode over anything but a mapping (a list included) yields nothing. */
  lemma MappingModeNonMapping<E>(root: Json, spec: TraversalSpec<E>)
    requires !HasInner(spec) && spec.iterateItems && !Resolve(root, spec.path).JObj?
    ensures Traverse(root, spec) == []
  {
  }

  /**
   * List mode over anything but a list (`None`, a scalar, a string or a
   * mapping) yields exactly one context wrapping it, with the path unchanged.
   */
  lemma SingleNodeMode<E>(root: Json, spec: TraversalSpec<E>)
    requires !HasInner(spec) && !spec.iterateItems && !Resolve(root, spec.path).JArr?
    ensures Traverse(root, spec) ==
      [Context(root, Resolve(root, spec.path), spec.path, Some(BaseContext(root, spec.path)), None, None)]
  {
  }

  // ---------------------------------------------------------------
  // The inner level
  // ---------------------------------------------------------------

  lemma {:induction false} InnerContextsParents(root: Json, outers: seq<Context>, innerPath: seq<Segment>, items: bool)
    ensures forall c :: c in InnerContexts(root, outers, innerPath, items) ==>
      && c.parent.Some? && c.parent.value in outers
      && c in FromContainer(root, c.parent.value, Resolve(c.parent.value.node, innerPath), items)
    decreases |outers|
  {
    if outers != [] {
      var prefix := outers[..|outers| - 1];
      var last := outers[|outers| - 1];
      InnerContextsParents(root, prefix, innerPath, items);
      forall c | c in FromContainer(root, last, Resolve(last.node, innerPath), items)
        ensures c.parent == Some(last)
      {
      }
    }
  }

  /**
   * With an inner path, every yielded context is produced below one of the
   * outer contexts, from the container the inner path reaches from that
   * outer node, and its parent is that outer context.
   */
  lemma InnerLevel<E>(root: Json, spec: TraversalSpec<E>)
    requires HasInner(spec)
    ensures forall c :: c in Traverse(root, spec) ==>
      && c.parent.Some? && c.parent.value in OuterContexts(root, spec)
      && c in FromContainer(root, c.parent.value, Resolve(c.parent.value.node, spec.innerPath.value), InnerItems(spec))
  {
    InnerContextsParents(root, OuterContexts(root, spec), spec.innerPath.value, InnerItems(spec));
  }

  /** A missing `inner_iterate_items` means list mode; an empty inner path means no inner level. */
  lemma InnerDefaults<E>(root: Json, spec: TraversalSpec<E>)
    ensures spec.innerIterateItems == None ==>
      Traverse(root, spec) == Traverse(root, spec.(innerIterateItems := Some(false)))
    ensures spec.innerPath == Some([]) ==>
      Traverse(root, spec) == Traverse(root, spec.(innerPath := None))
  {
  }

  /** Every context keeps the root, and its ancestor chain ends at a base context. */
  lemma {:induction false} InnerContextsShape(root: Json, base: Context, outers: seq<Context>, innerPath: seq<Segment>, items: bool)
    requires forall o :: o in outers ==> o.root == root && Ancestors(o) == [base]
    ensures forall c :: c in InnerContexts(root, outers, innerPath, items) ==>
      c.root == root && c.parent.Some? && Ancestors(c) == [c.parent.value, base]
    decreases |outers|
  {
    if outers != [] {
      var last := outers[|outers| - 1];
      InnerContextsShape(root, base, outers[..|outers| - 1], innerPath, items);
      forall c | c in FromContainer(root, last, Resolve(last.node, innerPath), items)
        ensures c.root == root && c.parent.Some? && Ancestors(c) == [c.parent.value, base]
      {
        assert c.parent == Some(last);
      }
    }
  }

  /**
   * The parent chain of a yielded context has exactly one link per level:
   * the base context alone, or an outer context and then the base context.
   * The base context has no parent, and every context carries the root.
   */
  lemma ContextShape<E>(root: Json, spec: TraversalSpec<E>)
    ensures var base := BaseContext(root, spec.path);
      forall c :: c in Traverse(root, spec) ==>
        && c.root == root && c.parent.Some?
        && Ancestors(c) == (if HasInner(spec) then [c.parent.value, base] else [base])
        && base.parent == None
  {
    var base := BaseContext(root, spec.path);
    var outers := OuterContexts(root, spec);
    assert forall o :: o in outers ==> o.root == root && Ancestors(o) == [base];
    if HasInner(spec) {
      InnerContextsShape(root, base, outers, spec.innerPath.value, InnerItems(spec));
    }
  }

  /**
   * Without an inner level, `path` is the absolute path of the node: it
   * resolves from the root to the context's node (for a mapping, provided it
   * holds no repeated key, as a Python dict never does).
   */
  lemma AbsolutePaths<E>(root: Json, spec: TraversalSpec<E>)
    requires !HasInner(spec)
    requires Resolve(root, spec.path).JObj? ==> UniqueKeys(Resolve(root, spec.path).entries)
    ensures forall c :: c in Traverse(root, spec) ==> Resolve(root, c.path) == c.node
  {
    var container := Resolve(root, spec.path);
    forall c | c in Traverse(root, spec) ensures Resolve(root, c.path) == c.node {
      if c.path != spec.path {
        var seg := c.path[|c.path| - 1];
        assert c.path == spec.path + [seg];
        ResolveAppend(root, spec.path, [seg]);
        if spec.iterateItems {
          var es := container.entries;
          var i :| 0 <= i < |es| && c == Traverse(root, spec)[i];
          LookupUnique(es, i);
        }
      }
    }
  }

  /**
   * An illustration on one concrete input, not a general law.  With an inner
   * level, `path` extends the outer context's path by the inner
   * position only: the inner path's own segments are not part of it, so it
   * does not resolve back to the node.
   */
  lemma InnerPathOmitsInnerSegments()
    ensures var post := JObj([("t", JInt(7))]);
      var root := JObj([("users", JArr([JObj([("posts", JArr([post]))])]))]);
      var spec: TraversalSpec<Emit> := TraversalSpec([S("users")], false, [], Some([S("posts")]), None);
      var r := Traverse(root, spec);
      && |r| == 1 && r[0].node == post
      && r[0].path == [S("users"), I(0), I(0)]
      && Resolve(root, r[0].path) == JNull
  {
    var post := JObj([("t", JInt(7))]);
    var user := JObj([("posts", JArr([post]))]);
    var root := JObj([("users", JArr([user]))]);
    var spec: TraversalSpec<Emit> := TraversalSpec([S("users")], false, [], Some([S("posts")]), None);
    assert Resolve(root, [S("users")]) == JArr([user]);
    var outers := OuterContexts(root, spec);
    assert |outers| == 1 && outers[0].node == user;
    assert Resolve(user, [S("posts")]) == JArr([post]);
    assert outers[..0] == [];
    assert Resolve(root, [S("users"), I(0), I(0)]) == Resolve(user, [I(0)]);
    ResolveNullAbsorbs([]);
  }

  /**
   * `len_of(get_from_root(path))` counts the contexts a one-level traversal of
   * that path yields, whenever the container is iterated in its own mode.
   */
  lemma LenOfCountsContexts<E>(root: Json, spec: TraversalSpec<E>, ctx: Context)
    requires !HasInner(spec) && ctx.root == root
    requires var v := Resolve(root, spec.path); (spec.iterateItems && v.JObj?) || (!spec.iterateItems && v.JArr?)
    ensures Eval(LenOf(GetFromRoot(Segments(spec.path))), ctx) == JInt(|Traverse(root, spec)|)
  {
  }

  /**
   * Grouping: when the outer level iterates a mapping, `parent_key()` of every
   * inner context is the key of the mapping entry it was found under.
   */
  lemma GroupKeyIsParentKey<E>(root: Json, spec: TraversalSpec<E>)
    requires HasInner(spec) && spec.iterateItems && Resolve(root, spec.path).JObj?
    ensures var es := Resolve(root, spec.path).entries;
      forall c :: c in Traverse(root, spec) ==>
        exists i :: 0 <= i < |es| && Eval(ParentKey(), c) == JStr(es[i].0) && c.parent.value.node == es[i].1
  {
    var es := Resolve(root, spec.path).entries;
    InnerLevel(root, spec);
    var outers := OuterContexts(root, spec);
    forall c | c in Traverse(root, spec)
      ensures exists i :: 0 <= i < |es| && Eval(ParentKey(), c) == JStr(es[i].0) && c.parent.value.node == es[i].1
    {
      var o := c.parent.value;
      var i :| 0 <= i < |outers| && outers[i] == o;
      assert Eval(ParentKey(), c) == JStr(es[i].0);
    }
  }

  // ---------------------------------------------------------------
  // The emission order of a run
  // ---------------------------------------------------------------

  /** Each emit of a traversal, at one context, in declaration order. */
  function Pairs<E>(ctx: Context, emits: seq<E>): (r: seq<(Context, E)>)
    ensures |r| == |emits|
  {
    seq(|emits|, i requires 0 <= i < |emits| => (ctx, emits[i]))
  }

  /** Every emit paired with every context, contexts outermost. */
  function CtxEmissions<E>(ctxs: seq<Context>, emits: seq<E>): seq<(Context, E)>
    decreases |ctxs|
  {
    if ctxs == [] then []
    else CtxEmissions(ctxs[..|ctxs| - 1], emits) + Pairs(ctxs[|ctxs| - 1], emits)
  }

  /** Every (context, emit) pair a run processes, in the order `run_mapping` processes them. */
  function Emissions<E>(root: Json, ts: seq<TraversalSpec<E>>): seq<(Context, E)>
    decreases |ts|
  {
    if ts == [] then []
    else
      var t := ts[|ts| - 1];
      Emissions(root, ts[..|ts| - 1]) + CtxEmissions(Traverse(root, t), t.emits)
  }

  lemma {:induction false} CtxEmissionsPrefix<E>(ctxs: seq<Context>, j: nat, emits: seq<E>)
    requires j <= |ctxs|
    ensures CtxEmissions(ctxs[..j], emits) <= CtxEmissions(ctxs, emits)
    decreases |ctxs|
  {
    if j < |ctxs| {
      var prefix := ctxs[..|ctxs| - 1];
      assert prefix[..j] == ctxs[..j];
      CtxEmissionsPrefix(prefix, j, emits);
    } else {
      assert ctxs[..j] == ctxs;
    }
  }

  lemma {:induction false} EmissionsPrefix<E>(root: Json, ts: seq<TraversalSpec<E>>, i: nat)
    requires i <= |ts|
    ensures Emissions(root, ts[..i]) <= Emissions(root, ts)
    decreases |ts|
  {
    if i < |ts| {
      var prefix := ts[..|ts| - 1];
      assert prefix[..i] == ts[..i];
      EmissionsPrefix(root, prefix, i);
    } else {
      assert ts[..i] == ts;
    }
  }

  lemma PairsSnoc<E>(ctx: Context, emits: seq<E>, i: nat)
    requires i < |emits|
    ensures Pairs(ctx, emits[..i + 1]) == Pairs(ctx, emits[..i]) + [(ctx, emits[i])]
  {
  }

  lemma PairsSplit<E>(ctx: Context, emits: seq<E>, i: nat)
    requires i <= |emits|
    ensures Pairs(ctx, emits) == Pairs(ctx, emits[..i]) + Pairs(ctx, emits[i..])
  {
  }

  lemma CtxEmissionsSnoc<E>(ctxs: seq<Context>, emits: seq<E>, i: nat)
    requires i < |ctxs|
    ensures CtxEmissions(ctxs[..i + 1], emits) == CtxEmissions(ctxs[..i], emits) + Pairs(ctxs[i], emits)
  {
    assert ctxs[..i + 1][..i] == ctxs[..i] && ctxs[..i + 1][i] == ctxs[i];
  }

  lemma EmissionsSnoc<E>(root: Json, ts: seq<TraversalSpec<E>>, i: nat)
    requires i < |ts|
    ensures Emissions(root, ts[..i + 1]) == Emissions(root, ts[..i]) + CtxEmissions(Traverse(root, ts[i]), ts[i].emits)
  {
    assert ts[..i + 1][..i] == ts[..i] && ts[..i + 1][i] == ts[i];
  }

  lemma PrefixSplit<T>(p: seq<T>, q: seq<T>)
    requires p <= q
    ensures q == p + q[|p|..]
  {
  }
}
