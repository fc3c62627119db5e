/**
 * The traversal context and the transform library: every transform is a
 * total, deterministic function from a context to a value.
 */
module Transforms {
  import opened Wrappers
  import opened Values
  import opened Paths

  /**
   * One visited node. `path` is where the node was reached, `parent` the
   * enclosing context, `key` the mapping key when the node came from
   * iterating a mapping and `index` the position when it came from a list.
   * Being an inductive datatype, the parent chain is finite and acyclic.
   */
  datatype Context = Context(
    root: Json,
    node: Json,
    path: seq<Segment>,
    parent: Option<Context>,
    key: Option<string>,
    index: Option<int>)

  /** Ancestors of a context, nearest first. */
  function Ancestors(c: Context): seq<Context>
    decreases c
  {
    match c.parent
    case None => []
    case Some(p) => [p] + Ancestors(p)
  }

  /** Climbs `n` parent links, stopping at none once the chain runs out. */
  function Climb(p: Option<Context>, n: nat): Option<Context>
    decreases n
  {
    if n == 0 || p.None? then p else Climb(p.value.parent, n - 1)
  }

  /**
   * The ancestor that `get_from_parent` and `parent_key` read: `ctx.parent`,
   * then `depth - 1` further steps up (none when `depth <= 1`).
   */
  function ParentAt(ctx: Context, depth: int): Option<Context> {
    Climb(ctx.parent, if depth > 1 then depth - 1 else 0)
  }

  lemma {:induction false} ClimbAncestors(c: Context, n: nat)
    ensures Climb(Some(c), n) ==
      if n == 0 then Some(c)
      else if n <= |Ancestors(c)| then Some(Ancestors(c)[n - 1])
      else None
    decreases n
  {
    if n > 0 {
      match c.parent
      case None =>
      case Some(p) =>
        ClimbAncestors(p, n - 1);
    }
  }

  /**
   * With `depth >= 1` the ancestor read is exactly `depth` levels up, and
   * there is none when the chain is shorter; a depth below 1 reads the
   * parent, like depth 1.
   */
  lemma ParentAtClimbs(ctx: Context, depth: int)
    ensures depth >= 1 ==>
      ParentAt(ctx, depth) == (if depth <= |Ancestors(ctx)| then Some(Ancestors(ctx)[depth - 1]) else None)
    ensures depth < 1 ==> ParentAt(ctx, depth) == ParentAt(ctx, 1)
  {
    match ctx.parent
    case None =>
    case Some(p) =>
      ClimbAncestors(p, if depth > 1 then depth - 1 else 0);
  }

  // ---------------------------------------------------------------
  // Transforms
  // ---------------------------------------------------------------

  /** The closed set of transforms the library's factories build. */
  datatype Transform =
    | Const(value: Json)                              // literal(v)
    | CtxKey                                          // key()
    | CtxIndex                                        // index()
    | NodePath(segs: seq<Segment>)                    // get(path)
    | RootPath(segs: seq<Segment>)                    // get_from_root(path)
    | ParentPath(segs: seq<Segment>, depth: int)      // get_from_parent(path, depth)
    | ParentKeyAt(depth: int)                         // parent_key(depth)
    | LengthOf(inner: Transform)                      // len_of(inner)
    | Concatenation(parts: seq<Transform>)            // concat(*parts)
    | Formatted(parts: seq<Transform>, sep: string)   // format_id(*parts, sep=sep)
    | FirstOf(inners: seq<Transform>)                 // coalesce(*inners)

  /** `len(v)` for mappings, lists and strings; `None` for everything else. */
  function Length(v: Json): Json {
    match v
    case JArr(xs) => JInt(|xs|)
    case JObj(es) => JInt(|es|)
    case JStr(s) => JInt(|s|)
    case _ => JNull
  }

  /** How `concat` renders one part: `""` for `None`, else `str(v)`. */
  function PartText(v: Json): string {
    if v == JNull then "" else Text(v)
  }

  /** The rendered parts concatenated with no separator. */
  function ConcatText(vs: seq<Json>): string {
    if vs == [] then "" else PartText(vs[0]) + ConcatText(vs[1..])
  }

  /** `format_id` leaves out parts that are `None` or `""`. */
  predicate Dropped(v: Json) {
    v == JNull || v == JStr("")
  }

  /** The text of each value, leaving out null and empty-string values. */
  function Kept(vs: seq<Json>): seq<string> {
    if vs == [] then []
    else (if Dropped(vs[0]) then [] else [Text(vs[0])]) + Kept(vs[1..])
  }

  /** The loop of `coalesce`: the first value that is not `None`, else `None`. */
  function FirstNonNull(vs: seq<Json>): (r: Json)
    ensures r == JNull <==> forall i :: 0 <= i < |vs| ==> vs[i] == JNull
    ensures r != JNull ==>
      exists i :: 0 <= i < |vs| && vs[i] == r && forall j :: 0 <= j < i ==> vs[j] == JNull
  {
    if vs == [] then JNull
    else if vs[0] != JNull then vs[0]
    else
      var r := FirstNonNull(vs[1..]);
      assert forall i :: 1 <= i < |vs| ==> vs[i] == vs[1..][i - 1];
      assert r != JNull ==> exists i :: 1 <= i < |vs| && vs[i] == r && forall j :: 0 <= j < i ==> vs[j] == JNull by {
        if r != JNull {
          var k :| 0 <= k < |vs[1..]| && vs[1..][k] == r && forall j :: 0 <= j < k ==> vs[1..][j] == JNull;
          assert vs[k + 1] == r;
          assert forall j :: 0 <= j < k + 1 ==> vs[j] == JNull by {
            forall j | 0 <= j < k + 1 ensures vs[j] == JNull {
              if j > 0 { assert vs[j] == vs[1..][j - 1]; }
            }
          }
        }
      }
      r
  }

  /** The value of a transform at a context. */
  function Eval(t: Transform, ctx: Context): Json
    decreases t, 1
  {
    match t
    case Const(v) => v
    case CtxKey => if ctx.key.Some? then JStr(ctx.key.value) else JNull
    case CtxIndex => if ctx.index.Some? then JInt(ctx.index.value) else JNull
    case NodePath(p) => Resolve(ctx.node, p)
    case RootPath(p) => Resolve(ctx.root, p)
    case ParentPath(p, depth) =>
      var a := ParentAt(ctx, depth);
      Resolve(if a.Some? then a.value.node else JNull, p)
    case ParentKeyAt(depth) =>
      var a := ParentAt(ctx, depth);
      if a.Some? && a.value.key.Some? then JStr(a.value.key.value) else JNull
    case LengthOf(inner) => Length(Eval(inner, ctx))
    case Concatenation(parts) => JStr(ConcatText(EvalAll(parts, ctx)))
    case Formatted(parts, sep) => JStr(JoinSep(sep, Kept(EvalAll(parts, ctx))))
    case FirstOf(inners) => FirstNonNull(EvalAll(inners, ctx))
  }

  /** Each transform evaluated at the same context, in order. */
  function EvalAll(ts: seq<Transform>, ctx: Context): (r: seq<Json>)
    ensures |r| == |ts|
    decreases ts, 0
  {
    seq(|ts|, i requires 0 <= i < |ts| => Eval(ts[i], ctx))
  }

  // ---------------------------------------------------------------
  // The factories
  // ---------------------------------------------------------------

  /** A factory argument: a plain value or a transform (a callable). */
  datatype Arg = Plain(value: Json) | Fn(transform: Transform)

  /** A path argument: a dotted string or an explicit list of segments. */
  datatype PathArg = Dotted(text: string) | Segments(segs: seq<Segment>)

  /** `_ensure_transform`: a callable is kept, a plain value becomes a constant. */
  function EnsureTransform(a: Arg): Transform {
    match a
    case Plain(v) => Const(v)
    case Fn(t) => t
  }

  function PathSegments(p: PathArg): seq<Segment> {
    match p
    case Dotted(s) => ParsePath(s)
    case Segments(segs) => segs
  }

  function Literal(a: Arg): Transform { EnsureTransform(a) }
  function Key(): Transform { CtxKey }
  function Index(): Transform { CtxIndex }
  function Get(p: PathArg): Transform { NodePath(PathSegments(p)) }
  function GetFromRoot(p: PathArg): Transform { RootPath(PathSegments(p)) }
  function GetFromParent(p: PathArg, depth: int := 1): Transform { ParentPath(PathSegments(p), depth) }
  function ParentKey(depth: int := 1): Transform { ParentKeyAt(depth) }
  function LenOf(inner: Transform): Transform { LengthOf(inner) }

  function Concat(parts: seq<Arg>): Transform {
    Concatenation(seq(|parts|, i requires 0 <= i < |parts| => EnsureTransform(parts[i])))
  }

  function FormatId(parts: seq<Arg>, sep: string := "_"): Transform {
    Formatted(seq(|parts|, i requires 0 <= i < |parts| => EnsureTransform(parts[i])), sep)
  }

  function Coalesce(inners: seq<Transform>): Transform { FirstOf(inners) }

  // ---------------------------------------------------------------
  // Properties of the library
  // ---------------------------------------------------------------

  /** `literal(v)` ignores the context; a transform passed to it is returned as is. */
  lemma LiteralIsConstant(v: Json, t: Transform, c1: Context, c2: Context)
    ensures Eval(Literal(Plain(v)), c1) == v == Eval(Literal(Plain(v)), c2)
    ensures Literal(Fn(t)) == t
  {
  }

  /** `key()` and `index()` read the context's key and index, `None` when it has none. */
  lemma KeyAndIndexReadContext(ctx: Context)
    ensures Eval(Key(), ctx) == JNull <==> ctx.key.None?
    ensures Eval(Index(), ctx) == JNull <==> ctx.index.None?
    ensures ctx.key.Some? ==> Eval(Key(), ctx) == JStr(ctx.key.value)
    ensures ctx.index.Some? ==> Eval(Index(), ctx) == JInt(ctx.index.value)
  {
  }

  /**
   * `get` and `get_from_root` accept a path as a dotted string or as a list of
   * segments; every path whose segments a dotted string can spell reads the
   * same value in both forms, from the current node and from the root.
   */
  lemma GetPathForms(segs: seq<Segment>, ctx: Context)
    requires forall i :: 0 <= i < |segs| ==> Dottable(segs[i])
    ensures Eval(Get(Dotted(PathText(segs))), ctx) == Eval(Get(Segments(segs)), ctx) == Resolve(ctx.node, segs)
    ensures Eval(GetFromRoot(Dotted(PathText(segs))), ctx) == Eval(GetFromRoot(Segments(segs)), ctx) == Resolve(ctx.root, segs)
  {
    ParsePathRoundTrip(segs);
  }

  /** Reading `p + q` is reading `p` and then resolving `q` from what it gave. */
  lemma GetComposes(p: seq<Segment>, q: seq<Segment>, ctx: Context)
    ensures Eval(Get(Segments(p + q)), ctx) == Resolve(Eval(Get(Segments(p)), ctx), q)
    ensures Eval(GetFromRoot(Segments(p + q)), ctx) == Resolve(Eval(GetFromRoot(Segments(p)), ctx), q)
  {
    ResolveAppend(ctx.node, p, q);
    ResolveAppend(ctx.root, p, q);
  }

  /** `len_of(inner)` is the size of a list, mapping or string, and `None` for any other value. */
  lemma LenOfSizes(t: Transform, ctx: Context)
    ensures var v := Eval(t, ctx);
      Eval(LenOf(t), ctx) == JNull <==> !(v.JArr? || v.JObj? || v.JStr?)
    ensures var v := Eval(t, ctx);
      (v.JArr? ==> Eval(LenOf(t), ctx) == JInt(|v.elems|)) &&
      (v.JObj? ==> Eval(LenOf(t), ctx) == JInt(|v.entries|)) &&
      (v.JStr? ==> Eval(LenOf(t), ctx) == JInt(|v.s|))
  {
  }

  /**
   * `get_from_parent(p, depth)` resolves `p` from the node of the ancestor
   * `max(depth, 1)` levels up, and is `None` when there is no such ancestor.
   */
  lemma GetFromParentReadsAncestor(ctx: Context, p: PathArg, depth: int)
    ensures var d := if depth > 1 then depth else 1;
      Eval(GetFromParent(p, depth), ctx) ==
        if d <= |Ancestors(ctx)| then Resolve(Ancestors(ctx)[d - 1].node, PathSegments(p)) else JNull
  {
    ParentAtClimbs(ctx, depth);
    ParentAtClimbs(ctx, 1);
    ResolveNullAbsorbs(PathSegments(p));
  }

  /** `parent_key(depth)` is the key of the ancestor `max(depth, 1)` levels up, or `None`. */
  lemma ParentKeyReadsAncestor(ctx: Context, depth: int)
    ensures var d := if depth > 1 then depth else 1;
      Eval(ParentKey(depth), ctx) ==
        if d <= |Ancestors(ctx)| && Ancestors(ctx)[d - 1].key.Some?
        then JStr(Ancestors(ctx)[d - 1].key.value) else JNull
  {
    ParentAtClimbs(ctx, depth);
    ParentAtClimbs(ctx, 1);
  }

  /** `coalesce` yields the first non-`None` inner value, and `None` only when all are `None`. */
  lemma CoalesceFirstNonNull(inners: seq<Transform>, ctx: Context)
    ensures Eval(Coalesce(inners), ctx) == JNull <==>
      forall i :: 0 <= i < |inners| ==> Eval(inners[i], ctx) == JNull
    ensures var r := Eval(Coalesce(inners), ctx);
      r != JNull ==>
        exists i :: (0 <= i < |inners| && Eval(inners[i], ctx) == r &&
                     forall j :: 0 <= j < i ==> Eval(inners[j], ctx) == JNull)
  {
    var vs := EvalAll(inners, ctx);
    assert forall i :: 0 <= i < |inners| ==> vs[i] == Eval(inners[i], ctx);
  }

  lemma {:induction false} ConcatTextAppend(a: seq<Json>, b: seq<Json>)
    ensures ConcatText(a + b) == ConcatText(a) + ConcatText(b)
  {
    if a != [] {
      assert (a + b)[0] == a[0] && (a + b)[1..] == a[1..] + b;
      ConcatTextAppend(a[1..], b);
    } else {
      assert a + b == b;
    }
  }

  lemma EvalAllAppend(a: seq<Transform>, b: seq<Transform>, ctx: Context)
    ensures EvalAll(a + b, ctx) == EvalAll(a, ctx) + EvalAll(b, ctx)
  {
  }

  /**
   * `concat` is a homomorphism from lists of parts to strings: the parts of
   * `a + b` give the text of `a` followed by that of `b`, and a single part
   * renders as `""` when it is `None` and as `str(v)` otherwise.
   */
  lemma ConcatLaws(a: seq<Transform>, b: seq<Transform>, t: Transform, ctx: Context)
    ensures Eval(Concatenation(a + b), ctx).s == Eval(Concatenation(a), ctx).s + Eval(Concatenation(b), ctx).s
    ensures Eval(Concatenation([t]), ctx) == JStr(if Eval(t, ctx) == JNull then "" else Text(Eval(t, ctx)))
  {
    EvalAllAppend(a, b, ctx);
    ConcatTextAppend(EvalAll(a, ctx), EvalAll(b, ctx));
    assert EvalAll([t], ctx) == [Eval(t, ctx)];
    assert ConcatText([Eval(t, ctx)]) == PartText(Eval(t, ctx)) + ConcatText([]);
  }

  lemma {:induction false} KeptAppend(a: seq<Json>, b: seq<Json>)
    ensures Kept(a + b) == Kept(a) + Kept(b)
  {
    if a != [] {
      assert (a + b)[0] == a[0] && (a + b)[1..] == a[1..] + b;
      KeptAppend(a[1..], b);
    } else {
      assert a + b == b;
    }
  }

  lemma {:induction false} KeptAll(vs: seq<Json>)
    requires forall i :: 0 <= i < |vs| ==> !Dropped(vs[i])
    ensures Kept(vs) == seq(|vs|, i requires 0 <= i < |vs| => Text(vs[i]))
  {
    if vs != [] {
      KeptAll(vs[1..]);
    }
  }

  /** `format_id` joins `str()` of its parts with `sep` when none of them is `None` or `""`. */
  lemma FormatIdJoinsParts(a: seq<Transform>, sep: string, ctx: Context)
    requires forall i :: 0 <= i < |a| ==> !Dropped(Eval(a[i], ctx))
    ensures Eval(Formatted(a, sep), ctx) ==
      JStr(JoinSep(sep, seq(|a|, i requires 0 <= i < |a| => Text(Eval(a[i], ctx)))))
  {
    var va := EvalAll(a, ctx);
    KeptAll(va);
    assert Kept(va) == seq(|a|, i requires 0 <= i < |a| => Text(Eval(a[i], ctx)));
  }

  /** A dropped value contributes nothing to `Kept`, wherever it stands. */
  lemma KeptSkips(va: seq<Json>, v: Json, vb: seq<Json>)
    requires Dropped(v)
    ensures Kept(va + [v] + vb) == Kept(va + vb)
  {
    KeptAppend(va + [v], vb);
    KeptAppend(va, [v]);
    KeptAppend(va, vb);
    assert Kept([v]) == [] + Kept([]);
  }

  /** A `format_id` part that is `None` or `""` changes nothing, wherever it stands. */
  lemma FormatIdSkipsEmpty(a: seq<Transform>, t: Transform, b: seq<Transform>, sep: string, ctx: Context)
    requires Dropped(Eval(t, ctx))
    ensures Eval(Formatted(a + [t] + b, sep), ctx) == Eval(Formatted(a + b, sep), ctx)
  {
    var va, vb := EvalAll(a, ctx), EvalAll(b, ctx);
    EvalAllAppend(a + [t], b, ctx);
    EvalAllAppend(a, [t], ctx);
    EvalAllAppend(a, b, ctx);
    assert EvalAll([t], ctx) == [Eval(t, ctx)];
    KeptSkips(va, Eval(t, ctx), vb);
  }
}
