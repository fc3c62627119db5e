/** The declarative mapping specification: traversals and the emits run at each node. */
module Specs {
  import opened Wrappers
  import opened Values
  import opened Transforms

  /** A computed row field: the row's `name` is set to the transform's value at the context. */
  datatype Field = Field(name: string, transform: Transform)

  /** Produces plain rows of `table`, merged by the composite key of `joinKeys`. */
  datatype TableEmit = TableEmit(table: string, fields: seq<Field>, joinKeys: seq<Transform>)

  /** A builder object, told apart by identity. */
  datatype BuilderRef = BuilderRef(id: nat)

  /** A merge-policy object: the stock policies, or any other one by identity. */
  datatype Policy =
    | AddPolicy
    | AppendPolicy
    | ExtendPolicy
    | MinPolicy
    | MaxPolicy
    | FirstNonNullPolicy
    | OtherPolicy(id: nat)

  /** How a field is named for a builder: a field name, or an attribute-access lambda by identity. */
  datatype Selector = ByName(name: string) | ByAccessor(id: nat)

  datatype FieldSpec = FieldSpec(selector: Selector, transform: Transform)

  /** Produces builder-managed instances of `table`, with per-field merge policies. */
  datatype InstanceEmit = InstanceEmit(
    table: string,
    joinKeys: seq<Transform>,
    fields: seq<FieldSpec>,
    builder: BuilderRef,
    policies: map<string, Policy>)

  /** What a traversal may emit: a row emit, an instance emit, or an emit of some other type. */
  datatype Emit =
    | Table(row: TableEmit)
    | Instance(inst: InstanceEmit)
    | Unrecognised(keys: seq<Transform>)

  function JoinKeys(e: Emit): seq<Transform> {
    match e
    case Table(t) => t.joinKeys
    case Instance(i) => i.joinKeys
    case Unrecognised(ks) => ks
  }

  /**
   * How to reach and iterate the nodes under the root: the outer container's
   * path, whether to iterate its entries (a mapping) or its elements, and an
   * optional second level below each outer node. `E` is the type of emit.
   */
  datatype TraversalSpec<E> = TraversalSpec(
    path: seq<Segment>,
    iterateItems: bool,
    emits: seq<E>,
    innerPath: Option<seq<Segment>>,
    innerIterateItems: Option<bool>)

  datatype MappingSpec<E> = MappingSpec(traversals: seq<TraversalSpec<E>>)
}
