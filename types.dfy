// Shared data model of the entity diagram: the records exchanged between the
// catalog adapter, the change reducers and the interactive editors
// (src/hooks/use-connector/types.ts).

module Types {

  /** An optional value: `undefined` (or a property that is absent) is None. */
  datatype Option<T> = None | Some(value: T) {
    /** The `??` operator of the source: the value, or `d` when absent. */
    function GetOr(d: T): T {
      match this
      case Some(v) => v
      case None => d
    }
  }

  /** JavaScript truthiness of an optional string: absent and "" are falsy. */
  predicate Truthy(s: Option<string>) {
    s.Some? && s.value != ""
  }

  /** A `{x, y}` position as the change events carry it. */
  datatype Position = Position(x: int, y: int)

  /** The gojs `go.Point` the adapter stores in `location`. */
  datatype Point = Point(x: int, y: int)

  /** One row of an entity box. Items built by the adapter carry a colour;
      the fixed inherited product-type items have none. */
  datatype Item = Item(name: string, iskey: bool, figure: string, color: Option<string>)

  /** An entity (`GoEntity`, extended to `NodeData` by the reducers): `loc` is
      the serialised location that the node mappers read, `position` the field
      the position reducer writes. */
  datatype Entity = Entity(
    key: string,
    location: Point,
    items: seq<Item>,
    inheritedItems: Option<seq<Item>>,
    loc: Option<string>,
    position: Option<Position>)

  /** A user-authored relationship between two entity keys. */
  datatype LinkData = LinkData(
    key: string,
    from: string,
    to: string,
    text: Option<string>,
    toText: Option<string>)

  /** The closed union of change events. `nodePositionChanged` is declared with
      `newPosition`; its emitters send a `loc` string instead, so both are kept
      and each emitter fills the one it actually sends. */
  datatype ChangeEvent =
    | NodePositionChanged(nodeKey: string, newPosition: Option<Position>, loc: Option<string>)
    | LinkAdded(key: string, fromNode: string, toNode: string, text: Option<string>, toText: Option<string>)
    | LinkModified(key: string, newFromNode: string, newToNode: string, text: Option<string>, toText: Option<string>)
    | LinkRemoved(key: string)
    | LinkTextChanged(key: string, oldText: string, newText: string, isFromText: bool)

  function LinkKey(l: LinkData): string { l.key }

  function EntityKey(e: Entity): string { e.key }
}
