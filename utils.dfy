/** The diagram's data model: container nodes, their tagged children and
    nullable coordinates (src/utils/index.tsx). */
module Utils {

  /** A coordinate that is either a number or `null` ("not positioned yet").
      `Num(0.0)` is an explicit position and differs from `Null`. */
  datatype Coord = Null | Num(n: real)

  /** `c || 0`: the renderer reads a null coordinate as 0. */
  function OrZero(c: Coord): (r: real)
    ensures c.Null? ==> r == 0.0
    ensures c.Num? ==> r == c.n
  {
    match c
    case Null => 0.0
    case Num(v) => v
  }

  datatype Option<T> = None | Some(value: T)

  /** An inline child record. `name` is the source's `label` (a word Dafny
      reserves); `x` and `y` are relative to the owning container and are
      nullable independently of each other. */
  datatype ChildNodeType = ChildNodeType(name: string, x: Coord, y: Coord)

  /** The tagged part of a node: a node of type "parent" lists the string ids
      of containers, a node of type "child" holds inline child records. */
  datatype ChildNodeProps =
    | ParentProps(ids: seq<string>)
    | ChildProps(items: seq<ChildNodeType>)

  /** A node: id, nullable absolute position, label (`name`) and the tagged children. */
  datatype NodeType = NodeType(id: string, x: Coord, y: Coord, name: string, props: ChildNodeProps)
  {
    /** The `type` tag of the node. */
    function Type(): (t: string)
      ensures t == "parent" || t == "child"
      ensures t == "parent" <==> props.ParentProps?
      ensures t == "child" <==> props.ChildProps?
    {
      if props.ParentProps? then "parent" else "child"
    }

    /** Number of entries in the node's `children` array, whichever the tag. */
    function ChildCount(): nat
    {
      match props
      case ParentProps(ids) => |ids|
      case ChildProps(items) => |items|
    }
  }
}
