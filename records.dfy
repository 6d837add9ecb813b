/** The values that flow between the background page, the bookmark manager
    and the favicon resolver: browser bookmark-tree nodes and the bookmark
    records built from them. */
module Records {
  import opened Wrappers

  /** A numeric field that may be missing. `missing++` gives NaN in
      JavaScript, and NaN stays NaN. */
  datatype Count = Absent | Num(n: int) | NaN

  /** `x++` on a property. */
  function Increment(c: Count): (r: Count)
    ensures c.Num? <==> r.Num?
    ensures c.Num? ==> r.n == c.n + 1
    ensures !c.Num? ==> r == NaN
  {
    match c
    case Num(n) => Num(n + 1)
    case _ => NaN
  }

  /** A bookmark record. The source builds records of several shapes (from
      the background page, from the stored list, the defaults, a new
      bookmark); a field a shape lacks is None or Absent. */
  datatype Bookmark = Bookmark(
    id: string,
    title: string,
    url: string,
    favicon: Option<string>,
    category: Option<string>,
    originalFolder: Option<string>,
    dateAdded: Option<int>,
    parentId: Option<string>,
    lastVisited: Option<int>,
    visitCount: Count)

  /** A node of the browser's bookmark tree: a bookmark has a url, a folder
      has children. */
  datatype TreeNode = TreeNode(
    id: string,
    title: string,
    url: Option<string>,
    dateAdded: Option<int>,
    parentId: Option<string>,
    children: ChildList)

  /** The `children` property: absent, or an array of nodes. */
  datatype ChildList = NoChildren | ChildList(nodes: seq<TreeNode>)

  /** JavaScript truthiness of an optional string: present and not empty. */
  predicate IsTruthy(s: Option<string>) {
    s.Some? && s.value != ""
  }

  /** The array that recursive tree walks push into and share. */
  class Accumulator {
    var items: seq<Bookmark>

    constructor ()
      ensures items == []
    {
      items := [];
    }
  }
}
