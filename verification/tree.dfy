/** The ElementTree element the sections extension rewrites. Text and tail
    content are opaque to the extension and are not represented; each node
    carries an `id` so that a node moved to a new parent can be recognised. */
module Tree {

  datatype Node = Node(id: nat, tag: string, attrs: map<string, string>, children: seq<Node>)

  /** `element.get(key, default)`. */
  function Get(attrs: map<string, string>, key: string, default: string): (v: string)
    ensures key in attrs ==> v == attrs[key]
    ensures key !in attrs ==> v == default
  {
    if key in attrs then attrs[key] else default
  }

  /** `element.append(child)`: the child becomes the last one. */
  function Append(n: Node, child: Node): (r: Node)
    ensures r.id == n.id && r.tag == n.tag && r.attrs == n.attrs
    ensures |r.children| == |n.children| + 1
    ensures r.children[..|n.children|] == n.children && r.children[|n.children|] == child
  {
    n.(children := n.children + [child])
  }

  /** The number of nodes in a tree: a measure for walks that go down into
      the children and along the sibling lists. */
  function Size(n: Node): nat
    decreases n
  {
    1 + SizeAll(n.children)
  }

  /** The number of nodes in a list of trees. */
  function SizeAll(cs: seq<Node>): nat
    decreases cs
  {
    if |cs| == 0 then 0 else Size(cs[0]) + SizeAll(cs[1..])
  }
}
