/** The syntax tree the parser hands to the rules, as a value: a node's type, its
    named children in order, its field children by name, and its byte and
    (row, column) span. */
module SyntaxTree {
  import opened Wrappers

  datatype Point = Point(row: nat, column: nat)

  datatype Node = Node(
    kind: string,
    children: seq<Node>,
    fields: map<string, Node>,
    startByte: nat,
    endByte: nat,
    startPoint: Point,
    endPoint: Point)

  /** Every node of the tree spans a valid slice of `source`, which the parser
      guarantees and which makes slicing a node's text safe. */
  predicate WellFormed(source: string, n: Node) {
    && n.startByte <= n.endByte <= |source|
    && (forall i :: 0 <= i < |n.children| ==> WellFormed(source, n.children[i]))
    && (forall f :: f in n.fields ==> WellFormed(source, n.fields[f]))
  }

  /** The parser's `ChildByFieldName`: absent when the node has no such field. */
  function ChildByFieldName(n: Node, name: string): (r: Option<Node>)
    ensures r.Some? <==> name in n.fields
    ensures r.Some? ==> r.value == n.fields[name]
  {
    if name in n.fields then Some(n.fields[name]) else None
  }

  /** The nodes reached by a depth-first walk over named children, parent first. */
  function Preorder(n: Node): seq<Node> {
    [n] + PreorderIn(n.children)
  }

  function PreorderIn(cs: seq<Node>): seq<Node> {
    if cs == [] then [] else PreorderIn(cs[..|cs| - 1]) + Preorder(cs[|cs| - 1])
  }

  /** A node is visited by the walk of a forest exactly when it lies in one of its trees. */
  lemma {:induction false} PreorderInMembers(cs: seq<Node>, m: Node)
    ensures m in PreorderIn(cs) <==> exists i :: 0 <= i < |cs| && m in Preorder(cs[i])
  {
    if cs != [] {
      var k := |cs| - 1;
      PreorderInMembers(cs[..k], m);
      assert forall i :: 0 <= i < k ==> cs[..k][i] == cs[i];
    }
  }

  /** Every node a walk visits is well formed when the tree is. */
  lemma {:induction false} PreorderWellFormed(source: string, n: Node)
    requires WellFormed(source, n)
    ensures forall m :: m in Preorder(n) ==> WellFormed(source, m)
  {
    PreorderInWellFormed(source, n.children);
  }

  lemma {:induction false} PreorderInWellFormed(source: string, cs: seq<Node>)
    requires forall i :: 0 <= i < |cs| ==> WellFormed(source, cs[i])
    ensures forall m :: m in PreorderIn(cs) ==> WellFormed(source, m)
  {
    if cs != [] {
      PreorderInWellFormed(source, cs[..|cs| - 1]);
      PreorderWellFormed(source, cs[|cs| - 1]);
    }
  }
}
