/** A phylogenetic tree as the original stores it: a dictionary from edge
    name to (start vertex, end vertex, left child edge, right child edge),
    with absent children marking a tip, plus the order in which the
    dictionary enumerates its edges. */
module Trees {

  type EdgeId = string
  type Vertex = string

  datatype Option<T> = None | Some(value: T)

  datatype Edge = Edge(start: Vertex, end: Vertex, left: Option<EdgeId>, right: Option<EdgeId>)

  datatype Tree = Tree(edges: map<EdgeId, Edge>, order: seq<EdgeId>)

  /** The name of the dummy edge above the parasite root. */
  const ParasiteTop: EdgeId := "pTop"

  /** The child edges an edge names. */
  function Children(edge: Edge): set<EdgeId>
  {
    (if edge.left.Some? then {edge.left.value} else {}) + (if edge.right.Some? then {edge.right.value} else {})
  }

  /** Children are edges of the tree, and `rank` strictly decreases from
      every edge to its children. */
  ghost predicate Ranked(t: Tree, rank: map<EdgeId, nat>)
  {
    && t.edges.Keys <= rank.Keys
    && forall e, c :: e in t.edges && c in Children(t.edges[e]) ==> c in t.edges && rank[c] < rank[e]
  }

  /** The structural invariants the original's callers supply: the edge
      enumeration lists every edge once, both children are present or both
      absent, children are edges of the tree, and there is no cycle. */
  ghost predicate ValidTree(t: Tree)
  {
    && (forall i, j :: 0 <= i < j < |t.order| ==> t.order[i] != t.order[j])
    && (forall e :: e in t.edges <==> e in t.order)
    && (forall e :: e in t.edges ==> (t.edges[e].left.Some? <==> t.edges[e].right.Some?))
    && exists rank :: Ranked(t, rank)
  }

  /** A ranking of a valid tree, used as the termination measure of every
      recursion over it. */
  ghost function Rank(t: Tree): (rank: map<EdgeId, nat>)
    requires ValidTree(t)
    ensures Ranked(t, rank)
  {
    var rank :| Ranked(t, rank); rank
  }

  function LeftChildEdge(t: Tree, e: EdgeId): (r: Option<EdgeId>)
    requires e in t.edges
    ensures ValidTree(t) && r.Some? ==> r.value in t.edges && Rank(t)[r.value] < Rank(t)[e]
  {
    assert t.edges[e].left.Some? ==> t.edges[e].left.value in Children(t.edges[e]);
    t.edges[e].left
  }

  function RightChildEdge(t: Tree, e: EdgeId): (r: Option<EdgeId>)
    requires e in t.edges
    ensures ValidTree(t) && r.Some? ==> r.value in t.edges && Rank(t)[r.value] < Rank(t)[e]
  {
    assert t.edges[e].right.Some? ==> t.edges[e].right.value in Children(t.edges[e]);
    t.edges[e].right
  }

  /** `tipEdge`: the edge has no left child; in a valid tree it then has no
      right child either. */
  predicate TipEdge(t: Tree, e: EdgeId)
    requires e in t.edges
  {
    LeftChildEdge(t, e).None?
  }

  lemma TipHasNoChildren(t: Tree, e: EdgeId)
    requires ValidTree(t) && e in t.edges
    ensures TipEdge(t, e) <==> RightChildEdge(t, e).None?
  {
  }

  function StartVertex(t: Tree, e: EdgeId): Vertex
    requires e in t.edges
  {
    t.edges[e].start
  }

  function EndVertex(t: Tree, e: EdgeId): Vertex
    requires e in t.edges
  {
    t.edges[e].end
  }

  /** The children of an internal edge of a valid tree. */
  function Left(t: Tree, e: EdgeId): (r: EdgeId)
    requires ValidTree(t) && e in t.edges && !TipEdge(t, e)
    ensures r in t.edges && Rank(t)[r] < Rank(t)[e]
  {
    LeftChildEdge(t, e).value
  }

  function Right(t: Tree, e: EdgeId): (r: EdgeId)
    requires ValidTree(t) && e in t.edges && !TipEdge(t, e)
    ensures r in t.edges && Rank(t)[r] < Rank(t)[e]
  {
    RightChildEdge(t, e).value
  }

  /** `descendants`: both children, then the descendants of the left child,
      then those of the right child.  Strict: the edge itself is not listed. */
  function Descendants(t: Tree, e: EdgeId): (r: seq<EdgeId>)
    requires ValidTree(t) && e in t.edges
    ensures forall d :: d in r ==> d in t.edges && Rank(t)[d] < Rank(t)[e]
    decreases Rank(t)[e]
  {
    if TipEdge(t, e) then []
    else [Left(t, e), Right(t, e)] + Descendants(t, Left(t, e)) + Descendants(t, Right(t, e))
  }

  /** The number of internal edges in the subtree that `e` heads, `e`
      included: the speciation vertices at or below the end of `e`. */
  function InternalEdges(t: Tree, e: EdgeId): nat
    requires ValidTree(t) && e in t.edges
    decreases Rank(t)[e]
  {
    if TipEdge(t, e) then 0 else 1 + InternalEdges(t, Left(t, e)) + InternalEdges(t, Right(t, e))
  }

  /** `a` is listed among the descendants of `d`'s ancestors: the relation
      the original stores in Ancestors[d]. */
  predicate IsAncestor(t: Tree, a: EdgeId, d: EdgeId)
    requires ValidTree(t)
  {
    a in t.edges && d in Descendants(t, a)
  }

  /** An edge of a list other than its last one is in the list's prefix. */
  lemma InPrefix(edges: seq<EdgeId>, e: EdgeId)
    requires e in edges && e != edges[|edges| - 1]
    ensures e in edges[..|edges| - 1]
  {
    var i :| 0 <= i < |edges| && edges[i] == e;
    assert edges[..|edges| - 1][i] == e;
  }

  /** No edge of a valid tree is its own descendant or ancestor. */
  lemma NotOwnDescendant(t: Tree, e: EdgeId)
    requires ValidTree(t) && e in t.edges
    ensures e !in Descendants(t, e)
    ensures !IsAncestor(t, e, e)
  {
  }

  /** The descendant relation is transitive. */
  lemma {:induction false} DescendantsTransitive(t: Tree, a: EdgeId, b: EdgeId, c: EdgeId)
    requires ValidTree(t) && a in t.edges && b in Descendants(t, a) && c in Descendants(t, b)
    ensures c in Descendants(t, a)
    decreases Rank(t)[a]
  {
    var l, r := Left(t, a), Right(t, a);
    if b == l || b == r {
    } else if b in Descendants(t, l) {
      DescendantsTransitive(t, l, b, c);
    } else {
      DescendantsTransitive(t, r, b, c);
    }
  }
}
