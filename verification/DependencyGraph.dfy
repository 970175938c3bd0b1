/** Walks and cycles in a directed graph given by its successor lists. The graph
    may be infinite; only the out-degree is finite. */
module DependencyGraph {
  import opened Wrappers

  type Slug = string
  type Graph = Slug -> seq<Slug>

  /** A walk along edges, by its start and the slugs visited after it. */
  datatype Walk = Here(slug: Slug) | Via(before: Walk, slug: Slug) {
    function First(): Slug {
      if Here? then slug else before.First()
    }
    /** The number of edges. */
    function Edges(): nat {
      if Here? then 0 else before.Edges() + 1
    }
    /** The slugs it visits. */
    function Slugs(): set<Slug> {
      if Here? then {slug} else before.Slugs() + {slug}
    }
    ghost predicate In(g: Graph) {
      Via? ==> before.In(g) && slug in g(before.slug)
    }
  }

  ghost predicate Connects(g: Graph, a: Slug, w: Walk, b: Slug) {
    w.In(g) && w.First() == a && w.slug == b
  }

  ghost predicate Reachable(g: Graph, a: Slug, b: Slug) {
    exists w :: Connects(g, a, w, b)
  }

  /** w goes round a cycle through v, along at least one edge. */
  ghost predicate Cycle(g: Graph, v: Slug, w: Walk) {
    Connects(g, v, w, v) && w.Edges() > 0
  }

  ghost predicate OnCycle(g: Graph, v: Slug) {
    exists w :: Cycle(g, v, w)
  }

  ghost predicate AcyclicFrom(g: Graph, root: Slug) {
    forall v :: Reachable(g, root, v) ==> !OnCycle(g, v)
  }

  ghost predicate NoWalkLongerThan(g: Graph, root: Slug, edges: nat) {
    forall w, v :: Connects(g, root, w, v) ==> w.Edges() <= edges
  }

  /** A set of nodes is closed when every edge out of it stays inside. */
  ghost predicate Closed(g: Graph, nodes: set<Slug>) {
    forall v, d :: v in nodes && d in g(v) ==> d in nodes
  }

  /** Nodes in the order in which they finished, the latest first: every edge leads to a
      node that finished earlier or that is marked. */
  ghost predicate FinishOrder(g: Graph, marks: iset<Slug>, order: List<Slug>) {
    match order
    case Nil => true
    case Cons(v, earlier) =>
      (forall d :: d in g(v) ==> d in Elements(earlier) || d in marks) && FinishOrder(g, marks, earlier)
  }

  /** Every cycle through a reachable node visits a marked one. */
  ghost predicate CyclesMarked(g: Graph, marks: iset<Slug>, root: Slug) {
    forall v, w :: Reachable(g, root, v) && Cycle(g, v, w) ==> exists s :: s in w.Slugs() && s in marks
  }

  lemma {:induction false} WalkStaysInside(g: Graph, nodes: set<Slug>, w: Walk)
    requires Closed(g, nodes) && w.In(g) && w.First() in nodes
    ensures w.slug in nodes
  {
    if w.Via? {
      WalkStaysInside(g, nodes, w.before);
    }
  }

  lemma ClosedContainsReachable(g: Graph, nodes: set<Slug>, root: Slug)
    requires Closed(g, nodes) && root in nodes
    ensures forall v :: Reachable(g, root, v) ==> v in nodes
  {
    forall v | Reachable(g, root, v) ensures v in nodes {
      var w :| Connects(g, root, w, v);
      WalkStaysInside(g, nodes, w);
    }
  }

  lemma {:induction false} UnmarkedStaysFinished(g: Graph, marks: iset<Slug>, order: List<Slug>, v: Slug, d: Slug)
    requires FinishOrder(g, marks, order) && v in Elements(order) && d in g(v) && d !in marks
    ensures d in Elements(order)
  {
    if v in Elements(order.tail) {
      UnmarkedStaysFinished(g, marks, order.tail, v, d);
    }
  }

  lemma MoreMarks(g: Graph, marks: iset<Slug>, more: iset<Slug>, order: List<Slug>)
    requires FinishOrder(g, marks, order) && marks <= more
    ensures FinishOrder(g, more, order)
  {
  }

  /** A walk out of the latest finished node that meets no mark ends among the earlier
      ones. */
  lemma {:induction false} WalkDescends(g: Graph, marks: iset<Slug>, order: List<Slug>, w: Walk)
    requires order.Cons? && FinishOrder(g, marks, order) && w.In(g) && w.First() == order.head && w.Edges() > 0
    requires forall s :: s in w.Slugs() ==> s !in marks
    ensures w.slug in Elements(order.tail)
  {
    if w.before.Via? {
      WalkDescends(g, marks, order, w.before);
      UnmarkedStaysFinished(g, marks, order.tail, w.before.slug, w.slug);
    }
  }

  /** No finished node lies on a cycle without marks: in the shortest finish order that
      holds it, it is the latest, and the cycle would bring it back among the earlier. */
  lemma {:induction false} FinishedCycleMarked(g: Graph, marks: iset<Slug>, order: List<Slug>, v: Slug, w: Walk)
    requires FinishOrder(g, marks, order) && v in Elements(order) && Cycle(g, v, w)
    ensures exists s :: s in w.Slugs() && s in marks
  {
    if v in Elements(order.tail) {
      FinishedCycleMarked(g, marks, order.tail, v, w);
    } else if forall s :: s in w.Slugs() ==> s !in marks {
      WalkDescends(g, marks, order, w);
    }
  }

  /** A finish order that holds everything reachable meets every cycle in a mark; without
      marks there is none. */
  lemma FinishOrderMarksCycles(g: Graph, marks: iset<Slug>, order: List<Slug>, root: Slug)
    requires FinishOrder(g, marks, order) && forall v :: Reachable(g, root, v) ==> v in Elements(order)
    ensures CyclesMarked(g, marks, root)
    ensures marks == iset{} ==> AcyclicFrom(g, root)
  {
    forall v, w | Reachable(g, root, v) && Cycle(g, v, w) ensures exists s :: s in w.Slugs() && s in marks {
      FinishedCycleMarked(g, marks, order, v, w);
    }
  }

  lemma {:induction false} SameWalks(g: Graph, h: Graph, w: Walk)
    requires forall s :: g(s) == h(s)
    ensures w.In(g) <==> w.In(h)
  {
    if w.Via? {
      SameWalks(g, h, w.before);
    }
  }

  /** Graphs with the same successor lists have the same walks and cycles. */
  lemma SameGraphs(g: Graph, h: Graph)
    requires forall s :: g(s) == h(s)
    ensures forall a, w, b :: Connects(g, a, w, b) <==> Connects(h, a, w, b)
    ensures forall a, b :: Reachable(g, a, b) <==> Reachable(h, a, b)
    ensures forall v, w :: Cycle(g, v, w) <==> Cycle(h, v, w)
    ensures forall v :: OnCycle(g, v) <==> OnCycle(h, v)
  {
    forall a, w, b ensures Connects(g, a, w, b) <==> Connects(h, a, w, b) {
      SameWalks(g, h, w);
    }
  }
}
