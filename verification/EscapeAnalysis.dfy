/** The escape analysis of a statement list: a search that consumes the assignment lists
    it follows. */
module EscapeAnalysis {

  /** An initialiser, with the flag that makes it allocate on the heap. */
  class Alloca {
    var onHeap: bool

    method SetAlloc(onHeap: bool)
      modifies this
      ensures this.onHeap == onHeap
    {
      this.onHeap := onHeap;
    }
  }

  /** A value assigned to a name: another name, or an initialiser. */
  datatype EscNode = Token(token: string) | Init(initNode: Alloca)

  type Graph = map<string, seq<EscNode>>

  /** A step of the search: from a name to a locally defined name assigned to it. */
  ghost predicate Edge(g: Graph, defs: set<string>, u: string, v: string) {
    u in g && v in defs && Token(v) in g[u]
  }

  ghost predicate IsPath(g: Graph, defs: set<string>, points: set<string>, p: seq<string>) {
    |p| > 0 && p[0] in points && forall i :: 0 < i < |p| ==> Edge(g, defs, p[i - 1], p[i])
  }

  /** `v` is an escape point, or is reached from one through locally defined names. */
  ghost predicate Reached(g: Graph, defs: set<string>, points: set<string>, v: string) {
    exists p :: IsPath(g, defs, points, p) && p[|p| - 1] == v
  }

  /** The initialiser is recorded on a reached name. */
  ghost predicate ReachedInit(g: Graph, defs: set<string>, points: set<string>, a: Alloca) {
    exists k :: Reached(g, defs, points, k) && k in g && Init(a) in g[k]
  }

  lemma PointReached(g: Graph, defs: set<string>, points: set<string>, v: string)
    requires v in points
    ensures Reached(g, defs, points, v)
  {
    assert IsPath(g, defs, points, [v]);
  }

  lemma StepReached(g: Graph, defs: set<string>, points: set<string>, u: string, v: string)
    requires Reached(g, defs, points, u) && Edge(g, defs, u, v)
    ensures Reached(g, defs, points, v)
  {
    var p :| IsPath(g, defs, points, p) && p[|p| - 1] == u;
    assert IsPath(g, defs, points, p + [v]);
  }

  ghost function Flagged(nodes: set<Alloca>): (f: set<Alloca>)
    reads nodes
    ensures f <= nodes
  {
    set a | a in nodes && a.onHeap
  }

  /** What the search knows: the names to put on the heap, the lists not yet followed and
      the initialisers flagged. */
  datatype Marks = Marks(heap: set<string>, left: set<string>, flagged: set<Alloca>)

  ghost predicate Grows(a: Marks, b: Marks) { a.heap <= b.heap && b.left <= a.left && a.flagged <= b.flagged }

  /** Every defined name of the list is marked and its own list is taken; every initialiser is flagged. */
  ghost predicate Handled(list: seq<EscNode>, defs: set<string>, m: Marks) {
    forall e :: e in list ==>
      match e
      case Token(v) => v in defs ==> v in m.heap && v !in m.left
      case Init(a) => a in m.flagged
  }

  /** All lists taken between two moments have been followed to the end. */
  ghost predicate Followed(g: Graph, defs: set<string>, from: Marks, m: Marks) {
    forall k :: k in g && k in from.left && k !in m.left ==> Handled(g[k], defs, m)
  }

  /** Whatever was marked since `from` is there for a reason. */
  ghost predicate Justified(g: Graph, defs: set<string>, points: set<string>, from: Marks, m: Marks) {
    && (forall v :: v in m.heap && v !in from.heap ==> v in defs && Reached(g, defs, points, v))
    && (forall a :: a in m.flagged && a !in from.flagged ==> ReachedInit(g, defs, points, a))
  }

  /** A list followed to its end, from one moment to another. */
  ghost predicate Progress(g: Graph, defs: set<string>, points: set<string>, list: seq<EscNode>, from: Marks,
          m: Marks) {
    Grows(from, m) && Handled(list, defs, m) && Followed(g, defs, from, m) && Justified(g, defs, points, from, m)
  }

  lemma ProgressJoins(g: Graph, defs: set<string>, points: set<string>, done: seq<EscNode>, e: EscNode, a: Marks,
          b: Marks, c: Marks)
    requires Progress(g, defs, points, done, a, b) && Progress(g, defs, points, [e], b, c)
    ensures Progress(g, defs, points, done + [e], a, c)
  {
    assert e in [e];
    forall k | k in g && k in a.left && k !in c.left ensures Handled(g[k], defs, c) {
      if k !in b.left { assert Handled(g[k], defs, b); }
    }
  }

  lemma NothingDone(g: Graph, defs: set<string>, points: set<string>, m: Marks)
    ensures Progress(g, defs, points, [], m, m)
  {
  }

  /** A name that is not defined here is passed over. */
  lemma NamePassed(g: Graph, defs: set<string>, points: set<string>, v: string, m: Marks)
    requires v !in defs
    ensures Progress(g, defs, points, [Token(v)], m, m)
  {
  }

  lemma InitFlagged(g: Graph, defs: set<string>, points: set<string>, owner: string, a: Alloca, m: Marks, m': Marks)
    requires Reached(g, defs, points, owner) && owner in g && Init(a) in g[owner]
    requires m' == m.(flagged := m.flagged + {a})
    ensures Progress(g, defs, points, [Init(a)], m, m')
  {
  }

  /** A name marked, its list taken and followed. */
  lemma NameFollowed(g: Graph, defs: set<string>, points: set<string>, a: Marks, v: string, list: seq<EscNode>,
          b: Marks, c: Marks)
    requires b == Marks(a.heap + {v}, a.left - {v}, a.flagged) && v in defs && Reached(g, defs, points, v)
    requires v in g && v in a.left ==> list == g[v]
    requires Progress(g, defs, points, list, b, c)
    ensures Progress(g, defs, points, [Token(v)], a, c)
  {
    hide Reached;
    forall k | k in g && k in a.left && k !in c.left ensures Handled(g[k], defs, c) {
      if k in b.left { assert Handled(g[k], defs, c); }
    }
  }

  class Analysis {
    const defMap: set<string>
    const escPoint: set<string>
    ghost const graph: Graph
    ghost const nodes: set<Alloca>
    var escMap: Graph
    var heapAllocTable: set<string>

    ghost predicate Valid()
      reads this
    {
      && (forall k :: k in escMap ==> k in graph && escMap[k] == graph[k])
      && (forall k, e :: k in graph && e in graph[k] && e.Init? ==> e.initNode in nodes)
    }

    ghost function State(): Marks
      reads this, nodes
    {
      Marks(heapAllocTable, escMap.Keys, Flagged(nodes))
    }

    constructor (defMap: set<string>, escPoint: set<string>, escMap: Graph, heapAllocTable: set<string>,
            ghost nodes: set<Alloca>)
      requires forall k, e :: k in escMap && e in escMap[k] && e.Init? ==> e.initNode in nodes
      ensures Valid() && graph == escMap && this.defMap == defMap && this.escPoint == escPoint && this.nodes == nodes
      ensures this.escMap == escMap && this.heapAllocTable == heapAllocTable
    {
      this.defMap, this.escPoint, this.escMap, this.heapAllocTable := defMap, escPoint, escMap, heapAllocTable;
      this.graph, this.nodes := escMap, nodes;
    }

    /** Takes a name's list, which is empty when there is none any more. */
    method Take(name: string) returns (next: seq<EscNode>)
      requires Valid()
      modifies this`escMap
      ensures Valid() && State() == old(State()).(left := old(escMap.Keys) - {name})
      ensures next == if name in old(escMap) then graph[name] else []
      ensures name in old(escMap) ==> |escMap| < |old(escMap)|
      ensures name !in old(escMap) ==> escMap == old(escMap)
    {
      next := if name in escMap then escMap[name] else [];
      ghost var before := escMap.Keys;
      escMap := escMap - {name};
      assert escMap.Keys == before - {name};
      if name in before { assert before == escMap.Keys + {name}; }
    }

    /** findEsc: follows the list of `owner`. */
    method FindEsc(next: seq<EscNode>, ghost owner: string)
      requires Valid() && (next != [] ==>
        Reached(graph, defMap, escPoint, owner) && owner in graph && graph[owner] == next)
      modifies this`escMap, this`heapAllocTable, nodes
      ensures Valid() && |escMap| <= |old(escMap)| && Progress(graph, defMap, escPoint, next, old(State()), State())
      decreases |escMap|, |next|, 0
    {
      hide Reached, Progress;
      var i := 0;
      ghost var from := State();
      NothingDone(graph, defMap, escPoint, from);
      while i < |next|
        invariant 0 <= i <= |next|
        invariant Valid() && |escMap| <= |old(escMap)| && Progress(graph, defMap, escPoint, next[..i], from, State())
      {
        ghost var before := State();
        match next[i] {
          case Token(v) =>
            if v in defMap {
              FollowName(v, owner);
            } else {
              NamePassed(graph, defMap, escPoint, v, before);
            }
          case Init(a) =>
            assert Init(a) in graph[owner];
            a.SetAlloc(true);
            assert Flagged(nodes) == before.flagged + {a};
            InitFlagged(graph, defMap, escPoint, owner, a, before, State());
        }
        ProgressJoins(graph, defMap, escPoint, next[..i], next[i], from, before, State());
        assert next[..i + 1] == next[..i] + [next[i]];
        i := i + 1;
      }
      assert next[..i] == next;
    }

    /** A name defined here, found in the list of `owner`: marked, and its own list followed. */
    method FollowName(v: string, ghost owner: string)
      requires Valid() && v in defMap && Reached(graph, defMap, escPoint, owner) && owner in graph
        && Token(v) in graph[owner]
      modifies this`escMap, this`heapAllocTable, nodes
      ensures Valid() && |escMap| <= |old(escMap)|
        && Progress(graph, defMap, escPoint, [Token(v)], old(State()), State())
      decreases |escMap|, 0, 1
    {
      hide Reached, Progress;
      ghost var before := State();
      heapAllocTable := heapAllocTable + {v};
      var list := Take(v);
      ghost var taken := State();
      StepReached(graph, defMap, escPoint, owner, v);
      FindEsc(list, v);
      NameFollowed(graph, defMap, escPoint, before, v, list, taken, State());
    }

    /** The search over all escape points, in any order: exactly the reached local names go
        on the heap, besides those already there, and exactly the initialisers recorded on
        reached names are flagged. */
    method Search()
      requires Valid() && escMap == graph
      modifies this`escMap, this`heapAllocTable, nodes
      ensures Valid()
      ensures forall v :: v in heapAllocTable <==>
        v in old(heapAllocTable) || (v in defMap && Reached(graph, defMap, escPoint, v))
      ensures forall a :: a in nodes ==>
        (a.onHeap <==> old(a.onHeap) || ReachedInit(graph, defMap, escPoint, a))
    {
      hide Reached, ReachedInit, Progress, Searched;
      var todo := escPoint;
      ghost var from := State();
      ghost var done := {};
      NothingSearched(graph, defMap, escPoint, from);
      while todo != {}
        invariant done + todo == escPoint && Valid() && Searched(graph, defMap, escPoint, done, from, State())
        decreases |todo|
      {
        var v :| v in todo;
        SearchPoint(v, done, from);
        todo, done := todo - {v}, done + {v};
      }
      assert done == escPoint;
      Exact(graph, defMap, escPoint, nodes, from, State());
      FlaggedIs(from.flagged);
    }

    twostate lemma FlaggedIs(before: set<Alloca>)
      requires before == old(Flagged(nodes))
      ensures forall a :: a in nodes ==> (a in before <==> old(a.onHeap)) && (a in Flagged(nodes) <==> a.onHeap)
    {
    }

    /** The body of the loop over escape points. */
    method SearchPoint(v: string, ghost done: set<string>, ghost from: Marks)
      requires Valid() && v in escPoint && Searched(graph, defMap, escPoint, done, from, State())
      modifies this`escMap, this`heapAllocTable, nodes
      ensures Valid() && Searched(graph, defMap, escPoint, done + {v}, from, State())
    {
      hide Reached, Progress, Searched;
      ghost var before := State();
      if v in defMap { heapAllocTable := heapAllocTable + {v}; }
      var next := Take(v);
      ghost var taken := State();
      PointReached(graph, defMap, escPoint, v);
      FindEsc(next, v);
      PointSearched(graph, defMap, escPoint, done, v, next, from, before, taken, State());
    }
  }

  /** The escape points of `done` are marked where they are defined, and searched. */
  ghost predicate Searched(g: Graph, defs: set<string>, points: set<string>, done: set<string>, from: Marks, m: Marks) {
    && Progress(g, defs, points, [], from, m)
    && forall v :: v in done ==> v !in m.left && (v in defs ==> v in m.heap)
  }

  lemma NothingSearched(g: Graph, defs: set<string>, points: set<string>, m: Marks)
    ensures Searched(g, defs, points, {}, m, m)
  {
  }

  lemma PointSearched(g: Graph, defs: set<string>, points: set<string>, done: set<string>, v: string,
          list: seq<EscNode>, from: Marks, a: Marks, b: Marks, c: Marks)
    requires Searched(g, defs, points, done, from, a) && Reached(g, defs, points, v)
    requires b == Marks(if v in defs then a.heap + {v} else a.heap, a.left - {v}, a.flagged)
    requires v in g && v in a.left ==> list == g[v]
    requires Progress(g, defs, points, list, b, c)
    ensures Searched(g, defs, points, done + {v}, from, c)
  {
    hide Reached;
    forall k | k in g && k in from.left && k !in c.left ensures Handled(g[k], defs, c) {
      if k !in a.left { assert Handled(g[k], defs, a); }
    }
  }

  /** Once every escape point is searched, every reached name has been. */
  lemma Exact(g: Graph, defs: set<string>, points: set<string>, nodes: set<Alloca>, from: Marks, m: Marks)
    requires from.left == g.Keys && Searched(g, defs, points, points, from, m)
    ensures forall v :: v in m.heap <==> v in from.heap || (v in defs && Reached(g, defs, points, v))
    ensures forall a :: a in nodes ==> (a in m.flagged <==> a in from.flagged || ReachedInit(g, defs, points, a))
  {
    forall v | Reached(g, defs, points, v) ensures v !in m.left && (v in defs ==> v in m.heap) {
      var p :| IsPath(g, defs, points, p) && p[|p| - 1] == v;
      AlongPath(g, defs, points, from, m, p);
    }
    hide Reached;
    forall a | a in nodes && ReachedInit(g, defs, points, a) ensures a in m.flagged {
      var k :| Reached(g, defs, points, k) && k in g && Init(a) in g[k];
      assert Handled(g[k], defs, m);
    }
  }

  lemma {:induction false} AlongPath(g: Graph, defs: set<string>, points: set<string>, from: Marks, m: Marks,
          p: seq<string>)
    requires from.left == g.Keys && Searched(g, defs, points, points, from, m) && IsPath(g, defs, points, p)
    ensures p[|p| - 1] !in m.left && (p[|p| - 1] in defs ==> p[|p| - 1] in m.heap)
  {
    if |p| > 1 {
      var q := p[..|p| - 1];
      AlongPath(g, defs, points, from, m, q);
      assert Edge(g, defs, q[|q| - 1], p[|p| - 1]);
      assert Handled(g[q[|q| - 1]], defs, m);
      assert Token(p[|p| - 1]) in g[q[|q| - 1]];
    }
  }
}
