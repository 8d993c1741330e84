/**
 The route trie: one tree of nodes per request method, grown in place. Its abstract value is the list
 of routes added so far; module RouteTable says what a search over that list is.
 */
module RouteTrie {
  import opened Wrappers
  import opened Route
  import opened RouteTable
  import Request

  const METHODS: seq<Request.Method> :=
    [Request.Get, Request.Head, Request.Options, Request.Trace, Request.Put, Request.Delete, Request.Post,
     Request.Patch, Request.Connect]

  class TrieNode<C> {
    const segment: Segment
    var children: seq<TrieNode<C>>
    var callback: Option<C>

    constructor (segment: Segment)
      ensures this.segment == segment && children == [] && callback == None
    {
      this.segment, children, callback := segment, [], None;
    }
  }

  type Place = (Request.Method, Path)
  type Nodes<C> = map<Place, TrieNode<C>>

  function EntryOf<C>(rt: Route<C>): Entry<C> {
    Entry(rt.verb, PathOf(rt), rt.callback)
  }

  /** The children of the node at a place are the nodes one segment further, in insertion order, each
      with its own text and the right flag. */
  ghost predicate ChildrenRight<C>(nodes: Nodes<C>, rs: Table<C>, v: Request.Method, at: Path)
    requires (v, at) in nodes
    reads nodes.Values
  {
    var ks := Kids(rs, v, at);
    var n := nodes[(v, at)];
    && |n.children| == |ks|
    && forall j :: 0 <= j < |ks| ==>
                     && (v, at + [ks[j]]) in nodes && n.children[j] == nodes[(v, at + [ks[j]])]
                     && n.children[j].segment == Segment(ks[j], Dynamic(ks[j]))
  }

  /** The nodes are exactly those the routes pass through, all of them distinct objects. */
  ghost predicate Shape<C>(nodes: Nodes<C>, rs: Table<C>)
    reads nodes.Values
  {
    && (forall v :: (v, []) in nodes)
    && (forall p :: p in nodes && p.1 != [] ==> Reaches(rs, p.0, p.1))
    && (forall p, q :: p in nodes && q in nodes && nodes[p] == nodes[q] ==> p == q)
    && (forall p :: p in nodes ==> ChildrenRight(nodes, rs, p.0, p.1))
  }

  ghost predicate CallbacksRight<C>(nodes: Nodes<C>, rs: Table<C>)
    reads nodes.Values
  {
    forall p :: p in nodes ==> nodes[p].callback == Registered(rs, p.0, p.1)
  }

  class Trie<C> {
    var roots: map<Request.Method, TrieNode<C>>
    ghost var nodes: Nodes<C>
    ghost var routes: Table<C>

    ghost predicate Valid()
      reads this, nodes.Values
    {
      && Shape(nodes, routes) && CallbacksRight(nodes, routes)
      && forall v :: v in roots && roots[v] == nodes[(v, [])]
    }

    constructor ()
      ensures Valid() && routes == [] && fresh(nodes.Values)
    {
      new;
      roots, nodes, routes := map[], map[], [];
      var i := 0;
      while i < |METHODS|
        invariant 0 <= i <= |METHODS|
        invariant forall v :: v in roots <==> v in METHODS[..i]
        invariant forall v :: v in roots ==> (v, []) in nodes && roots[v] == nodes[(v, [])]
        invariant forall p :: p in nodes ==> p.0 in roots && p.1 == [] && fresh(nodes[p])
        invariant forall p :: p in nodes ==> nodes[p].children == [] && nodes[p].callback == None
        invariant forall p, q :: p in nodes && q in nodes && nodes[p] == nodes[q] ==> p == q
        invariant routes == []
      {
        var root := new TrieNode<C>(Segment("", false));
        assert METHODS[..i + 1] == METHODS[..i] + [METHODS[i]];
        roots := roots[METHODS[i] := root];
        nodes := nodes[(METHODS[i], []) := root];
        i := i + 1;
      }
      AllMethods();
      assert METHODS[..i] == METHODS;
    }

    /** The node has no child for the segment: create one. */
    method Attach(parent: TrieNode<C>, segment: Segment, ghost v: Request.Method, ghost at: Path)
      returns (node: TrieNode<C>)
      requires (v, at) in nodes && parent == nodes[(v, at)] && segment.dynamic == Dynamic(segment.text)
      requires Shape(nodes, routes + [Part(v, at)]) && CallbacksRight(nodes, routes)
      requires segment.text !in Kids(routes + [Part(v, at)], v, at)
      modifies this`nodes, parent`children
      ensures fresh(node) && nodes == old(nodes)[(v, at + [segment.text]) := node]
      ensures (v, at + [segment.text]) !in old(nodes)
      ensures Shape(nodes, routes + [Part(v, at + [segment.text])]) && CallbacksRight(nodes, routes)
    {
      hide Kids, Registered, Reaches, Shape, CallbacksRight, Choice;
      ghost var table, longer := routes + [Part(v, at)], routes + [Part(v, at + [segment.text])];
      PartNew(routes, v, at, segment.text);
      ShapeFacts(nodes, table, routes);
      ghost var before := nodes;
      node := new TrieNode<C>(segment);
      parent.children := parent.children + [node];
      nodes := nodes[(v, at + [segment.text]) := node];
      forall p | p in nodes ensures ChildrenRight(nodes, longer, p.0, p.1) {
        if p in before {
          PartKids(routes, v, at, segment.text, p.0, p.1);
          assert old(ChildrenRight(nodes, table, p.0, p.1));
          assert nodes[p] == before[p];
        }
      }
      forall p | p in nodes && p.1 != [] ensures Reaches(longer, p.0, p.1) {
        PartReaches(routes, v, at, segment.text, p.0, p.1);
      }
      ShapeFrom(nodes, longer, routes);
    }

    method Register(node: TrieNode<C>, rt: Route<C>)
      requires (rt.verb, PathOf(rt)) in nodes && node == nodes[(rt.verb, PathOf(rt))]
      requires forall v :: v in roots && (v, []) in nodes && roots[v] == nodes[(v, [])]
      requires Shape(nodes, routes + [Part(rt.verb, PathOf(rt))]) && CallbacksRight(nodes, routes)
      modifies node`callback, this`routes
      ensures Valid() && routes == old(routes) + [EntryOf(rt)]
    {
      hide Kids, Registered, Reaches;
      ghost var table, all := routes + [Part(rt.verb, PathOf(rt))], routes + [EntryOf(rt)];
      node.callback := rt.callback;
      forall p | p in nodes ensures ChildrenRight(nodes, all, p.0, p.1) {
        assert old(ChildrenRight(nodes, table, p.0, p.1));
        KidsIgnoreCallback(routes, EntryOf(rt), p.0, p.1);
      }
      forall p | p in nodes ensures nodes[p].callback == Registered(all, p.0, p.1) {
        RegisteredSnoc(routes, EntryOf(rt), p.0, p.1);
      }
      forall p | p in nodes && p.1 != [] ensures Reaches(all, p.0, p.1) {
        KidsIgnoreCallback(routes, EntryOf(rt), p.0, p.1);
      }
      routes := all;
    }

    method AddRoute(rt: Route<C>)
      requires Valid() && Flagged(rt)
      modifies this`nodes, this`routes, nodes.Values
      ensures Valid() && fresh(nodes.Values - old(nodes.Values))
      ensures routes == old(routes) + [EntryOf(rt)]
    {
      hide Kids, Registered, Reaches, Shape, CallbacksRight;
      var current := roots[rt.verb];
      ghost var path := PathOf(rt);
      ghost var at: Path := path[..0];
      RootsExist(nodes, routes);
      PartNone(nodes, routes, rt.verb);
      var i := 0;
      while i < |rt.segments|
        invariant 0 <= i <= |rt.segments| && at == path[..i]
        invariant routes == old(routes) && roots == old(roots)
        invariant fresh(nodes.Values - old(nodes.Values))
        invariant forall v :: v in roots && (v, []) in nodes && roots[v] == nodes[(v, [])]
        invariant (rt.verb, at) in nodes && current == nodes[(rt.verb, at)]
        invariant Shape(nodes, routes + [Part(rt.verb, at)]) && CallbacksRight(nodes, routes)
      {
        var segment := rt.segments[i];
        ghost var ks := Kids(routes + [Part(rt.verb, at)], rt.verb, at);
        ChildrenOf(nodes, routes + [Part(rt.verb, at)], rt.verb, at);
        var j := 0;
        while j < |current.children| && current.children[j].segment.text != segment.text
          invariant 0 <= j <= |current.children|
          invariant forall k :: 0 <= k < j ==> ks[k] != segment.text
        {
          j := j + 1;
        }
        assert path[..i + 1] == at + [segment.text];
        if j < |current.children| {
          PartFound(nodes, routes, rt.verb, at, segment.text);
          current := current.children[j];
        } else {
          current := Attach(current, segment, rt.verb, at);
        }
        at := at + [segment.text];
        i := i + 1;
      }
      assert at == path;
      Register(current, rt);
    }

    /** trie_find_handler after the URI has been cut. */
    method Find(v: Request.Method, u: Path) returns (callback: Option<C>)
      requires Valid()
      ensures callback == Lookup(routes, v, u)
    {
      hide Landing, Kids, Registered;
      var root := roots[v];
      ghost var at: Path := [];
      var i := 0;
      while i < |u|
        invariant 0 <= i <= |u|
        invariant (v, at) in nodes && root == nodes[(v, at)]
        invariant Landing(routes, v, [], u) == Landing(routes, v, at, u[i..])
      {
        ghost var ks := Kids(routes, v, at);
        assert ChildrenRight(nodes, routes, v, at);
        LandingStep(routes, v, at, u[i..]);
        assert u[i..][1..] == u[i + 1..];
        var children := root.children;
        var j := 0;
        while j < |children|
          invariant 0 <= j <= |children| && j <= Choice(ks, u[i])
          invariant root == nodes[(v, at)]
          invariant j > 0 ==> j < |children|
        {
          if u[i] == children[j].segment.text {
            root := children[j];
            break;
          }
          if children[j].segment.dynamic {
            root := children[j];
            break;
          }
          if j == |children| - 1 {
            return None;
          }
          j := j + 1;
        }
        at := if |children| == 0 then at else at + [ks[j]];
        i := i + 1;
      }
      LandingEnd(routes, v, at);
      assert u[i..] == [];
      return root.callback;
    }
  }

  lemma AllMethods()
    ensures forall v: Request.Method :: v in METHODS
  {
    assert forall i :: 0 <= i < 9 ==> METHODS[i] in METHODS;
    forall v: Request.Method ensures v in METHODS {
      match v
      case Get => assert METHODS[0] == v;
      case Head => assert METHODS[1] == v;
      case Options => assert METHODS[2] == v;
      case Trace => assert METHODS[3] == v;
      case Put => assert METHODS[4] == v;
      case Delete => assert METHODS[5] == v;
      case Post => assert METHODS[6] == v;
      case Patch => assert METHODS[7] == v;
      case Connect => assert METHODS[8] == v;
    }
  }

  lemma LandingEnd<C>(rs: Table<C>, v: Request.Method, at: Path)
    ensures Landing(rs, v, at, []) == Some(at)
  {
  }

  lemma LandingStep<C>(rs: Table<C>, v: Request.Method, at: Path, u: Path)
    requires u != []
    ensures var ks := Kids(rs, v, at);
            var i := Choice(ks, u[0]);
            Landing(rs, v, at, u) == if ks == [] then Landing(rs, v, at, u[1..])
                                     else if i < |ks| then Landing(rs, v, at + [ks[i]], u[1..]) else None
  {
  }

  lemma RootsExist<C>(nodes: Nodes<C>, rs: Table<C>)
    requires Shape(nodes, rs)
    ensures forall v :: (v, []) in nodes
  {
  }

  lemma ShapeFacts<C>(nodes: Nodes<C>, table: Table<C>, routes: Table<C>)
    requires Shape(nodes, table) && CallbacksRight(nodes, routes)
    ensures forall v :: (v, []) in nodes
    ensures forall p :: p in nodes && p.1 != [] ==> Reaches(table, p.0, p.1)
    ensures forall p, q :: p in nodes && q in nodes && nodes[p] == nodes[q] ==> p == q
    ensures forall p :: p in nodes ==> ChildrenRight(nodes, table, p.0, p.1)
    ensures forall p :: p in nodes ==> nodes[p].callback == Registered(routes, p.0, p.1)
  {
  }

  lemma ShapeFrom<C>(nodes: Nodes<C>, table: Table<C>, routes: Table<C>)
    requires forall v :: (v, []) in nodes
    requires forall p :: p in nodes && p.1 != [] ==> Reaches(table, p.0, p.1)
    requires forall p, q :: p in nodes && q in nodes && nodes[p] == nodes[q] ==> p == q
    requires forall p :: p in nodes ==> ChildrenRight(nodes, table, p.0, p.1)
    requires forall p :: p in nodes ==> nodes[p].callback == Registered(routes, p.0, p.1)
    ensures Shape(nodes, table) && CallbacksRight(nodes, routes)
  {
  }

  lemma ChildrenOf<C>(nodes: Nodes<C>, rs: Table<C>, v: Request.Method, at: Path)
    requires Shape(nodes, rs) && (v, at) in nodes
    ensures ChildrenRight(nodes, rs, v, at)
  {
  }

  // ---------- routes added in part ----------

  /** A route of which only the first segments are known, and no callback. */
  function Part<C>(v: Request.Method, at: Path): Entry<C> {
    Entry(v, at, None)
  }

  lemma ReachesAdd<C>(rs: Table<C>, r: Entry<C>, v: Request.Method, p: Path)
    ensures Reaches(rs + [r], v, p) <==> Reaches(rs, v, p) || (r.verb == v && p <= r.path)
  {
    hide Reaches;
    ReachesSnoc(rs + [r], v, p);
    assert (rs + [r])[..|rs|] == rs;
  }

  lemma KidsIgnoreCallback<C>(rs: Table<C>, r: Entry<C>, v: Request.Method, p: Path)
    ensures Kids(rs + [r], v, p) == Kids(rs + [Part(r.verb, r.path)], v, p)
    ensures Reaches(rs + [r], v, p) <==> Reaches(rs + [Part(r.verb, r.path)], v, p)
  {
    hide Reaches, Kids;
    KidsGrow(rs, r, v, p);
    KidsGrow(rs, Part(r.verb, r.path), v, p);
    ReachesAdd(rs, r, v, p);
    ReachesAdd(rs, Part(r.verb, r.path), v, p);
  }

  lemma PartKids<C>(rs: Table<C>, v: Request.Method, at: Path, k: string, v': Request.Method, p: Path)
    ensures var ks := Kids(rs + [Part(v, at)], v', p);
            Kids(rs + [Part(v, at + [k])], v', p) == if (v', p) == (v, at) && k !in ks then ks + [k] else ks
  {
    hide Kids;
    KidsGrow(rs, Part(v, at), v', p);
    KidsGrow(rs, Part(v, at + [k]), v', p);
    assert (at + [k])[..|at|] == at;
    assert p < at + [k] <==> p < at || p == at by {
      if p < at + [k] {
        assert p == (at + [k])[..|p|];
      }
    }
  }

  lemma PartReaches<C>(rs: Table<C>, v: Request.Method, at: Path, k: string, v': Request.Method, p: Path)
    ensures Reaches(rs + [Part(v, at)], v', p) ==> Reaches(rs + [Part(v, at + [k])], v', p)
    ensures Reaches(rs + [Part(v, at + [k])], v, at + [k])
  {
    hide Reaches;
    ReachesAdd(rs, Part(v, at), v', p);
    ReachesAdd(rs, Part(v, at + [k]), v', p);
    ReachesAdd(rs, Part(v, at + [k]), v, at + [k]);
  }

  lemma PartNone<C>(nodes: Nodes<C>, rs: Table<C>, v: Request.Method)
    requires Shape(nodes, rs)
    ensures Shape(nodes, rs + [Part(v, [])])
  {
    hide Kids, Reaches;
    forall p | p in nodes ensures ChildrenRight(nodes, rs + [Part(v, [])], p.0, p.1) {
      KidsGrow(rs, Part(v, []), p.0, p.1);
    }
    forall p | p in nodes && p.1 != [] ensures Reaches(rs + [Part(v, [])], p.0, p.1) {
      ReachesAdd(rs, Part(v, []), p.0, p.1);
    }
  }

  /** One more segment that the node already has a child for: the tree is the same. */
  lemma PartFound<C>(nodes: Nodes<C>, rs: Table<C>, v: Request.Method, at: Path, k: string)
    requires Shape(nodes, rs + [Part(v, at)]) && k in Kids(rs + [Part(v, at)], v, at)
    ensures Shape(nodes, rs + [Part(v, at + [k])])
  {
    hide Kids, Reaches;
    forall p | p in nodes ensures ChildrenRight(nodes, rs + [Part(v, at + [k])], p.0, p.1) {
      PartKids(rs, v, at, k, p.0, p.1);
    }
    forall p | p in nodes && p.1 != [] ensures Reaches(rs + [Part(v, at + [k])], p.0, p.1) {
      PartReaches(rs, v, at, k, p.0, p.1);
    }
  }

  /** One more segment that the node has no child for: there is no such node yet, and nothing below it. */
  lemma PartNew<C>(rs: Table<C>, v: Request.Method, at: Path, k: string)
    requires k !in Kids(rs + [Part(v, at)], v, at)
    ensures !Reaches(rs + [Part(v, at)], v, at + [k]) && Registered(rs, v, at + [k]) == None
    ensures Kids(rs + [Part(v, at + [k])], v, at + [k]) == []
  {
    hide Kids, Reaches, Registered;
    KidsExactly(rs + [Part(v, at)], v, at, k);
    ReachesAdd(rs, Part(v, at), v, at + [k]);
    RegisteredOnlyReached(rs, v, at + [k]);
    PartKids(rs, v, at, k, v, at + [k]);
    NothingBelow(rs + [Part(v, at)], v, at + [k]);
  }

  lemma NothingBelow<C>(rs: Table<C>, v: Request.Method, at: Path)
    requires !Reaches(rs, v, at)
    ensures Kids(rs, v, at) == []
  {
    LeafExactly(rs, v, at);
  }
}
