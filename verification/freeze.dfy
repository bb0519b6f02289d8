/** Recursive in-place deep freeze of an object graph (src/freeze.ts).
    JavaScript objects (plain objects and functions alike) are `Node`s on the
    heap; a node's own properties are `props`, and `Object.freeze` is the
    `frozen` flag. */
module DeepFreeze {

  /** The value of one own property, as `freeze` classifies it: a primitive
      (including falsy ones such as 0 or ''), `null`, or a reference to an
      object or a function. */
  datatype Property = Primitive | Null | Ref(target: Node)

  /** The `TypeError` that `Object.getOwnPropertyNames` throws when `freeze`
      is given `undefined` or `null`: a missing object cannot be frozen. */
  datatype FreezeError = NotAnObject

  class Node {
    /** The runtime class of the object (its `constructor`). */
    const ctor: nat
    var props: seq<Property>
    var frozen: bool

    constructor (ctor: nat, props: seq<Property>)
      ensures this.ctor == ctor && this.props == props && !frozen
    {
      this.ctor := ctor;
      this.props := props;
      frozen := false;
    }
  }

  /** Graph snapshot: the own properties of every node in `nodes`. */
  ghost function Graph(nodes: set<Node>): map<Node, seq<Property>>
    reads nodes
  {
    map n | n in nodes :: n.props
  }

  /** Every reference held by a node of `nodes` points into `nodes`. */
  ghost predicate Closed(nodes: set<Node>)
    reads nodes
  {
    forall n, q :: n in nodes && q in n.props && q.Ref? ==> q.target in nodes
  }

  ghost function Unfrozen(nodes: set<Node>): set<Node>
    reads nodes
  {
    set n | n in nodes && !n.frozen
  }

  ghost predicate Edge(g: map<Node, seq<Property>>, a: Node, b: Node)
  {
    a in g && Ref(b) in g[a]
  }

  /** `p` is a path of property references from `a` to `b` in `g` whose
      nodes after the first all lie in `via`. */
  ghost predicate PathWithin(g: map<Node, seq<Property>>, p: seq<Node>, a: Node, b: Node, via: set<Node>)
  {
    && |p| >= 1 && p[0] == a && p[|p| - 1] == b
    && (forall j :: 0 < j < |p| ==> p[j] in via)
    && (forall j :: 0 <= j < |p| - 1 ==> Edge(g, p[j], p[j + 1]))
  }

  /** If `o` is frozen and every frozen node among `o` and `via` has all its
      children frozen, then every node reachable from `o` through `via` is
      frozen. */
  lemma {:induction false} FrozenAlongPath(nodes: set<Node>, g: map<Node, seq<Property>>, via: set<Node>,
                                           o: Node, p: seq<Node>, n: Node)
    requires o in nodes && o.frozen && via <= nodes
    requires forall m, c :: m in nodes && (m == o || (m in via && m.frozen)) && Edge(g, m, c) ==> c.frozen
    requires PathWithin(g, p, o, n, via)
    ensures n.frozen
    decreases |p|
  {
    if |p| > 1 {
      var q := p[..|p| - 1];
      var m := q[|q| - 1];
      assert PathWithin(g, q, o, m, via);
      FrozenAlongPath(nodes, g, via, o, q, m);
      assert Edge(g, p[|p| - 2], p[|p| - 1]);
    }
  }

  /** `freeze(o)`: marks `o` frozen first, then recurses into every own
      property that references an object or function not yet frozen, and
      returns `o`.  Afterwards exactly the nodes reachable from `o` through
      nodes that were unfrozen before the call are newly frozen: a reference
      to an already-frozen node is not followed, and a cycle back to a node
      on the current path is not re-entered. */
  method Freeze(o: Node, ghost nodes: set<Node>) returns (r: Node)
    requires o in nodes && Closed(nodes)
    modifies nodes
    decreases Unfrozen(nodes) + {o}
    ensures r == o && o.frozen
    ensures forall n :: n in nodes ==> n.props == old(n.props)
    ensures forall n :: n in nodes && old(n.frozen) ==> n.frozen
    ensures forall n :: n in nodes && !old(n.frozen) ==>
              (n.frozen <==> exists p :: PathWithin(old(Graph(nodes)), p, o, n, old(Unfrozen(nodes))))
    ensures forall n, c :: n in nodes && (n == o || (!old(n.frozen) && n.frozen)) && Edge(old(Graph(nodes)), n, c)
              ==> c.frozen
  {
    ghost var G := Graph(nodes);
    ghost var U := Unfrozen(nodes);
    o.frozen := true;
    assert PathWithin(G, [o], o, o, U);
    var props := o.props;
    var i := 0;
    while i < |props|
      invariant 0 <= i <= |props| && props == G[o]
      invariant o.frozen
      invariant forall n :: n in nodes ==> n.props == old(n.props)
      invariant forall n :: n in nodes && old(n.frozen) ==> n.frozen
      invariant forall n :: n in nodes && !old(n.frozen) && n.frozen ==> exists p :: PathWithin(G, p, o, n, U)
      invariant forall n, c :: n in nodes && n != o && !old(n.frozen) && n.frozen && Edge(G, n, c) ==> c.frozen
      invariant forall j :: 0 <= j < i && props[j].Ref? ==> props[j].target.frozen
    {
      if props[i].Ref? && !props[i].target.frozen {
        var c := props[i].target;
        assert c in nodes;
        assert Graph(nodes) == G;
        assert Unfrozen(nodes) < U + {o} by {
          assert Unfrozen(nodes) <= U - {o};
        }
        ghost var Uc := Unfrozen(nodes);
        label BeforeCall:
        var _ := Freeze(c, nodes);
        assert c in U;
        forall n | n in nodes && !old(n.frozen) && n.frozen
          ensures exists p :: PathWithin(G, p, o, n, U)
        {
          if !old@BeforeCall(n.frozen) {
            var p :| PathWithin(G, p, c, n, Uc);
            assert Edge(G, o, c) by { assert props[i] == Ref(c); }
            assert PathWithin(G, [o] + p, o, n, U);
          }
        }
        forall n, d | n in nodes && n != o && !old(n.frozen) && n.frozen && Edge(G, n, d)
          ensures d.frozen
        {
          if old@BeforeCall(n.frozen) {
            assert old@BeforeCall(d.frozen);
          }
        }
      }
      i := i + 1;
    }
    r := o;
    forall n, c | n in nodes && (n == o || (!old(n.frozen) && n.frozen)) && Edge(G, n, c)
      ensures c.frozen
    {
      if n == o {
        var j :| 0 <= j < |props| && props[j] == Ref(c);
      }
    }
    forall n, p | n in nodes && !old(n.frozen) && PathWithin(G, p, o, n, U)
      ensures n.frozen
    {
      FrozenAlongPath(nodes, G, U, o, p, n);
    }
  }
}
