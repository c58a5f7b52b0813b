/**
  The declaration graph: groups with guards and endpoints, mounting each other
  by pointer, so the same group may be mounted several times or inside itself.
 */
module Groups {
  import opened Wrappers

  type GroupId = nat

  /** A guard; the zero guard fails compilation. */
  datatype Guard = Guard(id: string, constructed: bool)

  /** A declared endpoint; `prepares` stands for everything else its own declaration can get wrong. */
  datatype Endpoint = Endpoint(verb: string, path: string, guards: seq<Guard>, prepares: bool)

  datatype Link = Link(pattern: string, node: Option<GroupId>)

  datatype Group = Group(guards: seq<Guard>, endpoints: seq<Endpoint>, infra: seq<Endpoint>, children: seq<Link>)

  type Graph = map<GroupId, Group>

  /** Every mounted group exists: links are pointers. */
  ghost predicate ClosedGraph(graph: Graph) {
    forall g, i :: g in graph && 0 <= i < |graph[g].children| && graph[g].children[i].node.Some? ==>
      graph[g].children[i].node.value in graph
  }

  /** A walk: child indexes followed from `g`; `End` is the group it leads to. */
  function End(graph: Graph, g: GroupId, walk: seq<nat>): Option<GroupId>
    requires g in graph
    decreases walk
  {
    if walk == [] then Some(g)
    else if walk[0] >= |graph[g].children| then None
    else
      match graph[g].children[walk[0]].node
      case None => None
      case Some(c) => if c in graph then End(graph, c, walk[1..]) else None
  }

  /** A group can be reached from `g` that is mounted, directly or not, inside its own subtree. */
  ghost predicate CycleReachable(graph: Graph, g: GroupId)
    requires g in graph
  {
    exists to, around :: around != [] && LoopsAt(graph, g, to, around)
  }

  predicate LoopsAt(graph: Graph, g: GroupId, to: seq<nat>, around: seq<nat>)
    requires g in graph
  {
    End(graph, g, to).Some? && End(graph, g, to + around) == End(graph, g, to)
  }

  /** No descent from `g` meets an active group: the compiler's own recursion never reports a cycle. */
  ghost predicate NoCycle(graph: Graph, g: GroupId, active: set<GroupId>)
    decreases graph.Keys - active
  {
    && g in graph
    && g !in active
    && forall i :: 0 <= i < |graph[g].children| && graph[g].children[i].node.Some? ==>
         NoCycle(graph, graph[g].children[i].node.value, active + {g})
  }

  // --- The compiler's cycle test is exact ------------------------------------

  lemma {:induction false} EndSplits(graph: Graph, g: GroupId, a: seq<nat>, b: seq<nat>)
    requires g in graph && End(graph, g, a).Some?
    ensures End(graph, g, a).value in graph
    ensures End(graph, g, a + b) == End(graph, End(graph, g, a).value, b)
    decreases a
  {
    if a == [] {
      assert a + b == b;
    } else {
      var c := graph[g].children[a[0]].node.value;
      EndSplits(graph, c, a[1..], b);
      assert (a + b)[1..] == a[1..] + b;
    }
  }

  /** Without a cycle under the active set, no walk ever leads back into it. */
  lemma {:induction false} WalksAvoidActive(graph: Graph, g: GroupId, active: set<GroupId>, walk: seq<nat>)
    requires NoCycle(graph, g, active) && End(graph, g, walk).Some?
    ensures End(graph, g, walk).value !in active
    ensures walk != [] ==> End(graph, g, walk).value != g
    decreases walk
  {
    if walk != [] {
      var c := graph[g].children[walk[0]].node.value;
      assert NoCycle(graph, c, active + {g});
      WalksAvoidActive(graph, c, active + {g}, walk[1..]);
    }
  }

  /** A reachable group is itself free of cycles. */
  lemma {:induction false} NoCycleBelow(graph: Graph, g: GroupId, active: set<GroupId>, walk: seq<nat>)
      returns (more: set<GroupId>)
    requires NoCycle(graph, g, active) && End(graph, g, walk).Some?
    ensures active <= more && NoCycle(graph, End(graph, g, walk).value, more)
    decreases walk
  {
    if walk == [] {
      more := active;
    } else {
      var c := graph[g].children[walk[0]].node.value;
      assert NoCycle(graph, c, active + {g});
      more := NoCycleBelow(graph, c, active + {g}, walk[1..]);
    }
  }

  /** Where the recursion meets an active group, a walk leads into the active set or around. */
  lemma {:induction false} MeetsActive(graph: Graph, g: GroupId, active: set<GroupId>)
    returns (walk: seq<nat>, met: GroupId)
    requires ClosedGraph(graph) && g in graph && !NoCycle(graph, g, active)
    ensures End(graph, g, walk) == Some(met)
    ensures met in active || exists to :: IsProperPrefix(to, walk) && End(graph, g, to) == Some(met)
    decreases graph.Keys - active
  {
    if g in active {
      walk, met := [], g;
      return;
    }
    var i :| 0 <= i < |graph[g].children| && graph[g].children[i].node.Some?
      && !NoCycle(graph, graph[g].children[i].node.value, active + {g});
    var c := graph[g].children[i].node.value;
    var rest, m := MeetsActive(graph, c, active + {g});
    walk, met := [i] + rest, m;
    assert walk[1..] == rest;
    if met in active {
    } else if met == g {
      assert IsProperPrefix([], walk) && End(graph, g, []) == Some(met);
    } else {
      var to :| IsProperPrefix(to, rest) && End(graph, c, to) == Some(met);
      assert ([i] + to)[1..] == to;
      assert IsProperPrefix([i] + to, walk) by {
        assert walk == [i] + rest && rest[..|to|] == to;
      }
      assert End(graph, g, [i] + to) == Some(met);
    }
  }

  predicate IsProperPrefix(a: seq<nat>, b: seq<nat>) {
    |a| < |b| && b[..|a|] == a
  }

  /** Compilation meets an active group exactly when a cycle is reachable from the root. */
  lemma CycleTestIsExact(graph: Graph, root: GroupId)
    requires ClosedGraph(graph) && root in graph
    ensures NoCycle(graph, root, {}) <==> !CycleReachable(graph, root)
  {
    if NoCycle(graph, root, {}) && CycleReachable(graph, root) {
      var to, around :| around != [] && LoopsAt(graph, root, to, around);
      var more := NoCycleBelow(graph, root, {}, to);
      EndSplits(graph, root, to, around);
      WalksAvoidActive(graph, End(graph, root, to).value, more, around);
    }
    if !NoCycle(graph, root, {}) {
      var walk, met := MeetsActive(graph, root, {});
      var to :| IsProperPrefix(to, walk) && End(graph, root, to) == Some(met);
      assert walk == to + walk[|to|..];
      assert LoopsAt(graph, root, to, walk[|to|..]);
    }
  }
}
