/**
  Which declaration trees are accepted: exactly those without a cycle in which
  every group that a walk leads to is sound on its own, told from the graph.
 */
module Acceptance {
  import opened Wrappers
  import opened Paths
  import opened Groups
  import opened Topology
  import opened RouteCompiler

  /** A declaration with a verb the document knows, a rooted path, constructed guards, and a path the router takes. */
  predicate SoundEndpoint(env: Env, e: Endpoint, prefix: string) {
    && e.verb in ["GET", "POST", "PUT", "PATCH", "DELETE", "HEAD", "OPTIONS"]
    && e.path != "" && e.path[0] == '/'
    && (forall i :: 0 <= i < |e.guards| ==> e.guards[i].constructed)
    && e.prepares
    && env.endpointOk(JoinPattern(prefix, e.path))
  }

  /** A child that exists, mounted at a rooted pattern that the router takes, or flattened. */
  predicate SoundLink(env: Env, graph: Graph, link: Link) {
    && link.node.Some? && link.node.value in graph
    && (link.pattern != "" ==> link.pattern[0] == '/' && env.mountOk(link.pattern))
  }

  predicate CheckedMount(env: Env, c: Claim) {
    c.MountClaim? && c.pattern != "" && c.pattern[0] == '/' && c.node.Some? && env.mountOk(c.pattern)
  }

  /** No two mounts of a level overlap, and no route lies in a mount that came in another way. */
  ghost predicate SoundLevel(env: Env, claims: seq<OwnedClaim>) {
    forall i, j :: 0 <= i < |claims| && 0 <= j < |claims| && i != j && CheckedMount(env, claims[i].claim) ==>
      && (CheckedMount(env, claims[j].claim) ==>
            !Contains(RoutingSegments(claims[i].claim.pattern), RoutingSegments(claims[j].claim.pattern)))
      && (&& claims[j].claim.RouteClaim? && claims[i].owner != claims[j].owner
          && claims[j].claim.path != "" && claims[j].claim.path[0] == '/' ==>
            !Contains(RoutingSegments(claims[i].claim.pattern), RoutingSegments(claims[j].claim.path)))
  }

  /** A group that has nothing to report under a prefix, apart from its children. */
  ghost predicate SoundGroup(env: Env, graph: Graph, g: GroupId, prefix: string)
    requires g in graph
  {
    var group := graph[g];
    && (forall i :: 0 <= i < |group.guards| ==> group.guards[i].constructed)
    && (forall i :: 0 <= i < |group.endpoints| ==> SoundEndpoint(env, group.endpoints[i], prefix))
    && (forall i :: 0 <= i < |group.infra| ==> SoundEndpoint(env, group.infra[i], prefix))
    && (forall i :: 0 <= i < |group.children| ==> SoundLink(env, graph, group.children[i]))
    && SoundLevel(env, TopologyClaims(graph, g))
  }

  /** Every group that a walk leads to is sound where it is mounted. */
  ghost predicate SoundTree(env: Env, graph: Graph, g: GroupId, prefix: string)
    requires g in graph
  {
    forall walk :: End(graph, g, walk).Some? ==> SoundAt(env, graph, g, prefix, walk)
  }

  ghost predicate SoundAt(env: Env, graph: Graph, g: GroupId, prefix: string, walk: seq<nat>)
    requires g in graph && End(graph, g, walk).Some?
  {
    && End(graph, g, walk).value in graph
    && SoundGroup(env, graph, End(graph, g, walk).value, PrefixAlong(graph, g, walk, prefix))
  }

  lemma {:induction false} GuardFaultsIff(guards: seq<Guard>, prefix: string)
    ensures GuardFaults(guards, prefix) == [] <==> forall i :: 0 <= i < |guards| ==> guards[i].constructed
  {
    if guards != [] {
      GuardFaultsIff(guards[1..], prefix);
      assert forall i :: 0 < i < |guards| ==> guards[i] == guards[1..][i - 1];
    }
  }

  lemma {:induction false} EndpointFaultsIff(env: Env, es: seq<Endpoint>, prefix: string, chain: seq<Guard>,
                                             mount: seq<nat>, first: nat, documented: bool)
    ensures Endpoints(env, es, prefix, chain, mount, first, documented).faults == [] <==>
            forall i :: 0 <= i < |es| ==> SoundEndpoint(env, es[i], prefix)
  {
    hide JoinPattern;
    if es != [] {
      EndpointFaultsIff(env, es[1..], prefix, chain, mount, first + 1, documented);
      SoundIsOk(env, es[0], prefix);
      assert forall i :: 0 < i < |es| ==> es[i] == es[1..][i - 1];
    }
  }

  lemma SoundIsOk(env: Env, e: Endpoint, prefix: string)
    ensures SoundEndpoint(env, e, prefix) <==> EndpointOk(env, e, JoinPattern(prefix, e.path))
  {
  }

  lemma LevelIff(env: Env, claims: seq<OwnedClaim>)
    ensures LevelOk(env.mountOk, claims) <==> SoundLevel(env, claims)
  {
    hide RoutingSegments, Contains;
    if SoundLevel(env, claims) {
      forall i, j | 0 <= i < |claims| && 0 <= j < |claims| && i != j
        ensures Apart(env.mountOk, claims[i], claims[j])
      {
      }
    }
    if LevelOk(env.mountOk, claims) {
      forall i, j | 0 <= i < |claims| && 0 <= j < |claims| && i != j && CheckedMount(env, claims[i].claim)
        ensures Apart(env.mountOk, claims[i], claims[j])
      {
      }
    }
  }

  /** A child with a sound mount, and soundly and acyclically compiled. */
  ghost predicate SoundChild(env: Env, graph: Graph, link: Link, prefix: string, active: set<GroupId>) {
    SoundBelow(env, graph, link, prefix) && NoCycle(graph, link.node.value, active)
  }

  ghost predicate SoundBelow(env: Env, graph: Graph, link: Link, prefix: string) {
    SoundLink(env, graph, link) && SoundTree(env, graph, link.node.value, ChildPrefix(prefix, link.pattern))
  }

  /** A tree is sound when its root is, and every child's tree is. */
  lemma SoundTreeIff(env: Env, graph: Graph, g: GroupId, prefix: string)
    requires g in graph
    ensures SoundTree(env, graph, g, prefix) <==>
            && SoundGroup(env, graph, g, prefix)
            && forall i :: 0 <= i < |graph[g].children| ==> SoundBelow(env, graph, graph[g].children[i], prefix)
  {
    hide SoundGroup, ChildPrefix;
    var children := graph[g].children;
    if SoundTree(env, graph, g, prefix) {
      assert SoundAt(env, graph, g, prefix, []);
      GroupLinks(env, graph, g, prefix);
      forall i | 0 <= i < |children|
        ensures SoundBelow(env, graph, children[i], prefix)
      {
        LinkExists(env, graph, children[i]);
        forall walk | End(graph, children[i].node.value, walk).Some?
          ensures SoundAt(env, graph, children[i].node.value, ChildPrefix(prefix, children[i].pattern), walk)
        {
          assert SoundAt(env, graph, g, prefix, [i] + walk) by { assert ([i] + walk)[1..] == walk; }
          assert ([i] + walk)[1..] == walk;
        }
      }
    }
    if && SoundGroup(env, graph, g, prefix)
       && forall i :: 0 <= i < |children| ==> SoundBelow(env, graph, children[i], prefix) {
      forall walk | End(graph, g, walk).Some?
        ensures SoundAt(env, graph, g, prefix, walk)
      {
        if walk != [] {
          var child := children[walk[0]];
          assert SoundBelow(env, graph, child, prefix);
          assert SoundAt(env, graph, child.node.value, ChildPrefix(prefix, child.pattern), walk[1..]);
        }
      }
    }
  }

  lemma LinkExists(env: Env, graph: Graph, link: Link)
    requires SoundLink(env, graph, link)
    ensures link.node.Some? && link.node.value in graph
  {
  }

  lemma GroupLinks(env: Env, graph: Graph, g: GroupId, prefix: string)
    requires g in graph && SoundGroup(env, graph, g, prefix)
    ensures forall i :: 0 <= i < |graph[g].children| ==> SoundLink(env, graph, graph[g].children[i])
  {
    hide SoundLevel, SoundEndpoint;
  }

  /** Compiling a group reports nothing exactly when its tree has no cycle and is sound. */
  lemma {:induction false} AcceptedFrom(env: Env, graph: Graph, g: GroupId, prefix: string, chain: seq<Guard>,
                                        active: set<GroupId>, mount: seq<nat>)
    requires g in graph
    ensures Compile(env, graph, Some(g), prefix, chain, active, mount).faults == [] <==>
            NoCycle(graph, g, active) && SoundTree(env, graph, g, prefix)
    decreases graph.Keys - active, 1, 0
  {
    hide CompileLinks, Endpoints, SoundTree, SoundLevel, LevelOk, TopologyClaims, Constructed, SoundEndpoint;
    hide SoundGroup, GuardFaults;
    if g !in active {
      var group := graph[g];
      var stack := chain + Constructed(group.guards);
      GuardFaultsIff(group.guards, prefix);
      LevelIff(env, TopologyClaims(graph, g));
      EndpointFaultsIff(env, group.endpoints, prefix, stack, mount, 0, true);
      EndpointFaultsIff(env, group.infra, prefix, stack, mount, |group.endpoints|, false);
      LinksAccepted(env, graph, group.children, 0, prefix, stack, active + {g}, mount);
      SoundTreeIff(env, graph, g, prefix);
      CleanIff(env, graph, g, prefix, chain, active, mount);
      SoundGroupIff(env, graph, g, prefix);
    }
  }

  /** A group reports nothing exactly when none of its parts does. */
  lemma CleanIff(env: Env, graph: Graph, g: GroupId, prefix: string, chain: seq<Guard>, active: set<GroupId>,
                 mount: seq<nat>)
    requires g in graph && g !in active
    ensures var group := graph[g];
            var stack := chain + Constructed(group.guards);
            Compile(env, graph, Some(g), prefix, chain, active, mount).faults == [] <==>
              && GuardFaults(group.guards, prefix) == [] && LevelOk(env.mountOk, TopologyClaims(graph, g))
              && Endpoints(env, group.endpoints, prefix, stack, mount, 0, true).faults == []
              && Endpoints(env, group.infra, prefix, stack, mount, |group.endpoints|, false).faults == []
              && CompileLinks(env, graph, group.children, 0, prefix, stack, active + {g}, mount).faults == []
  {
    hide CompileLinks, Endpoints, LevelOk, TopologyClaims, Constructed, GuardFaults;
  }

  lemma SoundGroupIff(env: Env, graph: Graph, g: GroupId, prefix: string)
    requires g in graph
    ensures var group := graph[g];
            SoundGroup(env, graph, g, prefix) <==>
              && (forall i :: 0 <= i < |group.guards| ==> group.guards[i].constructed)
              && (forall i :: 0 <= i < |group.endpoints| ==> SoundEndpoint(env, group.endpoints[i], prefix))
              && (forall i :: 0 <= i < |group.infra| ==> SoundEndpoint(env, group.infra[i], prefix))
              && (forall i :: 0 <= i < |group.children| ==> SoundLink(env, graph, group.children[i]))
              && SoundLevel(env, TopologyClaims(graph, g))
  {
    hide SoundEndpoint, SoundLevel, SoundLink, TopologyClaims;
  }

  lemma {:induction false} LinksAccepted(env: Env, graph: Graph, links: seq<Link>, first: nat, prefix: string,
                                         chain: seq<Guard>, active: set<GroupId>, mount: seq<nat>)
    ensures CompileLinks(env, graph, links, first, prefix, chain, active, mount).faults == [] <==>
            forall i :: 0 <= i < |links| ==> SoundChild(env, graph, links[i], prefix, active)
    decreases graph.Keys - active, 2, |links|
  {
    hide Compile, SoundTree, NoCycle, ChildPrefix;
    if links != [] {
      var kid := Compile(env, graph, links[0].node, ChildPrefix(prefix, links[0].pattern), chain, active,
                         mount + [first]);
      var rest := CompileLinks(env, graph, links[1..], first + 1, prefix, chain, active, mount);
      LinksAccepted(env, graph, links[1..], first + 1, prefix, chain, active, mount);
      assert forall i :: 0 < i < |links| ==> links[i] == links[1..][i - 1];
      if links[0].node.Some? && links[0].node.value in graph {
        AcceptedFrom(env, graph, links[0].node.value, ChildPrefix(prefix, links[0].pattern), chain, active,
                     mount + [first]);
        assert links[0].node == Some(links[0].node.value);
      } else {
        NoGroup(env, graph, links[0].node, ChildPrefix(prefix, links[0].pattern), chain, active, mount + [first]);
      }
    }
  }

  lemma NoGroup(env: Env, graph: Graph, g: Option<GroupId>, prefix: string, chain: seq<Guard>, active: set<GroupId>,
                mount: seq<nat>)
    requires g.None? || g.value !in graph
    ensures Compile(env, graph, g, prefix, chain, active, mount).faults != []
  {
  }

  /**
    A tree is accepted exactly when its root exists, no group is mounted inside
    itself, and every group that a walk leads to is sound where it is mounted.
   */
  lemma AcceptedIff(env: Env, graph: Graph, root: Option<GroupId>)
    requires ClosedGraph(graph)
    ensures Compile(env, graph, root, "", [], {}, []).faults == [] <==>
            && root.Some? && root.value in graph
            && !CycleReachable(graph, root.value) && SoundTree(env, graph, root.value, "")
  {
    hide Compile, SoundTree;
    if root.Some? && root.value in graph {
      AcceptedFrom(env, graph, root.value, "", [], {}, []);
      CycleTestIsExact(graph, root.value);
      assert root == Some(root.value);
    } else {
      NoGroup(env, graph, root, "", [], {}, []);
    }
  }
}
