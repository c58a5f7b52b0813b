/**
  What an accepted declaration tree serves: the compiler as it walks the graph
  in place, guard checks run as nested middleware, and the theorems that tie a
  served request to the recorded operation.
 */
module Router {
  import opened Wrappers
  import opened Paths
  import opened Groups
  import opened Topology
  import opened RouteCompiler
  import opened RoutePaths
  import A = Acceptance

  // --- Running guards --------------------------------------------------------

  /** A check denies, or passes on a request; passing on none is a bug in the check. */
  datatype Verdict<Q> = Denied | Passed(request: Option<Q>)

  type Checks<!Q> = (Guard, Q) -> Verdict<Q>

  datatype Ran<Q> = Ran(guard: Guard, saw: Q)

  datatype Result<Q> = Handled(at: Label, request: Q) | Rejected(guard: Guard) | Broken(guard: Guard)

  datatype Trace<Q> = Trace(ran: seq<Ran<Q>>, result: Result<Q>)

  /** A guard's check answers the request itself or hands its own request to the next handler. */
  function Serve<Q>(check: Checks<Q>, h: Handler, q: Q): Trace<Q> {
    match h
    case Bound(at) => Trace([], Handled(at, q))
    case Guarded(g, next) =>
      match check(g, q)
      case Denied => Trace([Ran(g, q)], Rejected(g))
      case Passed(None) => Trace([Ran(g, q)], Broken(g))
      case Passed(Some(q')) =>
        var rest := Serve(check, next, q');
        Trace([Ran(g, q)] + rest.ran, rest.result)
  }

  /** Every check passes, each seeing the request its predecessor handed on. */
  predicate PassesThrough<Q(==)>(check: Checks<Q>, guards: seq<Guard>, qs: seq<Q>) {
    |qs| == |guards| + 1 && forall i :: 0 <= i < |guards| ==> check(guards[i], qs[i]) == Passed(Some(qs[i + 1]))
  }

  /** Passing all checks leads to the handler with the last request. */
  lemma {:induction false} PassingReachesHandler<Q>(check: Checks<Q>, guards: seq<Guard>, at: Label, qs: seq<Q>)
    requires PassesThrough(check, guards, qs)
    ensures Serve(check, Wrap(guards, Bound(at)), qs[0]).result == Handled(at, qs[|guards|])
  {
    if guards != [] {
      assert forall i :: 0 <= i < |guards[1..]| ==> guards[1..][i] == guards[i + 1] && qs[1..][i] == qs[i + 1];
      PassingReachesHandler(check, guards[1..], at, qs[1..]);
    }
  }

  /** Checks run in chain order; a failing one is the last, and the handler's turn comes only after all of them. */
  lemma {:induction false} ChecksRunInOrder<Q>(check: Checks<Q>, guards: seq<Guard>, at: Label, q: Q)
    returns (qs: seq<Q>)
    ensures var t := Serve(check, Wrap(guards, Bound(at)), q);
            && |t.ran| <= |guards|
            && (forall i :: 0 <= i < |t.ran| ==> t.ran[i].guard == guards[i])
            && (t.result.Handled? ==>
                  PassesThrough(check, guards, qs) && qs[0] == q && t.result == Handled(at, qs[|guards|])
                    && |t.ran| == |guards|)
            && (!t.result.Handled? ==>
                  && t.ran != [] && t.result.guard == t.ran[|t.ran| - 1].guard
                  && var last := check(t.result.guard, t.ran[|t.ran| - 1].saw);
                     (t.result.Rejected? <==> last.Denied?) && (t.result.Broken? <==> last == Passed(None)))
  {
    qs := [q];
    if guards != [] && check(guards[0], q).Passed? && check(guards[0], q).request.Some? {
      var rest := ChecksRunInOrder(check, guards[1..], at, check(guards[0], q).request.value);
      qs := [q] + rest;
      assert qs[1..] == rest;
    }
  }

  /** The handler runs exactly when every check of the chain passes. */
  lemma HandlerRunsIffChainPasses<Q(!new)>(check: Checks<Q>, guards: seq<Guard>, at: Label, q: Q, q': Q)
    ensures Serve(check, Wrap(guards, Bound(at)), q).result == Handled(at, q') <==>
            exists qs :: PassesThrough(check, guards, qs) && qs[0] == q && qs[|guards|] == q'
  {
    var found := ChecksRunInOrder(check, guards, at, q);
    if qs :| PassesThrough(check, guards, qs) && qs[0] == q && qs[|guards|] == q' {
      PassingReachesHandler(check, guards, at, qs);
    }
  }

  /**
    Serving the k-th route of an accepted tree: it is the recorded operation's
    verb and path, and its handler runs exactly when the recorded chain passes.
   */
  lemma AcceptedRoutesServeTheirRecords<Q(!new)>(env: Env, graph: Graph, root: GroupId, k: nat, check: Checks<Q>,
                                                 q: Q, q': Q)
    requires Compile(env, graph, Some(root), "", [], {}, []).faults == []
    requires k < |Compile(env, graph, Some(root), "", [], {}, []).entries|
    ensures var out := Compile(env, graph, Some(root), "", [], {}, []);
            var routes, e := ServedBy(out.mat, "", []), out.entries[k];
            && |routes| == |out.entries| && routes[k].verb == e.verb && routes[k].path == e.path
            && (Serve(check, routes[k].handler, q).result == Handled(e.label_, q') <==>
                exists qs :: PassesThrough(check, e.guards, qs) && qs[0] == q && qs[|e.guards|] == q')
  {
    hide Compile, ServedBy;
    var out := Compile(env, graph, Some(root), "", [], {}, []);
    RouterRunsRecordedChains(env, graph, Some(root), "", [], {}, []);
    assert ServedBy(out.mat, "", [])[k] == Promises(out.entries)[k];
    HandlerRunsIffChainPasses(check, out.entries[k].guards, out.entries[k].label_, q, q');
  }

  // --- Acceptance implies the level checks -----------------------------------

  lemma {:induction false} EndpointsAreRooted(env: Env, es: seq<Endpoint>, prefix: string, chain: seq<Guard>,
                                              mount: seq<nat>, first: nat, documented: bool)
    requires Endpoints(env, es, prefix, chain, mount, first, documented).faults == []
    ensures forall i :: 0 <= i < |es| ==> Rooted(es[i].path)
  {
    if es != [] {
      EndpointsAreRooted(env, es[1..], prefix, chain, mount, first + 1, documented);
      assert forall i :: 0 < i < |es| ==> es[i] == es[1..][i - 1];
    }
  }

  lemma {:induction false} LinksAreChecked(env: Env, graph: Graph, links: seq<Link>, first: nat, prefix: string,
                                           chain: seq<Guard>, active: set<GroupId>, mount: seq<nat>, i: nat)
    requires CompileLinks(env, graph, links, first, prefix, chain, active, mount).faults == [] && i < |links|
    ensures MountOk(env, links[i].pattern) && links[i].node.Some? && links[i].node.value in graph
    decreases i
  {
    hide Constructed, Endpoints, Assemble, GroupFaults;
    var kid := Compile(env, graph, links[0].node, ChildPrefix(prefix, links[0].pattern), chain, active,
                       mount + [first]);
    var rest := CompileLinks(env, graph, links[1..], first + 1, prefix, chain, active, mount);
    AttachClean(prefix, links[0].pattern, MountOk(env, links[0].pattern), kid, rest);
    if i > 0 {
      LinksAreChecked(env, graph, links[1..], first + 1, prefix, chain, active, mount, i - 1);
    }
  }

  /** A cleanly compiled group's own facts. */
  lemma CleanGroup(env: Env, graph: Graph, g: GroupId, prefix: string, chain: seq<Guard>, active: set<GroupId>,
                   mount: seq<nat>)
    requires Compile(env, graph, Some(g), prefix, chain, active, mount).faults == []
    ensures g in graph && g !in active
    ensures LevelOk(env.mountOk, TopologyClaims(graph, g)) && forall c :: c in OwnClaims(graph[g]) ==> Rooted(c.path)
    ensures CompileLinks(env, graph, graph[g].children, 0, prefix, chain + Constructed(graph[g].guards), active + {g},
                         mount).faults == []
  {
    hide LevelOk, TopologyClaims, CompileLinks, Endpoints, Constructed;
    var group := graph[g];
    var stack := chain + Constructed(group.guards);
    var ops := Endpoints(env, group.endpoints, prefix, stack, mount, 0, true);
    var infra := Endpoints(env, group.infra, prefix, stack, mount, |group.endpoints|, false);
    var kids := CompileLinks(env, graph, group.children, 0, prefix, stack, active + {g}, mount);
    AssembleClean(Constructed(group.guards), GroupFaults(env, graph, g, prefix), ops, infra, kids);
    EndpointsAreRooted(env, group.endpoints, prefix, stack, mount, 0, true);
    EndpointsAreRooted(env, group.infra, prefix, stack, mount, |group.endpoints|, false);
  }

  /**
    An accepted tree has no cycle and passes every level check, so mounts are
    apart from all that is claimed beside them.
   */
  lemma {:induction false} AcceptedTreesPassLevels(env: Env, graph: Graph, g: GroupId, prefix: string,
                                                   chain: seq<Guard>, active: set<GroupId>, mount: seq<nat>)
    requires Compile(env, graph, Some(g), prefix, chain, active, mount).faults == []
    ensures NoCycle(graph, g, active) && LevelsOk(env.mountOk, graph, g, active)
    decreases graph.Keys - active
  {
    hide LevelOk, TopologyClaims, Compile, CompileLinks;
    CleanGroup(env, graph, g, prefix, chain, active, mount);
    var stack := chain + Constructed(graph[g].guards);
    forall i | 0 <= i < |graph[g].children|
      ensures MountOk(env, graph[g].children[i].pattern) && graph[g].children[i].node.Some?
      ensures NoCycle(graph, graph[g].children[i].node.value, active + {g})
      ensures LevelsOk(env.mountOk, graph, graph[g].children[i].node.value, active + {g})
    {
      var link := graph[g].children[i];
      LinksAreChecked(env, graph, graph[g].children, 0, prefix, stack, active + {g}, mount, i);
      ChildCompiled(env, graph, graph[g].children, 0, prefix, stack, active + {g}, mount, i);
      assert link.node == Some(link.node.value);
      AcceptedTreesPassLevels(env, graph, link.node.value, ChildPrefix(prefix, link.pattern), stack, active + {g},
                              mount + [i]);
    }
  }

  /** Every group an accepted tree reaches is itself accepted where it is mounted. */
  lemma {:induction false} AcceptedBelow(env: Env, graph: Graph, g: GroupId, prefix: string, chain: seq<Guard>,
                                         active: set<GroupId>, mount: seq<nat>, walk: seq<nat>)
      returns (active': set<GroupId>)
    requires Compile(env, graph, Some(g), prefix, chain, active, mount).faults == []
    requires g in graph && End(graph, g, walk).Some?
    ensures NoCycle(graph, End(graph, g, walk).value, active')
            && LevelsOk(env.mountOk, graph, End(graph, g, walk).value, active')
    decreases walk
  {
    hide LevelOk, TopologyClaims, Compile, CompileLinks, LevelsOk, NoCycle;
    if walk == [] {
      active' := active;
      AcceptedTreesPassLevels(env, graph, g, prefix, chain, active, mount);
    } else {
      CleanGroup(env, graph, g, prefix, chain, active, mount);
      var link, stack := graph[g].children[walk[0]], chain + Constructed(graph[g].guards);
      ChildCompiled(env, graph, graph[g].children, 0, prefix, stack, active + {g}, mount, walk[0]);
      assert link.node == Some(link.node.value);
      active' := AcceptedBelow(env, graph, link.node.value, ChildPrefix(prefix, link.pattern), stack, active + {g},
                               mount + [walk[0]], walk[1..]);
    }
  }

  /**
    Topology checking covers the whole tree: on every router node an accepted
    tree materializes, a concrete path served by a route lies beneath a mount
    claimed on that node only if the route is a catch-all that reaches into the
    mount, however deep in pattern-less groups either was declared.
   */
  lemma AcceptedTreesKeepMountsApart(env: Env, graph: Graph, root: GroupId, walk: seq<nat>, re: Expressions,
                                     toMount: seq<nat>, m: Claim, toRoute: seq<nat>, r: Claim, path: seq<string>)
    requires Compile(env, graph, Some(root), "", [], {}, []).faults == []
    requires root in graph && End(graph, root, walk).Some? && End(graph, root, walk).value in graph
    requires ClaimedVia(graph, End(graph, root, walk).value, toMount, m) && m.MountClaim?
    requires ClaimedVia(graph, End(graph, root, walk).value, toRoute, r) && r.RouteClaim?
    requires WholeSegments(RoutingSegments(m.pattern)) && WholeSegments(Head(RoutingSegments(r.path)))
    ensures RouteMatches(re, RoutingSegments(r.path), path) && MountMatches(re, RoutingSegments(m.pattern), path) ==>
              Missed(RoutingSegments(m.pattern), RoutingSegments(r.path))
  {
    hide Compile, Flat, ClaimedVia, Missed, RouteMatches, MountMatches;
    var node := End(graph, root, walk).value;
    var active := AcceptedBelow(env, graph, root, "", [], {}, [], walk);
    FlatMissesNothing(graph, node, active, toMount, m);
    FlatMissesNothing(graph, node, active, toRoute, r);
    if RouteMatches(re, RoutingSegments(r.path), path) && MountMatches(re, RoutingSegments(m.pattern), path) {
      OnlyCatchAllsReachMounts(env.mountOk, graph, node, active, re, m, r, path);
    }
  }

  /**
    And that is exact: on plain patterns a route and a mount of one router node
    of an accepted tree share a concrete path if and only if the route ends in a
    catch-all, the mount has more segments, and the route's head contains it.
   */
  lemma AcceptedTreesSharePathsIff(env: Env, graph: Graph, root: GroupId, walk: seq<nat>, re: Expressions,
                                   toMount: seq<nat>, m: Claim, toRoute: seq<nat>, r: Claim)
    requires Compile(env, graph, Some(root), "", [], {}, []).faults == []
    requires root in graph && End(graph, root, walk).Some? && End(graph, root, walk).value in graph
    requires ClaimedVia(graph, End(graph, root, walk).value, toMount, m) && m.MountClaim?
    requires ClaimedVia(graph, End(graph, root, walk).value, toRoute, r) && r.RouteClaim?
    requires Plain(RoutingSegments(m.pattern)) && Plain(Head(RoutingSegments(r.path)))
    ensures (exists path ::
               RouteMatches(re, RoutingSegments(r.path), path) && MountMatches(re, RoutingSegments(m.pattern), path))
            <==> Missed(RoutingSegments(m.pattern), RoutingSegments(r.path))
  {
    hide Compile, Flat, ClaimedVia, Missed, RouteMatches, MountMatches, RoutingSegments;
    var node := End(graph, root, walk).value;
    var active := AcceptedBelow(env, graph, root, "", [], {}, [], walk);
    FlatMissesNothing(graph, node, active, toMount, m);
    FlatMissesNothing(graph, node, active, toRoute, r);
    LevelsKeepRoutesOut(env.mountOk, graph, node, active, m, r);
    CatchAllIsMissed(re, RoutingSegments(m.pattern), RoutingSegments(r.path));
  }

  const CATCH_ALL_TREE: Graph := map[
    0 := Group([], [Endpoint("GET", "/*", [], true)], [], [Link("/a/b", Some(1))]),
    1 := Group([], [Endpoint("GET", "/", [], true)], [], [])]

  lemma CatchAllSegments()
    ensures RoutingSegments("/*") == ["*"] && RoutingSegments("/a/b") == ["a", "b"]
  {
    hide Split;
    assert "/*"[1..] == "*" && "/a/b"[1..] == "a/b";
    SplitJoin(["*"]);
    SplitJoin(["a", "b"]);
    assert ["a", "b"][1..] == ["b"] && Join(["a", "b"]) == "a/b";
  }

  lemma CatchAllLevels(accepts: RouterAccepts)
    ensures LevelOk(accepts, TopologyClaims(CATCH_ALL_TREE, 0)) && LevelOk(accepts, TopologyClaims(CATCH_ALL_TREE, 1))
  {
    hide RoutingSegments;
    CatchAllSegments();
    var graph, link := CATCH_ALL_TREE, Link("/a/b", Some(1));
    assert OwnedLinks(graph, [link][1..], 1, {0}) == [];
    assert LinkClaims(graph, link, {0}) == [MountClaim("/a/b", Some(1))];
    assert TopologyClaims(graph, 0) == [OwnedClaim(RouteClaim("/*"), -1), OwnedClaim(MountClaim("/a/b", Some(1)), 0)];
    assert TopologyClaims(graph, 1) == [OwnedClaim(RouteClaim("/"), -1)];
  }

  lemma OneEndpoint(env: Env, path: string, prefix: string, mount: seq<nat>)
    requires Rooted(path) && env.endpointOk(JoinPattern(prefix, path))
    ensures Endpoints(env, [Endpoint("GET", path, [], true)], prefix, [], mount, 0, true).faults == []
    ensures Endpoints(env, [], prefix, [], mount, 1, false).faults == []
  {
    assert Endpoints(env, [Endpoint("GET", path, [], true)][1..], prefix, [], mount, 1, true).faults == [];
  }

  lemma CatchAllLeaf(env: Env)
    requires env.endpointOk("/a/b")
    ensures Compile(env, CATCH_ALL_TREE, Some(1), "/a/b", [], {0}, [0]).faults == []
  {
    hide LevelOk, TopologyClaims, Endpoints;
    CatchAllLevels(env.mountOk);
    OneEndpoint(env, "/", "/a/b", [0]);
  }

  /**
    The miss is real: a tree that is accepted although a catch-all at its root is
    served beside a child mounted two segments deep, so that a path beneath the
    mount is the route's too.
   */
  lemma CatchAllSlipsThrough(env: Env, re: Expressions)
    requires env.endpointOk("/*") && env.endpointOk("/a/b") && env.mountOk("/a/b")
    ensures Compile(env, CATCH_ALL_TREE, Some(0), "", [], {}, []).faults == []
    ensures ClaimedVia(CATCH_ALL_TREE, 0, [], MountClaim("/a/b", Some(1)))
            && ClaimedVia(CATCH_ALL_TREE, 0, [], RouteClaim("/*"))
    ensures RouteMatches(re, RoutingSegments("/*"), ["a", "b", "c"])
            && MountMatches(re, RoutingSegments("/a/b"), ["a", "b", "c"])
  {
    hide Compile, RoutingSegments;
    CatchAllSegments();
    CatchAllCompiles(env);
    CatchAllClaims();
  }

  lemma CatchAllClaims()
    ensures ClaimedVia(CATCH_ALL_TREE, 0, [], MountClaim("/a/b", Some(1)))
            && ClaimedVia(CATCH_ALL_TREE, 0, [], RouteClaim("/*"))
  {
    var group := CATCH_ALL_TREE[0];
    assert OwnClaims(group)[0] == RouteClaim("/*") && group.children[0] == Link("/a/b", Some(1));
  }

  lemma CatchAllCompiles(env: Env)
    requires env.endpointOk("/*") && env.endpointOk("/a/b") && env.mountOk("/a/b")
    ensures Compile(env, CATCH_ALL_TREE, Some(0), "", [], {}, []).faults == []
  {
    hide LevelOk, TopologyClaims, Endpoints;
    var graph, link := CATCH_ALL_TREE, Link("/a/b", Some(1));
    CatchAllLevels(env.mountOk);
    OneEndpoint(env, "/*", "", []);
    CatchAllLeaf(env);
    assert {} + {0} == {0} && [] + [0] == [0];
    assert CompileLinks(env, graph, [link][1..], 1, "", [], {0}, []).faults == [];
    assert CompileLinks(env, graph, [link], 0, "", [], {0}, []).faults == [];
  }

  /** Likewise no concrete path lies beneath two mounts of one router node. */
  lemma AcceptedTreesKeepSiblingsApart(env: Env, graph: Graph, root: GroupId, walk: seq<nat>, re: Expressions,
                                       i: nat, j: nat, path: seq<string>)
    requires Compile(env, graph, Some(root), "", [], {}, []).faults == []
    requires root in graph && End(graph, root, walk).Some?
    requires var claims := Flat(graph, End(graph, root, walk).value, {});
             && i < |claims| && j < |claims| && i != j && claims[i].MountClaim? && claims[j].MountClaim?
             && WholeSegments(RoutingSegments(claims[i].pattern)) && WholeSegments(RoutingSegments(claims[j].pattern))
    ensures var claims := Flat(graph, End(graph, root, walk).value, {});
            !(MountMatches(re, RoutingSegments(claims[i].pattern), path)
              && MountMatches(re, RoutingSegments(claims[j].pattern), path))
  {
    hide Compile, Flat;
    var active := AcceptedBelow(env, graph, root, "", [], {}, [], walk);
    NoPathInTwoMounts(env.mountOk, graph, End(graph, root, walk).value, active, re, i, j, path);
  }

  // --- The compiler, in place ------------------------------------------------

  function Documented(es: seq<Entry>): seq<Entry> {
    if es == [] then [] else (if es[0].documented then [es[0]] else []) + Documented(es[1..])
  }

  function Claims(es: seq<Entry>): seq<Route> {
    seq(|es|, i requires 0 <= i < |es| => Route(es[i].verb, es[i].path))
  }

  /** What the compiler accumulates: documented operations, claimed routes, violations. */
  datatype Records = Records(ops: seq<Entry>, claims: seq<Route>, violations: seq<Fault>)

  function Add(r: Records, entries: seq<Entry>, faults: seq<Fault>): Records {
    Records(r.ops + Documented(entries), r.claims + Claims(entries), r.violations + faults)
  }

  lemma {:induction false} DocumentedConcat(a: seq<Entry>, b: seq<Entry>)
    ensures Documented(a + b) == Documented(a) + Documented(b)
  {
    if a == [] {
      assert a + b == b;
    } else {
      var own := if a[0].documented then [a[0]] else [];
      assert (a + b)[1..] == a[1..] + b && (a + b)[0] == a[0];
      DocumentedConcat(a[1..], b);
      assert own + (Documented(a[1..]) + Documented(b)) == own + Documented(a[1..]) + Documented(b);
    }
  }

  lemma AddTwice(r: Records, es: seq<Entry>, fs: seq<Fault>, es': seq<Entry>, fs': seq<Fault>)
    ensures Add(Add(r, es, fs), es', fs') == Add(r, es + es', fs + fs')
  {
    DocumentedConcat(es, es');
    assert Claims(es + es') == Claims(es) + Claims(es');
  }

  lemma NothingLeft(env: Env, es: seq<Endpoint>, prefix: string, chain: seq<Guard>, mount: seq<nat>, first: nat,
                    documented: bool, r: Records)
    requires es == []
    ensures var out := Endpoints(env, es, prefix, chain, mount, first, documented);
            out.mat.endpoints == [] && Add(r, out.entries, out.faults) == r
  {
  }

  lemma OneEndpointFirst(env: Env, es: seq<Endpoint>, prefix: string, chain: seq<Guard>, mount: seq<nat>, first: nat,
                         documented: bool)
    requires es != []
    ensures var out := Endpoints(env, es, prefix, chain, mount, first, documented);
            var one := Endpoints(env, [es[0]], prefix, chain, mount, first, documented);
            var rest := Endpoints(env, es[1..], prefix, chain, mount, first + 1, documented);
            && out.mat.endpoints == one.mat.endpoints + rest.mat.endpoints
            && out.entries == one.entries + rest.entries && out.faults == one.faults + rest.faults
  {
    hide EndpointOk, EndpointMat, EndpointEntry, JoinPattern;
    var full, at := JoinPattern(prefix, es[0].path), Label(mount, first);
    var one := Endpoints(env, [es[0]], prefix, chain, mount, first, documented);
    assert [es[0]][1..] == [];
    assert Endpoints(env, [es[0]][1..], prefix, chain, mount, first + 1, documented) == Out(EMPTY_MAT, [], []);
    if EndpointOk(env, es[0], full) {
      assert one == Out(Mat([], [EndpointMat(es[0], at, documented)], []),
                        [EndpointEntry(es[0], prefix, chain, at, documented)], []);
    } else {
      assert one == Out(EMPTY_MAT, [], [BadEndpoint(es[0].verb, full)]);
    }
  }

  /** What is left to add for the endpoints from the i-th on, before and after the i-th. */
  lemma EndpointsNext(env: Env, es: seq<Endpoint>, i: nat, prefix: string, chain: seq<Guard>, mount: seq<nat>,
                      first: nat, documented: bool, r: Records)
    requires i < |es|
    ensures var out := Endpoints(env, es[i..], prefix, chain, mount, first + i, documented);
            var one := Endpoints(env, [es[i]], prefix, chain, mount, first + i, documented);
            var rest := Endpoints(env, es[i + 1..], prefix, chain, mount, first + i + 1, documented);
            && out.mat.endpoints == one.mat.endpoints + rest.mat.endpoints
            && Add(r, out.entries, out.faults) == Add(Add(r, one.entries, one.faults), rest.entries, rest.faults)
  {
    hide Add, Endpoints;
    var one := Endpoints(env, [es[i]], prefix, chain, mount, first + i, documented);
    var rest := Endpoints(env, es[i + 1..], prefix, chain, mount, first + i + 1, documented);
    assert es[i..][1..] == es[i + 1..] && es[i..][0] == es[i];
    OneEndpointFirst(env, es[i..], prefix, chain, mount, first + i, documented);
    AddTwice(r, one.entries, one.faults, rest.entries, rest.faults);
  }

  /** Likewise for the children from the i-th on. */
  lemma LinksNext(env: Env, graph: Graph, links: seq<Link>, i: nat, prefix: string, chain: seq<Guard>,
                  active: set<GroupId>, mount: seq<nat>, r: Records)
    requires i < |links|
    ensures var out := CompileLinks(env, graph, links[i..], i, prefix, chain, active, mount);
            var rest := CompileLinks(env, graph, links[i + 1..], i + 1, prefix, chain, active, mount);
            var kid := Compile(env, graph, links[i].node, ChildPrefix(prefix, links[i].pattern), chain, active,
                               mount + [i]);
            var ok := MountOk(env, links[i].pattern);
            && out.mat.children == (if ok then [MatChild(links[i].pattern, kid.mat)] else []) + rest.mat.children
            && Add(r, out.entries, out.faults)
               == Add(Add(Add(r, [], if ok then [] else [BadMount(prefix, links[i].pattern)]), kid.entries, kid.faults),
                      rest.entries, rest.faults)
  {
    hide Add, Compile, MountOk;
    var rest := CompileLinks(env, graph, links[i + 1..], i + 1, prefix, chain, active, mount);
    var kid := Compile(env, graph, links[i].node, ChildPrefix(prefix, links[i].pattern), chain, active, mount + [i]);
    var own := if MountOk(env, links[i].pattern) then [] else [BadMount(prefix, links[i].pattern)];
    assert links[i..][1..] == links[i + 1..] && links[i..][0] == links[i];
    AddTwice(r, [], own, kid.entries, kid.faults);
    AddTwice(r, [] + kid.entries, own + kid.faults, rest.entries, rest.faults);
    assert [] + kid.entries == kid.entries;
  }

  /** A group's records are those of its guards, its endpoints and its children, one after the other. */
  lemma AssembleAdds(r: Records, guards: seq<Guard>, bad: seq<Fault>, ops: Out, infra: Out, kids: Out)
    ensures var out := Assemble(guards, bad, ops, infra, kids);
            Add(r, out.entries, out.faults)
            == Add(Add(Add(Add(r, [], bad), ops.entries, ops.faults), infra.entries, infra.faults), kids.entries,
                   kids.faults)
  {
    hide Add;
    AddTwice(r, [], bad, ops.entries, ops.faults);
    AddTwice(r, [] + ops.entries, bad + ops.faults, infra.entries, infra.faults);
    AddTwice(r, [] + ops.entries + infra.entries, bad + ops.faults + infra.faults, kids.entries, kids.faults);
    assert [] + ops.entries == ops.entries;
  }

  /** Constructed guards are kept in order, every zero guard is a violation. */
  method KeepGuards(guards: seq<Guard>, prefix: string) returns (kept: seq<Guard>, bad: seq<Fault>)
    ensures kept == Constructed(guards) && bad == GuardFaults(guards, prefix)
  {
    kept, bad := [], [];
    assert guards[0..] == guards;
    for i := 0 to |guards|
      invariant kept + Constructed(guards[i..]) == Constructed(guards)
      invariant bad + GuardFaults(guards[i..], prefix) == GuardFaults(guards, prefix)
    {
      assert guards[i..][1..] == guards[i + 1..];
      if guards[i].constructed {
        kept := kept + [guards[i]];
      } else {
        bad := bad + [ZeroGuard(prefix)];
      }
    }
  }

  class Compiler {
    const env: Env
    const graph: Graph
    var records: Records
    var active: set<GroupId>

    constructor (env: Env, graph: Graph)
      ensures this.env == env && this.graph == graph
      ensures records == Records([], [], []) && active == {}
    {
      this.env, this.graph := env, graph;
      records, active := Records([], [], []), {};
    }

    /** Compiles one endpoint: a sound one is recorded and claims its route, any other is a violation. */
    method CompileEndpoint(e: Endpoint, prefix: string, chain: seq<Guard>, at: Label, documented: bool)
      returns (mats: seq<MatEndpoint>)
      modifies this`records
      ensures var out := Endpoints(env, [e], prefix, chain, at.mount, at.index, documented);
              mats == out.mat.endpoints && records == Add(old(records), out.entries, out.faults)
    {
      hide EndpointOk;
      var full := JoinPattern(prefix, e.path);
      if EndpointOk(env, e, full) {
        var handler := WrapRouteGuards(Bound(at), RouteGuards(e, documented));
        mats := [MatEndpoint(e.verb, e.path, handler)];
        var op := EndpointEntry(e, prefix, chain, at, documented);
        records := Records(records.ops + if documented then [op] else [], records.claims + [Route(e.verb, full)],
                           records.violations);
        assert Documented([op]) == if documented then [op] else [];
      } else {
        mats := [];
        records := Records(records.ops, records.claims, records.violations + [BadEndpoint(e.verb, full)]);
      }
    }

    /** Compiles one group's endpoints in declaration order. */
    method CompileEndpoints(es: seq<Endpoint>, prefix: string, chain: seq<Guard>, mount: seq<nat>, first: nat,
                            documented: bool)
      returns (mats: seq<MatEndpoint>)
      modifies this`records
      ensures var out := Endpoints(env, es, prefix, chain, mount, first, documented);
              mats == out.mat.endpoints && records == Add(old(records), out.entries, out.faults)
    {
      hide Add, Endpoints;
      mats := [];
      ghost var all := Endpoints(env, es, prefix, chain, mount, first, documented);
      assert es[0..] == es;
      for i := 0 to |es|
        invariant var rest := Endpoints(env, es[i..], prefix, chain, mount, first + i, documented);
                  && Add(records, rest.entries, rest.faults) == Add(old(records), all.entries, all.faults)
                  && mats + rest.mat.endpoints == all.mat.endpoints
      {
        EndpointsNext(env, es, i, prefix, chain, mount, first, documented, records);
        var one := CompileEndpoint(es[i], prefix, chain, Label(mount, first + i), documented);
        mats := mats + one;
      }
      NothingLeft(env, es[|es|..], prefix, chain, mount, first + |es|, documented, records);
    }

    /** A group that cannot be compiled is one violation and an empty node. */
    method Reject(fault: Fault) returns (mat: Mat)
      modifies this`records
      ensures mat == EMPTY_MAT && records == Add(old(records), [], [fault])
    {
      mat := EMPTY_MAT;
      records := Records(records.ops, records.claims, records.violations + [fault]);
    }

    /** Keeps a group's constructed guards, and checks the topology of its router node. */
    method CompileGuards(g: GroupId, prefix: string) returns (guards: seq<Guard>)
      requires g in graph
      modifies this`records
      ensures guards == Constructed(graph[g].guards)
      ensures records == Add(old(records), [], GroupFaults(env, graph, g, prefix))
    {
      hide TopologyClaims, LevelOk;
      var bad;
      guards, bad := KeepGuards(graph[g].guards, prefix);
      var ok := ValidateLevel(env.mountOk, TopologyClaims(graph, g));
      records := Records(records.ops, records.claims,
                         records.violations + (bad + if ok then [] else [TopologyClash(prefix)]));
    }

    /**
      Compiles one group under a prefix and the guards around it. The groups
      being compiled are the same afterwards as before, on every exit.
     */
    method CompileNode(g: Option<GroupId>, prefix: string, chain: seq<Guard>, mount: seq<nat>) returns (mat: Mat)
      modifies this
      ensures var out := Compile(env, graph, g, prefix, chain, old(active), mount);
              mat == out.mat && records == Add(old(records), out.entries, out.faults)
      ensures active == old(active)
      decreases graph.Keys - active, 1
    {
      hide Add, CompileLinks, Endpoints, Assemble, Constructed, GroupFaults;
      if g.None? || g.value !in graph {
        mat := Reject(NilGroup(prefix));
      } else if g.value in active {
        mat := Reject(Cycle(prefix));
      } else {
        var group := graph[g.value];
        active := active + {g.value};
        var guards := CompileGuards(g.value, prefix);
        var stack := chain + guards;
        var ops := CompileEndpoints(group.endpoints, prefix, stack, mount, 0, true);
        var infra := CompileEndpoints(group.infra, prefix, stack, mount, |group.endpoints|, false);
        var children := CompileChildren(group.children, prefix, stack, mount);
        active := active - {g.value};
        mat := Mat(guards, ops + infra, children);
        Assembled(env, graph, g.value, prefix, stack, old(active), mount, old(records), chain);
        assert g == Some(g.value);
      }
    }

    /** Compiles a group's children in order; one with a bad pattern is compiled but not mounted. */
    method CompileChildren(links: seq<Link>, prefix: string, chain: seq<Guard>, mount: seq<nat>)
      returns (children: seq<MatChild>)
      modifies this
      ensures var out := CompileLinks(env, graph, links, 0, prefix, chain, old(active), mount);
              children == out.mat.children && records == Add(old(records), out.entries, out.faults)
      ensures active == old(active)
      decreases graph.Keys - active, 2
    {
      hide Add, Compile, CompileLinks, MountOk;
      children := [];
      ghost var all := CompileLinks(env, graph, links, 0, prefix, chain, active, mount);
      assert links[0..] == links;
      for i := 0 to |links|
        invariant active == old(active)
        invariant var rest := CompileLinks(env, graph, links[i..], i, prefix, chain, active, mount);
                  && Add(records, rest.entries, rest.faults) == Add(old(records), all.entries, all.faults)
                  && children + rest.mat.children == all.mat.children
      {
        LinksNext(env, graph, links, i, prefix, chain, active, mount, records);
        var ok := MountOk(env, links[i].pattern);
        CheckMount(prefix, links[i].pattern, ok);
        var kid := CompileNode(links[i].node, ChildPrefix(prefix, links[i].pattern), chain, mount + [i]);
        children := children + if ok then [MatChild(links[i].pattern, kid)] else [];
      }
      NoLinksLeft(env, graph, links[|links|..], |links|, prefix, chain, active, mount, records);
    }

    method CheckMount(prefix: string, pattern: string, ok: bool)
      modifies this`records
      ensures records == Add(old(records), [], if ok then [] else [BadMount(prefix, pattern)])
    {
      if !ok {
        records := Records(records.ops, records.claims, records.violations + [BadMount(prefix, pattern)]);
      }
    }

    /** Compiles the whole tree; it is accepted when nothing was found wrong and no two routes claim the same key. */
    method Build(root: Option<GroupId>) returns (accepted: bool, mat: Mat, slots: map<(string, string), nat>)
      requires records == Records([], [], []) && active == {}
      modifies this
      ensures var out := Compile(env, graph, root, "", [], {}, []);
              && records == Add(Records([], [], []), out.entries, out.faults)
              && (accepted <==> out.faults == [] && Unclaimed(Claims(out.entries)))
              && (accepted ==>
                    && ServedBy(mat, "", []) == Promises(out.entries)
                    && forall i :: 0 <= i < |records.ops| ==>
                         var slot := SlotOf(Claims(records.ops)[i]);
                         slot in slots && slots[slot] == i)
      ensures ClosedGraph(graph) ==>
                (accepted <==>
                 && root.Some? && root.value in graph && !CycleReachable(graph, root.value)
                 && A.SoundTree(env, graph, root.value, "")
                 && Unclaimed(Claims(Compile(env, graph, root, "", [], {}, []).entries)))
      ensures accepted ==>
                && root.Some? && root.value in graph
                && forall e :: e in Compile(env, graph, root, "", [], {}, []).entries ==>
                     Declares(graph, root.value, e.label_.mount, e.label_.index) && Tells(graph, root.value, e)
    {
      hide Compile, ServedBy, Documented, SlotOf, Tells, Declares, A.SoundTree, CycleReachable, ClosedGraph;
      mat := CompileNode(root, "", [], []);
      var duplicates := ClaimRoutes(records.claims);
      accepted := records.violations == [] && duplicates == [];
      slots := DocumentPaths(Claims(records.ops));
      ghost var out := Compile(env, graph, root, "", [], {}, []);
      assert records.claims == Claims(out.entries) && records.ops == Documented(out.entries);
      if ClosedGraph(graph) {
        A.AcceptedIff(env, graph, root);
      }
      if accepted {
        RouterRunsRecordedChains(env, graph, root, "", [], {}, []);
        VerbsHaveSlots(env, graph, root, "", [], {}, []);
        DocumentedStayApart(out.entries);
        EntriesTell(env, graph, root);
        var routes := Claims(records.ops);
        forall i | 0 <= i < |records.ops|
          ensures SlotOf(routes[i]) in slots && slots[SlotOf(routes[i])] == i
        {
          assert records.ops[i] in records.ops && HttpMethod(routes[i].verb);
        }
      }
    }
  }

  lemma EntriesTell(env: Env, graph: Graph, root: Option<GroupId>)
    requires Compile(env, graph, root, "", [], {}, []).faults == []
    ensures root.Some? && root.value in graph
    ensures forall e :: e in Compile(env, graph, root, "", [], {}, []).entries ==>
              Declares(graph, root.value, e.label_.mount, e.label_.index) && Tells(graph, root.value, e)
  {
    hide Compile, Tells, Declares;
    EntriesAreDeclarations(env, graph, root, "", [], {}, []);
    assert root == Some(root.value);
    var entries := Compile(env, graph, root, "", [], {}, []).entries;
    forall e | e in entries
      ensures Declares(graph, root.value, e.label_.mount, e.label_.index) && Tells(graph, root.value, e)
    {
      var k :| 0 <= k < |entries| && entries[k] == e;
      RecordsTellDeclarations(env, graph, root.value, k);
    }
  }

  /** The parts of a group's output, put together. */
  lemma Assembled(env: Env, graph: Graph, g: GroupId, prefix: string, stack: seq<Guard>, active: set<GroupId>,
                  mount: seq<nat>, r: Records, chain: seq<Guard>)
    requires g in graph && g !in active && stack == chain + Constructed(graph[g].guards)
    ensures var group := graph[g];
            var bad := GroupFaults(env, graph, g, prefix);
            var ops := Endpoints(env, group.endpoints, prefix, stack, mount, 0, true);
            var infra := Endpoints(env, group.infra, prefix, stack, mount, |group.endpoints|, false);
            var kids := CompileLinks(env, graph, group.children, 0, prefix, stack, active + {g}, mount);
            var out := Compile(env, graph, Some(g), prefix, chain, active, mount);
            && out.mat == Mat(Constructed(group.guards), ops.mat.endpoints + infra.mat.endpoints, kids.mat.children)
            && Add(r, out.entries, out.faults)
               == Add(Add(Add(Add(r, [], bad), ops.entries, ops.faults), infra.entries, infra.faults), kids.entries,
                      kids.faults)
  {
    hide Add, CompileLinks, Endpoints, Constructed, GroupFaults;
    var group := graph[g];
    AssembleAdds(r, Constructed(group.guards), GroupFaults(env, graph, g, prefix),
                 Endpoints(env, group.endpoints, prefix, stack, mount, 0, true),
                 Endpoints(env, group.infra, prefix, stack, mount, |group.endpoints|, false),
                 CompileLinks(env, graph, group.children, 0, prefix, stack, active + {g}, mount));
  }

  lemma NoLinksLeft(env: Env, graph: Graph, links: seq<Link>, first: nat, prefix: string, chain: seq<Guard>,
                    active: set<GroupId>, mount: seq<nat>, r: Records)
    requires links == []
    ensures var out := CompileLinks(env, graph, links, first, prefix, chain, active, mount);
            out.mat.children == [] && Add(r, out.entries, out.faults) == r
  {
  }

  ghost predicate HaveSlots(es: seq<Entry>) {
    forall e :: e in es ==> HttpMethod(e.verb)
  }

  lemma {:induction false} EndpointVerbs(env: Env, es: seq<Endpoint>, prefix: string, chain: seq<Guard>,
                                         mount: seq<nat>,
                                         first: nat, documented: bool)
    ensures HaveSlots(Endpoints(env, es, prefix, chain, mount, first, documented).entries)
  {
    if es != [] {
      EndpointVerbs(env, es[1..], prefix, chain, mount, first + 1, documented);
    }
  }

  /** Only verbs the document has a slot for are compiled. */
  lemma {:induction false} VerbsHaveSlots(env: Env, graph: Graph, g: Option<GroupId>, prefix: string, chain: seq<Guard>,
                                          active: set<GroupId>, mount: seq<nat>)
    ensures HaveSlots(Compile(env, graph, g, prefix, chain, active, mount).entries)
    decreases graph.Keys - active, 1, 0
  {
    hide Endpoints, CompileLinks, Constructed;
    if g.Some? && g.value in graph && g.value !in active {
      var group := graph[g.value];
      var stack := chain + Constructed(group.guards);
      EndpointVerbs(env, group.endpoints, prefix, stack, mount, 0, true);
      EndpointVerbs(env, group.infra, prefix, stack, mount, |group.endpoints|, false);
      LinkVerbsHaveSlots(env, graph, group.children, 0, prefix, stack, active + {g.value}, mount);
    }
  }

  lemma {:induction false} LinkVerbsHaveSlots(env: Env, graph: Graph, links: seq<Link>, first: nat, prefix: string,
                                              chain: seq<Guard>, active: set<GroupId>, mount: seq<nat>)
    ensures HaveSlots(CompileLinks(env, graph, links, first, prefix, chain, active, mount).entries)
    decreases graph.Keys - active, 2, |links|
  {
    hide Compile;
    if links != [] {
      VerbsHaveSlots(env, graph, links[0].node, ChildPrefix(prefix, links[0].pattern), chain, active, mount + [first]);
      LinkVerbsHaveSlots(env, graph, links[1..], first + 1, prefix, chain, active, mount);
    }
  }

  function EntryKey(e: Entry): string {
    ClaimKey(Route(e.verb, e.path))
  }

  /** No entry's key is claimed again after it. */
  ghost predicate ApartFromLater(es: seq<Entry>) {
    es == [] || ((forall e :: e in es[1..] ==> EntryKey(e) != EntryKey(es[0])) && ApartFromLater(es[1..]))
  }

  lemma {:induction false} UnclaimedIsApart(es: seq<Entry>)
    ensures ApartFromLater(es) <==> forall i, j :: 0 <= i < j < |es| ==> EntryKey(es[i]) != EntryKey(es[j])
  {
    if es != [] {
      UnclaimedIsApart(es[1..]);
      assert forall i :: 0 < i < |es| ==> es[i] == es[1..][i - 1];
    }
  }

  lemma {:induction false} DocumentedApart(es: seq<Entry>)
    ensures forall e :: e in Documented(es) ==> e in es
    ensures ApartFromLater(es) ==> ApartFromLater(Documented(es))
  {
    hide EntryKey;
    if es != [] {
      DocumentedApart(es[1..]);
      var rest := Documented(es[1..]);
      assert Documented(es) == if es[0].documented then [es[0]] + rest else rest;
      assert es[0].documented ==> Documented(es)[1..] == rest;
    }
  }

  lemma ClaimedKeys(es: seq<Entry>)
    ensures Unclaimed(Claims(es)) <==> forall i, j :: 0 <= i < j < |es| ==> EntryKey(es[i]) != EntryKey(es[j])
  {
    var routes := Claims(es);
    assert |routes| == |es| && forall i :: 0 <= i < |es| ==> EntryKey(es[i]) == ClaimKey(routes[i]);
    if forall i, j :: 0 <= i < j < |es| ==> EntryKey(es[i]) != EntryKey(es[j]) {
      forall i, j | 0 <= i < j < |routes|
        ensures ClaimKey(routes[i]) != ClaimKey(routes[j])
      {
        assert EntryKey(es[i]) != EntryKey(es[j]);
      }
    }
  }

  /** Without duplicate claims every documented operation keeps its own slot of the document. */
  lemma DocumentedStayApart(es: seq<Entry>)
    requires Unclaimed(Claims(es)) && HaveSlots(es)
    ensures Unclaimed(Claims(Documented(es))) && HaveSlots(Documented(es))
  {
    hide Documented, Unclaimed, EntryKey, Claims;
    ClaimedKeys(es);
    ClaimedKeys(Documented(es));
    UnclaimedIsApart(es);
    UnclaimedIsApart(Documented(es));
    DocumentedApart(es);
  }
}
