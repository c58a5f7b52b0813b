/**
  Route topology: whether a route can match at or beneath a mount, which claims
  share one router node, and why checking each level of the declaration tree is
  enough to keep mounts disjoint from everything claimed beside them.
 */
module Topology {
  import opened Wrappers
  import opened Paths
  import opened Groups

  // --- Patterns --------------------------------------------------------------

  function TrimSlashLeft(s: string): string {
    if s != "" && s[0] == '/' then TrimSlashLeft(s[1..]) else s
  }

  function TrimSlashRight(s: string): string {
    if s != "" && s[|s| - 1] == '/' then TrimSlashRight(s[..|s| - 1]) else s
  }

  function RoutingSegments(pattern: string): seq<string> {
    var trimmed := TrimSlashRight(TrimSlashLeft(pattern));
    if trimmed == "" then [] else Split(trimmed)
  }

  predicate Dynamic(segment: string) {
    segment == "*" || Wrapped(segment)
  }

  /** Two segments that some text could match: equal, or at least one dynamic. */
  predicate Compatible(a: string, b: string) {
    a == b || Dynamic(a) || Dynamic(b)
  }

  /** The compiler's test: the mount is no longer than the route and compatible with its head. */
  predicate Contains(mount: seq<string>, route: seq<string>) {
    |mount| <= |route| && forall i :: 0 <= i < |mount| ==> Compatible(mount[i], route[i])
  }

  method MountContainsRoutePattern(mount: string, route: string) returns (contains: bool)
    ensures contains == Contains(RoutingSegments(mount), RoutingSegments(route))
  {
    var mountSegments, routeSegments := RoutingSegments(mount), RoutingSegments(route);
    if |mountSegments| > |routeSegments| {
      return false;
    }
    for i := 0 to |mountSegments|
      invariant forall j :: 0 <= j < i ==> Compatible(mountSegments[j], routeSegments[j])
    {
      if mountSegments[i] == routeSegments[i] {
        continue;
      }
      if Dynamic(mountSegments[i]) || Dynamic(routeSegments[i]) {
        continue;
      }
      return false;
    }
    contains := true;
  }

  method MountPatternsOverlap(left: string, right: string) returns (overlap: bool)
    ensures overlap == Overlap(RoutingSegments(left), RoutingSegments(right))
  {
    overlap := MountContainsRoutePattern(left, right);
    if !overlap {
      overlap := MountContainsRoutePattern(right, left);
    }
  }

  predicate Overlap(left: seq<string>, right: seq<string>) {
    Contains(left, right) || Contains(right, left)
  }

  // --- What patterns match ---------------------------------------------------

  /** Which text any other placeholder spelling accepts; any expression language will do. */
  type Expressions = (string, string) -> bool

  /** A whole-segment placeholder without an expression, such as {id}. */
  predicate Unconstrained(segment: string) {
    Wrapped(segment) && ':' !in segment && '{' !in segment[1..]
  }

  predicate SegmentMatches(re: Expressions, segment: string, text: string) {
    if Unconstrained(segment) then true
    else if '{' in segment then re(segment, text)
    else segment == text
  }

  /**
    A placeholder of a whole segment without an expression matches any text, one
    with an expression what that accepts, and anything without a brace itself only.
   */
  lemma SegmentsMatch(re: Expressions, name: string, expression: string, literal: string, text: string)
    requires name != "" && '{' !in name && '}' !in name && ':' !in name && '{' !in literal
    ensures SegmentMatches(re, "{" + name + "}", text)
    ensures var constrained := "{" + name + ":" + expression + "}";
            SegmentMatches(re, constrained, text) <==> re(constrained, text)
    ensures SegmentMatches(re, literal, text) <==> literal == text
  {
    var plain, constrained := "{" + name + "}", "{" + name + ":" + expression + "}";
    assert plain[1..] == name + "}" && plain[|plain| - 1] == '}';
    assert constrained[|name| + 1] == ':' && constrained[0] == '{';
  }

  /** A concrete path, cut into segments, lies at or beneath these segments. */
  predicate MountMatches(re: Expressions, mount: seq<string>, path: seq<string>) {
    |mount| <= |path| && forall i :: 0 <= i < |mount| ==> SegmentMatches(re, mount[i], path[i])
  }

  /** A route that ends in a catch-all. */
  predicate CatchAll(route: seq<string>) {
    route != [] && route[|route| - 1] == "*"
  }

  function Head(route: seq<string>): seq<string> {
    if CatchAll(route) then route[..|route| - 1] else route
  }

  /** A route serves the paths of exactly its segments; a catch-all everything beneath its head. */
  predicate RouteMatches(re: Expressions, route: seq<string>, path: seq<string>) {
    MountMatches(re, Head(route), path) && (CatchAll(route) || |route| == |path|)
  }

  /** No placeholder or wildcard that fills only part of its segment, and no wildcard segment. */
  predicate WholeSegments(segments: seq<string>) {
    forall i :: 0 <= i < |segments| ==> if '{' in segments[i] then Wrapped(segments[i]) else '*' !in segments[i]
  }

  /** Only literals and unconstrained whole-brace placeholders. */
  predicate Plain(segments: seq<string>) {
    forall i :: 0 <= i < |segments| ==> if '{' in segments[i] then Unconstrained(segments[i]) else '*' !in segments[i]
  }

  /** Which segments are whole, and which plain: no wildcard is, and no placeholder that fills only part of one. */
  lemma SegmentKinds(name: string, expression: string, literal: string, before: string, after: string)
    requires name != "" && '{' !in name && '}' !in name && ':' !in name
    requires '{' !in literal && '*' !in literal
    requires (before != "" && before[0] != '{') || (after != "" && after[|after| - 1] != '}')
    ensures Plain([literal, "{" + name + "}"]) && WholeSegments([literal, "{" + name + ":" + expression + "}"])
    ensures !Plain(["{" + name + ":" + expression + "}"])
    ensures !WholeSegments(["*"]) && !WholeSegments([before + "{" + name + "}" + after])
  {
    var plain, constrained := "{" + name + "}", "{" + name + ":" + expression + "}";
    var part := before + "{" + name + "}" + after;
    assert plain[1..] == name + "}" && plain[0] == '{' && constrained[0] == '{';
    assert constrained[|name| + 1] == ':';
    assert part[|before|] == '{';
    assert "*"[0] == '*' && ["*"][0] == "*" && [part][0] == part && [constrained][0] == constrained;
  }

  /**
    What the compiler's test cannot see: it gives a catch-all one segment, so a
    mount with more segments than the route is not compared, although the
    catch-all reaches into it.
   */
  predicate Missed(mount: seq<string>, route: seq<string>) {
    CatchAll(route) && |mount| > |route| && Contains(Head(route), mount)
  }

  /**
    Apart from that the test never misses: whatever expressions accept, a mount
    and a route with a common path are found.
   */
  lemma ContainsIsConservative(re: Expressions, mount: seq<string>, route: seq<string>, path: seq<string>)
    requires WholeSegments(mount) && WholeSegments(Head(route))
    requires RouteMatches(re, route, path) && MountMatches(re, mount, path)
    ensures Contains(mount, route) || Missed(mount, route)
  {
    var head := Head(route);
    forall i | 0 <= i < |mount| && i < |head|
      ensures Compatible(mount[i], head[i]) && head[i] == route[i]
    {
      assert SegmentMatches(re, mount[i], path[i]) && SegmentMatches(re, head[i], path[i]);
    }
  }

  lemma OverlapIsConservative(re: Expressions, left: seq<string>, right: seq<string>, path: seq<string>)
    requires WholeSegments(left) && WholeSegments(right)
    requires MountMatches(re, left, path) && MountMatches(re, right, path)
    ensures Overlap(left, right)
  {
    var n := if |left| < |right| then |left| else |right|;
    forall i | 0 <= i < n
      ensures Compatible(left[i], right[i])
    {
      assert SegmentMatches(re, left[i], path[i]) && SegmentMatches(re, right[i], path[i]);
    }
  }

  /** A text both segments match. */
  function Witness(a: string, b: string): string {
    if !Dynamic(a) then a else b
  }

  /** A path beneath two compatible lists of segments, of the length of the longer. */
  lemma SharedPath(re: Expressions, shorter: seq<string>, longer: seq<string>) returns (path: seq<string>)
    requires Plain(shorter) && Plain(longer) && Contains(shorter, longer)
    ensures MountMatches(re, shorter, path) && MountMatches(re, longer, path) && |path| == |longer|
  {
    path := seq(|longer|,
                i requires 0 <= i < |longer| => if i < |shorter| then Witness(shorter[i], longer[i]) else longer[i]);
    forall i | 0 <= i < |longer|
      ensures SegmentMatches(re, longer[i], path[i]) && (i < |shorter| ==> SegmentMatches(re, shorter[i], path[i]))
    {
      assert i < |shorter| ==> Compatible(shorter[i], longer[i]);
    }
  }

  /**
    On plain patterns the test is exact up to the catch-all: some concrete path
    matches both precisely when it holds or a catch-all reaches into the mount.
   */
  lemma ContainsIsExact(re: Expressions, mount: seq<string>, route: seq<string>)
    requires Plain(mount) && Plain(Head(route))
    ensures (exists path :: RouteMatches(re, route, path) && MountMatches(re, mount, path)) <==>
            Contains(mount, route) || Missed(mount, route)
  {
    var head := Head(route);
    if Contains(mount, route) && |mount| <= |head| {
      assert Contains(mount, head);
      var path := SharedPath(re, mount, head);
      assert RouteMatches(re, route, path);
    } else if Contains(mount, route) || Missed(mount, route) {
      assert Contains(head, mount);
      var path := SharedPath(re, head, mount);
      assert RouteMatches(re, route, path);
    } else if path :| RouteMatches(re, route, path) && MountMatches(re, mount, path) {
      ContainsIsConservative(re, mount, route, path);
    }
  }

  /**
    Where the test does miss: a route shares paths with a mount and is not
    reported exactly when it ends in a catch-all, the mount has more segments,
    and its head contains the mount.
   */
  lemma CatchAllIsMissed(re: Expressions, mount: seq<string>, route: seq<string>)
    requires Plain(mount) && Plain(Head(route))
    ensures (exists path :: RouteMatches(re, route, path) && MountMatches(re, mount, path)) && !Contains(mount, route)
            <==> Missed(mount, route)
  {
    hide RouteMatches, MountMatches;
    ContainsIsExact(re, mount, route);
  }

  // --- Claims on one router node ---------------------------------------------

  datatype Claim = RouteClaim(path: string) | MountClaim(pattern: string, node: Option<GroupId>)

  /** A claim and the child it came in through; -1 for the group's own routes. */
  datatype OwnedClaim = OwnedClaim(claim: Claim, owner: int)

  function RouteClaims(endpoints: seq<Endpoint>): seq<Claim> {
    seq(|endpoints|, i requires 0 <= i < |endpoints| => RouteClaim(endpoints[i].path))
  }

  function OwnClaims(group: Group): seq<Claim> {
    RouteClaims(group.endpoints) + RouteClaims(group.infra)
  }

  /** A group claims the paths of all its endpoints, infrastructure included, and no others. */
  lemma OwnClaimsSay(group: Group, path: string)
    ensures RouteClaim(path) in OwnClaims(group) <==>
            || (exists e :: e in group.endpoints && e.path == path)
            || (exists e :: e in group.infra && e.path == path)
    ensures forall c :: c in OwnClaims(group) ==> c.RouteClaim?
  {
    RouteClaimsSay(group.endpoints, path);
    RouteClaimsSay(group.infra, path);
  }

  lemma RouteClaimsSay(endpoints: seq<Endpoint>, path: string)
    ensures RouteClaim(path) in RouteClaims(endpoints) <==> exists e :: e in endpoints && e.path == path
  {
    if e :| e in endpoints && e.path == path {
      var i :| 0 <= i < |endpoints| && endpoints[i] == e;
      assert RouteClaims(endpoints)[i] == RouteClaim(path);
    }
  }

  /** What a group claims on its router node: pattern-less children are flattened into it. */
  function Flat(graph: Graph, g: GroupId, seen: set<GroupId>): seq<Claim>
    decreases graph.Keys - seen, 1, 0
  {
    if g in seen || g !in graph then []
    else OwnClaims(graph[g]) + FlatLinks(graph, graph[g].children, seen + {g})
  }

  function FlatLinks(graph: Graph, links: seq<Link>, seen: set<GroupId>): seq<Claim>
    decreases graph.Keys - seen, 2, |links|
  {
    if links == [] then [] else LinkClaims(graph, links[0], seen) + FlatLinks(graph, links[1..], seen)
  }

  function LinkClaims(graph: Graph, link: Link, seen: set<GroupId>): seq<Claim>
    decreases graph.Keys - seen, 2, 0
  {
    if link.pattern != "" then [MountClaim(link.pattern, link.node)]
    else if link.node.Some? then Flat(graph, link.node.value, seen)
    else []
  }

  function Owning(claims: seq<Claim>, owner: int): seq<OwnedClaim> {
    seq(|claims|, i requires 0 <= i < |claims| => OwnedClaim(claims[i], owner))
  }

  function OwnedLinks(graph: Graph, links: seq<Link>, first: int, seen: set<GroupId>): seq<OwnedClaim> {
    if links == [] then []
    else Owning(LinkClaims(graph, links[0], seen), first) + OwnedLinks(graph, links[1..], first + 1, seen)
  }

  /** The claims of one level, tagged with the child that owns them. */
  function TopologyClaims(graph: Graph, g: GroupId): seq<OwnedClaim>
    requires g in graph
  {
    Owning(OwnClaims(graph[g]), -1) + OwnedLinks(graph, graph[g].children, 0, {g})
  }

  /** Which mount patterns the router accepts. */
  type RouterAccepts = string -> bool

  predicate Rooted(pattern: string) {
    pattern != "" && pattern[0] == '/'
  }

  /** A mount the level check looks at; others are reported elsewhere. */
  predicate Checked(accepts: RouterAccepts, c: Claim) {
    c.MountClaim? && Rooted(c.pattern) && c.node.Some? && accepts(c.pattern)
  }

  predicate Apart(accepts: RouterAccepts, a: OwnedClaim, b: OwnedClaim) {
    Checked(accepts, a.claim) ==>
      && (Checked(accepts, b.claim) ==> !Overlap(RoutingSegments(a.claim.pattern), RoutingSegments(b.claim.pattern)))
      && (b.claim.RouteClaim? && a.owner != b.owner && Rooted(b.claim.path) ==>
            !Contains(RoutingSegments(a.claim.pattern), RoutingSegments(b.claim.path)))
  }

  /** Nothing to report at one level. */
  predicate LevelOk(accepts: RouterAccepts, claims: seq<OwnedClaim>) {
    forall i, j :: 0 <= i < |claims| && 0 <= j < |claims| && i != j ==> Apart(accepts, claims[i], claims[j])
  }

  /** The level check: each mount against the mounts before it and against every route. */
  method ValidateLevel(accepts: RouterAccepts, claims: seq<OwnedClaim>) returns (ok: bool)
    ensures ok == LevelOk(accepts, claims)
  {
    ok := true;
    ghost var bad: (int, int) := (0, 0);
    for i := 0 to |claims|
      invariant ok ==>
                forall k, j :: 0 <= k < i && 0 <= j < |claims| && k != j && (j < k || !claims[j].claim.MountClaim?) ==>
                         Apart(accepts, claims[k], claims[j])
      invariant !ok ==> 0 <= bad.0 < |claims| && 0 <= bad.1 < |claims| && bad.0 != bad.1
                        && !Apart(accepts, claims[bad.0], claims[bad.1])
    {
      for j := 0 to |claims|
        invariant ok ==>
                    forall k, l ::
                      0 <= k < i && 0 <= l < |claims| && k != l && (l < k || !claims[l].claim.MountClaim?) ==>
                        Apart(accepts, claims[k], claims[l])
        invariant ok ==> forall l :: 0 <= l < j && l != i && (l < i || !claims[l].claim.MountClaim?) ==>
                           Apart(accepts, claims[i], claims[l])
        invariant !ok ==> 0 <= bad.0 < |claims| && 0 <= bad.1 < |claims| && bad.0 != bad.1
                          && !Apart(accepts, claims[bad.0], claims[bad.1])
      {
        if j != i && (j < i || !claims[j].claim.MountClaim?) && !Apart(accepts, claims[i], claims[j]) {
          ok := false;
          bad := (i, j);
        }
      }
    }
    if ok {
      forall i, j | 0 <= i < |claims| && 0 <= j < |claims| && i != j
        ensures Apart(accepts, claims[i], claims[j])
      {
        if i < j && claims[j].claim.MountClaim? {
          assert Apart(accepts, claims[j], claims[i]);
        }
      }
    }
  }

  // --- Checking levels covers the tree ---------------------------------------

  /** Every group reached through pattern-less children passes its level check with well-formed claims. */
  ghost predicate LevelsOk(accepts: RouterAccepts, graph: Graph, g: GroupId, active: set<GroupId>)
    requires NoCycle(graph, g, active)
    decreases graph.Keys - active
  {
    && LevelOk(accepts, TopologyClaims(graph, g))
    && (forall c :: c in OwnClaims(graph[g]) ==> Rooted(c.path))
    && (forall i :: 0 <= i < |graph[g].children| && graph[g].children[i].pattern != "" ==>
          Checked(accepts, MountClaim(graph[g].children[i].pattern, graph[g].children[i].node)))
    && (forall i ::
          0 <= i < |graph[g].children| && graph[g].children[i].pattern == "" && graph[g].children[i].node.Some? ==>
          LevelsOk(accepts, graph, graph[g].children[i].node.value, active + {g}))
  }

  /** Without cycles, what was already seen above does not change what a group claims. */
  lemma {:induction false} FlatIgnoresSeen(graph: Graph, g: GroupId, active: set<GroupId>, a: set<GroupId>,
                                           b: set<GroupId>)
    requires NoCycle(graph, g, active) && a <= active && b <= active
    ensures Flat(graph, g, a) == Flat(graph, g, b)
    decreases graph.Keys - active, 1, 0
  {
    LinksIgnoreSeen(graph, g, active, graph[g].children, a + {g}, b + {g});
  }

  lemma {:induction false} LinksIgnoreSeen(graph: Graph, g: GroupId, active: set<GroupId>, links: seq<Link>,
                                           a: set<GroupId>, b: set<GroupId>)
    requires g in graph && g !in active && a <= active + {g} && b <= active + {g}
    requires forall i :: 0 <= i < |links| && links[i].node.Some? ==> NoCycle(graph, links[i].node.value, active + {g})
    ensures FlatLinks(graph, links, a) == FlatLinks(graph, links, b)
    decreases graph.Keys - active, 0, |links|
  {
    if links != [] {
      if links[0].pattern == "" && links[0].node.Some? {
        FlatIgnoresSeen(graph, links[0].node.value, active + {g}, a, b);
      }
      LinksIgnoreSeen(graph, g, active, links[1..], a, b);
    }
  }

  /** A walk that follows pattern-less links only: it stays on one router node. */
  predicate StaysOnNode(graph: Graph, g: GroupId, walk: seq<nat>)
    requires g in graph && End(graph, g, walk).Some?
    decreases walk
  {
    walk == [] ||
    var link := graph[g].children[walk[0]];
    link.pattern == "" && StaysOnNode(graph, link.node.value, walk[1..])
  }

  /** A group's own routes and the mounts of its patterned children. */
  predicate ClaimedBy(group: Group, c: Claim) {
    || c in OwnClaims(group)
    || exists i ::
         && 0 <= i < |group.children| && group.children[i].pattern != ""
         && c == MountClaim(group.children[i].pattern, group.children[i].node)
  }

  /** The claim is declared by a group that a walk reaches without leaving the router node of `g`. */
  predicate ClaimedVia(graph: Graph, g: GroupId, walk: seq<nat>, c: Claim)
    requires g in graph
  {
    && End(graph, g, walk).Some? && End(graph, g, walk).value in graph
    && StaysOnNode(graph, g, walk)
    && ClaimedBy(graph[End(graph, g, walk).value], c)
  }

  lemma {:induction false} LinkClaimsAreFlat(graph: Graph, links: seq<Link>, seen: set<GroupId>, i: nat, c: Claim)
    requires i < |links| && c in LinkClaims(graph, links[i], seen)
    ensures c in FlatLinks(graph, links, seen)
    decreases i
  {
    if i > 0 {
      LinkClaimsAreFlat(graph, links[1..], seen, i - 1, c);
    }
  }

  /** Flattening misses nothing: whatever such a walk leads to is among the claims of the node. */
  lemma {:induction false} FlatMissesNothing(graph: Graph, g: GroupId, active: set<GroupId>, walk: seq<nat>, c: Claim)
    requires NoCycle(graph, g, active) && ClaimedVia(graph, g, walk, c)
    ensures c in Flat(graph, g, {})
    decreases walk
  {
    var children := graph[g].children;
    assert {} + {g} == {g};
    if walk != [] {
      var link := children[walk[0]];
      FlatMissesNothing(graph, link.node.value, active + {g}, walk[1..], c);
      FlatIgnoresSeen(graph, link.node.value, active + {g}, {g}, {});
      LinkClaimsAreFlat(graph, children, {g}, walk[0], c);
    } else if c !in OwnClaims(graph[g]) {
      var i :| 0 <= i < |children| && children[i].pattern != ""
        && c == MountClaim(children[i].pattern, children[i].node);
      LinkClaimsAreFlat(graph, children, {g}, i, c);
    }
  }

  /** And it adds nothing. */
  lemma {:induction false} FlatAddsNothing(graph: Graph, g: GroupId, active: set<GroupId>, c: Claim)
    returns (walk: seq<nat>)
    requires NoCycle(graph, g, active) && c in Flat(graph, g, {})
    ensures ClaimedVia(graph, g, walk, c)
    decreases graph.Keys - active
  {
    var children := graph[g].children;
    assert {} + {g} == {g};
    walk := [];
    if c !in OwnClaims(graph[g]) {
      var i := FlatLinkMembers(graph, children, 0, {g}, c);
      if children[i].pattern == "" {
        var child := children[i].node.value;
        FlatIgnoresSeen(graph, child, active + {g}, {g}, {});
        var rest := FlatAddsNothing(graph, child, active + {g}, c);
        walk := [i] + rest;
        assert walk[1..] == rest;
      }
    }
  }

  lemma OwnedAt(claims: seq<Claim>, owner: int, c: Claim)
    requires c in claims
    ensures OwnedClaim(c, owner) in Owning(claims, owner)
  {
    var k :| 0 <= k < |claims| && claims[k] == c;
    assert Owning(claims, owner)[k] == OwnedClaim(c, owner);
  }

  lemma {:induction false} FlatLinkMembers(graph: Graph, links: seq<Link>, first: int, seen: set<GroupId>, c: Claim)
      returns (i: nat)
    requires c in FlatLinks(graph, links, seen)
    ensures i < |links| && c in LinkClaims(graph, links[i], seen)
    ensures OwnedClaim(c, first + i) in OwnedLinks(graph, links, first, seen)
  {
    hide FlatLinks, OwnedLinks, LinkClaims, Owning;
    FirstLink(graph, links, first, seen, c);
    if c in LinkClaims(graph, links[0], seen) {
      i := 0;
      OwnedAt(LinkClaims(graph, links[0], seen), first, c);
    } else {
      var j := FlatLinkMembers(graph, links[1..], first + 1, seen, c);
      i := j + 1;
      assert links[1..][j] == links[i] && first + 1 + j == first + i;
    }
  }

  lemma FirstLink(graph: Graph, links: seq<Link>, first: int, seen: set<GroupId>, c: Claim)
    requires c in FlatLinks(graph, links, seen)
    ensures links != [] && (c in LinkClaims(graph, links[0], seen) || c in FlatLinks(graph, links[1..], seen))
    ensures forall o ::
              o in Owning(LinkClaims(graph, links[0], seen), first) + OwnedLinks(graph, links[1..], first + 1, seen) ==>
                o in OwnedLinks(graph, links, first, seen)
  {
    hide LinkClaims, Owning;
  }

  lemma OwnedOwnClaim(graph: Graph, g: GroupId, c: Claim)
    requires g in graph && c in OwnClaims(graph[g])
    ensures OwnedClaim(c, -1) in TopologyClaims(graph, g)
  {
    OwnedAt(OwnClaims(graph[g]), -1, c);
  }

  lemma LevelSeparates(accepts: RouterAccepts, claims: seq<OwnedClaim>, a: OwnedClaim, b: OwnedClaim)
    requires LevelOk(accepts, claims) && a in claims && b in claims && a != b
    ensures Apart(accepts, a, b)
  {
    var i :| 0 <= i < |claims| && claims[i] == a;
    var j :| 0 <= j < |claims| && claims[j] == b;
  }

  /**
    Although each level skips claims with the same owner, no route claimed on a
    flattened router node lies at or beneath a mount claimed on it.
   */
  lemma {:induction false} LevelsKeepRoutesOut(accepts: RouterAccepts, graph: Graph, g: GroupId, active: set<GroupId>,
                                               m: Claim, r: Claim)
    requires NoCycle(graph, g, active) && LevelsOk(accepts, graph, g, active)
    requires m in Flat(graph, g, {}) && m.MountClaim? && r in Flat(graph, g, {}) && r.RouteClaim?
    ensures !Contains(RoutingSegments(m.pattern), RoutingSegments(r.path))
    decreases graph.Keys - active
  {
    var group, claims := graph[g], TopologyClaims(graph, g);
    assert {} + {g} == {g};
    assert m in FlatLinks(graph, group.children, {g});
    var i := FlatLinkMembers(graph, group.children, 0, {g}, m);
    LinkChecked(accepts, graph, g, active, i, m);
    if r in OwnClaims(group) {
      OwnedOwnClaim(graph, g, r);
      LevelSeparates(accepts, claims, OwnedClaim(m, i), OwnedClaim(r, -1));
    } else {
      var j := FlatLinkMembers(graph, group.children, 0, {g}, r);
      LinkChecked(accepts, graph, g, active, j, r);
      if exists k :: k != i && OwnedClaim(r, k) in claims {
        var k :| k != i && OwnedClaim(r, k) in claims;
        LevelSeparates(accepts, claims, OwnedClaim(m, i), OwnedClaim(r, k));
      } else {
        assert j == i;
        var c := group.children[i].node.value;
        FlatIgnoresSeen(graph, c, active + {g}, {g}, {});
        LevelsKeepRoutesOut(accepts, graph, c, active + {g}, m, r);
      }
    }
  }

  /** Every mount claimed on a router node is one the level check looks at. */
  lemma {:induction false} FlatChecked(accepts: RouterAccepts, graph: Graph, g: GroupId, active: set<GroupId>, c: Claim)
    requires NoCycle(graph, g, active) && LevelsOk(accepts, graph, g, active) && c in Flat(graph, g, {})
    ensures c.MountClaim? ==> Checked(accepts, c)
    ensures c.RouteClaim? ==> Rooted(c.path)
    decreases graph.Keys - active, 1
  {
    assert {} + {g} == {g};
    if c !in OwnClaims(graph[g]) {
      var i := FlatLinkMembers(graph, graph[g].children, 0, {g}, c);
      LinkChecked(accepts, graph, g, active, i, c);
    }
  }

  lemma {:induction false} LinkChecked(accepts: RouterAccepts, graph: Graph, g: GroupId, active: set<GroupId>, i: nat,
                                       c: Claim)
    requires NoCycle(graph, g, active) && LevelsOk(accepts, graph, g, active)
    requires i < |graph[g].children| && c in LinkClaims(graph, graph[g].children[i], {g})
    ensures c.MountClaim? ==> Checked(accepts, c)
    ensures c.RouteClaim? ==> Rooted(c.path)
    decreases graph.Keys - active, 0
  {
    var link := graph[g].children[i];
    if link.pattern == "" {
      FlatIgnoresSeen(graph, link.node.value, active + {g}, {g}, {});
      FlatChecked(accepts, graph, link.node.value, active + {g}, c);
    }
  }

  /**
    A concrete path served by a route lies beneath a mount claimed beside it only
    if a catch-all reaches into the mount.
   */
  lemma OnlyCatchAllsReachMounts(accepts: RouterAccepts, graph: Graph, g: GroupId, active: set<GroupId>,
                                 re: Expressions, m: Claim, r: Claim, path: seq<string>)
    requires NoCycle(graph, g, active) && LevelsOk(accepts, graph, g, active)
    requires m in Flat(graph, g, {}) && m.MountClaim? && r in Flat(graph, g, {}) && r.RouteClaim?
    requires WholeSegments(RoutingSegments(m.pattern)) && WholeSegments(Head(RoutingSegments(r.path)))
    requires RouteMatches(re, RoutingSegments(r.path), path) && MountMatches(re, RoutingSegments(m.pattern), path)
    ensures Missed(RoutingSegments(m.pattern), RoutingSegments(r.path))
  {
    hide RoutingSegments, Flat, RouteMatches, MountMatches, Missed;
    LevelsKeepRoutesOut(accepts, graph, g, active, m, r);
    ContainsIsConservative(re, RoutingSegments(m.pattern), RoutingSegments(r.path), path);
  }

  /** The flattened claims of a node are its level's claims with their owners forgotten. */
  lemma {:induction false} OwnedLinksForget(graph: Graph, links: seq<Link>, first: int, seen: set<GroupId>, i: nat)
    requires i < |FlatLinks(graph, links, seen)|
    ensures i < |OwnedLinks(graph, links, first, seen)|
    ensures OwnedLinks(graph, links, first, seen)[i].claim == FlatLinks(graph, links, seen)[i]
  {
    var n := |LinkClaims(graph, links[0], seen)|;
    if i >= n {
      OwnedLinksForget(graph, links[1..], first + 1, seen, i - n);
    }
  }

  lemma FlatForgetsOwners(graph: Graph, g: GroupId, i: nat)
    requires g in graph && i < |Flat(graph, g, {})|
    ensures i < |TopologyClaims(graph, g)| && TopologyClaims(graph, g)[i].claim == Flat(graph, g, {})[i]
  {
    assert {} + {g} == {g};
    var n := |OwnClaims(graph[g])|;
    if i >= n {
      OwnedLinksForget(graph, graph[g].children, 0, {g}, i - n);
    }
  }

  /** No concrete path lies beneath two mounts claimed on one node, wherever they were declared. */
  lemma NoPathInTwoMounts(accepts: RouterAccepts, graph: Graph, g: GroupId, active: set<GroupId>,
                          re: Expressions, i: nat, j: nat, path: seq<string>)
    requires NoCycle(graph, g, active) && LevelsOk(accepts, graph, g, active)
    requires i < |Flat(graph, g, {})| && j < |Flat(graph, g, {})| && i != j
    requires Flat(graph, g, {})[i].MountClaim? && Flat(graph, g, {})[j].MountClaim?
    requires WholeSegments(RoutingSegments(Flat(graph, g, {})[i].pattern))
    requires WholeSegments(RoutingSegments(Flat(graph, g, {})[j].pattern))
    ensures !(MountMatches(re, RoutingSegments(Flat(graph, g, {})[i].pattern), path)
              && MountMatches(re, RoutingSegments(Flat(graph, g, {})[j].pattern), path))
  {
    var a, b := Flat(graph, g, {})[i], Flat(graph, g, {})[j];
    FlatForgetsOwners(graph, g, i);
    FlatForgetsOwners(graph, g, j);
    FlatChecked(accepts, graph, g, active, a);
    FlatChecked(accepts, graph, g, active, b);
    assert Apart(accepts, TopologyClaims(graph, g)[i], TopologyClaims(graph, g)[j]);
    if MountMatches(re, RoutingSegments(a.pattern), path) && MountMatches(re, RoutingSegments(b.pattern), path) {
      OverlapIsConservative(re, RoutingSegments(a.pattern), RoutingSegments(b.pattern), path);
    }
  }
}
