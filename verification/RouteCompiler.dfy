/**
  The route compiler: a recursive walk over the group graph that records every
  operation with its cumulative path and guard chain, and the router that is
  materialized from it.
 */
module RouteCompiler {
  import opened Wrappers
  import opened Paths
  import opened Groups
  import opened Topology

  /** What the router library accepts as endpoint and mount patterns. */
  datatype Env = Env(endpointOk: RouterAccepts, mountOk: RouterAccepts)

  datatype Fault =
    | NilGroup(prefix: string)
    | Cycle(prefix: string)
    | ZeroGuard(prefix: string)
    | BadEndpoint(verb: string, path: string)
    | BadMount(prefix: string, pattern: string)
    | TopologyClash(prefix: string)

  /** Which declaration an entry comes from: the child indexes followed, then the endpoint's index in its group. */
  datatype Label = Label(mount: seq<nat>, index: nat)

  /** One compiled route; infrastructure routes are compiled but not documented. */
  datatype Entry = Entry(label_: Label, verb: string, path: string, guards: seq<Guard>, documented: bool)

  /** A handler with the guards folded around it. */
  datatype Handler = Bound(label_: Label) | Guarded(guard: Guard, next: Handler)

  datatype MatEndpoint = MatEndpoint(verb: string, path: string, handler: Handler)
  datatype MatChild = MatChild(pattern: string, node: Mat)
  datatype Mat = Mat(guards: seq<Guard>, endpoints: seq<MatEndpoint>, children: seq<MatChild>)

  const EMPTY_MAT := Mat([], [], [])

  function JoinPattern(base: string, pattern: string): string {
    if base == "" then pattern
    else if pattern == "" || pattern == "/" then base
    else TrimSuffixSlash(base) + pattern
  }

  function Constructed(guards: seq<Guard>): seq<Guard> {
    if guards == [] then []
    else (if guards[0].constructed then [guards[0]] else []) + Constructed(guards[1..])
  }

  function GuardFaults(guards: seq<Guard>, prefix: string): seq<Fault> {
    if guards == [] then []
    else (if guards[0].constructed then [] else [ZeroGuard(prefix)]) + GuardFaults(guards[1..], prefix)
  }

  /** Guards fold into a handler from the last to the first, so they run in slice order. */
  function Wrap(guards: seq<Guard>, h: Handler): Handler {
    if guards == [] then h else Guarded(guards[0], Wrap(guards[1..], h))
  }

  method WrapRouteGuards(h: Handler, guards: seq<Guard>) returns (handler: Handler)
    ensures handler == Wrap(guards, h)
  {
    handler := h;
    var i := |guards|;
    while i > 0
      invariant 0 <= i <= |guards| && handler == Wrap(guards[i..], h)
    {
      i := i - 1;
      assert guards[i..][1..] == guards[i + 1..];
      handler := Guarded(guards[i], handler);
    }
    assert guards[0..] == guards;
  }

  lemma {:induction false} WrapSplits(a: seq<Guard>, b: seq<Guard>, h: Handler)
    ensures Wrap(a + b, h) == Wrap(a, Wrap(b, h))
  {
    if a == [] {
      assert a + b == b;
    } else {
      assert (a + b)[1..] == a[1..] + b;
      WrapSplits(a[1..], b, h);
    }
  }

  // --- Compiling -------------------------------------------------------------

  datatype Out = Out(mat: Mat, entries: seq<Entry>, faults: seq<Fault>)

  predicate EndpointOk(env: Env, e: Endpoint, full: string) {
    && HttpMethod(e.verb)
    && Rooted(e.path)
    && env.endpointOk(full)
    && (forall i :: 0 <= i < |e.guards| ==> e.guards[i].constructed)
    && e.prepares
  }

  function RouteGuards(e: Endpoint, documented: bool): seq<Guard> {
    if documented then e.guards else []
  }

  function EndpointEntry(e: Endpoint, prefix: string, chain: seq<Guard>, at: Label, documented: bool): Entry {
    Entry(at, e.verb, JoinPattern(prefix, e.path), chain + RouteGuards(e, documented), documented)
  }

  function EndpointMat(e: Endpoint, at: Label, documented: bool): MatEndpoint {
    MatEndpoint(e.verb, e.path, Wrap(RouteGuards(e, documented), Bound(at)))
  }

  /** The endpoints of one group, the `first` of them numbered `first`. */
  function Endpoints(env: Env, es: seq<Endpoint>, prefix: string, chain: seq<Guard>, mount: seq<nat>, first: nat,
                     documented: bool): Out
  {
    if es == [] then Out(EMPTY_MAT, [], [])
    else
      var rest := Endpoints(env, es[1..], prefix, chain, mount, first + 1, documented);
      var full, at := JoinPattern(prefix, es[0].path), Label(mount, first);
      if EndpointOk(env, es[0], full) then
        Out(rest.mat.(endpoints := [EndpointMat(es[0], at, documented)] + rest.mat.endpoints),
            [EndpointEntry(es[0], prefix, chain, at, documented)] + rest.entries, rest.faults)
      else rest.(faults := [BadEndpoint(es[0].verb, full)] + rest.faults)
  }

  predicate MountOk(env: Env, pattern: string) {
    pattern == "" || (pattern[0] == '/' && env.mountOk(pattern))
  }

  function ChildPrefix(prefix: string, pattern: string): string {
    if pattern == "" then prefix else JoinPattern(prefix, pattern)
  }

  /** A group's output from its parts. */
  function Assemble(guards: seq<Guard>, bad: seq<Fault>, ops: Out, infra: Out, kids: Out): Out {
    Out(Mat(guards, ops.mat.endpoints + infra.mat.endpoints, kids.mat.children),
        ops.entries + infra.entries + kids.entries,
        bad + ops.faults + infra.faults + kids.faults)
  }

  /** One more child in front of the others. */
  function Attach(prefix: string, pattern: string, ok: bool, kid: Out, rest: Out): Out {
    Out(rest.mat.(children := (if ok then [MatChild(pattern, kid.mat)] else []) + rest.mat.children),
        kid.entries + rest.entries,
        (if ok then [] else [BadMount(prefix, pattern)]) + kid.faults + rest.faults)
  }

  /** A group's zero guards, and a clash among the claims of its router node. */
  function GroupFaults(env: Env, graph: Graph, g: GroupId, prefix: string): seq<Fault>
    requires g in graph
  {
    GuardFaults(graph[g].guards, prefix)
    + if LevelOk(env.mountOk, TopologyClaims(graph, g)) then [] else [TopologyClash(prefix)]
  }

  /** One group under a prefix, with the inherited guard chain and the groups being compiled around it. */
  function Compile(env: Env, graph: Graph, g: Option<GroupId>, prefix: string, chain: seq<Guard>,
                   active: set<GroupId>, mount: seq<nat>): Out
    decreases graph.Keys - active, 1, 0
  {
    if g.None? || g.value !in graph then Out(EMPTY_MAT, [], [NilGroup(prefix)])
    else if g.value in active then Out(EMPTY_MAT, [], [Cycle(prefix)])
    else
      var group := graph[g.value];
      var stack := chain + Constructed(group.guards);
      Assemble(Constructed(group.guards), GroupFaults(env, graph, g.value, prefix),
               Endpoints(env, group.endpoints, prefix, stack, mount, 0, true),
               Endpoints(env, group.infra, prefix, stack, mount, |group.endpoints|, false),
               CompileLinks(env, graph, group.children, 0, prefix, stack, active + {g.value}, mount))
  }

  function CompileLinks(env: Env, graph: Graph, links: seq<Link>, first: nat, prefix: string, chain: seq<Guard>,
                        active: set<GroupId>, mount: seq<nat>): Out
    decreases graph.Keys - active, 2, |links|
  {
    if links == [] then Out(EMPTY_MAT, [], [])
    else
      Attach(prefix, links[0].pattern, MountOk(env, links[0].pattern),
             Compile(env, graph, links[0].node, ChildPrefix(prefix, links[0].pattern), chain, active, mount + [first]),
             CompileLinks(env, graph, links[1..], first + 1, prefix, chain, active, mount))
  }

  // --- The materialized router -----------------------------------------------

  /** A route the router serves, with everything that runs before its handler. */
  datatype Served = Served(verb: string, path: string, handler: Handler)

  /** Group guards are middleware of their router node, outermost first. */
  function ServedBy(mat: Mat, prefix: string, middleware: seq<Guard>): seq<Served>
    decreases mat, 1
  {
    var stack := middleware + mat.guards;
    seq(|mat.endpoints|, i requires 0 <= i < |mat.endpoints| =>
      Served(mat.endpoints[i].verb, JoinPattern(prefix, mat.endpoints[i].path), Wrap(stack, mat.endpoints[i].handler)))
    + ServedBelow(mat, mat.children, prefix, stack)
  }

  function ServedBelow(parent: Mat, children: seq<MatChild>, prefix: string, stack: seq<Guard>): seq<Served>
    requires forall i :: 0 <= i < |children| ==> children[i] in parent.children
    decreases parent, 0, |children|
  {
    if children == [] then []
    else
      assert children[0] in parent.children;
      ServedBy(children[0].node, ChildPrefix(prefix, children[0].pattern), stack)
      + ServedBelow(parent, children[1..], prefix, stack)
  }

  /** What an entry promises: its recorded guards, in order, around its handler. */
  function Promise(e: Entry): Served {
    Served(e.verb, e.path, Wrap(e.guards, Bound(e.label_)))
  }

  function Promises(es: seq<Entry>): seq<Served> {
    seq(|es|, i requires 0 <= i < |es| => Promise(es[i]))
  }

  /** Endpoints of one node, under the node's middleware, are what their entries promise. */
  predicate KeepsPromises(out: Out, prefix: string, stack: seq<Guard>) {
    && |out.mat.endpoints| == |out.entries|
    && forall k :: 0 <= k < |out.entries| ==>
         Served(out.mat.endpoints[k].verb, JoinPattern(prefix, out.mat.endpoints[k].path),
                Wrap(stack, out.mat.endpoints[k].handler)) == Promise(out.entries[k])
  }

  lemma {:induction false} EndpointsServed(env: Env, es: seq<Endpoint>, prefix: string, chain: seq<Guard>,
                                           mount: seq<nat>, first: nat, documented: bool)
    ensures KeepsPromises(Endpoints(env, es, prefix, chain, mount, first, documented), prefix, chain)
  {
    if es != [] {
      EndpointsServed(env, es[1..], prefix, chain, mount, first + 1, documented);
      WrapSplits(chain, RouteGuards(es[0], documented), Bound(Label(mount, first)));
    }
  }

  lemma AssembleServed(guards: seq<Guard>, bad: seq<Fault>, ops: Out, infra: Out, kids: Out, prefix: string,
                       chain: seq<Guard>)
    requires KeepsPromises(ops, prefix, chain + guards) && KeepsPromises(infra, prefix, chain + guards)
    requires var mat := Assemble(guards, bad, ops, infra, kids).mat;
             ServedBelow(mat, mat.children, prefix, chain + guards) == Promises(kids.entries)
    ensures var out := Assemble(guards, bad, ops, infra, kids);
            ServedBy(out.mat, prefix, chain) == Promises(out.entries)
  {
  }

  lemma AttachServed(parent: Mat, prefix: string, pattern: string, kid: Out, rest: Out, chain: seq<Guard>)
    requires var children := Attach(prefix, pattern, true, kid, rest).mat.children;
             forall i :: 0 <= i < |children| ==> children[i] in parent.children
    requires ServedBy(kid.mat, ChildPrefix(prefix, pattern), chain) == Promises(kid.entries)
    requires (forall i :: 0 <= i < |rest.mat.children| ==> rest.mat.children[i] in parent.children)
             && ServedBelow(parent, rest.mat.children, prefix, chain) == Promises(rest.entries)
    ensures var out := Attach(prefix, pattern, true, kid, rest);
            ServedBelow(parent, out.mat.children, prefix, chain) == Promises(out.entries)
  {
    var out := Attach(prefix, pattern, true, kid, rest);
    assert out.mat.children[1..] == rest.mat.children;
  }

  lemma AttachedChildren(parent: Mat, prefix: string, pattern: string, ok: bool, kid: Out, rest: Out)
    requires var children := Attach(prefix, pattern, ok, kid, rest).mat.children;
             forall i :: 0 <= i < |children| ==> children[i] in parent.children
    ensures forall i :: 0 <= i < |rest.mat.children| ==> rest.mat.children[i] in parent.children
  {
    var children := Attach(prefix, pattern, ok, kid, rest).mat.children;
    var n := if ok then 1 else 0;
    forall i | 0 <= i < |rest.mat.children|
      ensures rest.mat.children[i] in parent.children
    {
      assert rest.mat.children[i] == children[i + n];
    }
  }

  /**
    In an accepted tree, groups mounted several times included, what the router
    runs before each handler is exactly the recorded guard chain, in order.
   */
  lemma {:induction false} RouterRunsRecordedChains(env: Env, graph: Graph, g: Option<GroupId>, prefix: string,
                                                    chain: seq<Guard>, active: set<GroupId>, mount: seq<nat>)
    requires Compile(env, graph, g, prefix, chain, active, mount).faults == []
    ensures var out := Compile(env, graph, g, prefix, chain, active, mount);
            ServedBy(out.mat, prefix, chain) == Promises(out.entries)
    decreases graph.Keys - active, 1, 0
  {
    var group := graph[g.value];
    var guards := Constructed(group.guards);
    var bad := GroupFaults(env, graph, g.value, prefix);
    var ops := Endpoints(env, group.endpoints, prefix, chain + guards, mount, 0, true);
    var infra := Endpoints(env, group.infra, prefix, chain + guards, mount, |group.endpoints|, false);
    var kids := CompileLinks(env, graph, group.children, 0, prefix, chain + guards, active + {g.value}, mount);
    EndpointsServed(env, group.endpoints, prefix, chain + guards, mount, 0, true);
    EndpointsServed(env, group.infra, prefix, chain + guards, mount, |group.endpoints|, false);
    LinksRunRecordedChains(Assemble(guards, bad, ops, infra, kids).mat, env, graph, group.children, 0, prefix,
                           chain + guards, active + {g.value}, mount);
    AssembleServed(guards, bad, ops, infra, kids, prefix, chain);
  }

  lemma {:induction false} LinksRunRecordedChains(parent: Mat, env: Env, graph: Graph, links: seq<Link>, first: nat,
                                                  prefix: string, chain: seq<Guard>, active: set<GroupId>,
                                                  mount: seq<nat>)
    requires var out := CompileLinks(env, graph, links, first, prefix, chain, active, mount);
             out.faults == [] && forall i :: 0 <= i < |out.mat.children| ==> out.mat.children[i] in parent.children
    ensures var out := CompileLinks(env, graph, links, first, prefix, chain, active, mount);
            ServedBelow(parent, out.mat.children, prefix, chain) == Promises(out.entries)
    decreases graph.Keys - active, 2, |links|
  {
    if links != [] {
      var kid := Compile(env, graph, links[0].node, ChildPrefix(prefix, links[0].pattern), chain, active,
                         mount + [first]);
      var rest := CompileLinks(env, graph, links[1..], first + 1, prefix, chain, active, mount);
      AttachedChildren(parent, prefix, links[0].pattern, MountOk(env, links[0].pattern), kid, rest);
      RouterRunsRecordedChains(env, graph, links[0].node, ChildPrefix(prefix, links[0].pattern), chain, active,
                               mount + [first]);
      LinksRunRecordedChains(parent, env, graph, links[1..], first + 1, prefix, chain, active, mount);
      AttachServed(parent, prefix, links[0].pattern, kid, rest, chain);
    }
  }

  // --- Each declaration once per mount path ----------------------------------

  function Declared(group: Group): nat {
    |group.endpoints| + |group.infra|
  }

  lemma {:induction false} EndpointLabels(env: Env, es: seq<Endpoint>, prefix: string, chain: seq<Guard>,
                                          mount: seq<nat>, first: nat, documented: bool)
    requires Endpoints(env, es, prefix, chain, mount, first, documented).faults == []
    ensures var entries := Endpoints(env, es, prefix, chain, mount, first, documented).entries;
            && |entries| == |es|
            && forall k :: 0 <= k < |es| ==>
               entries[k] == EndpointEntry(es[k], prefix, chain, Label(mount, first + k), documented)
  {
    if es != [] {
      EndpointLabels(env, es[1..], prefix, chain, mount, first + 1, documented);
    }
  }

  /** The walk a label stands for, below the mount path it was compiled at. */
  function Below(mount: seq<nat>, l: Label): seq<nat> {
    if |mount| <= |l.mount| then l.mount[|mount|..] else []
  }

  /** The label names a declaration reachable from `g`, relative to `mount`. */
  predicate Names(graph: Graph, g: GroupId, mount: seq<nat>, l: Label)
    requires g in graph
  {
    && mount <= l.mount
    && End(graph, g, Below(mount, l)).Some?
    && End(graph, g, Below(mount, l)).value in graph
    && l.index < Declared(graph[End(graph, g, Below(mount, l)).value])
  }

  predicate Distinct(es: seq<Entry>) {
    forall i, j :: 0 <= i < j < |es| ==> es[i].label_ != es[j].label_
  }

  lemma OwnEntriesAreDeclarations(env: Env, graph: Graph, g: GroupId, prefix: string, stack: seq<Guard>,
                                  mount: seq<nat>)
    requires g in graph
    requires Endpoints(env, graph[g].endpoints, prefix, stack, mount, 0, true).faults == []
    requires Endpoints(env, graph[g].infra, prefix, stack, mount, |graph[g].endpoints|, false).faults == []
    ensures var own := Endpoints(env, graph[g].endpoints, prefix, stack, mount, 0, true).entries
                     + Endpoints(env, graph[g].infra, prefix, stack, mount, |graph[g].endpoints|, false).entries;
            && Distinct(own)
            && forall k :: 0 <= k < |own| ==> own[k].label_.mount == mount && Names(graph, g, mount, own[k].label_)
  {
    hide Endpoints;
    var group := graph[g];
    EndpointLabels(env, group.endpoints, prefix, stack, mount, 0, true);
    EndpointLabels(env, group.infra, prefix, stack, mount, |group.endpoints|, false);
    assert forall k: nat :: Below(mount, Label(mount, k)) == [];
  }

  lemma OwnAndChildrenDistinct(graph: Graph, g: GroupId, mount: seq<nat>, own: seq<Entry>, kids: seq<Entry>)
    requires g in graph && Distinct(own) && Distinct(kids)
    requires forall k :: 0 <= k < |own| ==> own[k].label_.mount == mount && Names(graph, g, mount, own[k].label_)
    requires forall k :: 0 <= k < |kids| ==> ThroughChild(graph, g, 0, mount, kids[k].label_)
    ensures Distinct(own + kids)
    ensures forall k :: 0 <= k < |own + kids| ==> Names(graph, g, mount, (own + kids)[k].label_)
  {
    hide Names;
    forall i, j | 0 <= i < j < |own + kids|
      ensures (own + kids)[i].label_ != (own + kids)[j].label_
    {
      if i < |own| <= j {
        assert ThroughChild(graph, g, 0, mount, kids[j - |own|].label_);
      }
    }
  }

  /** Every entry names a reachable declaration, and no declaration is compiled twice at one mount path. */
  lemma {:induction false} EntriesAreDeclarations(env: Env, graph: Graph, g: Option<GroupId>, prefix: string,
                                                  chain: seq<Guard>, active: set<GroupId>, mount: seq<nat>)
    requires Compile(env, graph, g, prefix, chain, active, mount).faults == []
    ensures g.Some? && g.value in graph
    ensures var entries := Compile(env, graph, g, prefix, chain, active, mount).entries;
            && Distinct(entries)
            && forall k :: 0 <= k < |entries| ==> Names(graph, g.value, mount, entries[k].label_)
    decreases graph.Keys - active, 1, 0
  {
    hide Names, Distinct, ThroughChild, Endpoints, CompileLinks, Constructed, GroupFaults;
    var group := graph[g.value];
    var stack := chain + Constructed(group.guards);
    var ops := Endpoints(env, group.endpoints, prefix, stack, mount, 0, true);
    var infra := Endpoints(env, group.infra, prefix, stack, mount, |group.endpoints|, false);
    var kids := CompileLinks(env, graph, group.children, 0, prefix, stack, active + {g.value}, mount);
    AssembleClean(Constructed(group.guards), GroupFaults(env, graph, g.value, prefix), ops, infra, kids);
    OwnEntriesAreDeclarations(env, graph, g.value, prefix, stack, mount);
    LinkEntriesAreDeclarations(env, graph, g.value, group.children, 0, prefix, stack, active + {g.value}, mount);
    OwnAndChildrenDistinct(graph, g.value, mount, ops.entries + infra.entries, kids.entries);
  }

  /** An entry compiled through child `i` of `g`, for some `i` at or after `first`. */
  predicate ThroughChild(graph: Graph, g: GroupId, first: nat, mount: seq<nat>, l: Label)
    requires g in graph
  {
    |l.mount| > |mount| && l.mount[|mount|] >= first && Names(graph, g, mount, l)
  }

  lemma KidEntriesAreDeclarations(graph: Graph, g: GroupId, first: nat, mount: seq<nat>, l: Label)
    requires g in graph && first < |graph[g].children| && graph[g].children[first].node.Some?
    requires graph[g].children[first].node.value in graph
    requires Names(graph, graph[g].children[first].node.value, mount + [first], l)
    ensures ThroughChild(graph, g, first, mount, l) && l.mount[|mount|] == first
  {
    assert l.mount[..|mount| + 1] == mount + [first];
    assert l.mount[..|mount|] == mount;
    assert Below(mount, l)[1..] == Below(mount + [first], l);
  }

  lemma JoinDistinct(graph: Graph, g: GroupId, first: nat, mount: seq<nat>, kid: seq<Entry>, rest: seq<Entry>)
    requires g in graph && Distinct(kid) && Distinct(rest)
    requires forall k :: 0 <= k < |kid| ==>
               ThroughChild(graph, g, first, mount, kid[k].label_) && kid[k].label_.mount[|mount|] == first
    requires forall k :: 0 <= k < |rest| ==> ThroughChild(graph, g, first + 1, mount, rest[k].label_)
    ensures Distinct(kid + rest)
    ensures forall k :: 0 <= k < |kid + rest| ==> ThroughChild(graph, g, first, mount, (kid + rest)[k].label_)
  {
    forall i, j | 0 <= i < j < |kid + rest|
      ensures (kid + rest)[i].label_ != (kid + rest)[j].label_
    {
      if i < |kid| <= j {
        assert ThroughChild(graph, g, first + 1, mount, rest[j - |kid|].label_);
      }
    }
  }

  lemma AttachClean(prefix: string, pattern: string, ok: bool, kid: Out, rest: Out)
    requires Attach(prefix, pattern, ok, kid, rest).faults == []
    ensures ok && kid.faults == [] && rest.faults == []
  {
  }

  lemma {:induction false} LinkEntriesAreDeclarations(env: Env, graph: Graph, g: GroupId, links: seq<Link>, first: nat,
      prefix: string, chain: seq<Guard>, active: set<GroupId>, mount: seq<nat>)
    requires g in graph && first <= |graph[g].children| && links == graph[g].children[first..]
    requires CompileLinks(env, graph, links, first, prefix, chain, active, mount).faults == []
    ensures var entries := CompileLinks(env, graph, links, first, prefix, chain, active, mount).entries;
            && Distinct(entries)
            && forall k :: 0 <= k < |entries| ==> ThroughChild(graph, g, first, mount, entries[k].label_)
    decreases graph.Keys - active, 2, |links|
  {
    if links != [] {
      var kid := Compile(env, graph, links[0].node, ChildPrefix(prefix, links[0].pattern), chain, active,
                         mount + [first]);
      var rest := CompileLinks(env, graph, links[1..], first + 1, prefix, chain, active, mount);
      AttachClean(prefix, links[0].pattern, MountOk(env, links[0].pattern), kid, rest);
      EntriesAreDeclarations(env, graph, links[0].node, ChildPrefix(prefix, links[0].pattern), chain, active,
                             mount + [first]);
      LinkEntriesAreDeclarations(env, graph, g, links[1..], first + 1, prefix, chain, active, mount);
      forall k | 0 <= k < |kid.entries|
        ensures ThroughChild(graph, g, first, mount, kid.entries[k].label_)
                && kid.entries[k].label_.mount[|mount|] == first
      {
        KidEntriesAreDeclarations(graph, g, first, mount, kid.entries[k].label_);
      }
      JoinDistinct(graph, g, first, mount, kid.entries, rest.entries);
    }
  }

  function Entries(es: seq<Entry>): set<Entry> {
    set e | e in es
  }

  /** A walk from `g` leads to a group with a declaration of this index. */
  predicate Declares(graph: Graph, g: GroupId, walk: seq<nat>, index: nat)
    requires g in graph
  {
    End(graph, g, walk).Some? && End(graph, g, walk).value in graph
      && index < Declared(graph[End(graph, g, walk).value])
  }

  /** The guards of every group on a walk, outermost first. */
  function GuardsAlong(graph: Graph, g: GroupId, walk: seq<nat>): seq<Guard>
    requires g in graph && End(graph, g, walk).Some?
    decreases walk
  {
    graph[g].guards + if walk == [] then [] else GuardsAlong(graph, graph[g].children[walk[0]].node.value, walk[1..])
  }

  /** The patterns followed by a walk, joined onto a prefix. */
  function PrefixAlong(graph: Graph, g: GroupId, walk: seq<nat>, prefix: string): string
    requires g in graph && End(graph, g, walk).Some?
    decreases walk
  {
    if walk == [] then prefix
    else
      var link := graph[g].children[walk[0]];
      PrefixAlong(graph, link.node.value, walk[1..], ChildPrefix(prefix, link.pattern))
  }

  /** What a group's declaration is recorded as at one mount point. */
  function OwnEntry(group: Group, prefix: string, chain: seq<Guard>, mount: seq<nat>, index: nat): Entry
    requires index < Declared(group)
  {
    if index < |group.endpoints| then EndpointEntry(group.endpoints[index], prefix, chain, Label(mount, index), true)
    else EndpointEntry(group.infra[index - |group.endpoints|], prefix, chain, Label(mount, index), false)
  }

  /** What a declaration is to be recorded as at the end of a walk: its cumulative path, and all guards on the way. */
  function EntryFor(graph: Graph, g: GroupId, prefix: string, chain: seq<Guard>, mount: seq<nat>, walk: seq<nat>,
                    index: nat): Entry
    requires g in graph && Declares(graph, g, walk, index)
  {
    OwnEntry(graph[End(graph, g, walk).value], PrefixAlong(graph, g, walk, prefix),
             chain + GuardsAlong(graph, g, walk), mount + walk, index)
  }

  /** A group's own declarations are compiled at its mount path. */
  lemma OwnDeclarationsAreEntries(env: Env, group: Group, prefix: string, stack: seq<Guard>, mount: seq<nat>,
                                  index: nat)
    requires Endpoints(env, group.endpoints, prefix, stack, mount, 0, true).faults == []
    requires Endpoints(env, group.infra, prefix, stack, mount, |group.endpoints|, false).faults == []
    requires index < Declared(group)
    ensures OwnEntry(group, prefix, stack, mount, index)
            in Entries(Endpoints(env, group.endpoints, prefix, stack, mount, 0, true).entries)
              + Entries(Endpoints(env, group.infra, prefix, stack, mount, |group.endpoints|, false).entries)
  {
    EndpointLabels(env, group.endpoints, prefix, stack, mount, 0, true);
    EndpointLabels(env, group.infra, prefix, stack, mount, |group.endpoints|, false);
    if index < |group.endpoints| {
      assert Endpoints(env, group.endpoints, prefix, stack, mount, 0, true).entries[index]
             == OwnEntry(group, prefix, stack, mount, index);
    } else {
      var k := index - |group.endpoints|;
      assert Endpoints(env, group.infra, prefix, stack, mount, |group.endpoints|, false).entries[k]
             == OwnEntry(group, prefix, stack, mount, index);
    }
  }

  lemma AssembleClean(guards: seq<Guard>, bad: seq<Fault>, ops: Out, infra: Out, kids: Out)
    requires Assemble(guards, bad, ops, infra, kids).faults == []
    ensures bad == [] && ops.faults == [] && infra.faults == [] && kids.faults == []
  {
  }

  lemma AssembleEntries(guards: seq<Guard>, bad: seq<Fault>, ops: Out, infra: Out, kids: Out)
    ensures Entries(Assemble(guards, bad, ops, infra, kids).entries)
            == Entries(ops.entries) + Entries(infra.entries) + Entries(kids.entries)
  {
  }

  lemma {:induction false} NoZeroGuards(guards: seq<Guard>, prefix: string)
    requires GuardFaults(guards, prefix) == []
    ensures Constructed(guards) == guards
  {
    if guards != [] {
      NoZeroGuards(guards[1..], prefix);
    }
  }

  /** Where a walk's first step goes. */
  lemma DeclaresStep(graph: Graph, g: GroupId, prefix: string, chain: seq<Guard>, mount: seq<nat>, walk: seq<nat>,
                     index: nat)
    requires g in graph && walk != [] && Declares(graph, g, walk, index)
    ensures walk[0] < |graph[g].children| && graph[g].children[walk[0]].node.Some?
    ensures graph[g].children[walk[0]].node.value in graph
    ensures Declares(graph, graph[g].children[walk[0]].node.value, walk[1..], index)
    ensures var link := graph[g].children[walk[0]];
            EntryFor(graph, g, prefix, chain, mount, walk, index)
            == EntryFor(graph, link.node.value, ChildPrefix(prefix, link.pattern), chain + graph[g].guards,
                        mount + [walk[0]], walk[1..], index)
  {
    hide OwnEntry;
    var link := graph[g].children[walk[0]];
    assert mount + [walk[0]] + walk[1..] == mount + walk;
    assert chain + GuardsAlong(graph, g, walk)
           == chain + graph[g].guards + GuardsAlong(graph, link.node.value, walk[1..]);
  }

  /** A clean group keeps all its guards; its entries are its own declarations' and its children's. */
  lemma {:induction false} CleanEntries(env: Env, graph: Graph, g: GroupId, prefix: string, chain: seq<Guard>,
                                        active: set<GroupId>, mount: seq<nat>)
    requires Compile(env, graph, Some(g), prefix, chain, active, mount).faults == []
    ensures g in graph
    ensures var group := graph[g];
            var kids := CompileLinks(env, graph, group.children, 0, prefix, chain + group.guards, active + {g}, mount);
            && kids.faults == []
            && Entries(kids.entries) <= Entries(Compile(env, graph, Some(g), prefix, chain, active, mount).entries)
            && forall index: nat :: index < Declared(group) ==>
                 OwnEntry(group, prefix, chain + group.guards, mount, index)
                 in Entries(Compile(env, graph, Some(g), prefix, chain, active, mount).entries)
  {
    hide CompileLinks, Endpoints, LevelOk, TopologyClaims, OwnEntry, Constructed, GuardFaults;
    var group := graph[g];
    var stack := chain + Constructed(group.guards);
    var ops := Endpoints(env, group.endpoints, prefix, stack, mount, 0, true);
    var infra := Endpoints(env, group.infra, prefix, stack, mount, |group.endpoints|, false);
    var kids := CompileLinks(env, graph, group.children, 0, prefix, stack, active + {g}, mount);
    AssembleClean(Constructed(group.guards), GroupFaults(env, graph, g, prefix), ops, infra, kids);
    AssembleEntries(Constructed(group.guards), GroupFaults(env, graph, g, prefix), ops, infra, kids);
    NoZeroGuards(group.guards, prefix);
    forall index: nat | index < Declared(group)
      ensures OwnEntry(group, prefix, stack, mount, index)
              in Entries(Compile(env, graph, Some(g), prefix, chain, active, mount).entries)
    {
      OwnDeclarationsAreEntries(env, group, prefix, stack, mount, index);
    }
  }

  lemma CleanLinkEntries(env: Env, graph: Graph, links: seq<Link>, first: nat, prefix: string,
                         chain: seq<Guard>, active: set<GroupId>, mount: seq<nat>)
    requires links != [] && CompileLinks(env, graph, links, first, prefix, chain, active, mount).faults == []
    ensures var out := CompileLinks(env, graph, links, first, prefix, chain, active, mount);
            var kid := Compile(env, graph, links[0].node, ChildPrefix(prefix, links[0].pattern), chain, active,
                               mount + [first]);
            var rest := CompileLinks(env, graph, links[1..], first + 1, prefix, chain, active, mount);
            && kid.faults == [] && rest.faults == []
            && Entries(kid.entries) <= Entries(out.entries) && Entries(rest.entries) <= Entries(out.entries)
  {
    hide Compile;
    var kid := Compile(env, graph, links[0].node, ChildPrefix(prefix, links[0].pattern), chain, active,
                       mount + [first]);
    var rest := CompileLinks(env, graph, links[1..], first + 1, prefix, chain, active, mount);
    AttachClean(prefix, links[0].pattern, MountOk(env, links[0].pattern), kid, rest);
  }

  /** Each child of a clean group is compiled cleanly, and its entries are among the group's. */
  lemma {:induction false} ChildCompiled(env: Env, graph: Graph, links: seq<Link>, first: nat, prefix: string,
                                         chain: seq<Guard>, active: set<GroupId>, mount: seq<nat>, i: nat)
    requires CompileLinks(env, graph, links, first, prefix, chain, active, mount).faults == [] && i < |links|
    ensures var kid := Compile(env, graph, links[i].node, ChildPrefix(prefix, links[i].pattern), chain, active,
                               mount + [first + i]);
            && kid.faults == []
            && Entries(kid.entries)
               <= Entries(CompileLinks(env, graph, links, first, prefix, chain, active, mount).entries)
    decreases i
  {
    hide Compile, CompileLinks;
    CleanLinkEntries(env, graph, links, first, prefix, chain, active, mount);
    if i > 0 {
      ChildCompiled(env, graph, links[1..], first + 1, prefix, chain, active, mount, i - 1);
      assert links[1..][i - 1] == links[i] && first + 1 + (i - 1) == first + i;
    }
  }

  /**
    Every declaration reachable by a walk is compiled at that mount path, under
    the patterns joined along the walk and behind every guard declared on it.
   */
  lemma {:induction false} DeclarationsAreEntries(env: Env, graph: Graph, g: GroupId, prefix: string,
      chain: seq<Guard>, active: set<GroupId>, mount: seq<nat>, walk: seq<nat>, index: nat)
    requires Compile(env, graph, Some(g), prefix, chain, active, mount).faults == []
    requires g in graph && Declares(graph, g, walk, index)
    ensures EntryFor(graph, g, prefix, chain, mount, walk, index)
            in Entries(Compile(env, graph, Some(g), prefix, chain, active, mount).entries)
    decreases walk
  {
    hide Compile, CompileLinks, OwnEntry, Entries;
    CleanEntries(env, graph, g, prefix, chain, active, mount);
    if walk == [] {
      assert mount + walk == mount && graph[g].guards + [] == graph[g].guards;
    } else {
      DeclaresStep(graph, g, prefix, chain, mount, walk, index);
      var link := graph[g].children[walk[0]];
      var stack := chain + graph[g].guards;
      ChildCompiled(env, graph, graph[g].children, 0, prefix, stack, active + {g}, mount, walk[0]);
      assert link.node == Some(link.node.value);
      DeclarationsAreEntries(env, graph, link.node.value, ChildPrefix(prefix, link.pattern), stack, active + {g},
                             mount + [walk[0]], walk[1..], index);
    }
  }

  /**
    Conversely, every record is that of the declaration its label names, so
    records and declarations correspond one to one.
   */
  lemma EntryIsItsDeclaration(env: Env, graph: Graph, root: GroupId, k: nat)
    requires Compile(env, graph, Some(root), "", [], {}, []).faults == []
    requires k < |Compile(env, graph, Some(root), "", [], {}, []).entries|
    ensures root in graph
    ensures var e := Compile(env, graph, Some(root), "", [], {}, []).entries[k];
            && Declares(graph, root, e.label_.mount, e.label_.index)
            && e == EntryFor(graph, root, "", [], [], e.label_.mount, e.label_.index)
  {
    hide Compile, EntryFor, Names, Declares;
    var entries := Compile(env, graph, Some(root), "", [], {}, []).entries;
    EntriesAreDeclarations(env, graph, Some(root), "", [], {}, []);
    var l := entries[k].label_;
    NamedIsDeclared(graph, root, l);
    DeclarationsAreEntries(env, graph, root, "", [], {}, [], l.mount, l.index);
    var j :| 0 <= j < |entries| && entries[j] == EntryFor(graph, root, "", [], [], l.mount, l.index);
  }

  lemma NamedIsDeclared(graph: Graph, root: GroupId, l: Label)
    requires root in graph && Names(graph, root, [], l)
    ensures Declares(graph, root, l.mount, l.index)
    ensures EntryFor(graph, root, "", [], [], l.mount, l.index).label_ == l
  {
    hide PrefixAlong, GuardsAlong;
    assert Below([], l) == l.mount && [] + l.mount == l.mount;
  }

  // --- Cycles and levels -----------------------------------------------------

  ghost predicate ReportsCycle(faults: seq<Fault>) {
    exists i :: 0 <= i < |faults| && faults[i].Cycle?
  }

  lemma CycleInConcat(a: seq<Fault>, b: seq<Fault>)
    ensures ReportsCycle(a + b) <==> ReportsCycle(a) || ReportsCycle(b)
  {
    if i :| 0 <= i < |a| && a[i].Cycle? {
      assert (a + b)[i].Cycle?;
    }
    if i :| 0 <= i < |b| && b[i].Cycle? {
      assert (a + b)[|a| + i].Cycle?;
    }
  }

  lemma {:induction false} EndpointsReportNoCycle(env: Env, es: seq<Endpoint>, prefix: string, chain: seq<Guard>,
                                                  mount: seq<nat>, first: nat, documented: bool)
    ensures !ReportsCycle(Endpoints(env, es, prefix, chain, mount, first, documented).faults)
  {
    if es != [] {
      EndpointsReportNoCycle(env, es[1..], prefix, chain, mount, first + 1, documented);
    }
  }

  lemma {:induction false} GuardsReportNoCycle(guards: seq<Guard>, prefix: string)
    ensures !ReportsCycle(GuardFaults(guards, prefix))
  {
    if guards != [] {
      GuardsReportNoCycle(guards[1..], prefix);
    }
  }

  lemma AssembleCycle(env: Env, graph: Graph, g: GroupId, prefix: string, stack: seq<Guard>, mount: seq<nat>, kids: Out)
    requires g in graph
    ensures ReportsCycle(Assemble(Constructed(graph[g].guards), GroupFaults(env, graph, g, prefix),
                                  Endpoints(env, graph[g].endpoints, prefix, stack, mount, 0, true),
                                  Endpoints(env, graph[g].infra, prefix, stack, mount, |graph[g].endpoints|, false),
                                  kids).faults)
            <==> ReportsCycle(kids.faults)
  {
    hide Endpoints, Constructed, LevelOk, TopologyClaims;
    var group, bad := graph[g], GroupFaults(env, graph, g, prefix);
    var ops := Endpoints(env, group.endpoints, prefix, stack, mount, 0, true);
    var infra := Endpoints(env, group.infra, prefix, stack, mount, |group.endpoints|, false);
    EndpointsReportNoCycle(env, group.endpoints, prefix, stack, mount, 0, true);
    EndpointsReportNoCycle(env, group.infra, prefix, stack, mount, |group.endpoints|, false);
    GuardsReportNoCycle(group.guards, prefix);
    CycleInConcat(GuardFaults(group.guards, prefix),
                  if LevelOk(env.mountOk, TopologyClaims(graph, g)) then [] else [TopologyClash(prefix)]);
    CycleInConcat(bad, ops.faults);
    CycleInConcat(bad + ops.faults, infra.faults);
    CycleInConcat(bad + ops.faults + infra.faults, kids.faults);
  }

  /** The walk reports a cycle exactly when it meets a group that is being compiled. */
  lemma {:induction false} CycleReportedIffMet(env: Env, graph: Graph, g: GroupId, prefix: string, chain: seq<Guard>,
                                               active: set<GroupId>, mount: seq<nat>)
    requires ClosedGraph(graph) && g in graph
    ensures ReportsCycle(Compile(env, graph, Some(g), prefix, chain, active, mount).faults)
            <==> !NoCycle(graph, g, active)
    decreases graph.Keys - active, 1, 0
  {
    hide Endpoints, CompileLinks, Constructed, Assemble;
    if g in active {
      assert Compile(env, graph, Some(g), prefix, chain, active, mount).faults[0].Cycle?;
    } else {
      var group := graph[g];
      var stack := chain + Constructed(group.guards);
      var kids := CompileLinks(env, graph, group.children, 0, prefix, stack, active + {g}, mount);
      AssembleCycle(env, graph, g, prefix, stack, mount, kids);
      LinksReportCycle(env, graph, group.children, 0, prefix, stack, active + {g}, mount);
    }
  }

  lemma {:induction false} LinksReportCycle(env: Env, graph: Graph, links: seq<Link>, first: nat, prefix: string,
                                            chain: seq<Guard>, active: set<GroupId>, mount: seq<nat>)
    requires ClosedGraph(graph) && forall i :: 0 <= i < |links| && links[i].node.Some? ==> links[i].node.value in graph
    ensures ReportsCycle(CompileLinks(env, graph, links, first, prefix, chain, active, mount).faults) <==>
            exists i :: 0 <= i < |links| && links[i].node.Some? && !NoCycle(graph, links[i].node.value, active)
    decreases graph.Keys - active, 2, |links|
  {
    hide NoCycle, ClosedGraph;
    if links != [] {
      var kid := Compile(env, graph, links[0].node, ChildPrefix(prefix, links[0].pattern), chain, active,
                         mount + [first]);
      var rest := CompileLinks(env, graph, links[1..], first + 1, prefix, chain, active, mount);
      var own := if MountOk(env, links[0].pattern) then [] else [BadMount(prefix, links[0].pattern)];
      CycleInConcat(own, kid.faults);
      CycleInConcat(own + kid.faults, rest.faults);
      if links[0].node.Some? {
        CycleReportedIffMet(env, graph, links[0].node.value, ChildPrefix(prefix, links[0].pattern), chain, active,
                            mount + [first]);
        assert links[0].node == Some(links[0].node.value);
      }
      LinksReportCycle(env, graph, links[1..], first + 1, prefix, chain, active, mount);
      assert forall i :: 0 <= i < |links[1..]| ==> links[1..][i] == links[i + 1];
    }
  }

  /** Compiling from the root reports a cycle exactly when a cycle is reachable from the root. */
  lemma CycleReportedIffReachable(env: Env, graph: Graph, root: GroupId)
    requires ClosedGraph(graph) && root in graph
    ensures ReportsCycle(Compile(env, graph, Some(root), "", [], {}, []).faults) <==> CycleReachable(graph, root)
  {
    CycleReportedIffMet(env, graph, root, "", [], {}, []);
    CycleTestIsExact(graph, root);
  }
}
