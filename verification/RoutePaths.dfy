/**
  What a record's path is made of: the segments of the patterns followed by its
  walk, in order, and then those of the declared endpoint.
 */
module RoutePaths {
  import opened Wrappers
  import opened Paths
  import opened Groups
  import opened Topology
  import opened RouteCompiler

  // --- Segments of joined patterns -------------------------------------------

  /** Empty, or rooted and without an empty segment; one trailing slash is allowed. */
  predicate Tidy(pattern: string) {
    pattern != "" ==>
      pattern[0] == '/' && forall i :: 0 <= i < |pattern| - 1 ==> !(pattern[i] == '/' && pattern[i + 1] == '/')
  }

  /** A tidy pattern without its outer slashes. */
  function Core(pattern: string): string {
    if pattern == "" || pattern == "/" then ""
    else if pattern[|pattern| - 1] == '/' then pattern[1..|pattern| - 1]
    else pattern[1..]
  }

  lemma CoreIsTrimmed(pattern: string)
    requires Tidy(pattern)
    ensures TrimSlashRight(TrimSlashLeft(pattern)) == Core(pattern)
    ensures Core(pattern) != "" ==> Core(pattern)[0] != '/' && Core(pattern)[|Core(pattern)| - 1] != '/'
  {
    if pattern != "" && pattern != "/" {
      var left := pattern[1..];
      assert left[0] == pattern[1] && pattern[0] == '/';
      assert TrimSlashLeft(left) == left && TrimSlashLeft(pattern) == left;
      var n := |pattern| - 1;
      if pattern[n] == '/' {
        assert pattern[n - 1] != '/' && left[..|left| - 1] == Core(pattern);
        assert TrimSlashRight(Core(pattern)) == Core(pattern);
      }
    }
  }

  lemma {:induction false} SplitApart(a: string, b: string)
    ensures Split(a + "/" + b) == Split(a) + Split(b)
  {
    hide Split;
    var whole := a + "/" + b;
    SplitStep(whole);
    if a == "" {
      assert whole[1..] == b && whole[0] == '/' && Split("") == [""] by { SplitNothing(); }
    } else {
      SplitApart(a[1..], b);
      SplitStep(a);
      assert whole[1..] == a[1..] + "/" + b && whole[0] == a[0];
    }
  }

  lemma SplitNothing()
    ensures Split("") == [""]
  {
  }

  lemma SplitStep(s: string)
    requires s != ""
    ensures var rest := Split(s[1..]);
            Split(s) == if s[0] == '/' then [""] + rest else [[s[0]] + rest[0]] + rest[1..]
  {
  }

  /** Joining two tidy patterns appends their segments. */
  lemma JoinedSegments(base: string, pattern: string)
    requires Tidy(base) && Tidy(pattern)
    ensures RoutingSegments(JoinPattern(base, pattern)) == RoutingSegments(base) + RoutingSegments(pattern)
    ensures Tidy(JoinPattern(base, pattern))
  {
    hide TrimSlashLeft, TrimSlashRight, Split;
    var joined := JoinPattern(base, pattern);
    CoreIsTrimmed(base);
    CoreIsTrimmed(pattern);
    JoinIsTidy(base, pattern);
    CoreIsTrimmed(joined);
    if Core(base) != "" && Core(pattern) != "" {
      JoinedCore(base, pattern);
      SplitApart(Core(base), Core(pattern));
    } else {
      if Core(base) == "" {
        EmptyCore(base);
      } else {
        EmptyCore(pattern);
      }
      assert "" + pattern == pattern;
    }
  }

  lemma EmptyCore(pattern: string)
    requires Tidy(pattern) && Core(pattern) == ""
    ensures pattern in {"", "/"}
  {
    if |pattern| > 1 {
      assert pattern[0] == '/' && pattern[1] != '/';
    }
  }

  lemma JoinIsTidy(base: string, pattern: string)
    requires Tidy(base) && Tidy(pattern)
    ensures Tidy(JoinPattern(base, pattern))
  {
    var joined, head := JoinPattern(base, pattern), TrimSuffixSlash(base);
    if base != "" && pattern != "" && pattern != "/" {
      forall i | 0 <= i < |joined| - 1
        ensures !(joined[i] == '/' && joined[i + 1] == '/')
      {
        if i + 1 < |head| {
          assert joined[i] == base[i] && joined[i + 1] == base[i + 1];
        } else if i >= |head| {
          assert joined[i] == pattern[i - |head|] && joined[i + 1] == pattern[i + 1 - |head|];
        } else {
          assert joined[i] == base[i] && joined[i + 1] == pattern[0] && (i + 1 < |base| ==> base[i + 1] == '/');
        }
      }
    }
  }

  lemma CoreOf(inner: string, slash: string)
    requires inner != "" && inner[|inner| - 1] != '/' && slash in {"", "/"}
    ensures Core("/" + inner + slash) == inner
  {
    var whole := "/" + inner + slash;
    if slash == "" {
      assert whole == "/" + inner && whole[|whole| - 1] == inner[|inner| - 1];
    }
  }

  lemma CoreParts(pattern: string) returns (slash: string)
    requires Tidy(pattern) && Core(pattern) != ""
    ensures slash in {"", "/"} && pattern == "/" + Core(pattern) + slash
    ensures TrimSuffixSlash(pattern) == "/" + Core(pattern)
  {
    CoreIsTrimmed(pattern);
    slash := if pattern[|pattern| - 1] == '/' then "/" else "";
  }

  lemma JoinedCore(base: string, pattern: string)
    requires Tidy(base) && Tidy(pattern) && Core(base) != "" && Core(pattern) != ""
    ensures Core(JoinPattern(base, pattern)) == Core(base) + "/" + Core(pattern)
  {
    hide Core, Tidy, TrimSuffixSlash;
    var _ := CoreParts(base);
    var slash := CoreParts(pattern);
    var inner := Core(base) + "/" + Core(pattern);
    NotEmpty(base, pattern);
    assert JoinPattern(base, pattern) == "/" + inner + slash;
    CoreIsTrimmed(pattern);
    CoreOf(inner, slash);
  }

  lemma NotEmpty(base: string, pattern: string)
    requires Core(base) != "" && Core(pattern) != ""
    ensures base != "" && pattern != "" && pattern != "/"
  {
  }

  /** A pattern's segments are its parts. */
  lemma SegmentsOfParts(parts: seq<string>, slash: string)
    requires parts != [] && SlashFree(parts) && (forall i :: 0 <= i < |parts| ==> parts[i] != "") && slash in {"", "/"}
    ensures RoutingSegments("/" + Join(parts) + slash) == parts
  {
    hide TrimSlashLeft, TrimSlashRight, Core;
    TidyJoin(parts, slash);
    SplitJoin(parts);
    CoreIsTrimmed("/" + Join(parts) + slash);
    CoreOf(Join(parts), slash);
  }

  lemma {:induction false} TidyJoin(parts: seq<string>, slash: string)
    requires parts != [] && SlashFree(parts) && (forall i :: 0 <= i < |parts| ==> parts[i] != "") && slash in {"", "/"}
    ensures Join(parts) != "" && Join(parts)[|Join(parts)| - 1] != '/' && Tidy("/" + Join(parts) + slash)
  {
    hide Tidy;
    var name := if |parts| == 1 then slash else "";
    TidyName(parts[0], name);
    if |parts| > 1 {
      hide Join;
      TidyJoin(parts[1..], slash);
      var rest := "/" + Join(parts[1..]) + slash;
      JoinIsTidy("/" + parts[0], rest);
      JoinFirst(parts);
      assert "/" + parts[0] + "" == "/" + parts[0];
      assert "/" + Join(parts) + slash == "/" + parts[0] + rest;
      assert JoinPattern("/" + parts[0], rest) == "/" + parts[0] + rest;
    }
  }

  lemma JoinFirst(parts: seq<string>)
    requires |parts| > 1
    ensures Join(parts) == parts[0] + "/" + Join(parts[1..])
  {
  }

  lemma TidyName(name: string, slash: string)
    requires name != "" && '/' !in name && slash in {"", "/"}
    ensures Tidy("/" + name + slash) && name[|name| - 1] != '/'
  {
    var whole := "/" + name + slash;
    forall i | 0 <= i < |whole| - 1
      ensures !(whole[i] == '/' && whole[i + 1] == '/')
    {
      if i == 0 {
        assert whole[1] == name[0] && name[0] in name;
      } else {
        assert whole[i] == name[i - 1] && name[i - 1] in name;
      }
    }
  }

  // --- Records, told from the declarations -----------------------------------

  /** The segments of the patterns a walk follows, in order. */
  function LinkSegments(graph: Graph, g: GroupId, walk: seq<nat>): seq<string>
    requires g in graph && End(graph, g, walk).Some?
    decreases walk
  {
    if walk == [] then []
    else
      var link := graph[g].children[walk[0]];
      RoutingSegments(link.pattern) + LinkSegments(graph, link.node.value, walk[1..])
  }

  /** No pattern on the walk has an empty segment. */
  predicate TidyAlong(graph: Graph, g: GroupId, walk: seq<nat>)
    requires g in graph && End(graph, g, walk).Some?
    decreases walk
  {
    walk != [] ==>
      var link := graph[g].children[walk[0]];
      Tidy(link.pattern) && TidyAlong(graph, link.node.value, walk[1..])
  }

  lemma {:induction false} PrefixSegments(graph: Graph, g: GroupId, walk: seq<nat>, prefix: string)
    requires g in graph && End(graph, g, walk).Some? && TidyAlong(graph, g, walk) && Tidy(prefix)
    ensures Tidy(PrefixAlong(graph, g, walk, prefix))
    ensures RoutingSegments(PrefixAlong(graph, g, walk, prefix))
            == RoutingSegments(prefix) + LinkSegments(graph, g, walk)
    decreases walk
  {
    hide RoutingSegments, Tidy, JoinPattern;
    if walk != [] {
      var link := graph[g].children[walk[0]];
      NoSegments();
      if link.pattern != "" {
        JoinedSegments(prefix, link.pattern);
      }
      PrefixSegments(graph, link.node.value, walk[1..], ChildPrefix(prefix, link.pattern));
    }
  }

  lemma NoSegments()
    ensures RoutingSegments("") == [] && Tidy("")
  {
  }

  /** The declaration of this index: a group's documented endpoints come before its infrastructure. */
  function DeclaredAt(group: Group, index: nat): Endpoint
    requires index < Declared(group)
  {
    (group.endpoints + group.infra)[index]
  }

  /** What a record is to say, told from the graph and the walk to its declaration. */
  ghost predicate Tells(graph: Graph, root: GroupId, e: Entry)
    requires root in graph && Declares(graph, root, e.label_.mount, e.label_.index)
  {
    var walk := e.label_.mount;
    var group := graph[End(graph, root, walk).value];
    var declared := DeclaredAt(group, e.label_.index);
    && e.verb == declared.verb
    && e.documented == (e.label_.index < |group.endpoints|)
    && e.guards == GuardsAlong(graph, root, walk) + (if e.documented then declared.guards else [])
    && (TidyAlong(graph, root, walk) && Tidy(declared.path) ==>
          RoutingSegments(e.path) == LinkSegments(graph, root, walk) + RoutingSegments(declared.path))
  }

  /** Every record of an accepted tree tells what was declared. */
  lemma RecordsTellDeclarations(env: Env, graph: Graph, root: GroupId, k: nat)
    requires Compile(env, graph, Some(root), "", [], {}, []).faults == []
    requires k < |Compile(env, graph, Some(root), "", [], {}, []).entries|
    ensures root in graph
    ensures var e := Compile(env, graph, Some(root), "", [], {}, []).entries[k];
            Declares(graph, root, e.label_.mount, e.label_.index) && Tells(graph, root, e)
  {
    hide Compile, RoutingSegments, Tidy, JoinPattern;
    var e := Compile(env, graph, Some(root), "", [], {}, []).entries[k];
    EntryIsItsDeclaration(env, graph, root, k);
    var walk := e.label_.mount;
    var group := graph[End(graph, root, walk).value];
    var declared := DeclaredAt(group, e.label_.index);
    NoSegments();
    if TidyAlong(graph, root, walk) && Tidy(declared.path) {
      PrefixSegments(graph, root, walk, "");
      JoinedSegments(PrefixAlong(graph, root, walk, ""), declared.path);
    }
  }
}
