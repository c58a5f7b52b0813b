/**
  Route patterns as strings: the duplicate-detection key, the path an operation
  is documented under, and why distinct keys never share a document slot.
 */
module Paths {

  // --- Splitting and joining -------------------------------------------------

  function Split(s: string): (parts: seq<string>)
    ensures parts != [] && forall i :: 0 <= i < |parts| ==> '/' !in parts[i]
  {
    if s == "" then [""]
    else
      var rest := Split(s[1..]);
      if s[0] == '/' then [""] + rest else [[s[0]] + rest[0]] + rest[1..]
  }

  function Join(parts: seq<string>): string
    requires parts != []
  {
    if |parts| == 1 then parts[0] else parts[0] + "/" + Join(parts[1..])
  }

  predicate SlashFree(parts: seq<string>) {
    forall i :: 0 <= i < |parts| ==> '/' !in parts[i]
  }

  lemma {:induction false} SplitPrefix(s: string, rest: string)
    requires '/' !in s
    ensures Split(s + rest) == [s + Split(rest)[0]] + Split(rest)[1..]
  {
    if s == "" {
      assert s + rest == rest && s + Split(rest)[0] == Split(rest)[0];
      assert [Split(rest)[0]] + Split(rest)[1..] == Split(rest);
    } else {
      SplitPrefix(s[1..], rest);
      assert (s + rest)[1..] == s[1..] + rest;
      assert [s[0]] + (s[1..] + Split(rest)[0]) == s + Split(rest)[0];
    }
  }

  lemma {:induction false} SplitJoin(parts: seq<string>)
    requires parts != [] && SlashFree(parts)
    ensures Split(Join(parts)) == parts
  {
    if |parts| == 1 {
      SplitPrefix(parts[0], "");
      assert parts[0] + "" == parts[0];
    } else {
      SplitJoin(parts[1..]);
      var tail := "/" + Join(parts[1..]);
      assert tail[1..] == Join(parts[1..]);
      assert Split(tail) == [""] + parts[1..];
      SplitPrefix(parts[0], tail);
      assert Join(parts) == parts[0] + tail;
      assert parts[0] + "" == parts[0];
    }
  }

  // --- Segments --------------------------------------------------------------

  /** A whole-segment placeholder, with or without a regular expression. */
  predicate Wrapped(segment: string) {
    segment != "" && segment[0] == '{' && segment[|segment| - 1] == '}'
  }

  function TrimLeft(s: string): string {
    if s != "" && s[0] in "{}" then TrimLeft(s[1..]) else s
  }

  function TrimRight(s: string): string {
    if s != "" && s[|s| - 1] in "{}" then TrimRight(s[..|s| - 1]) else s
  }

  /** The text before the first colon. */
  function BeforeColon(s: string): string {
    if s == "" || s[0] == ':' then "" else [s[0]] + BeforeColon(s[1..])
  }

  /** Placeholder names and expressions are erased from the duplicate-detection key. */
  function NormalizeSegment(segment: string): string {
    if Wrapped(segment) then "{}" else segment
  }

  /** The document keeps a placeholder's name and drops its expression. */
  function ConvertSegment(segment: string): string {
    if Wrapped(segment) then
      var inner := TrimRight(TrimLeft(segment));
      if ':' in inner then "{" + BeforeColon(inner) + "}" else segment
    else segment
  }

  function Mapped(f: string -> string, parts: seq<string>): seq<string> {
    seq(|parts|, i requires 0 <= i < |parts| => f(parts[i]))
  }

  // --- The two path forms ----------------------------------------------------

  function TrimSuffixSlash(s: string): string {
    if s != "" && s[|s| - 1] == '/' then s[..|s| - 1] else s
  }

  /** A path of more than one character loses one trailing slash, an empty one becomes the root. */
  function Finished(joined: string): string {
    var trimmed := if |joined| > 1 then TrimSuffixSlash(joined) else joined;
    if trimmed == "" then "/" else trimmed
  }

  function NormalizePath(path: string): string {
    Finished(Join(Mapped(NormalizeSegment, Split(path))))
  }

  function ConvertRouteToOpenAPIPath(route: string): string {
    Finished(Join(Mapped(ConvertSegment, Split(route))))
  }

  /** What trailing-slash trimming does to the segments of a path. */
  function Canonical(parts: seq<string>): (r: seq<string>)
    requires parts != []
    ensures r != []
  {
    if parts == [""] then ["", ""]
    else if parts == ["", ""] then parts
    else if |parts| > 1 && parts[|parts| - 1] == "" then parts[..|parts| - 1]
    else parts
  }

  lemma {:induction false} JoinEnds(parts: seq<string>)
    requires parts != [] && SlashFree(parts)
    ensures Join(parts) != "" && Join(parts)[|Join(parts)| - 1] == '/' <==> |parts| > 1 && parts[|parts| - 1] == ""
    ensures |parts| > 1 && parts[|parts| - 1] == "" ==> Join(parts) == Join(parts[..|parts| - 1]) + "/"
    ensures |Join(parts)| >= |parts| - 1
  {
    if |parts| > 1 {
      JoinEnds(parts[1..]);
      if |parts| > 2 && parts[|parts| - 1] == "" {
        assert parts[1..][..|parts| - 2] == parts[..|parts| - 1][1..];
      }
    }
  }

  lemma FinishedIsCanonical(parts: seq<string>)
    requires parts != [] && SlashFree(parts)
    ensures Finished(Join(parts)) == Join(Canonical(parts))
  {
    JoinEnds(parts);
    if |parts| == 1 {
      assert Join(parts) == parts[0] && Join(["", ""]) == "/";
    } else if |Join(parts)| <= 1 {
      ShortJoin(parts);
    } else if parts[|parts| - 1] == "" {
      TrimmedJoin(parts);
    }
  }

  lemma ShortJoin(parts: seq<string>)
    requires |parts| > 1 && |Join(parts)| <= 1
    ensures parts == ["", ""] && Join(parts) == "/"
  {
    JoinLength(parts);
    assert |parts| == 2 ==> |Join(parts)| == |parts[0]| + 1 + |parts[1]|;
  }

  lemma {:induction false} JoinLength(parts: seq<string>)
    requires parts != []
    ensures |Join(parts)| >= |parts| - 1
  {
    if |parts| > 1 {
      JoinLength(parts[1..]);
    }
  }

  lemma TrimmedJoin(parts: seq<string>)
    requires |parts| > 1 && SlashFree(parts) && parts[|parts| - 1] == "" && |Join(parts)| > 1
    ensures Finished(Join(parts)) == Join(Canonical(parts))
  {
    hide Join;
    JoinEnds(parts);
    assert Join(parts)[..|Join(parts)| - 1] == Join(parts[..|parts| - 1]);
    TwoSlashes();
  }

  lemma TwoSlashes()
    ensures Join(["", ""]) == "/"
  {
    assert ["", ""][1..] == [""];
  }

  /** Segment rewriting that keeps segments slash-free and keeps emptiness commutes with trimming. */
  lemma CanonicalMapped(f: string -> string, parts: seq<string>)
    requires parts != [] && f("") == "" && forall i :: 0 <= i < |parts| ==> (f(parts[i]) == "" <==> parts[i] == "")
    ensures Canonical(Mapped(f, parts)) == Mapped(f, Canonical(parts))
  {
    var mapped := Mapped(f, parts);
    assert forall i :: 0 <= i < |parts| ==> (mapped[i] == "" <==> parts[i] == "");
    if mapped == [""] {
      assert mapped[0] == "" && parts == [""];
    } else if mapped == ["", ""] {
      assert mapped[0] == "" && mapped[1] == "" && parts == ["", ""];
    }
  }

  lemma {:induction false} TrimKeepsOut(s: string, c: char)
    requires c !in s
    ensures c !in TrimLeft(s) && c !in TrimRight(s) && c !in BeforeColon(s)
    decreases |s|
  {
    if s != "" {
      TrimKeepsOut(s[1..], c);
      TrimKeepsOut(s[..|s| - 1], c);
    }
  }

  /** The two segment rewritings agree on what is a placeholder. */
  lemma SegmentFacts(segment: string)
    requires '/' !in segment
    ensures '/' !in ConvertSegment(segment) && '/' !in NormalizeSegment(segment)
    ensures ConvertSegment(segment) == "" <==> segment == ""
    ensures NormalizeSegment(segment) == "" <==> segment == ""
    ensures NormalizeSegment(ConvertSegment(segment)) == NormalizeSegment(segment)
  {
    TrimKeepsOut(segment, '/');
    TrimKeepsOut(TrimLeft(segment), '/');
    TrimKeepsOut(TrimRight(TrimLeft(segment)), '/');
  }

  lemma {:induction false} TextBeforeColon(name: string, rest: string)
    requires ':' !in name
    ensures BeforeColon(name + ":" + rest) == name
  {
    var s := name + ":" + rest;
    if name != "" {
      assert s[0] == name[0] && name[0] in name && s[1..] == name[1..] + ":" + rest;
      TextBeforeColon(name[1..], rest);
    }
  }

  lemma {:induction false} TrimmedRight(s: string, n: nat)
    requires n <= |s| && (n > 0 ==> s[n - 1] !in "{}")
    ensures |TrimRight(s)| >= n && TrimRight(s) <= s
    decreases |s|
  {
    if |s| > n && s[|s| - 1] in "{}" {
      TrimmedRight(s[..|s| - 1], n);
    }
  }

  /**
    A placeholder with an expression is documented by its name alone and is
    compared without either; one without an expression keeps its name, and a
    segment that is no placeholder is left alone by both.
   */
  lemma PlaceholderForms(name: string, expression: string, literal: string)
    requires name != "" && '{' !in name && '}' !in name && ':' !in name
    requires literal == "" || literal[0] != '{' || literal[|literal| - 1] != '}'
    ensures ConvertSegment("{" + name + ":" + expression + "}") == "{" + name + "}"
    ensures ConvertSegment("{" + name + "}") == "{" + name + "}"
    ensures NormalizeSegment("{" + name + ":" + expression + "}") == "{}" == NormalizeSegment("{" + name + "}")
    ensures ConvertSegment(literal) == literal == NormalizeSegment(literal)
  {
    var segment := "{" + name + ":" + expression + "}";
    var inner := name + ":" + expression + "}";
    assert segment[1..] == inner && inner[0] == name[0] && name[0] in name;
    assert TrimLeft(inner) == inner && TrimLeft(segment) == inner;
    assert inner[|name|] == ':';
    TrimmedRight(inner, |name| + 1);
    var trimmed := TrimRight(inner);
    var rest := trimmed[|name| + 1..];
    assert trimmed == name + ":" + rest;
    assert trimmed[|name|] == ':';
    TextBeforeColon(name, rest);
    PlainPlaceholder(name);
  }

  lemma PlainPlaceholder(name: string)
    requires name != "" && '{' !in name && '}' !in name && ':' !in name
    ensures ConvertSegment("{" + name + "}") == "{" + name + "}"
  {
    var segment, inner := "{" + name + "}", name + "}";
    assert segment[1..] == inner && inner[0] == name[0] && name[0] in name;
    assert TrimLeft(inner) == inner && TrimLeft(segment) == inner;
    assert ':' !in inner;
    TrimKeepsOut(inner, ':');
  }

  lemma MappedFacts(parts: seq<string>)
    requires SlashFree(parts)
    ensures SlashFree(Mapped(ConvertSegment, parts)) && SlashFree(Mapped(NormalizeSegment, parts))
    ensures forall i :: 0 <= i < |parts| ==>
              (ConvertSegment(parts[i]) == "" <==> parts[i] == "")
                && (NormalizeSegment(parts[i]) == "" <==> parts[i] == "")
  {
    hide ConvertSegment, NormalizeSegment;
    forall i | 0 <= i < |parts| {
      SegmentFacts(parts[i]);
    }
  }

  lemma PathForms(path: string)
    ensures ConvertRouteToOpenAPIPath(path) == Join(Mapped(ConvertSegment, Canonical(Split(path))))
    ensures NormalizePath(path) == Join(Mapped(NormalizeSegment, Canonical(Split(path))))
    ensures SlashFree(Canonical(Split(path))) && SlashFree(Mapped(ConvertSegment, Canonical(Split(path))))
  {
    hide ConvertSegment, NormalizeSegment, Split, Join;
    var parts := Split(path);
    MappedFacts(parts);
    EmptySegments();
    FinishedIsCanonical(Mapped(ConvertSegment, parts));
    FinishedIsCanonical(Mapped(NormalizeSegment, parts));
    CanonicalMapped(ConvertSegment, parts);
    CanonicalMapped(NormalizeSegment, parts);
    MappedFacts(Canonical(parts));
  }

  lemma EmptySegments()
    ensures ConvertSegment("") == "" && NormalizeSegment("") == ""
  {
  }

  /** Routes documented under one path are duplicates of each other. */
  lemma EqualDocumentPathsAreDuplicates(p: string, q: string)
    requires ConvertRouteToOpenAPIPath(p) == ConvertRouteToOpenAPIPath(q)
    ensures NormalizePath(p) == NormalizePath(q)
  {
    PathForms(p);
    PathForms(q);
    var a, b := Canonical(Split(p)), Canonical(Split(q));
    SplitJoin(Mapped(ConvertSegment, a));
    SplitJoin(Mapped(ConvertSegment, b));
    forall i | 0 <= i < |a|
      ensures i < |b| && NormalizeSegment(a[i]) == NormalizeSegment(b[i])
    {
      assert |Mapped(ConvertSegment, a)| == |Mapped(ConvertSegment, b)|;
      assert Mapped(ConvertSegment, a)[i] == Mapped(ConvertSegment, b)[i];
      SegmentFacts(a[i]);
      SegmentFacts(b[i]);
    }
    assert |Mapped(ConvertSegment, a)| == |Mapped(ConvertSegment, b)|;
    assert Mapped(NormalizeSegment, a) == Mapped(NormalizeSegment, b);
  }

  // --- Claims and document slots ---------------------------------------------

  datatype Route = Route(verb: string, path: string)

  /** The verbs the document has a slot for. */
  predicate HttpMethod(verb: string) {
    verb in {"GET", "POST", "PUT", "PATCH", "DELETE", "HEAD", "OPTIONS"}
  }

  /** Keys are equal exactly when verbs and normalized paths are; no verb has a space in it. */
  lemma ClaimKeyIff(a: Route, b: Route)
    requires ' ' !in a.verb && ' ' !in b.verb
    ensures ClaimKey(a) == ClaimKey(b) <==> a.verb == b.verb && NormalizePath(a.path) == NormalizePath(b.path)
  {
    hide NormalizePath;
    var x, y := ClaimKey(a), ClaimKey(b);
    if x == y {
      assert x[|a.verb|] == ' ' && y[|b.verb|] == ' ';
      assert forall i :: 0 <= i < |a.verb| ==> x[i] == a.verb[i] && a.verb[i] in a.verb;
      assert forall i :: 0 <= i < |b.verb| ==> y[i] == b.verb[i] && b.verb[i] in b.verb;
      assert x[..|a.verb|] == a.verb && y[..|b.verb|] == b.verb;
      assert x[|a.verb| + 1..] == NormalizePath(a.path) && y[|b.verb| + 1..] == NormalizePath(b.path);
    }
  }

  function ClaimKey(r: Route): string {
    r.verb + " " + NormalizePath(r.path)
  }

  /** Claims keys in order; the indexes of those already claimed are reported. */
  method Claim(keys: seq<string>) returns (duplicates: seq<nat>)
    ensures duplicates == [] <==> forall i, j :: 0 <= i < j < |keys| ==> keys[i] != keys[j]
    ensures forall d :: d in duplicates ==> d < |keys| && keys[d] in keys[..d]
  {
    var seen: set<string> := {};
    duplicates := [];
    for n := 0 to |keys|
      invariant forall k :: k in seen <==> k in keys[..n]
      invariant duplicates == [] <==> forall i, j :: 0 <= i < j < n ==> keys[i] != keys[j]
      invariant forall d :: d in duplicates ==> d < n && keys[d] in keys[..d]
    {
      if keys[n] in seen {
        duplicates := duplicates + [n];
      }
      seen := seen + {keys[n]};
    }
  }

  /** Claims every route under its key; nothing is reported exactly when all keys differ. */
  method ClaimRoutes(routes: seq<Route>) returns (duplicates: seq<nat>)
    ensures duplicates == [] <==> Unclaimed(routes)
  {
    var keys := seq(|routes|, i requires 0 <= i < |routes| => ClaimKey(routes[i]));
    duplicates := Claim(keys);
    if Unclaimed(routes) {
      forall i, j | 0 <= i < j < |keys|
        ensures keys[i] != keys[j]
      {
        assert ClaimKey(routes[i]) != ClaimKey(routes[j]);
      }
    } else {
      var i, j :| 0 <= i < j < |routes| && ClaimKey(routes[i]) == ClaimKey(routes[j]);
      assert keys[i] == keys[j];
    }
  }

  ghost predicate Unclaimed(routes: seq<Route>) {
    forall i, j :: 0 <= i < j < |routes| ==> ClaimKey(routes[i]) != ClaimKey(routes[j])
  }

  /** The document slot of a route. */
  function SlotOf(r: Route): (string, string) {
    (ConvertRouteToOpenAPIPath(r.path), r.verb)
  }

  /** Operations that share a document slot are duplicate claims. */
  lemma SharedSlotIsDuplicate(r: Route, s: Route)
    requires SlotOf(r) == SlotOf(s)
    ensures ClaimKey(r) == ClaimKey(s)
  {
    EqualDocumentPathsAreDuplicates(r.path, s.path);
  }

  /**
    Writes every operation into its slot of the document, in order; a verb
    without a slot is not written. Without duplicate claims no operation is
    overwritten.
   */
  method DocumentPaths(routes: seq<Route>) returns (slots: map<(string, string), nat>)
    ensures forall s :: s in slots ==> slots[s] < |routes| && SlotOf(routes[slots[s]]) == s
    ensures forall i :: 0 <= i < |routes| && HttpMethod(routes[i].verb) ==> SlotOf(routes[i]) in slots
    ensures Unclaimed(routes) ==>
              forall i :: 0 <= i < |routes| && HttpMethod(routes[i].verb) ==> slots[SlotOf(routes[i])] == i
  {
    slots := map[];
    for n := 0 to |routes|
      invariant forall s :: s in slots ==> slots[s] < n && SlotOf(routes[slots[s]]) == s
      invariant forall i :: 0 <= i < n && HttpMethod(routes[i].verb) ==> SlotOf(routes[i]) in slots
    {
      if HttpMethod(routes[n].verb) {
        slots := slots[SlotOf(routes[n]) := n];
      }
    }
    if Unclaimed(routes) {
      forall i | 0 <= i < |routes| && HttpMethod(routes[i].verb)
        ensures slots[SlotOf(routes[i])] == i
      {
        var j := slots[SlotOf(routes[i])];
        SharedSlotIsDuplicate(routes[i], routes[j]);
      }
    }
  }
}
