/**
  Registered enums in values: which types carry one, what the direct walk over a
  value with immutable paths reports, and which types have a value it reports
  anything about.
 */
module Enums {
  import opened Wrappers

  type Ty = nat

  /** A struct field as reflection reports it; `tag` is the name part of its json tag. */
  datatype Field = Field(name: string, anonymous: bool, exported: bool, tag: Option<string>, omitZero: bool, ty: Ty)

  /**
    What one type is made of; a list of a fixed length is an array, a string type
    may be registered with its values.
   */
  datatype Shape =
    | Pointer(elem: Ty)
    | Str(registered: Option<seq<string>>)
    | List(elem: Ty, length: Option<nat>)
    | Dict(key: Ty, elem: Ty)
    | Struct(fields: seq<Field>)
    | RawJSON
    | Other

  type Types = map<Ty, Shape>

  /** An entry of a map value, with its key as it is rendered in paths; a map lists its entries in any order. */
  datatype MapEntry = MapEntry(rendered: string, key: Value, value: Value)

  /** A value; `fixed` tells an array from a slice. */
  datatype Value =
    | Nil
    | Ref(target: Value)
    | Text(text: string)
    | Items(items: seq<Value>, fixed: bool)
    | Entries(entries: seq<MapEntry>)
    | Record(members: seq<Value>)
    | Atom(zero: bool)

  datatype ValidationError = ValidationError(field: string, message: string)

  // --- Paths -----------------------------------------------------------------

  datatype Segment = Name(name: string) | Index(index: nat)

  type Path = seq<Segment>

  function Itoa(n: nat): string {
    (if n < 10 then "" else Itoa(n / 10)) + [(n % 10) as char + '0']
  }

  /** The wire form of a path: `items[0].status`. */
  function Render(path: Path): string {
    if path == [] then ""
    else
      var front := Render(path[..|path| - 1]);
      match path[|path| - 1]
      case Index(i) => front + "[" + Itoa(i) + "]"
      case Name(name) => front + (if front != "" then "." else "") + name
  }

  method RenderPath(path: array<Segment>, len: nat) returns (text: string)
    requires len <= path.Length
    ensures text == Render(path[..len])
  {
    text := "";
    for i := 0 to len
      invariant text == Render(path[..i])
    {
      assert path[..i + 1][..i] == path[..i];
      match path[i]
      case Index(n) =>
        text := text + "[" + Itoa(n) + "]";
      case Name(name) =>
        if text != "" {
          text := text + ".";
        }
        text := text + name;
    }
  }

  function LabelOf(rendered: string): string {
    if rendered != "" then rendered else "body"
  }

  function Join(values: seq<string>): string {
    if values == [] then ""
    else if |values| == 1 then values[0]
    else values[0] + ", " + Join(values[1..])
  }

  function Violation(rendered: string, allowed: seq<string>): ValidationError {
    ValidationError(LabelOf(rendered), LabelOf(rendered) + " must be one of: " + Join(allowed))
  }

  /** A nameless member shares its parent's path. */
  function Push(path: Path, name: string): Path {
    if name == "" then path else path + [Name(name)]
  }

  // --- The reference walk ----------------------------------------------------

  function JSONName(f: Field): Option<string> {
    if f.tag == Some("-") then None
    else if f.tag.Some? && f.tag.value != "" then f.tag
    else if f.anonymous then Some("")
    else Some(f.name)
  }

  /** A field that takes part in the JSON form. */
  predicate Included(f: Field) {
    (f.exported || f.anonymous) && JSONName(f).Some?
  }

  function IsZero(v: Value): bool {
    match v
    case Nil => true
    case Ref(_) => false
    case Text(s) => s == ""
    case Items(vs, fixed) => fixed && forall i :: 0 <= i < |vs| ==> IsZero(vs[i])
    case Entries(_) => false
    case Record(vs) => forall i :: 0 <= i < |vs| ==> IsZero(vs[i])
    case Atom(zero) => zero
  }

  // Keys are visited in the order of their rendered text.

  /** Text order. */
  predicate Less(a: string, b: string) {
    b != [] && (a == [] || a[0] < b[0] || (a[0] == b[0] && Less(a[1..], b[1..])))
  }

  function Insert(e: MapEntry, es: seq<MapEntry>): (r: seq<MapEntry>)
    ensures multiset(r) == multiset(es) + multiset{e}
  {
    if es == [] || !Less(es[0].rendered, e.rendered) then [e] + es
    else
      assert es == [es[0]] + es[1..];
      [es[0]] + Insert(e, es[1..])
  }

  function Sorted(es: seq<MapEntry>): (r: seq<MapEntry>)
    ensures multiset(r) == multiset(es)
  {
    if es == [] then []
    else
      assert es == [es[0]] + es[1..];
      Insert(es[0], Sorted(es[1..]))
  }

  function Ordered(v: Value): (es: seq<MapEntry>)
    requires v.Entries?
    ensures |es| == |v.entries| && forall e :: e in es <==> e in v.entries
  {
    assert |multiset(Sorted(v.entries))| == |Sorted(v.entries)|;
    assert forall e :: e in multiset(Sorted(v.entries)) <==> e in Sorted(v.entries);
    assert forall e :: e in multiset(v.entries) <==> e in v.entries;
    Sorted(v.entries)
  }

  predicate Restricts(registered: Option<seq<string>>) {
    registered.Some? && registered.value != []
  }

  /** The errors of a value of type `t` at `path`, in order; a value of another shape has none. */
  function Walk(w: Types, t: Ty, v: Value, path: Path): seq<ValidationError>
    decreases v, 1, 0
  {
    if t !in w then []
    else
      match w[t]
      case Pointer(elem) => if v.Ref? then Walk(w, elem, v.target, path) else []
      case Str(registered) =>
        if Restricts(registered) && v.Text? && v.text !in registered.value then
          [Violation(Render(path), registered.value)]
        else []
      case List(elem, _) => if v.Items? then WalkItems(w, elem, v, |v.items|, path) else []
      case Dict(key, elem) => if v.Entries? then WalkEntries(w, key, elem, v, |v.entries|, path) else []
      case Struct(fields) => if v.Record? then WalkFields(w, fields, |fields|, v, path) else []
      case RawJSON => []
      case Other => []
  }

  /** The first `n` items. */
  function WalkItems(w: Types, elem: Ty, v: Value, n: nat, path: Path): seq<ValidationError>
    requires v.Items? && n <= |v.items|
    decreases v, 0, n
  {
    if n == 0 then []
    else WalkItems(w, elem, v, n - 1, path) + Walk(w, elem, v.items[n - 1], path + [Index(n - 1)])
  }

  /** The first `n` entries: the key, then the value, both under the key's path. */
  function WalkEntries(w: Types, key: Ty, elem: Ty, v: Value, n: nat, path: Path): seq<ValidationError>
    requires v.Entries? && n <= |v.entries|
    decreases v, 0, n
  {
    if n == 0 then []
    else
      var e := Ordered(v)[n - 1];
      assert e in v.entries;
      WalkEntries(w, key, elem, v, n - 1, path)
      + Walk(w, key, e.key, Push(path, e.rendered)) + Walk(w, elem, e.value, Push(path, e.rendered))
  }

  /** The first `n` fields. */
  function WalkFields(w: Types, fields: seq<Field>, n: nat, v: Value, path: Path): seq<ValidationError>
    requires v.Record? && n <= |fields|
    decreases v, 0, n
  {
    if n == 0 then []
    else
      var f := fields[n - 1];
      WalkFields(w, fields, n - 1, v, path)
      + if Included(f) && n <= |v.members| && !(f.omitZero && IsZero(v.members[n - 1])) then
          Walk(w, f.ty, v.members[n - 1], Push(path, JSONName(f).value))
        else []
  }

  // --- The order of a map's entries is invisible -----------------------------

  lemma {:induction false} LessTotal(a: string, b: string)
    ensures a == b || Less(a, b) || Less(b, a)
    ensures !(Less(a, b) && Less(b, a))
  {
    if a != [] && b != [] && a[0] == b[0] {
      LessTotal(a[1..], b[1..]);
      assert a == [a[0]] + a[1..] && b == [b[0]] + b[1..];
    }
  }

  lemma {:induction false} LessTransitive(a: string, b: string, c: string)
    requires Less(a, b) && Less(b, c)
    ensures Less(a, c)
  {
    if a != [] && a[0] == b[0] == c[0] {
      LessTransitive(a[1..], b[1..], c[1..]);
    }
  }

  predicate Increasing(es: seq<MapEntry>) {
    forall i, j :: 0 <= i < j < |es| ==> Less(es[i].rendered, es[j].rendered)
  }

  /** No two keys are rendered alike. */
  predicate DistinctKeys(es: seq<MapEntry>) {
    forall i, j :: 0 <= i < j < |es| ==> es[i].rendered != es[j].rendered
  }

  lemma {:induction false} InsertIncreasing(e: MapEntry, es: seq<MapEntry>)
    requires Increasing(es) && forall x :: x in es ==> x.rendered != e.rendered
    ensures Increasing(Insert(e, es))
  {
    hide Less;
    var r := Insert(e, es);
    if es == [] {
    } else if !Less(es[0].rendered, e.rendered) {
      LessTotal(es[0].rendered, e.rendered);
      forall j | 0 <= j < |es|
        ensures Less(e.rendered, es[j].rendered)
      {
        if j > 0 {
          LessTransitive(e.rendered, es[0].rendered, es[j].rendered);
        }
      }
    } else {
      var rest := Insert(e, es[1..]);
      InsertIncreasing(e, es[1..]);
      forall x | x in rest
        ensures Less(es[0].rendered, x.rendered)
      {
        assert x in multiset(rest);
        if x != e {
          var j :| 0 <= j < |es[1..]| && es[1..][j] == x;
          assert es[j + 1] == x;
        }
      }
    }
  }

  lemma {:induction false} SortedIncreasing(es: seq<MapEntry>)
    requires DistinctKeys(es)
    ensures Increasing(Sorted(es))
  {
    if es != [] {
      var rest := es[1..];
      SortedIncreasing(rest);
      forall x | x in Sorted(rest)
        ensures x.rendered != es[0].rendered
      {
        assert x in multiset(Sorted(rest));
        var j :| 0 <= j < |rest| && rest[j] == x;
        assert es[j + 1] == x;
      }
      InsertIncreasing(es[0], Sorted(rest));
    }
  }

  lemma SameFirst(a: seq<MapEntry>, b: seq<MapEntry>)
    requires Increasing(a) && Increasing(b) && multiset(a) == multiset(b) && a != [] && b != []
    ensures a[0] == b[0]
  {
    hide Less;
    assert a[0] in multiset(b) && b[0] in multiset(a);
    var i :| 0 <= i < |b| && b[i] == a[0];
    var j :| 0 <= j < |a| && a[j] == b[0];
    LessTotal(a[0].rendered, b[0].rendered);
  }

  lemma WithoutFirst(a: seq<MapEntry>)
    requires a != []
    ensures multiset(a[1..]) == multiset(a) - multiset{a[0]}
  {
    assert a == [a[0]] + a[1..];
  }

  /** There is one increasing listing of a collection of entries. */
  lemma {:induction false} IncreasingIsUnique(a: seq<MapEntry>, b: seq<MapEntry>)
    requires Increasing(a) && Increasing(b) && multiset(a) == multiset(b)
    ensures a == b
    decreases |a|
  {
    hide Less;
    if a == [] || b == [] {
      assert |multiset(a)| == |a| && |multiset(b)| == |b|;
    } else {
      SameFirst(a, b);
      WithoutFirst(a);
      WithoutFirst(b);
      IncreasingIsUnique(a[1..], b[1..]);
      assert a == [a[0]] + a[1..] && b == [b[0]] + b[1..];
    }
  }

  lemma {:induction false} WalkEntriesAlike(w: Types, key: Ty, elem: Ty, v: Value, u: Value, n: nat, path: Path)
    requires v.Entries? && u.Entries? && n <= |v.entries| && n <= |u.entries| && Ordered(v) == Ordered(u)
    ensures WalkEntries(w, key, elem, v, n, path) == WalkEntries(w, key, elem, u, n, path)
    decreases n
  {
    hide Walk, Ordered;
    if n > 0 {
      WalkEntriesAlike(w, key, elem, v, u, n - 1, path);
    }
  }

  /** In whatever order a map lists its entries, the errors are the same and in the same order. */
  lemma MapOrderIsInvisible(w: Types, t: Ty, a: seq<MapEntry>, b: seq<MapEntry>, path: Path)
    requires multiset(a) == multiset(b) && DistinctKeys(a) && DistinctKeys(b)
    ensures Walk(w, t, Entries(a), path) == Walk(w, t, Entries(b), path)
  {
    hide Sorted, WalkEntries, Increasing, DistinctKeys;
    SortedIncreasing(a);
    SortedIncreasing(b);
    IncreasingIsUnique(Sorted(a), Sorted(b));
    assert |multiset(a)| == |a| && |multiset(b)| == |b|;
    if t in w && w[t].Dict? {
      WalkEntriesAlike(w, w[t].key, w[t].elem, Entries(a), Entries(b), |a|, path);
    }
  }

  // --- Which types carry an enum ---------------------------------------------

  function FieldTypes(fields: seq<Field>): set<Ty> {
    set i | 0 <= i < |fields| && Included(fields[i]) :: fields[i].ty
  }

  /** The types a walk of `shape` descends into; with `live`, those of which a value can hold one. */
  function Parts(shape: Shape, live: bool): set<Ty> {
    match shape
    case Pointer(elem) => {elem}
    case List(elem, length) => if live && length == Some(0) then {} else {elem}
    case Dict(key, elem) => {key, elem}
    case Struct(fields) => FieldTypes(fields)
    case _ => {}
  }

  predicate IsEnum(shape: Shape) {
    shape.Str? && Restricts(shape.registered)
  }

  /** A descent through parts. */
  ghost predicate Descent(w: Types, ts: seq<Ty>, live: bool) {
    && ts != []
    && (forall i :: 0 <= i < |ts| ==> ts[i] in w)
    && (forall i :: 0 <= i < |ts| - 1 ==> ts[i + 1] in Parts(w[ts[i]], live))
  }

  ghost predicate Reaches(w: Types, t: Ty, live: bool) {
    exists ts :: Descent(w, ts, live) && ts[0] == t && IsEnum(w[ts[|ts| - 1]])
  }

  /** A registered enum can be descended to: what the compiler asks. */
  ghost predicate Carries(w: Types, t: Ty) {
    Reaches(w, t, false)
  }

  /** A registered enum can be descended to without passing an array of no elements. */
  ghost predicate CanViolate(w: Types, t: Ty) {
    Reaches(w, t, true)
  }

  /** Every type mentioned is known. */
  ghost predicate ClosedTypes(w: Types) {
    && (forall t, u :: t in w && u in Parts(w[t], false) ==> u in w)
    && (forall t, i :: t in w && w[t].Struct? && 0 <= i < |w[t].fields| ==> w[t].fields[i].ty in w)
  }

  lemma LivePartsAreParts(shape: Shape)
    ensures Parts(shape, true) <= Parts(shape, false)
  {
  }

  lemma ReachedByPart(w: Types, t: Ty, u: Ty, live: bool)
    requires t in w && u in Parts(w[t], live) && Reaches(w, u, live)
    ensures Reaches(w, t, live)
  {
    var ts :| Descent(w, ts, live) && ts[0] == u && IsEnum(w[ts[|ts| - 1]]);
    var more := [t] + ts;
    assert forall i :: 0 < i < |more| ==> more[i] == ts[i - 1];
    assert Descent(w, more, live);
  }

  lemma EnumReached(w: Types, t: Ty, live: bool)
    requires t in w && IsEnum(w[t])
    ensures Reaches(w, t, live)
  {
    assert Descent(w, [t], live);
  }

  /** A set of types without enums whose parts stay in the set, or in `border`. */
  ghost predicate Free(w: Types, seen: set<Ty>, border: set<Ty>) {
    forall t :: t in seen ==> t in w && !IsEnum(w[t]) && Parts(w[t], false) <= seen + border
  }

  lemma {:induction false} FreeDescent(w: Types, seen: set<Ty>, ts: seq<Ty>)
    requires Free(w, seen, {}) && Descent(w, ts, false) && ts[0] in seen
    ensures ts[|ts| - 1] in seen
    decreases |ts|
  {
    if |ts| > 1 {
      assert ts[1] in Parts(w[ts[0]], false);
      assert forall i :: 0 <= i < |ts[1..]| ==> ts[1..][i] == ts[i + 1];
      FreeDescent(w, seen, ts[1..]);
    }
  }

  lemma {:induction false} FreeCarriesNothing(w: Types, seen: set<Ty>, t: Ty)
    requires Free(w, seen, {}) && t in seen
    ensures !Carries(w, t)
  {
    if ts :| Descent(w, ts, false) && ts[0] == t && IsEnum(w[ts[|ts| - 1]]) {
      FreeDescent(w, seen, ts);
    }
  }

  /** The depth-first search, its visited set handed on: a negative answer leaves no enum behind. */
  method CarriesFrom(w: Types, t: Ty, visited: set<Ty>) returns (found: bool, visited': set<Ty>)
    requires ClosedTypes(w) && t in w && visited <= w.Keys
    ensures visited <= visited' <= w.Keys
    ensures found ==> Carries(w, t)
    ensures !found ==> t in visited' + visited && Free(w, visited' - visited, visited)
    decreases w.Keys - visited, 1
  {
    hide Reaches;
    visited' := visited;
    if IsEnum(w[t]) {
      EnumReached(w, t, false);
      return true, visited';
    }
    if t in visited {
      return false, visited';
    }
    visited' := visited + {t};
    match w[t]
    case Pointer(elem) =>
      found, visited' := CarriesFrom(w, elem, visited');
      if found { ReachedByPart(w, t, elem, false); }
    case List(elem, _) =>
      found, visited' := CarriesFrom(w, elem, visited');
      if found { ReachedByPart(w, t, elem, false); }
    case Dict(key, elem) =>
      found, visited' := CarriesFrom(w, key, visited');
      if found {
        ReachedByPart(w, t, key, false);
      } else {
        found, visited' := CarriesFrom(w, elem, visited');
        if found { ReachedByPart(w, t, elem, false); }
      }
    case Struct(fields) =>
      found, visited' := FieldsCarry(w, t, visited');
    case RawJSON => found := false;
    case Other => found := false;
    case Str(_) => found := false;
  }

  method FieldsCarry(w: Types, t: Ty, visited: set<Ty>) returns (found: bool, visited': set<Ty>)
    requires ClosedTypes(w) && t in w && w[t].Struct? && visited <= w.Keys
    ensures visited <= visited' <= w.Keys
    ensures found ==> Carries(w, t)
    ensures !found ==> FieldTypes(w[t].fields) <= visited' && Free(w, visited' - visited, visited)
    decreases w.Keys - visited, 2
  {
    hide Reaches;
    visited' := visited;
    var fields := w[t].fields;
    for i := 0 to |fields|
      invariant visited <= visited' <= w.Keys
      invariant Free(w, visited' - visited, visited)
      invariant forall j :: 0 <= j < i && Included(fields[j]) ==> fields[j].ty in visited'
    {
      if Included(fields[i]) {
        found, visited' := CarriesFrom(w, fields[i].ty, visited');
        if found {
          ReachedByPart(w, t, fields[i].ty, false);
          return;
        }
      }
    }
    found := false;
  }

  method TypeCarriesRegisteredEnum(w: Types, t: Ty) returns (found: bool)
    requires ClosedTypes(w) && t in w
    ensures found <==> Carries(w, t)
  {
    hide Reaches;
    var visited;
    found, visited := CarriesFrom(w, t, {});
    if !found {
      assert visited - {} == visited;
      FreeCarriesNothing(w, visited, t);
    }
  }

  // --- Which values have errors ----------------------------------------------

  /** Somewhere in the value a registered enum holds a text that is not one of its values. */
  predicate Violates(w: Types, t: Ty, v: Value)
    decreases v
  {
    t in w &&
    match w[t]
    case Pointer(elem) => v.Ref? && Violates(w, elem, v.target)
    case Str(registered) => Restricts(registered) && v.Text? && v.text !in registered.value
    case List(elem, _) => v.Items? && exists i :: 0 <= i < |v.items| && Violates(w, elem, v.items[i])
    case Dict(key, elem) =>
      && v.Entries?
      && exists i ::
           0 <= i < |v.entries| && (Violates(w, key, v.entries[i].key) || Violates(w, elem, v.entries[i].value))
    case Struct(fields) => v.Record? && exists i :: 0 <= i < |fields| && MemberViolates(w, fields[i], v, i)
    case RawJSON => false
    case Other => false
  }

  predicate MemberViolates(w: Types, f: Field, v: Value, i: nat)
    requires v.Record?
    decreases v, 0
  {
    Included(f) && i < |v.members| && !(f.omitZero && IsZero(v.members[i])) && Violates(w, f.ty, v.members[i])
  }

  /** The walk reports something exactly when the value has a violation, on whatever path. */
  lemma {:induction false} WalkFindsViolations(w: Types, t: Ty, v: Value, path: Path)
    ensures Walk(w, t, v, path) != [] <==> Violates(w, t, v)
    decreases v, 1, 0
  {
    hide IsZero, JSONName, Render, Ordered;
    if t in w {
      match w[t]
      case Pointer(elem) =>
        if v.Ref? {
          WalkFindsViolations(w, elem, v.target, path);
        }
      case Str(_) =>
      case List(elem, _) =>
        if v.Items? {
          ItemsFindViolations(w, elem, v, |v.items|, path);
        }
      case Dict(key, elem) =>
        if v.Entries? {
          EntriesFindViolations(w, key, elem, v, |v.entries|, path);
          OrderedViolates(w, key, elem, v);
        }
      case Struct(fields) =>
        if v.Record? {
          FieldsFindViolations(w, fields, |fields|, v, path);
        }
      case RawJSON =>
      case Other =>
    }
  }

  lemma {:induction false} ItemsFindViolations(w: Types, elem: Ty, v: Value, n: nat, path: Path)
    requires v.Items? && n <= |v.items|
    ensures WalkItems(w, elem, v, n, path) != [] <==> exists i :: 0 <= i < n && Violates(w, elem, v.items[i])
    decreases v, 0, n
  {
    hide Walk, Violates;
    if n > 0 {
      ItemsFindViolations(w, elem, v, n - 1, path);
      WalkFindsViolations(w, elem, v.items[n - 1], path + [Index(n - 1)]);
    }
  }

  predicate EntryViolates(w: Types, key: Ty, elem: Ty, e: MapEntry) {
    Violates(w, key, e.key) || Violates(w, elem, e.value)
  }

  lemma {:induction false} EntriesFindViolations(w: Types, key: Ty, elem: Ty, v: Value, n: nat, path: Path)
    requires v.Entries? && n <= |v.entries|
    ensures WalkEntries(w, key, elem, v, n, path) != []
            <==> exists i :: 0 <= i < n && EntryViolates(w, key, elem, Ordered(v)[i])
    decreases v, 0, n
  {
    hide Walk, Violates, Ordered, EntryViolates, WalkEntries;
    if n == 0 {
      NoEntries(w, key, elem, v, path);
    } else {
      EntriesFindViolations(w, key, elem, v, n - 1, path);
      EntryFindsViolations(w, key, elem, v, n, path);
    }
  }

  lemma NoEntries(w: Types, key: Ty, elem: Ty, v: Value, path: Path)
    requires v.Entries?
    ensures WalkEntries(w, key, elem, v, 0, path) == []
  {
  }

  lemma {:induction false} EntryFindsViolations(w: Types, key: Ty, elem: Ty, v: Value, n: nat, path: Path)
    requires v.Entries? && 0 < n <= |v.entries|
    ensures WalkEntries(w, key, elem, v, n, path) != [] <==>
            WalkEntries(w, key, elem, v, n - 1, path) != [] || EntryViolates(w, key, elem, Ordered(v)[n - 1])
    decreases v, 0, 0
  {
    hide Walk, Violates, Ordered;
    var e := Ordered(v)[n - 1];
    assert e in v.entries;
    WalkFindsViolations(w, key, e.key, Push(path, e.rendered));
    WalkFindsViolations(w, elem, e.value, Push(path, e.rendered));
  }

  lemma OrderedViolates(w: Types, key: Ty, elem: Ty, v: Value)
    requires v.Entries?
    ensures (exists i :: 0 <= i < |v.entries| && EntryViolates(w, key, elem, Ordered(v)[i]))
            <==>
            exists i ::
              0 <= i < |v.entries| && (Violates(w, key, v.entries[i].key) || Violates(w, elem, v.entries[i].value))
  {
    hide Violates, Ordered;
    var es := Ordered(v);
    if i :| 0 <= i < |v.entries| && EntryViolates(w, key, elem, es[i]) {
      assert es[i] in v.entries;
      var j :| 0 <= j < |v.entries| && v.entries[j] == es[i];
      assert Violates(w, key, v.entries[j].key) || Violates(w, elem, v.entries[j].value);
    }
    if i :| 0 <= i < |v.entries| && (Violates(w, key, v.entries[i].key) || Violates(w, elem, v.entries[i].value)) {
      assert v.entries[i] in es;
      var j :| 0 <= j < |es| && es[j] == v.entries[i];
      assert EntryViolates(w, key, elem, es[j]);
    }
  }

  lemma {:induction false} FieldsFindViolations(w: Types, fields: seq<Field>, n: nat, v: Value, path: Path)
    requires v.Record? && n <= |fields|
    ensures WalkFields(w, fields, n, v, path) != [] <==> exists i :: 0 <= i < n && MemberViolates(w, fields[i], v, i)
    decreases v, 0, n
  {
    hide WalkFields, Violates, MemberViolates;
    if n == 0 {
      NoFields(w, fields, v, path);
    } else {
      FieldsFindViolations(w, fields, n - 1, v, path);
      MemberFindsViolations(w, fields, n, v, path);
    }
  }

  lemma NoFields(w: Types, fields: seq<Field>, v: Value, path: Path)
    requires v.Record?
    ensures WalkFields(w, fields, 0, v, path) == []
  {
  }

  lemma {:induction false} MemberFindsViolations(w: Types, fields: seq<Field>, n: nat, v: Value, path: Path)
    requires v.Record? && 0 < n <= |fields|
    ensures WalkFields(w, fields, n, v, path) != [] <==>
            WalkFields(w, fields, n - 1, v, path) != [] || MemberViolates(w, fields[n - 1], v, n - 1)
    decreases v, 0, 0
  {
    hide Walk, Violates, IsZero, JSONName;
    var f := fields[n - 1];
    if Included(f) && n <= |v.members| {
      WalkFindsViolations(w, f.ty, v.members[n - 1], Push(path, JSONName(f).value));
    }
  }

  // --- Values of a type ------------------------------------------------------

  /** A value of the type. */
  predicate HasType(w: Types, t: Ty, v: Value)
    decreases v
  {
    t in w &&
    match w[t]
    case Pointer(elem) => v.Nil? || (v.Ref? && HasType(w, elem, v.target))
    case Str(_) => v.Text?
    case List(elem, length) =>
      || (length.None? && v.Nil?)
      || (&& v.Items? && v.fixed == length.Some? && (length.Some? ==> |v.items| == length.value)
          && forall i :: 0 <= i < |v.items| ==> HasType(w, elem, v.items[i]))
    case Dict(key, elem) =>
      || v.Nil?
      || (v.Entries? && forall i :: 0 <= i < |v.entries| ==>
            HasType(w, key, v.entries[i].key) && HasType(w, elem, v.entries[i].value))
    case Struct(fields) =>
      v.Record? && |v.members| == |fields| && forall i :: 0 <= i < |fields| ==> HasType(w, fields[i].ty, v.members[i])
    case RawJSON => v.Atom?
    case Other => v.Atom?
  }

  /** Without an enum to descend to there is no violation; a value of the type cannot use an array of no elements. */
  lemma {:induction false} NothingReachedNothingViolated(w: Types, t: Ty, v: Value, live: bool)
    requires ClosedTypes(w) && t in w && !Reaches(w, t, live) && (live ==> HasType(w, t, v))
    ensures !Violates(w, t, v)
    decreases v
  {
    hide Reaches, IsZero, JSONName, ClosedTypes;
    PartsReachNothing(w, t, live);
    match w[t]
    case Pointer(elem) =>
      if v.Ref? {
        NothingReachedNothingViolated(w, elem, v.target, live);
      }
    case Str(_) =>
      if IsEnum(w[t]) {
        EnumReached(w, t, live);
      }
    case List(elem, length) =>
      if v.Items? {
        forall i | 0 <= i < |v.items|
          ensures !Violates(w, elem, v.items[i])
        {
          NothingReachedNothingViolated(w, elem, v.items[i], live);
        }
      }
    case Dict(key, elem) =>
      if v.Entries? {
        forall i | 0 <= i < |v.entries|
          ensures !Violates(w, key, v.entries[i].key) && !Violates(w, elem, v.entries[i].value)
        {
          NothingReachedNothingViolated(w, key, v.entries[i].key, live);
          NothingReachedNothingViolated(w, elem, v.entries[i].value, live);
        }
      }
    case Struct(fields) =>
      if v.Record? {
        forall i | 0 <= i < |fields|
          ensures !MemberViolates(w, fields[i], v, i)
        {
          if Included(fields[i]) && i < |v.members| {
            assert fields[i].ty in FieldTypes(fields);
            NothingReachedNothingViolated(w, fields[i].ty, v.members[i], live);
          }
        }
      }
    case RawJSON =>
    case Other =>
  }

  lemma PartsReachNothing(w: Types, t: Ty, live: bool)
    requires ClosedTypes(w) && t in w && !Reaches(w, t, live)
    ensures forall u :: u in Parts(w[t], live) ==> u in w && !Reaches(w, u, live)
  {
    hide Reaches;
    LivePartsAreParts(w[t]);
    forall u | u in Parts(w[t], live)
      ensures u in w && !Reaches(w, u, live)
    {
      if Reaches(w, u, live) {
        ReachedByPart(w, t, u, live);
      }
    }
  }

  /** A type that carries no enum has no errors, whatever the value. */
  lemma NothingCarriedNothingFound(w: Types, t: Ty, v: Value, path: Path)
    requires ClosedTypes(w) && t in w && !Carries(w, t)
    ensures Walk(w, t, v, path) == []
  {
    hide Reaches, Walk, Violates, ClosedTypes;
    NothingReachedNothingViolated(w, t, v, false);
    WalkFindsViolations(w, t, v, path);
  }

  // --- A type that can have an error has a value with one --------------------

  /** The types a value holds in place rather than behind a pointer. */
  function InPlace(shape: Shape): set<Ty> {
    match shape
    case List(elem, length) => if length.Some? && length.value > 0 then {elem} else {}
    case Struct(fields) => set i | 0 <= i < |fields| :: fields[i].ty
    case _ => {}
  }

  /** No type holds itself in place: the language's own rule, as a rank. */
  ghost predicate Ranked(w: Types, rank: map<Ty, nat>) {
    w.Keys <= rank.Keys && forall t, u :: t in w && u in InPlace(w[t]) && u in w ==> rank[u] < rank[t]
  }

  /** A world of types: every type mentioned is known and none holds itself in place. */
  ghost predicate Constructible(w: Types) {
    ClosedTypes(w) && exists rank :: Ranked(w, rank)
  }

  ghost function ZeroValue(w: Types, rank: map<Ty, nat>, t: Ty): (v: Value)
    requires ClosedTypes(w) && Ranked(w, rank) && t in w
    ensures HasType(w, t, v)
    decreases rank[t]
  {
    match w[t]
    case Pointer(_) => Nil
    case Str(_) => Text("")
    case List(elem, length) =>
      if length.None? then Nil
      else if length.value == 0 then Items([], true)
      else
        assert elem in Parts(w[t], false) && elem in InPlace(w[t]);
        var zero := ZeroValue(w, rank, elem);
        Items(seq(length.value, _ => zero), true)
    case Dict(_, _) => Nil
    case Struct(fields) =>
      assert forall i :: 0 <= i < |fields| ==> fields[i].ty in InPlace(w[t]) && fields[i].ty in w;
      Record(seq(|fields|, i requires 0 <= i < |fields| => ZeroValue(w, rank, fields[i].ty)))
    case RawJSON => Atom(true)
    case Other => Atom(true)
  }

  /** A text that is none of these. */
  function Unlisted(values: seq<string>): (text: string)
    ensures text != "" && forall i :: 0 <= i < |values| ==> |values[i]| < |text|
  {
    if values == [] then "x" else values[0] + Unlisted(values[1..])
  }

  /** A value of the type, other than zero, with a violation. */
  ghost predicate Offends(w: Types, t: Ty, v: Value) {
    HasType(w, t, v) && !IsZero(v) && Violates(w, t, v)
  }

  /** A violation inside a part gives one of the whole. */
  lemma OffendingWhole(w: Types, rank: map<Ty, nat>, t: Ty, u: Ty, inner: Value) returns (v: Value)
    requires ClosedTypes(w) && Ranked(w, rank) && t in w && u in Parts(w[t], true) && Offends(w, u, inner)
    ensures Offends(w, t, v)
  {
    match w[t]
    case Pointer(elem) => v := Ref(inner);
    case List(elem, length) => v := OffendingList(w, rank, t, inner);
    case Dict(key, elem) => v := OffendingMap(w, rank, t, u, inner);
    case Struct(fields) => v := OffendingStruct(w, rank, t, u, inner);
  }

  lemma OffendingMap(w: Types, rank: map<Ty, nat>, t: Ty, u: Ty, inner: Value) returns (v: Value)
    requires ClosedTypes(w) && Ranked(w, rank) && t in w && w[t].Dict? && u in Parts(w[t], true) && Offends(w, u, inner)
    ensures Offends(w, t, v)
  {
    var key, elem := w[t].key, w[t].elem;
    assert key in Parts(w[t], false) && elem in Parts(w[t], false);
    if u == elem {
      v := Entries([MapEntry("k", ZeroValue(w, rank, key), inner)]);
      assert Violates(w, elem, v.entries[0].value);
    } else {
      v := Entries([MapEntry("k", inner, ZeroValue(w, rank, elem))]);
      assert Violates(w, key, v.entries[0].key);
    }
  }

  lemma OffendingStruct(w: Types, rank: map<Ty, nat>, t: Ty, u: Ty, inner: Value) returns (v: Value)
    requires ClosedTypes(w) && Ranked(w, rank) && t in w && w[t].Struct? && u in Parts(w[t], true)
             && Offends(w, u, inner)
    ensures Offends(w, t, v)
  {
    var fields := w[t].fields;
    var i :| 0 <= i < |fields| && Included(fields[i]) && fields[i].ty == u;
    var zeros := seq(|fields|, j requires 0 <= j < |fields| => ZeroValue(w, rank, fields[j].ty));
    v := Record(zeros[i := inner]);
    assert v.members[i] == inner && MemberViolates(w, fields[i], v, i);
  }

  lemma OffendingList(w: Types, rank: map<Ty, nat>, t: Ty, inner: Value) returns (v: Value)
    requires ClosedTypes(w) && Ranked(w, rank) && t in w && w[t].List? && w[t].length != Some(0)
             && Offends(w, w[t].elem, inner)
    ensures Offends(w, t, v)
  {
    var elem, length := w[t].elem, w[t].length;
    if length.None? {
      v := Items([inner], false);
    } else {
      assert elem in Parts(w[t], false);
      var zero := ZeroValue(w, rank, elem);
      v := Items(seq(length.value, i => if i == 0 then inner else zero), true);
    }
    assert v.items[0] == inner;
  }

  lemma {:induction false} OffendingValue(w: Types, rank: map<Ty, nat>, ts: seq<Ty>) returns (v: Value)
    requires ClosedTypes(w) && Ranked(w, rank) && Descent(w, ts, true) && IsEnum(w[ts[|ts| - 1]])
    ensures Offends(w, ts[0], v)
    decreases |ts|
  {
    hide ClosedTypes, Ranked, Offends;
    if |ts| == 1 {
      v := OffendingText(w, ts[0]);
    } else {
      assert ts[1..][|ts| - 2] == ts[|ts| - 1];
      assert forall i :: 0 <= i < |ts[1..]| ==> ts[1..][i] == ts[i + 1];
      var inner := OffendingValue(w, rank, ts[1..]);
      v := OffendingWhole(w, rank, ts[0], ts[1], inner);
    }
  }

  lemma OffendingText(w: Types, t: Ty) returns (v: Value)
    requires t in w && IsEnum(w[t])
    ensures Offends(w, t, v)
  {
    var values := w[t].registered.value;
    var text := Unlisted(values);
    assert text !in values;
    v := Text(text);
  }

  /** Some value of the type, other than zero, has an error exactly when an enum can be reached alive. */
  lemma CanViolateIff(w: Types, t: Ty)
    requires Constructible(w) && t in w
    ensures CanViolate(w, t) ==> exists v :: Offends(w, t, v)
    ensures !CanViolate(w, t) ==> forall v, path :: HasType(w, t, v) ==> Walk(w, t, v, path) == []
  {
    hide ClosedTypes, Offends, Violates, Walk, HasType;
    if CanViolate(w, t) {
      var ts :| Descent(w, ts, true) && ts[0] == t && IsEnum(w[ts[|ts| - 1]]);
      var rank :| Ranked(w, rank);
      var v := OffendingValue(w, rank, ts);
    } else {
      forall v, path | HasType(w, t, v)
        ensures Walk(w, t, v, path) == []
      {
        NothingReachedNothingViolated(w, t, v, true);
        WalkFindsViolations(w, t, v, path);
      }
    }
  }

  /** An enum is reached in place or through a part. */
  lemma ReachedThroughPart(w: Types, t: Ty, live: bool)
    requires t in w && Reaches(w, t, live)
    ensures IsEnum(w[t]) || exists u :: u in Parts(w[t], live) && u in w && Reaches(w, u, live)
  {
    var ts :| Descent(w, ts, live) && ts[0] == t && IsEnum(w[ts[|ts| - 1]]);
    SecondIsPart(w, ts, live);
    if |ts| > 1 {
      var rest := ts[1..];
      assert forall i :: 0 <= i < |rest| ==> rest[i] == ts[i + 1];
      assert Descent(w, rest, live) && rest[0] == ts[1];
    }
  }

  lemma LiveIsCarried(w: Types, t: Ty)
    requires CanViolate(w, t)
    ensures Carries(w, t)
  {
    var ts :| Descent(w, ts, true) && ts[0] == t && IsEnum(w[ts[|ts| - 1]]);
    forall i | 0 <= i < |ts| - 1
      ensures ts[i + 1] in Parts(w[ts[i]], false)
    {
      LivePartsAreParts(w[ts[i]]);
    }
    assert Descent(w, ts, false);
  }

  lemma SecondIsPart(w: Types, ts: seq<Ty>, live: bool)
    requires Descent(w, ts, live)
    ensures |ts| > 1 ==> ts[1] in Parts(w[ts[0]], live)
  {
    var first := 0;
    assert |ts| > 1 ==> ts[first + 1] in Parts(w[ts[first]], live);
  }

  lemma NoPartsNoReach(w: Types, t: Ty, live: bool)
    requires t in w && !IsEnum(w[t]) && Parts(w[t], live) == {}
    ensures !Reaches(w, t, live)
  {
    forall ts | Descent(w, ts, live) && ts[0] == t
      ensures |ts| == 1
    {
      SecondIsPart(w, ts, live);
    }
  }

  const EMPTY_ARRAY: Types := map[0 := List(1, Some(0)), 1 := Str(Some(["on"]))]

  /** What carries an enum and can have no error: an array of no elements. */
  lemma EmptyArrayCarriesInVain()
    ensures Constructible(EMPTY_ARRAY) && Carries(EMPTY_ARRAY, 0) && !CanViolate(EMPTY_ARRAY, 0)
  {
    hide Reaches;
    assert Ranked(EMPTY_ARRAY, map[0 := 0, 1 := 0]);
    EnumReached(EMPTY_ARRAY, 1, false);
    ReachedByPart(EMPTY_ARRAY, 0, 1, false);
    NoPartsNoReach(EMPTY_ARRAY, 0, true);
  }

  // --- Every type has a value without an error -------------------------------

  /** A value of the type without a violation: zero, with a registered value wherever one is asked for. */
  ghost function FineValue(w: Types, rank: map<Ty, nat>, t: Ty): (v: Value)
    requires ClosedTypes(w) && Ranked(w, rank) && t in w
    ensures HasType(w, t, v) && !Violates(w, t, v)
    decreases rank[t]
  {
    match w[t]
    case Pointer(_) => Nil
    case Str(registered) => if Restricts(registered) then Text(registered.value[0]) else Text("")
    case List(elem, length) =>
      if length.None? then Nil
      else if length.value == 0 then Items([], true)
      else
        assert elem in Parts(w[t], false) && elem in InPlace(w[t]);
        var fine := FineValue(w, rank, elem);
        Items(seq(length.value, _ => fine), true)
    case Dict(_, _) => Nil
    case Struct(fields) =>
      assert forall i :: 0 <= i < |fields| ==> fields[i].ty in InPlace(w[t]) && fields[i].ty in w;
      Record(seq(|fields|, i requires 0 <= i < |fields| => FineValue(w, rank, fields[i].ty)))
    case RawJSON => Atom(true)
    case Other => Atom(true)
  }
}
