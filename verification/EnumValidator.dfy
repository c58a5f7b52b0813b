/**
  The enum validator: types, possibly recursive, are compiled once into checks
  with memoised nodes and pruned fields; a check then runs over a value with one
  shared path buffer that it appends to in place. The reference is the direct
  walk over the value with immutable paths.
 */
module EnumValidator {
  import opened Wrappers
  import opened Enums

  // --- Compiled checks -------------------------------------------------------

  datatype Member = Member(index: nat, name: string, check: Check)

  /** A compiled closure by what it captures; `Memo` looks its type's closure up when it runs. */
  datatype Check =
    | Nothing
    | Memo(ty: Ty)
    | Follow(elem: Check)
    | OneOf(allowed: seq<string>)
    | Each(elem: Check)
    | Entry(key: Check, value: Check)
    | Members(members: seq<Member>)
    | OmitZero(check: Check)

  /** The memo table; a type being compiled has a node without a closure. */
  type Nodes = map<Ty, Option<Check>>

  /** Closures that hand their value on unchanged. */
  function Indirections(c: Check): nat {
    match c
    case Memo(_) => 1
    case OmitZero(inner) => Indirections(inner) + 1
    case _ => 0
  }

  /** Stored closures look into their value. */
  predicate Direct(nodes: Nodes) {
    forall t :: t in nodes && nodes[t].Some? ==> Indirections(nodes[t].value) == 0
  }

  /** What running a compiled check over a value appends, were paths immutable. */
  function Run(nodes: Nodes, c: Check, v: Value, path: Path): seq<ValidationError>
    requires Direct(nodes)
    decreases v, Indirections(c), 1, 0
  {
    match c
    case Nothing => []
    case Memo(t) => if t in nodes && nodes[t].Some? then Run(nodes, nodes[t].value, v, path) else []
    case Follow(elem) => if v.Ref? then Run(nodes, elem, v.target, path) else []
    case OneOf(allowed) => if v.Text? && v.text !in allowed then [Violation(Render(path), allowed)] else []
    case Each(elem) => if v.Items? then RunItems(nodes, elem, v, |v.items|, path) else []
    case Entry(key, value) => if v.Entries? then RunEntries(nodes, key, value, v, |v.entries|, path) else []
    case Members(ms) => if v.Record? then RunMembers(nodes, ms, |ms|, v, path) else []
    case OmitZero(inner) => if IsZero(v) then [] else Run(nodes, inner, v, path)
  }

  function RunItems(nodes: Nodes, elem: Check, v: Value, n: nat, path: Path): seq<ValidationError>
    requires Direct(nodes) && v.Items? && n <= |v.items|
    decreases v, 0, 0, n
  {
    if n == 0 then []
    else RunItems(nodes, elem, v, n - 1, path) + Run(nodes, elem, v.items[n - 1], path + [Index(n - 1)])
  }

  function RunEntries(nodes: Nodes, key: Check, value: Check, v: Value, n: nat, path: Path): seq<ValidationError>
    requires Direct(nodes) && v.Entries? && n <= |v.entries|
    decreases v, 0, 0, n
  {
    if n == 0 then []
    else
      var e := Ordered(v)[n - 1];
      assert e in v.entries;
      RunEntries(nodes, key, value, v, n - 1, path)
      + Run(nodes, key, e.key, Push(path, e.rendered)) + Run(nodes, value, e.value, Push(path, e.rendered))
  }

  function RunMembers(nodes: Nodes, ms: seq<Member>, n: nat, v: Value, path: Path): seq<ValidationError>
    requires Direct(nodes) && v.Record? && n <= |ms|
    decreases v, 0, 0, n
  {
    if n == 0 then []
    else
      var m := ms[n - 1];
      RunMembers(nodes, ms, n - 1, v, path)
      + if m.index < |v.members| then Run(nodes, m.check, v.members[m.index], Push(path, m.name)) else []
  }

  // --- What a compiled check must look like ----------------------------------

  ghost predicate Kept(w: Types, f: Field) {
    Included(f) && Carries(w, f.ty)
  }

  /** The check of a type: its memoised node, or one built for its shape. */
  ghost predicate Fits(w: Types, keys: set<Ty>, c: Check, t: Ty)
    decreases c, 2, 0
  {
    t in keys && (c == Memo(t) || Shaped(w, keys, c, t))
  }

  ghost predicate Shaped(w: Types, keys: set<Ty>, c: Check, t: Ty)
    decreases c, 1, 0
  {
    && t in w
    && match w[t]
       case Pointer(elem) => c.Follow? && Fits(w, keys, c.elem, elem)
       case Str(registered) => c == if Restricts(registered) then OneOf(registered.value) else Nothing
       case List(elem, _) => c.Each? && Fits(w, keys, c.elem, elem)
       case Dict(key, elem) => c.Entry? && Fits(w, keys, c.key, key) && Fits(w, keys, c.value, elem)
       case Struct(fields) => c.Members? && MembersFit(w, keys, c, |c.members|, fields, |fields|)
       case RawJSON => c == Nothing
       case Other => c == Nothing
  }

  /** The first `m` member checks are those of the kept fields among the first `n`, in order. */
  ghost predicate MembersFit(w: Types, keys: set<Ty>, c: Check, m: nat, fields: seq<Field>, n: nat)
    requires c.Members? && m <= |c.members| && n <= |fields|
    decreases c, 0, n
  {
    if n == 0 then m == 0
    else if !Kept(w, fields[n - 1]) then MembersFit(w, keys, c, m, fields, n - 1)
    else
      && m > 0
      && MemberFits(w, keys, c.members[m - 1].check, fields[n - 1])
      && c.members[m - 1].index == n - 1
      && c.members[m - 1].name == JSONName(fields[n - 1]).value
      && MembersFit(w, keys, c, m - 1, fields, n - 1)
  }

  ghost predicate MemberFits(w: Types, keys: set<Ty>, c: Check, f: Field)
    decreases c, 3, 0
  {
    if f.omitZero then c.OmitZero? && Fits(w, keys, c.check, f.ty) else Fits(w, keys, c, f.ty)
  }

  lemma {:induction false} FitsGrows(w: Types, keys: set<Ty>, more: set<Ty>, c: Check, t: Ty)
    requires keys <= more && Fits(w, keys, c, t)
    ensures Fits(w, more, c, t)
    decreases c, 2, 0
  {
    if c != Memo(t) {
      ShapedGrows(w, keys, more, c, t);
    }
  }

  lemma {:induction false} ShapedGrows(w: Types, keys: set<Ty>, more: set<Ty>, c: Check, t: Ty)
    requires keys <= more && Shaped(w, keys, c, t)
    ensures Shaped(w, more, c, t)
    decreases c, 1, 0
  {
    match w[t]
    case Pointer(elem) => FitsGrows(w, keys, more, c.elem, elem);
    case List(elem, _) => FitsGrows(w, keys, more, c.elem, elem);
    case Dict(key, elem) =>
      FitsGrows(w, keys, more, c.key, key);
      FitsGrows(w, keys, more, c.value, elem);
    case Struct(fields) => MembersFitGrows(w, keys, more, c, |c.members|, fields, |fields|);
    case _ =>
  }

  lemma {:induction false} MembersFitGrows(w: Types, keys: set<Ty>, more: set<Ty>, c: Check, m: nat,
                                           fields: seq<Field>, n: nat)
    requires keys <= more && c.Members? && m <= |c.members| && n <= |fields| && MembersFit(w, keys, c, m, fields, n)
    ensures MembersFit(w, more, c, m, fields, n)
    decreases c, 0, n
  {
    if n > 0 {
      var f := fields[n - 1];
      if Kept(w, f) {
        var check := c.members[m - 1].check;
        FitsGrows(w, keys, more, if f.omitZero then check.check else check, f.ty);
        MembersFitGrows(w, keys, more, c, m - 1, fields, n - 1);
      } else {
        MembersFitGrows(w, keys, more, c, m, fields, n - 1);
      }
    }
  }

  /** Only the first `m` members matter. */
  lemma {:induction false} MembersFitPrefix(w: Types, keys: set<Ty>, c: Check, c': Check, m: nat, fields: seq<Field>,
                                            n: nat)
    requires c.Members? && c'.Members? && m <= |c.members| && m <= |c'.members| && n <= |fields|
    requires c.members[..m] == c'.members[..m] && MembersFit(w, keys, c, m, fields, n)
    ensures MembersFit(w, keys, c', m, fields, n)
    decreases n
  {
    if n > 0 {
      if Kept(w, fields[n - 1]) {
        assert c.members[m - 1] == c.members[..m][m - 1] == c'.members[m - 1];
        assert c.members[..m - 1] == c.members[..m][..m - 1] == c'.members[..m - 1];
        MembersFitPrefix(w, keys, c, c', m - 1, fields, n - 1);
      } else {
        MembersFitPrefix(w, keys, c, c', m, fields, n - 1);
      }
    }
  }

  /** Every stored closure is shaped for its type. */
  ghost predicate Sound(w: Types, nodes: Nodes) {
    && nodes.Keys <= w.Keys
    && forall t :: t in nodes && nodes[t].Some? ==> Shaped(w, nodes.Keys, nodes[t].value, t)
  }

  ghost predicate Complete(nodes: Nodes) {
    forall t :: t in nodes ==> nodes[t].Some?
  }

  /** Old nodes stay as they are, new ones are complete. */
  ghost predicate Grows(nodes: Nodes, more: Nodes) {
    && nodes.Keys <= more.Keys
    && (forall t :: t in nodes ==> more[t] == nodes[t])
    && (forall t :: t in more && t !in nodes ==> more[t].Some?)
  }

  lemma SoundIsDirect(w: Types, nodes: Nodes)
    requires Sound(w, nodes)
    ensures Direct(nodes)
  {
    forall t | t in nodes && nodes[t].Some?
      ensures Indirections(nodes[t].value) == 0
    {
      assert Shaped(w, nodes.Keys, nodes[t].value, t);
    }
  }

  /** Memoised, pruned checks find what the direct walk finds, in the same order and with the same labels. */
  lemma {:induction false} RunIsWalk(w: Types, nodes: Nodes, c: Check, t: Ty, v: Value, path: Path)
    requires ClosedTypes(w) && Sound(w, nodes) && Complete(nodes) && Direct(nodes) && Fits(w, nodes.Keys, c, t)
    ensures Run(nodes, c, v, path) == Walk(w, t, v, path)
    decreases v, Indirections(c), 1, 0
  {
    hide Render, IsZero, Carries, MembersFit;
    if c == Memo(t) {
      SoundIsDirect(w, nodes);
      RunIsWalk(w, nodes, nodes[t].value, t, v, path);
    } else {
      match w[t]
      case Pointer(elem) =>
        if v.Ref? {
          RunIsWalk(w, nodes, c.elem, elem, v.target, path);
        }
      case Str(_) =>
      case List(elem, _) =>
        if v.Items? {
          RunItemsIsWalk(w, nodes, c.elem, elem, v, |v.items|, path);
        }
      case Dict(key, elem) =>
        if v.Entries? {
          RunEntriesIsWalk(w, nodes, c.key, c.value, key, elem, v, |v.entries|, path);
        }
      case Struct(fields) =>
        if v.Record? {
          RunMembersIsWalk(w, nodes, c, |c.members|, fields, |fields|, v, path);
        }
      case RawJSON =>
      case Other =>
    }
  }

  lemma {:induction false} RunItemsIsWalk(w: Types, nodes: Nodes, c: Check, elem: Ty, v: Value, n: nat, path: Path)
    requires ClosedTypes(w) && Sound(w, nodes) && Complete(nodes) && Direct(nodes) && Fits(w, nodes.Keys, c, elem)
    requires v.Items? && n <= |v.items|
    ensures RunItems(nodes, c, v, n, path) == WalkItems(w, elem, v, n, path)
    decreases v, 0, 0, n
  {
    hide ClosedTypes, Sound, Complete, Direct, Fits, Run, Walk;
    if n > 0 {
      RunItemsIsWalk(w, nodes, c, elem, v, n - 1, path);
      RunIsWalk(w, nodes, c, elem, v.items[n - 1], path + [Index(n - 1)]);
    }
  }

  lemma {:induction false} RunEntriesIsWalk(w: Types, nodes: Nodes, k: Check, c: Check, key: Ty, elem: Ty, v: Value,
                                            n: nat, path: Path)
    requires ClosedTypes(w) && Sound(w, nodes) && Complete(nodes) && Direct(nodes)
    requires Fits(w, nodes.Keys, k, key) && Fits(w, nodes.Keys, c, elem)
    requires v.Entries? && n <= |v.entries|
    ensures RunEntries(nodes, k, c, v, n, path) == WalkEntries(w, key, elem, v, n, path)
    decreases v, 0, 0, n
  {
    hide ClosedTypes, Sound, Complete, Direct, Fits, Run, Walk;
    if n > 0 {
      var e := Ordered(v)[n - 1];
      assert e in v.entries;
      RunEntriesIsWalk(w, nodes, k, c, key, elem, v, n - 1, path);
      RunIsWalk(w, nodes, k, key, e.key, Push(path, e.rendered));
      RunIsWalk(w, nodes, c, elem, e.value, Push(path, e.rendered));
    }
  }

  /** A kept member's check finds what the walk finds in its field. */
  lemma {:induction false} MemberIsWalk(w: Types, nodes: Nodes, m: Member, f: Field, n: nat, v: Value, path: Path)
    requires ClosedTypes(w) && Sound(w, nodes) && Complete(nodes) && Direct(nodes)
    requires v.Record? && 0 < n <= |v.members| && Kept(w, f) && MemberFits(w, nodes.Keys, m.check, f)
    ensures Run(nodes, m.check, v.members[n - 1], path)
            == if f.omitZero && IsZero(v.members[n - 1]) then [] else Walk(w, f.ty, v.members[n - 1], path)
    decreases v, 0, 0, 0
  {
    hide ClosedTypes, Sound, Complete, Direct, Fits, Walk, IsZero, Carries, JSONName;
    RunIsWalk(w, nodes, if f.omitZero then m.check.check else m.check, f.ty, v.members[n - 1], path);
  }

  lemma {:induction false} RunMembersIsWalk(w: Types, nodes: Nodes, c: Check, m: nat, fields: seq<Field>, n: nat,
                                            v: Value, path: Path)
    requires ClosedTypes(w) && Sound(w, nodes) && Complete(nodes) && Direct(nodes)
    requires forall i :: 0 <= i < |fields| ==> fields[i].ty in w
    requires c.Members? && m <= |c.members| && n <= |fields| && MembersFit(w, nodes.Keys, c, m, fields, n)
    requires v.Record?
    ensures RunMembers(nodes, c.members, m, v, path) == WalkFields(w, fields, n, v, path)
    decreases v, 0, 0, n
  {
    hide ClosedTypes, Sound, Complete, Direct, Fits, MemberFits, Run, Walk, IsZero, Carries, JSONName;
    if n > 0 {
      var f := fields[n - 1];
      if Kept(w, f) {
        RunMembersIsWalk(w, nodes, c, m - 1, fields, n - 1, v, path);
        if n <= |v.members| {
          MemberIsWalk(w, nodes, c.members[m - 1], f, n, v, Push(path, JSONName(f).value));
        }
      } else {
        RunMembersIsWalk(w, nodes, c, m, fields, n - 1, v, path);
        if Included(f) && n <= |v.members| {
          NothingCarriedNothingFound(w, f.ty, v.members[n - 1], Push(path, JSONName(f).value));
        }
      }
    }
  }

  // --- The memoising compiler ------------------------------------------------

  /** A node is entered before its type is compiled. */
  lemma ReserveNode(w: Types, nodes: Nodes, t: Ty)
    requires Sound(w, nodes) && t in w && t !in nodes
    ensures Sound(w, nodes[t := None])
  {
    hide Shaped;
    var more := nodes[t := None];
    forall u | u in more && more[u].Some?
      ensures Shaped(w, more.Keys, more[u].value, u)
    {
      ShapedGrows(w, nodes.Keys, more.Keys, nodes[u].value, u);
    }
  }

  /** The node is filled once its closure is built. */
  lemma FillNode(w: Types, nodes: Nodes, t: Ty, mid: Nodes, c: Check)
    requires t !in nodes && Sound(w, mid) && Grows(nodes[t := None], mid) && Shaped(w, mid.Keys, c, t)
    ensures Sound(w, mid[t := Some(c)]) && Grows(nodes, mid[t := Some(c)]) && mid[t := Some(c)].Keys == mid.Keys
  {
    hide Shaped;
    assert mid[t := Some(c)].Keys == mid.Keys;
  }

  class EnumCompiler {
    const types: Types
    var nodes: Nodes

    constructor (types: Types)
      ensures this.types == types && nodes == map[]
    {
      this.types, nodes := types, map[];
    }

    /** A type met before gets its node, bound late; any other is compiled under a node of its own. */
    method Compile(t: Ty) returns (check: Check)
      requires ClosedTypes(types) && t in types && Sound(types, nodes)
      modifies this
      ensures Sound(types, nodes) && Grows(old(nodes), nodes) && Fits(types, nodes.Keys, check, t)
      decreases types.Keys - nodes.Keys, 0
    {
      hide Sound, Shaped, ClosedTypes;
      if t in nodes {
        check := Memo(t);
      } else {
        ReserveNode(types, nodes, t);
        assert t in types.Keys - nodes.Keys;
        nodes := nodes[t := None];
        check := CompileShape(t);
        FillNode(types, old(nodes), t, nodes, check);
        nodes := nodes[t := Some(check)];
      }
    }

    method CompileShape(t: Ty) returns (check: Check)
      requires ClosedTypes(types) && t in types && Sound(types, nodes)
      modifies this
      ensures Sound(types, nodes) && Grows(old(nodes), nodes) && Shaped(types, nodes.Keys, check, t)
      decreases types.Keys - nodes.Keys, 2
    {
      hide Sound, Fits;
      match types[t]
      case Pointer(elem) =>
        var inner := Compile(elem);
        check := Follow(inner);
      case Str(registered) =>
        check := if Restricts(registered) then OneOf(registered.value) else Nothing;
      case List(elem, _) =>
        var inner := Compile(elem);
        check := Each(inner);
      case Dict(key, elem) =>
        var keyCheck := Compile(key);
        ghost var mid := nodes;
        var valueCheck := Compile(elem);
        FitsGrows(types, mid.Keys, nodes.Keys, keyCheck, key);
        check := Entry(keyCheck, valueCheck);
      case Struct(fields) =>
        check := CompileMembers(fields);
      case RawJSON =>
        check := Nothing;
      case Other =>
        check := Nothing;
    }

    /** A struct's check keeps only the fields whose type carries an enum. */
    method CompileMembers(fields: seq<Field>) returns (check: Check)
      requires ClosedTypes(types) && Sound(types, nodes)
      requires forall i :: 0 <= i < |fields| ==> fields[i].ty in types
      modifies this
      ensures Sound(types, nodes) && Grows(old(nodes), nodes)
      ensures check.Members? && MembersFit(types, nodes.Keys, check, |check.members|, fields, |fields|)
      decreases types.Keys - nodes.Keys, 1
    {
      hide Sound, Fits, Carries, ClosedTypes;
      var ms := [];
      for i := 0 to |fields|
        invariant Sound(types, nodes) && Grows(old(nodes), nodes)
        invariant MembersFit(types, nodes.Keys, Members(ms), |ms|, fields, i)
      {
        var f := fields[i];
        if Included(f) {
          var carries := TypeCarriesRegisteredEnum(types, f.ty);
          if carries {
            ghost var mid := nodes;
            var inner := Compile(f.ty);
            var m := Member(i, JSONName(f).value, if f.omitZero then OmitZero(inner) else inner);
            MembersFitGrows(types, mid.Keys, nodes.Keys, Members(ms), |ms|, fields, i);
            MembersFitPrefix(types, nodes.Keys, Members(ms), Members(ms + [m]), |ms|, fields, i);
            ms := ms + [m];
          }
        }
      }
      check := Members(ms);
    }
  }

  // --- Running with a shared path buffer -------------------------------------

  /** A compiled validator: its check and the nodes the check refers to. */
  datatype Validator = Validator(check: Check, nodes: Nodes)

  /** What a field or body is to report: nothing for a zero value that may be omitted, else what the walk finds. */
  function Reported(w: Types, t: Ty, omitZero: bool, v: Value, path: Path): seq<ValidationError> {
    if omitZero && IsZero(v) then [] else Walk(w, t, v, path)
  }

  /** There is no validator exactly when the type carries no enum, and one that there is reports what it should. */
  ghost predicate Reports(validator: Option<Validator>, w: Types, t: Ty, omitZero: bool) {
    && (validator.Some? <==> Carries(w, t))
    && (validator.Some? ==>
          && Direct(validator.value.nodes)
          && forall v, path ::
               Run(validator.value.nodes, validator.value.check, v, path) == Reported(w, t, omitZero, v, path))
  }

  /** A missing validator misses nothing. */
  lemma NoneMissesNothing(w: Types, t: Ty, omitZero: bool, v: Value, path: Path)
    requires ClosedTypes(w) && t in w && Reports(None, w, t, omitZero)
    ensures Reported(w, t, omitZero, v, path) == []
  {
    hide Walk, Carries, ClosedTypes;
    NothingCarriedNothingFound(w, t, v, path);
  }

  method CompileEnumValidator(w: Types, t: Ty, omitZero: bool) returns (validator: Option<Validator>)
    requires ClosedTypes(w) && t in w
    ensures Reports(validator, w, t, omitZero)
  {
    hide Sound, Fits, Carries, ClosedTypes, Walk;
    var carries := TypeCarriesRegisteredEnum(w, t);
    if !carries {
      return None;
    }
    var compiler := new EnumCompiler(w);
    NoNodesYet(w);
    var check := compiler.Compile(t);
    var nodes := compiler.nodes;
    SoundIsDirect(w, nodes);
    forall v, path
      ensures Run(nodes, check, v, path) == Walk(w, t, v, path)
    {
      RunIsWalk(w, nodes, check, t, v, path);
    }
    validator := Some(Validator(if omitZero then OmitZero(check) else check, nodes));
  }

  lemma NoNodesYet(w: Types)
    ensures Sound(w, map[])
  {
  }

  /** A path is a prefix of a buffer; appending reuses the buffer when it has room and copies it otherwise. */
  method Append(buffer: array<Segment>, len: nat, segment: Segment) returns (buffer': array<Segment>)
    requires len <= buffer.Length
    modifies buffer
    ensures buffer' == buffer || fresh(buffer')
    ensures len < buffer'.Length && buffer'[..len + 1] == old(buffer[..len]) + [segment]
    ensures buffer[..len] == old(buffer[..len])
  {
    if len < buffer.Length {
      buffer' := buffer;
    } else {
      buffer' := new Segment[2 * len + 1](_ => segment);
      for i := 0 to len
        invariant forall j :: 0 <= j < i ==> buffer'[j] == buffer[j]
        invariant buffer[..] == old(buffer[..])
      {
        buffer'[i] := buffer[i];
      }
    }
    buffer'[len] := segment;
  }

  class Validation {
    const nodes: Nodes
    var errors: seq<ValidationError>

    constructor (nodes: Nodes)
      ensures this.nodes == nodes && errors == []
    {
      this.nodes, errors := nodes, [];
    }

    /** Extends a path by a member's name; a nameless member shares its parent's path. */
    method PushName(buffer: array<Segment>, len: nat, name: string) returns (buffer': array<Segment>, len': nat)
      requires len <= buffer.Length
      modifies buffer
      ensures buffer' == buffer || fresh(buffer')
      ensures len <= len' <= buffer'.Length && buffer'[..len'] == Push(old(buffer[..len]), name)
      ensures buffer[..len] == old(buffer[..len])
    {
      if name == "" {
        buffer', len' := buffer, len;
      } else {
        buffer' := Append(buffer, len, Name(name));
        len' := len + 1;
      }
    }

    /**
      Runs a check over a value at the path held in the buffer's first `len`
      segments. Slots beyond them may be overwritten, the path itself never is,
      and the errors appended are those found with immutable paths.
     */
    method Validate(c: Check, v: Value, buffer: array<Segment>, len: nat)
      requires Direct(nodes) && len <= buffer.Length
      modifies this`errors, buffer
      ensures errors == old(errors) + Run(nodes, c, v, old(buffer[..len]))
      ensures buffer[..len] == old(buffer[..len])
      decreases v, Indirections(c), 2
    {
      match c
      case Nothing =>
      case Memo(t) =>
        if t in nodes && nodes[t].Some? {
          Validate(nodes[t].value, v, buffer, len);
        }
      case Follow(elem) =>
        if v.Ref? {
          Validate(elem, v.target, buffer, len);
        }
      case OneOf(allowed) =>
        if v.Text? && v.text !in allowed {
          var rendered := RenderPath(buffer, len);
          errors := errors + [Violation(rendered, allowed)];
        }
      case Each(elem) =>
        if v.Items? {
          ValidateItems(elem, v, buffer, len);
        }
      case Entry(key, value) =>
        if v.Entries? {
          ValidateEntries(key, value, v, buffer, len);
        }
      case Members(ms) =>
        if v.Record? {
          ValidateMembers(ms, v, buffer, len);
        }
      case OmitZero(inner) =>
        if !IsZero(v) {
          Validate(inner, v, buffer, len);
        }
    }

    method ValidateItems(elem: Check, v: Value, buffer: array<Segment>, len: nat)
      requires Direct(nodes) && v.Items? && len <= buffer.Length
      modifies this`errors, buffer
      ensures errors == old(errors) + RunItems(nodes, elem, v, |v.items|, old(buffer[..len]))
      ensures buffer[..len] == old(buffer[..len])
      decreases v, 0, 0
    {
      hide Run, Direct;
      ghost var path := buffer[..len];
      for i := 0 to |v.items|
        invariant errors == old(errors) + RunItems(nodes, elem, v, i, path)
        invariant buffer[..len] == path
      {
        var buffer' := Append(buffer, len, Index(i));
        Validate(elem, v.items[i], buffer', len + 1);
        assert buffer'[..len + 1][..len] == path;
      }
    }

    method ValidateEntries(key: Check, value: Check, v: Value, buffer: array<Segment>, len: nat)
      requires Direct(nodes) && v.Entries? && len <= buffer.Length
      modifies this`errors, buffer
      ensures errors == old(errors) + RunEntries(nodes, key, value, v, |v.entries|, old(buffer[..len]))
      ensures buffer[..len] == old(buffer[..len])
      decreases v, 0, 1
    {
      hide Run, Direct, Push;
      ghost var path := buffer[..len];
      for i := 0 to |v.entries|
        invariant errors == old(errors) + RunEntries(nodes, key, value, v, i, path)
        invariant buffer[..len] == path
      {
        ValidateEntry(key, value, v, i, buffer, len);
      }
    }

    /** A key and its value are checked under one path, the key's. */
    method ValidateEntry(key: Check, value: Check, v: Value, i: nat, buffer: array<Segment>, len: nat)
      requires Direct(nodes) && v.Entries? && i < |v.entries| && len <= buffer.Length
      modifies this`errors, buffer
      ensures var e, path := Ordered(v)[i], Push(old(buffer[..len]), Ordered(v)[i].rendered);
              errors == old(errors) + (Run(nodes, key, e.key, path) + Run(nodes, value, e.value, path))
      ensures buffer[..len] == old(buffer[..len])
      decreases v, 0, 0
    {
      hide Run, Direct;
      var e := Ordered(v)[i];
      assert e in v.entries;
      var buffer', len' := PushName(buffer, len, e.rendered);
      Validate(key, e.key, buffer', len');
      Validate(value, e.value, buffer', len');
      assert buffer'[..len'][..len] == old(buffer[..len]);
    }

    method ValidateMembers(ms: seq<Member>, v: Value, buffer: array<Segment>, len: nat)
      requires Direct(nodes) && v.Record? && len <= buffer.Length
      modifies this`errors, buffer
      ensures errors == old(errors) + RunMembers(nodes, ms, |ms|, v, old(buffer[..len]))
      ensures buffer[..len] == old(buffer[..len])
      decreases v, 0, 1
    {
      hide Run, Direct, Push;
      ghost var path := buffer[..len];
      for i := 0 to |ms|
        invariant errors == old(errors) + RunMembers(nodes, ms, i, v, path)
        invariant buffer[..len] == path
      {
        if ms[i].index < |v.members| {
          ValidateMember(ms[i], v, buffer, len);
        }
      }
    }

    method ValidateMember(m: Member, v: Value, buffer: array<Segment>, len: nat)
      requires Direct(nodes) && v.Record? && m.index < |v.members| && len <= buffer.Length
      modifies this`errors, buffer
      ensures errors == old(errors) + Run(nodes, m.check, v.members[m.index], Push(old(buffer[..len]), m.name))
      ensures buffer[..len] == old(buffer[..len])
      decreases v, 0, 0
    {
      hide Run, Direct;
      var buffer', len' := PushName(buffer, len, m.name);
      Validate(m.check, v.members[m.index], buffer', len');
      assert buffer'[..len'][..len] == old(buffer[..len]);
    }
  }

  /**
    Runs a compiled validator, if there is one, on a member of the request; the
    buffer is handed on from one member to the next.
   */
  method ValidateField(validator: Option<Validator>, w: Types, t: Ty, omitZero: bool, v: Value, name: string,
                       buffer: array<Segment>) returns (errors: seq<ValidationError>)
    requires ClosedTypes(w) && t in w && Reports(validator, w, t, omitZero)
    modifies buffer
    ensures errors == Reported(w, t, omitZero, v, Push([], name))
  {
    hide Run, ClosedTypes, Carries, Direct, Reported;
    if validator.None? {
      NoneMissesNothing(w, t, omitZero, v, Push([], name));
      return [];
    }
    var run := new Validation(validator.value.nodes);
    assert buffer[..0] == [];
    var buffer', len := run.PushName(buffer, 0, name);
    run.Validate(validator.value.check, v, buffer', len);
    errors := run.errors;
  }
}
