/**
  What a Go type documents: the reference reading of a type in one context,
  with references written as (type, context) pairs. Nothing here knows about
  component ids, reservations or visiting order.
 */
module TypeSchemas {
  import opened Wrappers
  import opened Schemas

  /** The direction a type is documented in; request objects are closed. */
  datatype Context = InResponse | InRequest

  datatype GoType =
    | Int64
    | Uint64
    | Basic(openapiType: string, format: string)
    | Pointer(elem: GoType)
    | List(elem: GoType)
    | Dictionary(elem: GoType)
    | Any
    | Interface
    | AnonymousStruct
    | Named(path: string, name: string)

  datatype Field = Field(
    jsonName: string, skip: bool, explicitName: bool, anonymous: bool, exported: bool, omitEmpty: bool,
    typ: GoType, hasValidate: bool, validateRequired: bool, tags: seq<string>)

  datatype Shape =
    | StringKind(enum: Option<seq<string>>)
    | StructKind(fields: seq<Field>)
    | ListKind(elem: GoType)
    | DictionaryKind(elem: GoType)
    | Int64Kind
    | Uint64Kind
    | InterfaceKind
    | BasicKind(openapiType: string, format: string)

  datatype Definition = Definition(marshals: bool, alias: Option<GoType>, shape: Shape)

  /** A component's identity before ids exist: whose type, in which context. */
  datatype Sym = Sym(typ: GoType, ctx: Context)

  /** The defined types and the known-type registry. */
  datatype World = World(defs: map<GoType, Definition>, known: map<GoType, Schema<Sym>>)

  function NamedIn(t: GoType): set<GoType> {
    match t
    case Pointer(e) => NamedIn(e)
    case List(e) => NamedIn(e)
    case Dictionary(e) => NamedIn(e)
    case Named(_, _) => {t}
    case _ => {}
  }

  /** Every named type under `t` is defined or registered. */
  predicate Provided(w: World, t: GoType) {
    forall n :: n in NamedIn(t) ==> n in w.defs || n in w.known
  }

  predicate ShapeProvided(w: World, shape: Shape) {
    match shape
    case StructKind(fields) => forall i :: 0 <= i < |fields| ==> Provided(w, fields[i].typ)
    case ListKind(e) => Provided(w, e)
    case DictionaryKind(e) => Provided(w, e)
    case _ => true
  }

  /** The type graph is closed, and registry schemas hold no references. */
  ghost predicate WellFormed(w: World) {
    && (forall t :: t in w.known ==> Refs(w.known[t]) == {})
    && (forall t :: t in w.defs ==>
          && t.Named?
          && ShapeProvided(w, w.defs[t].shape)
          && (w.defs[t].alias.Some? ==> Provided(w, w.defs[t].alias.value)))
  }

  // --- Schema builders, generic in the reference type ------------------------

  function Scalar<K>(openapiType: string, notes: seq<string>): Schema<K> {
    Node(Facts([openapiType], false, [], notes, []), [])
  }

  function Formatted<K>(openapiType: string, format: string): Schema<K> {
    Scalar(openapiType, if format == "" then [] else [format])
  }

  function Holding<K>(openapiType: string, place: Place, s: Schema<K>): Schema<K> {
    Node(Facts([openapiType], false, [], [], [place]), [s])
  }

  function Nullable<K>(s: Schema<K>): Schema<K> {
    match s
    case Ref(_, _) => Node(Facts([], false, [], [], [AnyOf, AnyOf]), [s, Scalar("null", [])])
    case Node(facts, kids) =>
      if |facts.types| == 1 then Node(facts.(types := facts.types + ["null"]), kids) else s
  }

  function Adorn<K>(s: Schema<K>, tags: seq<string>): Schema<K> {
    match s
    case Ref(k, notes) => Ref(k, notes + tags)
    case Node(facts, kids) => Node(facts.(notes := facts.notes + tags), kids)
  }

  predicate IsNull<K>(s: Schema<K>) {
    s.Node? && s.facts.types == ["null"]
  }

  function WithoutNull(types: seq<string>): seq<string> {
    if types == [] then []
    else (if types[0] == "null" then [] else [types[0]]) + WithoutNull(types[1..])
  }

  /** The sub-schemas left once null alternatives are dropped, with their places. */
  function Keep<K>(places: seq<Place>, kids: seq<Schema<K>>): (kept: seq<(Place, Schema<K>)>)
    requires |places| == |kids|
    ensures forall i :: 0 <= i < |kept| ==> kept[i].1 in kids
  {
    if kids == [] then []
    else
      (if places[0] == AnyOf && IsNull(kids[0]) then [] else [(places[0], kids[0])])
      + Keep(places[1..], kids[1..])
  }

  /** Strips the null alternative a pointer introduced; a lone remaining alternative replaces its parent. */
  function RemoveNullability<K>(s: Schema<K>): Schema<K> {
    match s
    case Ref(_, _) => s
    case Node(facts, kids) =>
      var types := if |facts.types| > 1 then WithoutNull(facts.types) else facts.types;
      if |facts.places| != |kids| || AnyOf !in facts.places then Node(facts.(types := types), kids)
      else
        var kept := Keep(facts.places, kids);
        var stripped := seq(|kept|, i requires 0 <= i < |kept| =>
          if kept[i].0 == AnyOf then RemoveNullability(kept[i].1) else kept[i].1);
        Left(facts, types, kept, stripped)
  }

  // --- The reading of a type -------------------------------------------------

  /** A type in field position: primitives inline, pointers add nullability, named types are references. */
  function Inline(w: World, t: GoType, ctx: Context): Schema<Sym> {
    match t
    case Int64 => Formatted("string", "int64")
    case Uint64 => Formatted("string", "uint64")
    case Basic(openapiType, format) => Formatted(openapiType, format)
    case Pointer(e) => if t in w.known then w.known[t] else Nullable(Inline(w, e, ctx))
    case List(e) => Holding("array", Items, Inline(w, e, ctx))
    case Dictionary(e) => Holding("object", AdditionalProperties, Inline(w, e, ctx))
    case Any => if t in w.known then w.known[t] else Scalar("object", [])
    case Interface => Scalar("object", [])
    case AnonymousStruct => Scalar("object", [])
    case Named(_, _) =>
      if t in w.known then w.known[t]
      else if t in w.defs && w.defs[t].marshals then Scalar("object", [])
      else Ref(Sym(t, ctx), [])
  }

  datatype Role = Ignored | Rejected | Embedded | Property

  function Embeds(f: Field): GoType {
    if f.typ.Pointer? then f.typ.elem else f.typ
  }

  predicate IsStruct(w: World, t: GoType) {
    t.AnonymousStruct? || (t in w.defs && w.defs[t].shape.StructKind?)
  }

  /** What one struct field contributes to its struct's schema. */
  function FieldRole(w: World, f: Field): Role {
    if f.skip then Ignored
    else if f.anonymous && !f.explicitName && IsStruct(w, Embeds(f)) then
      if Embeds(f) in w.known || (Embeds(f) in w.defs && w.defs[Embeds(f)].marshals) then Rejected else Embedded
    else if !f.exported then Ignored
    else Role.Property
  }

  datatype Member<K> = Member(name: string, schema: Schema<K>)

  datatype Members<K> = Members(allOf: seq<Schema<K>>, props: seq<Member<K>>, required: seq<string>)

  /** A later field with the same member name replaces the earlier one. */
  function Put<K>(props: seq<Member<K>>, m: Member<K>): seq<Member<K>> {
    if props == [] then [m]
    else if props[0].name == m.name then [m] + props[1..]
    else [props[0]] + Put(props[1..], m)
  }

  predicate FieldRequired(f: Field) {
    if f.hasValidate then f.validateRequired else !f.typ.Pointer? && !f.omitEmpty
  }

  function FieldSchema<K>(f: Field, s: Schema<K>): Schema<K> {
    Adorn(if f.validateRequired then RemoveNullability(s) else s, f.tags)
  }

  function AddField<K>(w: World, acc: Members<K>, f: Field, s: Schema<K>): Members<K> {
    match FieldRole(w, f)
    case Ignored => acc
    case Rejected => acc
    case Embedded => acc.(allOf := acc.allOf + [s])
    case Property =>
      acc.(props := Put(acc.props, Member(f.jsonName, FieldSchema(f, s))),
           required := acc.required + if FieldRequired(f) then [f.jsonName] else [])
  }

  function Collect<K>(w: World, fields: seq<Field>, schemas: seq<Schema<K>>): Members<K>
    requires |fields| == |schemas|
  {
    if fields == [] then Members([], [], [])
    else
      var n := |fields| - 1;
      AddField(w, Collect(w, fields[..n], schemas[..n]), fields[n], schemas[n])
  }

  function ObjectOf<K>(m: Members<K>, closed: bool): Schema<K> {
    Node(Facts(["object"], closed, m.required, [],
               seq(|m.props|, i requires 0 <= i < |m.props| => Place.Property(m.props[i].name))),
         seq(|m.props|, i requires 0 <= i < |m.props| => m.props[i].schema))
  }

  /** A struct's schema: an object, closed in request context, or an open allOf composition. */
  function StructOf<K>(m: Members<K>, ctx: Context): Schema<K> {
    if m.allOf == [] then ObjectOf(m, ctx.InRequest?)
    else
      var parts := m.allOf + if m.props == [] then [] else [ObjectOf(m, false)];
      Node(Facts([], false, [], [], seq(|parts|, _ => AllOf)), parts)
  }

  /** A field's own schema; fields that contribute none have a placeholder. */
  function FieldInline(w: World, f: Field, ctx: Context): Schema<Sym> {
    if FieldRole(w, f) in {Embedded, Role.Property} then Inline(w, f.typ, ctx) else Scalar("object", [])
  }

  function FieldInlines(w: World, fields: seq<Field>, ctx: Context): seq<Schema<Sym>> {
    seq(|fields|, i requires 0 <= i < |fields| => FieldInline(w, fields[i], ctx))
  }

  function EnumSchema<K>(enum: Option<seq<string>>): Schema<K> {
    if enum.Some? && enum.value != [] then Scalar("string", enum.value) else Scalar("string", [])
  }

  /** The component body of a defined type. */
  function Body(w: World, def: Definition, ctx: Context): Schema<Sym> {
    if def.alias.Some? then Inline(w, def.alias.value, ctx)
    else
      match def.shape
      case StringKind(enum) => EnumSchema(enum)
      case StructKind(fields) => StructOf(Collect(w, fields, FieldInlines(w, fields, ctx)), ctx)
      case ListKind(e) => Holding("array", Items, Inline(w, e, ctx))
      case DictionaryKind(e) => Holding("object", AdditionalProperties, Inline(w, e, ctx))
      case Int64Kind => Formatted("integer", "int64")
      case Uint64Kind => Formatted("integer", "uint64")
      case InterfaceKind => Scalar("object", [])
      case BasicKind(openapiType, format) => Formatted(openapiType, format)
  }

  /** The reference component table: one body per (type, context). */
  function Ideal(w: World): map<Sym, Schema<Sym>> {
    map t, ctx | t in w.defs && ctx in {InResponse, InRequest} :: Sym(t, ctx) := Body(w, w.defs[t], ctx)
  }

  // --- Every builder commutes with renaming ----------------------------------

  function Renamed<K, L>(ss: seq<Schema<K>>, f: K -> L): seq<Schema<L>> {
    seq(|ss|, i requires 0 <= i < |ss| => Rename(ss[i], f))
  }

  function RenamedMembers<K, L>(m: Members<K>, f: K -> L): Members<L> {
    Members(Renamed(m.allOf, f),
            seq(|m.props|, i requires 0 <= i < |m.props| => Member(m.props[i].name, Rename(m.props[i].schema, f))),
            m.required)
  }

  lemma RenameNullable<K, L>(s: Schema<K>, f: K -> L)
    ensures Rename(Nullable(s), f) == Nullable(Rename(s, f))
  {
    if s.Ref? {
      var none: Schema<L> := Scalar("null", []);
      assert Rename(Scalar("null", []), f) == none;
      assert Rename(Nullable(s), f).kids == [Rename(s, f), none];
    }
  }

  lemma NullRenamed<K, L>(s: Schema<K>, f: K -> L)
    ensures IsNull(Rename(s, f)) == IsNull(s)
  {
  }

  lemma KeptConcat<K, L>(a: seq<(Place, Schema<K>)>, b: seq<(Place, Schema<K>)>, f: K -> L)
    ensures RenamedKept(a + b, f) == RenamedKept(a, f) + RenamedKept(b, f)
  {
    hide Rename;
  }

  lemma {:induction false} RenameKeep<K, L>(places: seq<Place>, kids: seq<Schema<K>>, f: K -> L)
    requires |places| == |kids|
    ensures Keep(places, Renamed(kids, f)) == RenamedKept(Keep(places, kids), f)
  {
    hide Rename, IsNull;
    if kids != [] {
      RenameKeep(places[1..], kids[1..], f);
      assert Renamed(kids, f)[1..] == Renamed(kids[1..], f) && Renamed(kids, f)[0] == Rename(kids[0], f);
      NullRenamed(kids[0], f);
      var first := if places[0] == AnyOf && IsNull(kids[0]) then [] else [(places[0], kids[0])];
      KeptConcat(first, Keep(places[1..], kids[1..]), f);
    }
  }

  /** What stripping makes of the alternatives that are left. */
  function Left<K>(facts: Facts, types: seq<string>, kept: seq<(Place, Schema<K>)>, stripped: seq<Schema<K>>): Schema<K>
    requires |stripped| == |kept|
  {
    if |kept| == 1 && kept[0].0 == AnyOf && types == [] then stripped[0]
    else Node(facts.(types := types, places := seq(|kept|, i requires 0 <= i < |kept| => kept[i].0)), stripped)
  }

  function Stripped<K>(kept: seq<(Place, Schema<K>)>): seq<Schema<K>> {
    seq(|kept|, i requires 0 <= i < |kept| =>
      if kept[i].0 == AnyOf then RemoveNullability(kept[i].1) else kept[i].1)
  }

  function RenamedKept<K, L>(kept: seq<(Place, Schema<K>)>, f: K -> L): seq<(Place, Schema<L>)> {
    seq(|kept|, i requires 0 <= i < |kept| => (kept[i].0, Rename(kept[i].1, f)))
  }

  lemma RenameLeft<K, L>(facts: Facts, types: seq<string>, kept: seq<(Place, Schema<K>)>, stripped: seq<Schema<K>>,
                         f: K -> L)
    requires |stripped| == |kept|
    ensures Rename(Left(facts, types, kept, stripped), f)
            == Left(facts, types, RenamedKept(kept, f), Renamed(stripped, f))
  {
    var places := seq(|kept|, i requires 0 <= i < |kept| => kept[i].0);
    var renamed := RenamedKept(kept, f);
    assert places == seq(|renamed|, i requires 0 <= i < |renamed| => renamed[i].0);
  }

  lemma {:induction false} RenameRemoveNullability<K, L>(s: Schema<K>, f: K -> L)
    ensures Rename(RemoveNullability(s), f) == RemoveNullability(Rename(s, f))
  {
    if s.Node? && |s.facts.places| == |s.kids| && AnyOf in s.facts.places {
      var kept := Keep(s.facts.places, s.kids);
      var types := if |s.facts.types| > 1 then WithoutNull(s.facts.types) else s.facts.types;
      RenameKeep(s.facts.places, s.kids, f);
      assert Rename(s, f).kids == Renamed(s.kids, f);
      forall i | 0 <= i < |kept|
        ensures Rename(RemoveNullability(kept[i].1), f) == RemoveNullability(Rename(kept[i].1, f))
      {
        RenameRemoveNullability(kept[i].1, f);
      }
      assert Renamed(Stripped(kept), f) == Stripped(RenamedKept(kept, f));
      RenameLeft(s.facts, types, kept, Stripped(kept), f);
    }
  }

  lemma {:induction false} RenamePut<K, L>(props: seq<Member<K>>, m: Member<K>, f: K -> L)
    ensures RenamedMembers(Members([], Put(props, m), []), f).props ==
            Put(RenamedMembers(Members([], props, []), f).props, Member(m.name, Rename(m.schema, f)))
  {
    if props != [] && props[0].name != m.name {
      RenamePut(props[1..], m, f);
      assert RenamedMembers(Members([], props, []), f).props[1..]
             == RenamedMembers(Members([], props[1..], []), f).props;
    }
  }

  lemma RenameAddField<K, L>(w: World, acc: Members<K>, f: Field, s: Schema<K>, g: K -> L)
    ensures RenamedMembers(AddField(w, acc, f, s), g) == AddField(w, RenamedMembers(acc, g), f, Rename(s, g))
  {
    match FieldRole(w, f)
    case Embedded =>
      assert Renamed(acc.allOf + [s], g) == Renamed(acc.allOf, g) + [Rename(s, g)];
    case Property =>
      RenameRemoveNullability(s, g);
      RenamePut(acc.props, Member(f.jsonName, FieldSchema(f, s)), g);
    case _ =>
  }

  lemma {:induction false} RenameCollect<K, L>(w: World, fields: seq<Field>, ss: seq<Schema<K>>, f: K -> L)
    requires |fields| == |ss|
    ensures RenamedMembers(Collect(w, fields, ss), f) == Collect(w, fields, Renamed(ss, f))
  {
    if fields != [] {
      var n := |fields| - 1;
      RenameCollect(w, fields[..n], ss[..n], f);
      assert Renamed(ss, f)[..n] == Renamed(ss[..n], f);
      RenameAddField(w, Collect(w, fields[..n], ss[..n]), fields[n], ss[n], f);
    }
  }

  lemma RenameStructOf<K, L>(m: Members<K>, ctx: Context, f: K -> L)
    ensures Rename(StructOf(m, ctx), f) == StructOf(RenamedMembers(m, f), ctx)
  {
    assert forall closed :: Rename(ObjectOf(m, closed), f) == ObjectOf(RenamedMembers(m, f), closed) by {
      forall closed
        ensures Rename(ObjectOf(m, closed), f) == ObjectOf(RenamedMembers(m, f), closed)
      {
        assert Rename(ObjectOf(m, closed), f).kids == ObjectOf(RenamedMembers(m, f), closed).kids;
      }
    }
    if m.allOf != [] {
      assert Rename(StructOf(m, ctx), f).kids == StructOf(RenamedMembers(m, f), ctx).kids;
    }
  }

  // --- The two contexts of one type ------------------------------------------

  function ToRequest(y: Sym): Sym { Sym(y.typ, InRequest) }

  lemma {:induction false} InlineTwin(w: World, t: GoType)
    requires WellFormed(w)
    ensures Inline(w, t, InRequest) == Rename(Inline(w, t, InResponse), ToRequest)
  {
    if t in w.known {
      RenameNothing(w.known[t], ToRequest);
    }
    match t
    case Pointer(e) =>
      InlineTwin(w, e);
      RenameNullable(Inline(w, e, InResponse), ToRequest);
    case List(e) =>
      InlineTwin(w, e);
      assert Rename(Inline(w, t, InResponse), ToRequest).kids == Inline(w, t, InRequest).kids;
    case Dictionary(e) =>
      InlineTwin(w, e);
      assert Rename(Inline(w, t, InResponse), ToRequest).kids == Inline(w, t, InRequest).kids;
    case _ =>
  }

  /** Renaming a schema without references changes nothing. */
  lemma {:induction false} RenameNothing<K>(s: Schema<K>, f: K -> K)
    requires Refs(s) == {}
    ensures Rename(s, f) == s
  {
    if s.Node? {
      forall i | 0 <= i < |s.kids|
        ensures Rename(s.kids[i], f) == s.kids[i]
      {
        KidRefs(s, i);
        RenameNothing(s.kids[i], f);
      }
      assert Rename(s, f).kids == s.kids;
    }
  }

  /** A schema with the closed-object fact of its top node forgotten. */
  function Opened<K>(s: Schema<K>): Schema<K> {
    if s.Node? then Node(s.facts.(closed := false), s.kids) else s
  }

  /** A type's two component bodies differ in nothing but closedness and the context of their references. */
  lemma BodyTwin(w: World, def: Definition)
    requires WellFormed(w)
    ensures Opened(Body(w, def, InRequest)) == Opened(Rename(Body(w, def, InResponse), ToRequest))
  {
    if def.alias.Some? {
      InlineTwin(w, def.alias.value);
    } else {
      match def.shape
      case StructKind(fields) =>
        var inlines := FieldInlines(w, fields, InResponse);
        forall i | 0 <= i < |fields|
          ensures FieldInline(w, fields[i], InRequest) == Rename(FieldInline(w, fields[i], InResponse), ToRequest)
        {
          InlineTwin(w, fields[i].typ);
        }
        assert Renamed(inlines, ToRequest) == FieldInlines(w, fields, InRequest);
        RenameCollect(w, fields, inlines, ToRequest);
        RenameStructOf(Collect(w, fields, inlines), InResponse, ToRequest);
      case ListKind(e) =>
        InlineTwin(w, e);
        assert Rename(Body(w, def, InResponse), ToRequest).kids == Body(w, def, InRequest).kids;
      case DictionaryKind(e) =>
        InlineTwin(w, e);
        assert Rename(Body(w, def, InResponse), ToRequest).kids == Body(w, def, InRequest).kids;
      case _ =>
        assert Rename(Body(w, def, InResponse), ToRequest).kids == [];
    }
  }

  // --- What a body refers to -------------------------------------------------

  /** The references a type may produce: its own unregistered, structurally derived named types. */
  function Targets(w: World, ctx: Context): set<Sym> {
    set t | t in w.defs && t !in w.known && !w.defs[t].marshals :: Sym(t, ctx)
  }

  lemma {:induction false} RemoveNullabilityRefs<K>(s: Schema<K>)
    ensures Refs(RemoveNullability(s)) <= Refs(s)
  {
    if s.Node? && |s.facts.places| == |s.kids| && AnyOf in s.facts.places {
      var kept := Keep(s.facts.places, s.kids);
      forall i | 0 <= i < |kept|
        ensures Refs(kept[i].1) <= Refs(s) && Refs(RemoveNullability(kept[i].1)) <= Refs(s)
      {
        var j :| 0 <= j < |s.kids| && s.kids[j] == kept[i].1;
        KidRefs(s, j);
        RemoveNullabilityRefs(kept[i].1);
      }
    }
  }

  lemma {:induction false} InlineRefs(w: World, t: GoType, ctx: Context)
    requires WellFormed(w) && Provided(w, t)
    ensures Refs(Inline(w, t, ctx)) <= Targets(w, ctx)
  {
    match t
    case Pointer(e) => InlineRefs(w, e, ctx);
    case List(e) => InlineRefs(w, e, ctx);
    case Dictionary(e) => InlineRefs(w, e, ctx);
    case _ =>
  }

  ghost predicate Within<K>(m: Members<K>, bound: set<K>) {
    && (forall i :: 0 <= i < |m.allOf| ==> Refs(m.allOf[i]) <= bound)
    && (forall i :: 0 <= i < |m.props| ==> Refs(m.props[i].schema) <= bound)
  }

  lemma {:induction false} PutWithin<K>(props: seq<Member<K>>, m: Member<K>, bound: set<K>)
    requires Within(Members([], props, []), bound) && Refs(m.schema) <= bound
    ensures Within(Members([], Put(props, m), []), bound)
  {
    if props != [] && props[0].name != m.name {
      PutWithin(props[1..], m, bound);
    }
  }

  lemma {:induction false} CollectWithin<K>(w: World, fields: seq<Field>, ss: seq<Schema<K>>, bound: set<K>)
    requires |fields| == |ss| && forall i :: 0 <= i < |ss| ==> Refs(ss[i]) <= bound
    ensures Within(Collect(w, fields, ss), bound)
  {
    if fields != [] {
      var n := |fields| - 1;
      var acc := Collect(w, fields[..n], ss[..n]);
      CollectWithin(w, fields[..n], ss[..n], bound);
      RemoveNullabilityRefs(ss[n]);
      assert Within(Members([], acc.props, []), bound);
      PutWithin(acc.props, Member(fields[n].jsonName, FieldSchema(fields[n], ss[n])), bound);
    }
  }

  lemma StructWithin<K>(m: Members<K>, ctx: Context, bound: set<K>)
    requires Within(m, bound)
    ensures Refs(StructOf(m, ctx)) <= bound
  {
  }

  lemma BodyRefs(w: World, t: GoType, ctx: Context)
    requires WellFormed(w) && t in w.defs
    ensures Refs(Body(w, w.defs[t], ctx)) <= Targets(w, ctx)
  {
    var def := w.defs[t];
    if def.alias.Some? {
      InlineRefs(w, def.alias.value, ctx);
    } else {
      match def.shape
      case StructKind(fields) =>
        var inlines := FieldInlines(w, fields, ctx);
        forall i | 0 <= i < |fields|
          ensures Refs(inlines[i]) <= Targets(w, ctx)
        {
          InlineRefs(w, fields[i].typ, ctx);
        }
        CollectWithin(w, fields, inlines, Targets(w, ctx));
      case ListKind(e) => InlineRefs(w, e, ctx);
      case DictionaryKind(e) => InlineRefs(w, e, ctx);
      case _ =>
    }
  }
}
