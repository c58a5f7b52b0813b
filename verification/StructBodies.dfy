/**
  What a struct's component says of its fields: which members it names and
  requires, in which order, with whose schema, and whether it admits others;
  and what a pointer makes of a schema.
 */
module StructBodies {
  import opened Wrappers
  import opened Schemas
  import opened TypeSchemas

  // --- Fields as they are declared -------------------------------------------

  /** An anonymous field of struct type without a name of its own: its members are its parent's. */
  predicate Promotes(w: World, f: Field) {
    && !f.skip && f.anonymous && !f.explicitName
    && var t := if f.typ.Pointer? then f.typ.elem else f.typ;
       t.AnonymousStruct? || (t in w.defs && w.defs[t].shape.StructKind?)
  }

  /** A promoted field whose type serializes as one value; it is reported and contributes nothing. */
  predicate Opaque(w: World, f: Field) {
    var t := if f.typ.Pointer? then f.typ.elem else f.typ;
    t in w.known || (t in w.defs && w.defs[t].marshals)
  }

  predicate Composed(w: World, f: Field) {
    Promotes(w, f) && !Opaque(w, f)
  }

  /** A field that is a member of its own struct's object. */
  predicate IsMember(w: World, f: Field) {
    !f.skip && f.exported && !Promotes(w, f)
  }

  /** A member that must be present: its validate tag says so, or else its shape does. */
  predicate Demanded(w: World, f: Field) {
    && IsMember(w, f)
    && (f.hasValidate ==> f.validateRequired)
    && (!f.hasValidate ==> !f.typ.Pointer? && !f.omitEmpty)
  }

  /** `s` with a field's own tags, and without null where the field is required. */
  predicate Decorated<K(==)>(f: Field, s: Schema<K>, out: Schema<K>) {
    var base := if f.validateRequired then RemoveNullability(s) else s;
    match base
    case Ref(k, notes) => out == Ref(k, notes + f.tags)
    case Node(facts, kids) => out.Node? && out.kids == kids && out.facts == facts.(notes := facts.notes + f.tags)
  }

  /** Indices of exactly the fields that satisfy `p`, in field order. */
  ghost predicate Picks(fields: seq<Field>, p: Field -> bool, idx: seq<nat>) {
    && (forall a :: 0 <= a < |idx| ==> idx[a] < |fields| && p(fields[idx[a]]))
    && (forall a, b :: 0 <= a < b < |idx| ==> idx[a] < idx[b])
    && (forall i :: 0 <= i < |fields| && p(fields[i]) ==> Listed(idx, i))
  }

  predicate Listed(idx: seq<nat>, i: int) {
    i in idx
  }

  /** The last member of its name. */
  ghost predicate LastNamed(w: World, fields: seq<Field>, name: string, i: nat) {
    && i < |fields| && IsMember(w, fields[i]) && fields[i].jsonName == name
    && forall j :: i < j < |fields| && IsMember(w, fields[j]) ==> fields[j].jsonName != name
  }

  ghost predicate LastWins<K>(w: World, fields: seq<Field>, ss: seq<Schema<K>>, props: seq<Member<K>>)
    requires |ss| == |fields|
  {
    && (forall a, b :: 0 <= a < b < |props| ==> props[a].name != props[b].name)
    && (forall i :: 0 <= i < |fields| && IsMember(w, fields[i]) ==> Holds(props, fields[i].jsonName))
    && (forall a :: 0 <= a < |props| ==> Supplied(w, fields, ss, props[a]))
  }

  ghost predicate Holds<K>(props: seq<Member<K>>, name: string) {
    exists a :: 0 <= a < |props| && props[a].name == name
  }

  ghost predicate Supplied<K>(w: World, fields: seq<Field>, ss: seq<Schema<K>>, m: Member<K>)
    requires |ss| == |fields|
  {
    exists i: nat :: LastNamed(w, fields, m.name, i) && Decorated(fields[i], ss[i], m.schema)
  }

  // --- Collecting them -------------------------------------------------------

  lemma RoleIs(w: World, f: Field)
    ensures FieldRole(w, f).Property? <==> IsMember(w, f)
    ensures FieldRole(w, f).Embedded? <==> Composed(w, f)
    ensures FieldRole(w, f).Property? && FieldRequired(f) <==> Demanded(w, f)
  {
  }

  lemma DecoratedIs<K>(f: Field, s: Schema<K>)
    ensures Decorated(f, s, FieldSchema(f, s))
  {
  }

  /** A later member takes the place of an earlier one of its name, or comes last. */
  lemma {:induction false} PutSays<K>(props: seq<Member<K>>, m: Member<K>)
    requires forall a, b :: 0 <= a < b < |props| ==> props[a].name != props[b].name
    ensures var r := Put(props, m);
            && (forall a, b :: 0 <= a < b < |r| ==> r[a].name != r[b].name)
            && m in r
            && (forall p :: p in r ==> p == m || (p in props && p.name != m.name))
            && (forall p :: p in props && p.name != m.name ==> p in r)
  {
    if props != [] && props[0].name != m.name {
      PutSays(props[1..], m);
      var rest := Put(props[1..], m);
      forall p | p in props && p.name != m.name
        ensures p in Put(props, m)
      {
        assert p == props[0] || p in props[1..];
        assert p in rest ==> p in Put(props, m);
      }
      assert m in rest;
      forall a, b | 0 <= a < b < |rest| + 1
        ensures ([props[0]] + rest)[a].name != ([props[0]] + rest)[b].name
      {
        if a == 0 {
          assert rest[b - 1] in rest;
        }
      }
    } else if props != [] {
      assert forall p :: p in props ==> p == props[0] || p in props[1..];
    }
  }

  lemma NextPick(fields: seq<Field>, p: Field -> bool, idx: seq<nat>, n: nat)
    requires n < |fields| && Picks(fields[..n], p, idx)
    ensures Picks(fields[..n + 1], p, if p(fields[n]) then idx + [n] else idx)
  {
    var front, f := fields[..n], fields[n];
    assert fields[..n + 1] == front + [f];
    PickOne(front, f, p, idx);
  }

  lemma PickOne(front: seq<Field>, f: Field, p: Field -> bool, idx: seq<nat>)
    requires Picks(front, p, idx)
    ensures Picks(front + [f], p, if p(f) then idx + [|front|] else idx)
  {
    hide Listed;
    var all, more := front + [f], if p(f) then idx + [|front|] else idx;
    forall a | 0 <= a < |more|
      ensures more[a] < |all| && p(all[more[a]])
    {
      if a < |idx| {
        assert p(front[idx[a]]);
      }
    }
    forall a, b | 0 <= a < b < |more|
      ensures more[a] < more[b]
    {
      if b < |idx| {
        assert idx[a] < idx[b];
      } else {
        assert idx[a] < |front|;
      }
    }
    forall i | 0 <= i < |all| && p(all[i])
      ensures Listed(more, i)
    {
      if i < |front| {
        assert p(front[i]);
      }
      StillListed(idx, |front|, i);
    }
  }

  lemma StillListed(idx: seq<nat>, n: nat, i: int)
    ensures Listed(idx, i) ==> Listed(idx + [n], i)
    ensures Listed(idx + [n], n)
  {
    assert (idx + [n])[|idx|] == n;
  }

  lemma LastWinsNext<K>(w: World, fields: seq<Field>, ss: seq<Schema<K>>, n: nat, props: seq<Member<K>>)
    requires n < |fields| == |ss| && LastWins(w, fields[..n], ss[..n], props)
    ensures var r := if IsMember(w, fields[n]) then
                       Put(props, Member(fields[n].jsonName, FieldSchema(fields[n], ss[n])))
                     else props;
            LastWins(w, fields[..n + 1], ss[..n + 1], r)
  {
    hide Put, FieldSchema, IsMember, Supplied, Holds;
    var f, more := fields[n], fields[..n + 1];
    var m := Member(f.jsonName, FieldSchema(f, ss[n]));
    var r := if IsMember(w, f) then Put(props, m) else props;
    PutSays(props, m);
    forall a | 0 <= a < |r|
      ensures Supplied(w, fields[..n + 1], ss[..n + 1], r[a])
    {
      assert r[a] in r;
      if r[a] == m && IsMember(w, f) {
        LaterSupplied(w, fields, ss, n);
      } else {
        EarlierSupplied(w, fields, ss, n, r[a]);
      }
    }
    forall i | 0 <= i < n + 1 && IsMember(w, more[i])
      ensures Holds(r, more[i].jsonName)
    {
      if i == n {
        HeldIn(r, m);
      } else {
        assert fields[..n][i] == more[i];
        StillHeld(props, r, m, fields[i].jsonName);
      }
    }
  }

  lemma HeldIn<K>(props: seq<Member<K>>, m: Member<K>)
    requires m in props
    ensures Holds(props, m.name)
  {
    var a :| 0 <= a < |props| && props[a] == m;
  }

  lemma StillHeld<K>(props: seq<Member<K>>, r: seq<Member<K>>, m: Member<K>, name: string)
    requires Holds(props, name)
    requires r == props || (m in r && forall p :: p in props && p.name != m.name ==> p in r)
    ensures Holds(r, name)
  {
    if r != props {
      var b :| 0 <= b < |props| && props[b].name == name;
      HeldIn(r, if name == m.name then m else props[b]);
    }
  }

  lemma LaterSupplied<K>(w: World, fields: seq<Field>, ss: seq<Schema<K>>, n: nat)
    requires n < |fields| == |ss| && IsMember(w, fields[n])
    ensures Supplied(w, fields[..n + 1], ss[..n + 1], Member(fields[n].jsonName, FieldSchema(fields[n], ss[n])))
  {
    hide FieldSchema, Decorated, IsMember;
    DecoratedIs(fields[n], ss[n]);
    assert LastNamed(w, fields[..n + 1], fields[n].jsonName, n);
  }

  lemma EarlierSupplied<K>(w: World, fields: seq<Field>, ss: seq<Schema<K>>, n: nat, p: Member<K>)
    requires n < |fields| == |ss| && Supplied(w, fields[..n], ss[..n], p)
    requires IsMember(w, fields[n]) ==> p.name != fields[n].jsonName
    ensures Supplied(w, fields[..n + 1], ss[..n + 1], p)
  {
    hide IsMember, Decorated;
    var i: nat :| LastNamed(w, fields[..n], p.name, i) && Decorated(fields[..n][i], ss[..n][i], p.schema);
    assert fields[..n + 1][i] == fields[..n][i] && ss[..n + 1][i] == ss[..n][i];
    assert forall j :: 0 <= j < n ==> fields[..n + 1][j] == fields[..n][j];
    assert LastNamed(w, fields[..n + 1], p.name, i);
  }

  function AllDemanded(w: World): Field -> bool {
    f => Demanded(w, f)
  }

  function AllComposed(w: World): Field -> bool {
    f => Composed(w, f)
  }

  /** What collecting makes of the fields: names required in field order, promoted schemas, one property a name. */
  ghost predicate Says<K>(w: World, fields: seq<Field>, ss: seq<Schema<K>>, m: Members<K>, req: seq<nat>,
                          emb: seq<nat>)
    requires |ss| == |fields|
  {
    && Picks(fields, AllDemanded(w), req) && |m.required| == |req|
    && (forall a :: 0 <= a < |req| ==> m.required[a] == fields[req[a]].jsonName)
    && Picks(fields, AllComposed(w), emb) && |m.allOf| == |emb|
    && (forall a :: 0 <= a < |emb| ==> m.allOf[a] == ss[emb[a]])
    && LastWins(w, fields, ss, m.props)
  }

  lemma NothingSaid<K>(w: World)
    ensures Says<K>(w, [], [], Members([], [], []), [], [])
  {
  }

  lemma SaysNext<K>(w: World, fields: seq<Field>, ss: seq<Schema<K>>, n: nat, m: Members<K>, req: seq<nat>,
                    emb: seq<nat>)
    requires n < |fields| == |ss| && Says(w, fields[..n], ss[..n], m, req, emb)
    ensures Says(w, fields[..n + 1], ss[..n + 1], AddField(w, m, fields[n], ss[n]),
                 if AllDemanded(w)(fields[n]) then req + [n] else req,
                 if AllComposed(w)(fields[n]) then emb + [n] else emb)
  {
    hide FieldRole, Put, FieldSchema, LastWins, IsMember, Promotes, Opaque, FieldRequired, Picks, Demanded, Composed;
    var f, more, ss' := fields[n], fields[..n + 1], ss[..n + 1];
    RoleIs(w, f);
    DemandedIsMember(w, f);
    NextPick(fields, AllDemanded(w), req, n);
    NextPick(fields, AllComposed(w), emb, n);
    LastWinsNext(w, fields, ss, n, m.props);
    PicksInside(fields[..n], AllDemanded(w), req);
    PicksInside(fields[..n], AllComposed(w), emb);
    assert forall i :: 0 <= i < n ==> more[i] == fields[..n][i] && ss'[i] == ss[..n][i];
  }

  lemma DemandedIsMember(w: World, f: Field)
    ensures AllDemanded(w)(f) ==> IsMember(w, f)
    ensures AllDemanded(w)(f) == Demanded(w, f) && AllComposed(w)(f) == Composed(w, f)
    ensures Composed(w, f) ==> !IsMember(w, f)
  {
  }

  lemma PicksInside(fields: seq<Field>, p: Field -> bool, idx: seq<nat>)
    requires Picks(fields, p, idx)
    ensures forall a :: 0 <= a < |idx| ==> idx[a] < |fields|
  {
  }

  lemma {:induction false} CollectSays<K>(w: World, fields: seq<Field>, ss: seq<Schema<K>>)
    returns (req: seq<nat>, emb: seq<nat>)
    requires |fields| == |ss|
    ensures Says(w, fields, ss, Collect(w, fields, ss), req, emb)
    decreases |fields|
  {
    hide Says, AddField;
    if fields == [] {
      req, emb := [], [];
      NothingSaid<K>(w);
    } else {
      var n := |fields| - 1;
      req, emb := CollectSays(w, fields[..n], ss[..n]);
      SaysNext(w, fields, ss, n, Collect(w, fields[..n], ss[..n]), req, emb);
      req := if AllDemanded(w)(fields[n]) then req + [n] else req;
      emb := if AllComposed(w)(fields[n]) then emb + [n] else emb;
      assert fields[..n + 1] == fields && ss[..n + 1] == ss;
    }
  }

  // --- A struct's component --------------------------------------------------

  ghost predicate Names(fields: seq<Field>, idx: seq<nat>, names: seq<string>) {
    |names| == |idx| && forall a :: 0 <= a < |idx| ==> idx[a] < |fields| && names[a] == fields[idx[a]].jsonName
  }

  ghost predicate HasMember(w: World, fields: seq<Field>, name: string) {
    exists i :: 0 <= i < |fields| && IsMember(w, fields[i]) && fields[i].jsonName == name
  }

  /** An object of exactly the members of these fields, requiring those that are demanded, in field order. */
  ghost predicate FactsSay(w: World, fields: seq<Field>, closed: bool, facts: Facts) {
    && facts.types == ["object"] && facts.closed == closed
    && (exists req :: Picks(fields, AllDemanded(w), req) && Names(fields, req, facts.required))
    && (forall a :: 0 <= a < |facts.places| ==> facts.places[a].Property?)
    && (forall a, b :: 0 <= a < b < |facts.places| ==> facts.places[a] != facts.places[b])
    && (forall name :: Place.Property(name) in facts.places <==> HasMember(w, fields, name))
  }

  /** Each property's schema is that of the last member of its name. */
  ghost predicate KidsSay<K>(w: World, fields: seq<Field>, ss: seq<Schema<K>>, s: Schema<K>)
    requires |ss| == |fields| && s.Node?
  {
    && |s.facts.places| == |s.kids|
    && forall a :: 0 <= a < |s.kids| ==>
         s.facts.places[a].Property? && Supplied(w, fields, ss, Member(s.facts.places[a].name, s.kids[a]))
  }

  /** The readings of the fields' types. */
  function Readings(w: World, fields: seq<Field>, ctx: Context): seq<Schema<Sym>> {
    seq(|fields|, i requires 0 <= i < |fields| => Inline(w, fields[i].typ, ctx))
  }

  ghost predicate SomeComposed(w: World, fields: seq<Field>) {
    exists i :: 0 <= i < |fields| && Composed(w, fields[i])
  }

  ghost predicate SomeMember(w: World, fields: seq<Field>) {
    exists i :: 0 <= i < |fields| && IsMember(w, fields[i])
  }

  /**
    Without promoted fields the component is one object, closed in requests only;
    with them it is an open composition of the promoted types, in field order, and
    of an open object of the struct's own members, if it has any.
   */
  ghost predicate StructSays(w: World, fields: seq<Field>, ctx: Context, s: Schema<Sym>) {
    && s.Node? && |s.facts.places| == |s.kids|
    && if !SomeComposed(w, fields) then
         FactsSay(w, fields, ctx.InRequest?, s.facts) && KidsSay(w, fields, Readings(w, fields, ctx), s)
       else
         && s.facts.types == [] && !s.facts.closed && s.facts.required == []
         && (forall a :: 0 <= a < |s.kids| ==> s.facts.places[a] == AllOf)
         && exists emb :: Picks(fields, AllComposed(w), emb) && PartsSay(w, fields, ctx, emb, s.kids)
  }

  ghost predicate PartsSay(w: World, fields: seq<Field>, ctx: Context, emb: seq<nat>, kids: seq<Schema<Sym>>) {
    && |kids| == |emb| + (if SomeMember(w, fields) then 1 else 0)
    && (forall a :: 0 <= a < |emb| ==> emb[a] < |fields| && kids[a] == Inline(w, fields[emb[a]].typ, ctx))
    && (SomeMember(w, fields) ==>
          && kids[|emb|].Node? && FactsSay(w, fields, false, kids[|emb|].facts)
          && KidsSay(w, fields, Readings(w, fields, ctx), kids[|emb|]))
  }

  /** The schemas of fields that contribute nothing do not matter. */
  lemma SaysReadings(w: World, fields: seq<Field>, ctx: Context, m: Members<Sym>, req: seq<nat>, emb: seq<nat>)
    requires Says(w, fields, FieldInlines(w, fields, ctx), m, req, emb)
    ensures Says(w, fields, Readings(w, fields, ctx), m, req, emb)
  {
    hide Inline, FieldRole, Decorated, IsMember, Composed, Demanded;
    var a, b := FieldInlines(w, fields, ctx), Readings(w, fields, ctx);
    forall i | 0 <= i < |fields| && (IsMember(w, fields[i]) || Composed(w, fields[i]))
      ensures a[i] == b[i]
    {
      RoleIs(w, fields[i]);
    }
    forall k | 0 <= k < |m.props|
      ensures Supplied(w, fields, b, m.props[k])
    {
      var i: nat :| LastNamed(w, fields, m.props[k].name, i) && Decorated(fields[i], a[i], m.props[k].schema);
      assert LastNamed(w, fields, m.props[k].name, i) && Decorated(fields[i], b[i], m.props[k].schema);
    }
  }

  lemma ObjectSays(w: World, fields: seq<Field>, ss: seq<Schema<Sym>>, m: Members<Sym>, req: seq<nat>,
                   emb: seq<nat>, closed: bool)
    requires |ss| == |fields| && Says(w, fields, ss, m, req, emb)
    ensures FactsSay(w, fields, closed, ObjectOf(m, closed).facts) && KidsSay(w, fields, ss, ObjectOf(m, closed))
  {
    hide Decorated, IsMember, Demanded, Composed, Picks;
    PicksInside(fields, AllDemanded(w), req);
    var places := ObjectOf(m, closed).facts.places;
    assert Names(fields, req, m.required);
    forall name
      ensures Place.Property(name) in places <==> HasMember(w, fields, name)
    {
      if Place.Property(name) in places {
        var a :| 0 <= a < |places| && places[a] == Place.Property(name);
        assert Supplied(w, fields, ss, m.props[a]);
        var i: nat :| LastNamed(w, fields, m.props[a].name, i) && Decorated(fields[i], ss[i], m.props[a].schema);
      }
      if i :| 0 <= i < |fields| && IsMember(w, fields[i]) && fields[i].jsonName == name {
        assert Holds(m.props, fields[i].jsonName);
        var a :| 0 <= a < |m.props| && m.props[a].name == name;
        assert places[a] == Place.Property(name);
      }
    }
  }

  lemma PropsIff(w: World, fields: seq<Field>, ss: seq<Schema<Sym>>, m: Members<Sym>, req: seq<nat>, emb: seq<nat>)
    requires |ss| == |fields| && Says(w, fields, ss, m, req, emb)
    ensures m.props == [] <==> !SomeMember(w, fields)
    ensures m.allOf == [] <==> !SomeComposed(w, fields)
  {
    hide Decorated, IsMember, Demanded, Composed;
    if m.props != [] {
      assert Supplied(w, fields, ss, m.props[0]);
    }
    if i :| 0 <= i < |fields| && IsMember(w, fields[i]) {
      assert Holds(m.props, fields[i].jsonName);
    }
    if m.allOf != [] {
      assert AllComposed(w)(fields[emb[0]]);
    }
    if i :| 0 <= i < |fields| && Composed(w, fields[i]) {
      assert AllComposed(w)(fields[i]);
    }
  }

  /** What a struct's component is, told from its fields. */
  lemma BodySays(w: World, t: GoType, ctx: Context)
    requires t in w.defs && w.defs[t].alias.None? && w.defs[t].shape.StructKind?
    ensures StructSays(w, w.defs[t].shape.fields, ctx, Body(w, w.defs[t], ctx))
  {
    hide Says, Collect, FieldInlines, FactsSay, KidsSay, Readings, SomeMember, SomeComposed, Picks;
    var fields := w.defs[t].shape.fields;
    LengthsAgree(w, fields, ctx);
    var m := Collect(w, fields, FieldInlines(w, fields, ctx));
    var req, emb := CollectSays(w, fields, FieldInlines(w, fields, ctx));
    SaysReadings(w, fields, ctx, m, req, emb);
    PropsIff(w, fields, Readings(w, fields, ctx), m, req, emb);
    ObjectSays(w, fields, Readings(w, fields, ctx), m, req, emb, ctx.InRequest?);
    ObjectSays(w, fields, Readings(w, fields, ctx), m, req, emb, false);
    PartsAre(w, fields, ctx, m, req, emb);
  }

  lemma LengthsAgree(w: World, fields: seq<Field>, ctx: Context)
    ensures |FieldInlines(w, fields, ctx)| == |Readings(w, fields, ctx)| == |fields|
  {
  }

  lemma PartsAre(w: World, fields: seq<Field>, ctx: Context, m: Members<Sym>, req: seq<nat>, emb: seq<nat>)
    requires |Readings(w, fields, ctx)| == |fields| && Says(w, fields, Readings(w, fields, ctx), m, req, emb)
    ensures Picks(fields, AllComposed(w), emb) && |m.allOf| == |emb|
    ensures forall a :: 0 <= a < |emb| ==> emb[a] < |fields| && m.allOf[a] == Inline(w, fields[emb[a]].typ, ctx)
  {
    hide Inline, LastWins;
  }

  /** The same, told of the facts alone. */
  ghost predicate StructFacts<K>(w: World, fields: seq<Field>, ctx: Context, s: Schema<K>) {
    && s.Node?
    && if !SomeComposed(w, fields) then FactsSay(w, fields, ctx.InRequest?, s.facts)
       else
         && s.facts.types == [] && !s.facts.closed && s.facts.required == []
         && (forall a :: 0 <= a < |s.facts.places| ==> s.facts.places[a] == AllOf)
         && exists emb :: Picks(fields, AllComposed(w), emb) && OwnPart(w, fields, emb, s.kids)
  }

  ghost predicate OwnPart<K>(w: World, fields: seq<Field>, emb: seq<nat>, kids: seq<Schema<K>>) {
    && |kids| == |emb| + (if SomeMember(w, fields) then 1 else 0)
    && (SomeMember(w, fields) ==> kids[|emb|].Node? && FactsSay(w, fields, false, kids[|emb|].facts))
  }

  /** Schemas that unfold alike, before any reference is followed, say the same. */
  lemma SameTreeSameFacts<K, L>(w: World, fields: seq<Field>, ctx: Context, c: map<K, Schema<K>>, s: Schema<K>,
                                d: map<L, Schema<L>>, t: Schema<L>)
    requires Unfold(c, s, 0) == Unfold(d, t, 0) && StructFacts(w, fields, ctx, t)
    ensures StructFacts(w, fields, ctx, s)
  {
    hide FactsSay, Picks, SomeComposed, SomeMember;
    SameTop(c, s, d, t);
    if SomeComposed(w, fields) {
      var emb :| Picks(fields, AllComposed(w), emb) && OwnPart(w, fields, emb, t.kids);
      assert OwnPart(w, fields, emb, s.kids);
    }
  }

  lemma SameTop<K, L>(c: map<K, Schema<K>>, s: Schema<K>, d: map<L, Schema<L>>, t: Schema<L>)
    requires Unfold(c, s, 0) == Unfold(d, t, 0) && t.Node?
    ensures s.Node? && s.facts == t.facts && |s.kids| == |t.kids|
    ensures forall i :: 0 <= i < |t.kids| && t.kids[i].Node? ==> s.kids[i].Node? && s.kids[i].facts == t.kids[i].facts
  {
    var a, b := Unfold(c, s, 0), Unfold(d, t, 0);
    assert s.Node? && |a.kids| == |s.kids| && |b.kids| == |t.kids|;
    forall i | 0 <= i < |t.kids| && t.kids[i].Node?
      ensures s.kids[i].Node? && s.kids[i].facts == t.kids[i].facts
    {
      assert a.kids[i] == Unfold(c, s.kids[i], 0) && b.kids[i] == Unfold(d, t.kids[i], 0);
    }
  }

  predicate IsStructType(w: World, t: GoType) {
    t in w.defs && w.defs[t].alias.None? && w.defs[t].shape.StructKind?
  }

  lemma BodyFacts(w: World, t: GoType, ctx: Context)
    requires IsStructType(w, t)
    ensures StructFacts(w, w.defs[t].shape.fields, ctx, Body(w, w.defs[t], ctx))
  {
    hide FactsSay, Picks, SomeComposed, SomeMember, KidsSay, Body;
    BodySays(w, t, ctx);
    var fields, b := w.defs[t].shape.fields, Body(w, w.defs[t], ctx);
    if SomeComposed(w, fields) {
      var emb :| Picks(fields, AllComposed(w), emb) && PartsSay(w, fields, ctx, emb, b.kids);
      assert OwnPart(w, fields, emb, b.kids);
    }
  }

  /** Membership alone: a name is required exactly when some member of that name is demanded. */
  lemma RequiredIff(w: World, fields: seq<Field>, closed: bool, facts: Facts, name: string)
    requires FactsSay(w, fields, closed, facts)
    ensures name in facts.required <==>
            exists i :: 0 <= i < |fields| && Demanded(w, fields[i]) && fields[i].jsonName == name
  {
    hide Demanded, HasMember, Picks, Names;
    var req :| Picks(fields, AllDemanded(w), req) && Names(fields, req, facts.required);
    PickedNames(w, fields, req, facts.required, name);
  }

  lemma PickedNames(w: World, fields: seq<Field>, req: seq<nat>, names: seq<string>, name: string)
    requires Picks(fields, AllDemanded(w), req) && Names(fields, req, names)
    ensures name in names <==>
            exists i :: 0 <= i < |fields| && Demanded(w, fields[i]) && fields[i].jsonName == name
  {
    hide Demanded;
    if name in names {
      var a :| 0 <= a < |names| && names[a] == name;
      assert AllDemanded(w)(fields[req[a]]);
    }
    if i :| 0 <= i < |fields| && Demanded(w, fields[i]) && fields[i].jsonName == name {
      assert AllDemanded(w)(fields[i]);
      var a :| 0 <= a < |req| && req[a] == i;
      assert names[a] == name;
    }
  }

  // --- Pointers --------------------------------------------------------------

  /** Null is one of its types or alternatives. */
  predicate AdmitsNull<K>(s: Schema<K>) {
    && s.Node?
    && ("null" in s.facts.types
        || exists i :: 0 <= i < |s.kids| && i < |s.facts.places| && s.facts.places[i] == AnyOf
             && s.kids[i].Node? && s.kids[i].facts.types == ["null"])
  }

  function Target(t: GoType): GoType {
    if t.Pointer? then Target(t.elem) else t
  }

  /** No registered schema decides what the type reads as, and no basic kind is null itself. */
  predicate Unregistered(w: World, t: GoType) {
    && t !in w.known
    && (t.Pointer? ==> Unregistered(w, t.elem))
    && (t.Basic? ==> t.openapiType != "null")
  }

  /** Null is admitted by pointers and by nothing else. */
  lemma {:induction false} NullIffPointer(w: World, t: GoType, ctx: Context)
    requires Unregistered(w, t)
    ensures AdmitsNull(Inline(w, t, ctx)) <==> t.Pointer?
  {
    if t.Pointer? {
      NullIffPointer(w, t.elem, ctx);
      NullableAdmitsNull(Inline(w, t.elem, ctx));
      if !t.elem.Pointer? {
        InlineTypes(w, t.elem, ctx);
      }
    }
  }

  lemma NullableAdmitsNull(s: Schema<Sym>)
    ensures s.Ref? || AdmitsNull(s) || |s.facts.types| == 1 ==> AdmitsNull(Nullable(s))
  {
    if s.Ref? {
      assert Nullable(s).facts.places[1] == AnyOf && Nullable(s).kids[1].facts.types == ["null"];
    } else if |s.facts.types| == 1 {
      assert Nullable(s).facts.types[1] == "null";
    }
  }

  lemma InlineTypes(w: World, t: GoType, ctx: Context)
    requires Unregistered(w, t) && !t.Pointer?
    ensures Inline(w, t, ctx).Ref? || |Inline(w, t, ctx).facts.types| == 1
  {
  }

  lemma {:induction false} PointerTypes(w: World, t: GoType, ctx: Context)
    requires Unregistered(w, t) && t.Pointer?
    ensures Inline(w, t, ctx).Node? && |Inline(w, t, ctx).facts.types| != 1
  {
    if t.elem.Pointer? {
      PointerTypes(w, t.elem, ctx);
    } else {
      InlineTypes(w, t.elem, ctx);
    }
  }

  lemma StripNone(w: World, t: GoType, ctx: Context)
    requires Unregistered(w, t) && !t.Pointer?
    ensures RemoveNullability(Inline(w, t, ctx)) == Inline(w, t, ctx)
    ensures Inline(w, t, ctx).Node? ==>
              Inline(w, t, ctx).facts.types[0] != "null" && AnyOf !in Inline(w, t, ctx).facts.places
  {
  }

  lemma StripOne(w: World, t: GoType, ctx: Context)
    requires Unregistered(w, t) && !t.Pointer?
    ensures RemoveNullability(Nullable(Inline(w, t, ctx))) == Inline(w, t, ctx)
  {
    hide Inline;
    var s := Inline(w, t, ctx);
    StripNone(w, t, ctx);
    InlineTypes(w, t, ctx);
    if s.Ref? {
      var none: Schema<Sym> := Scalar("null", []);
      assert Keep([AnyOf], [none]) == [];
      assert [AnyOf, AnyOf][1..] == [AnyOf] && [s, none][1..] == [none];
    } else {
      assert s.facts.types == [s.facts.types[0]];
      var types := s.facts.types + ["null"];
      assert types[1..] == ["null"] && WithoutNull(["null"]) == [] && WithoutNull(types) == s.facts.types;
    }
  }

  /** Stripping null from what a pointer reads as gives what its target reads as. */
  lemma {:induction false} StrippedIsTarget(w: World, t: GoType, ctx: Context)
    requires Unregistered(w, t)
    ensures RemoveNullability(Inline(w, t, ctx)) == Inline(w, Target(t), ctx)
  {
    if t.Pointer? && t.elem.Pointer? {
      StrippedIsTarget(w, t.elem, ctx);
      PointerTypes(w, t.elem, ctx);
    } else if t.Pointer? {
      StripOne(w, t.elem, ctx);
    } else {
      StripNone(w, t, ctx);
    }
  }

  // --- Everything but structs ------------------------------------------------

  /** A node of one type without members, open, with these notes. */
  predicate Plainly<K(==)>(s: Schema<K>, openapiType: string, notes: seq<string>) {
    s == Node(Facts([openapiType], false, [], notes, []), [])
  }

  /** An open node of one type with one part. */
  predicate HoldsOne<K(==)>(s: Schema<K>, openapiType: string, place: Place, part: Schema<K>) {
    && s.Node? && s.facts.types == [openapiType] && !s.facts.closed && s.facts.required == [] && s.facts.notes == []
    && s.facts.places == [place] && s.kids == [part]
  }

  /** What an unregistered type reads as in field position, pointers aside. */
  predicate TypeSays(w: World, t: GoType, ctx: Context, s: Schema<Sym>) {
    match t
    case List(elem) => HoldsOne(s, "array", Items, Inline(w, elem, ctx))
    case Dictionary(elem) => HoldsOne(s, "object", AdditionalProperties, Inline(w, elem, ctx))
    case Named(_, _) =>
      if t in w.defs && w.defs[t].marshals then Plainly(s, "object", []) else s == Ref(Sym(t, ctx), [])
    case Int64 => Plainly(s, "string", ["int64"])
    case Uint64 => Plainly(s, "string", ["uint64"])
    case Basic(openapiType, format) => Plainly(s, openapiType, if |format| > 0 then [format] else [])
    case _ => Plainly(s, "object", [])
  }

  lemma InlineSays(w: World, t: GoType, ctx: Context)
    requires Unregistered(w, t) && !t.Pointer?
    ensures TypeSays(w, t, ctx, Inline(w, t, ctx))
  {
  }

  /** What a component is whose type is no struct. */
  predicate ShapeSays(w: World, shape: Shape, ctx: Context, s: Schema<Sym>) {
    match shape
    case StringKind(enum) => Plainly(s, "string", if enum.Some? then enum.value else [])
    case ListKind(elem) => HoldsOne(s, "array", Items, Inline(w, elem, ctx))
    case DictionaryKind(elem) => HoldsOne(s, "object", AdditionalProperties, Inline(w, elem, ctx))
    case Int64Kind => Plainly(s, "integer", ["int64"])
    case Uint64Kind => Plainly(s, "integer", ["uint64"])
    case InterfaceKind => Plainly(s, "object", [])
    case BasicKind(openapiType, format) => Plainly(s, openapiType, if |format| > 0 then [format] else [])
    case StructKind(_) => true
  }

  /** An alias is what it stands for. */
  lemma OtherBodiesSay(w: World, def: Definition, ctx: Context)
    ensures def.alias.Some? ==> Body(w, def, ctx) == Inline(w, def.alias.value, ctx)
    ensures def.alias.None? && !def.shape.StructKind? ==> ShapeSays(w, def.shape, ctx, Body(w, def, ctx))
  {
  }

  /** A pointer adds null: to the types of what its target reads as, or beside a reference to it. */
  lemma PointerSays(w: World, t: GoType, ctx: Context)
    requires Unregistered(w, t) && t.Pointer? && !t.elem.Pointer?
    ensures var s, target := Inline(w, t, ctx), Inline(w, t.elem, ctx);
            if target.Ref? then
              s == Node(Facts([], false, [], [], [AnyOf, AnyOf]),
                        [target, Node(Facts(["null"], false, [], [], []), [])])
            else s == Node(target.facts.(types := target.facts.types + ["null"]), target.kids)
  {
    InlineTypes(w, t.elem, ctx);
  }

  // --- Stripping null from any schema ----------------------------------------

  predicate IsNullAlone<K>(s: Schema<K>) {
    s.Node? && s.facts.types == ["null"]
  }

  /** No null beside another type, and no null among alternatives, however deep they are nested. */
  predicate NullFree<K>(s: Schema<K>) {
    s.Node? ==>
      && (|s.facts.types| > 1 ==> "null" !in s.facts.types)
      && (|s.facts.places| == |s.kids| ==>
            forall i :: 0 <= i < |s.kids| && s.facts.places[i] == AnyOf ==>
              !IsNullAlone(s.kids[i]) && NullFree(s.kids[i]))
  }

  lemma {:induction false} WithoutNullSays(types: seq<string>)
    ensures "null" !in WithoutNull(types)
  {
    if types != [] {
      WithoutNullSays(types[1..]);
    }
  }

  /** All other types stay, in order. */
  lemma {:induction false} WithoutNullConcat(a: seq<string>, b: seq<string>)
    ensures WithoutNull(a + b) == WithoutNull(a) + WithoutNull(b)
    ensures |a| == 1 && a[0] != "null" ==> WithoutNull(a) == a
  {
    if a == [] {
      assert a + b == b;
    } else {
      assert (a + b)[1..] == a[1..] + b;
      WithoutNullConcat(a[1..], b);
    }
  }

  /** A pair of a place and what is there. */
  ghost predicate At<K>(s: Schema<K>, place: Place, kid: Schema<K>) {
    s.Node? && exists j :: 0 <= j < |s.kids| && j < |s.facts.places| && s.facts.places[j] == place && s.kids[j] == kid
  }

  lemma {:induction false} KeepSays<K>(places: seq<Place>, kids: seq<Schema<K>>)
    requires |places| == |kids|
    ensures forall i :: 0 <= i < |kids| && !(places[i] == AnyOf && IsNullAlone(kids[i])) ==>
              (places[i], kids[i]) in Keep(places, kids)
    ensures forall p :: p in Keep(places, kids) ==> !(p.0 == AnyOf && IsNullAlone(p.1))
  {
    hide IsNullAlone;
    if kids != [] {
      KeepSays(places[1..], kids[1..]);
      NullAlone(kids[0]);
      assert forall i :: 0 < i < |kids| ==> kids[i] == kids[1..][i - 1] && places[i] == places[1..][i - 1];
    }
  }

  lemma NullAlone<K>(s: Schema<K>)
    ensures IsNull(s) == IsNullAlone(s)
  {
  }

  /** Stripping leaves no null, and makes nothing null that was not. */
  lemma {:induction false} StrippedIsNullFree<K>(s: Schema<K>)
    ensures NullFree(RemoveNullability(s))
    ensures !IsNullAlone(s) ==> !IsNullAlone(RemoveNullability(s))
  {
    if s.Node? {
      WithoutNullSays(s.facts.types);
      if |s.facts.places| == |s.kids| && AnyOf in s.facts.places {
        var kept := Keep(s.facts.places, s.kids);
        KeepSays(s.facts.places, s.kids);
        forall i | 0 <= i < |kept| && kept[i].0 == AnyOf
          ensures NullFree(RemoveNullability(kept[i].1)) && !IsNullAlone(RemoveNullability(kept[i].1))
        {
          assert kept[i] in kept;
          StrippedIsNullFree(kept[i].1);
        }
      }
    }
  }

  /** Everything else stays: other parts as they are, alternatives stripped, a lone one in its parent's place. */
  lemma NothingElseStripped<K>(s: Schema<K>, i: nat)
    requires s.Node? && |s.facts.places| == |s.kids| && i < |s.kids|
    ensures var out := RemoveNullability(s);
            if AnyOf !in s.facts.places then out.Node? && out.kids == s.kids && out.facts.places == s.facts.places
            else if s.facts.places[i] != AnyOf then At(out, s.facts.places[i], s.kids[i])
            else
              !IsNullAlone(s.kids[i]) ==>
                At(out, AnyOf, RemoveNullability(s.kids[i])) || out == RemoveNullability(s.kids[i])
  {
    hide RemoveNullability, Keep;
    Unstripped(s);
    if AnyOf in s.facts.places && !(s.facts.places[i] == AnyOf && IsNullAlone(s.kids[i])) {
      var kept := Keep(s.facts.places, s.kids);
      KeepSays(s.facts.places, s.kids);
      var j :| 0 <= j < |kept| && kept[j] == (s.facts.places[i], s.kids[i]);
      var out := RemoveNullability(s);
      if !(|kept| == 1 && kept[0].0 == AnyOf && StrippedTypes(s.facts.types) == []) {
        assert out.facts.places[j] == kept[j].0;
      }
    }
  }

  function StrippedTypes(types: seq<string>): seq<string> {
    if |types| > 1 then WithoutNull(types) else types
  }

  /** One step of stripping. */
  lemma Unstripped<K>(s: Schema<K>)
    requires s.Node? && |s.facts.places| == |s.kids|
    ensures AnyOf !in s.facts.places ==>
              RemoveNullability(s) == Node(s.facts.(types := StrippedTypes(s.facts.types)), s.kids)
    ensures AnyOf in s.facts.places ==>
              var kept, out, types := Keep(s.facts.places, s.kids), RemoveNullability(s), StrippedTypes(s.facts.types);
              if |kept| == 1 && kept[0].0 == AnyOf && types == [] then out == RemoveNullability(kept[0].1)
              else
                && out.Node? && |out.kids| == |out.facts.places| == |kept| && out.facts.types == types
                && forall j :: 0 <= j < |kept| ==>
                     && out.facts.places[j] == kept[j].0
                     && out.kids[j] == if kept[j].0 == AnyOf then RemoveNullability(kept[j].1) else kept[j].1
  {
  }
}
