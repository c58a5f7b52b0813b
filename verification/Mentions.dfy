/**
  What a type mentions: the components that deriving it asks for, including
  those of fields that a later field of the same name replaces.
 */
module Mentions {
  import opened Wrappers
  import opened Schemas
  import opened TypeSchemas

  /** What a type in field position asks for; a registered type has one component for both contexts. */
  function Met(w: World, t: GoType, ctx: Context): set<Sym> {
    match t
    case Pointer(e) => if t in w.known then {} else Met(w, e, ctx)
    case List(e) => Met(w, e, ctx)
    case Dictionary(e) => Met(w, e, ctx)
    case Any => if t in w.known then {Sym(t, InResponse)} else {}
    case Named(_, _) =>
      if t in w.known then {Sym(t, InResponse)}
      else if t in w.defs && w.defs[t].marshals then {}
      else {Sym(t, ctx)}
    case _ => {}
  }

  function FieldMet(w: World, f: Field, ctx: Context): set<Sym> {
    if FieldRole(w, f) in {Embedded, Role.Property} then Met(w, f.typ, ctx) else {}
  }

  function FieldsMet(w: World, fields: seq<Field>, ctx: Context): set<Sym> {
    set i, y | 0 <= i < |fields| && y in FieldMet(w, fields[i], ctx) :: y
  }

  function BodyMet(w: World, def: Definition, ctx: Context): set<Sym> {
    if def.alias.Some? then Met(w, def.alias.value, ctx)
    else
      match def.shape
      case StructKind(fields) => FieldsMet(w, fields, ctx)
      case ListKind(e) => Met(w, e, ctx)
      case DictionaryKind(e) => Met(w, e, ctx)
      case _ => {}
  }

  /** What a component's body asks for; a registered schema asks for nothing. */
  function MentionedBy(w: World, y: Sym): set<Sym> {
    if y.typ in w.known || y.typ !in w.defs then {} else BodyMet(w, w.defs[y.typ], y.ctx)
  }

  ghost predicate MentionWalk(w: World, ys: seq<Sym>) {
    ys != [] && forall i :: 0 <= i < |ys| - 1 ==> ys[i + 1] in MentionedBy(w, ys[i])
  }

  /** The component is asked for, by one of the seeds or on the way from there. */
  ghost predicate MentionedFrom(w: World, seeds: set<Sym>, y: Sym) {
    exists ys :: MentionWalk(w, ys) && ys[0] in seeds && ys[|ys| - 1] == y
  }

  lemma SeedIsMentioned(w: World, seeds: set<Sym>, y: Sym)
    requires y in seeds
    ensures MentionedFrom(w, seeds, y)
  {
    assert MentionWalk(w, [y]);
  }

  lemma MentionedMore(w: World, seeds: set<Sym>, more: set<Sym>, y: Sym)
    requires MentionedFrom(w, seeds, y) && seeds <= more
    ensures MentionedFrom(w, more, y)
  {
    hide MentionWalk;
  }

  /** What a body's mentions lead to, its component leads to. */
  lemma MentionedThrough(w: World, x: Sym, y: Sym)
    requires MentionedFrom(w, MentionedBy(w, x), y)
    ensures MentionedFrom(w, {x}, y)
  {
    hide MentionedBy;
    var ys :| MentionWalk(w, ys) && ys[0] in MentionedBy(w, x) && ys[|ys| - 1] == y;
    var more := [x] + ys;
    assert forall i :: 0 < i < |more| ==> more[i] == ys[i - 1];
    assert MentionWalk(w, more) && more[0] == x && more[|more| - 1] == y;
  }

  lemma {:induction false} InlineIsMet(w: World, t: GoType, ctx: Context)
    requires WellFormed(w)
    ensures Refs(Inline(w, t, ctx)) <= Met(w, t, ctx)
  {
    match t
    case Pointer(e) => InlineIsMet(w, e, ctx);
    case List(e) => InlineIsMet(w, e, ctx);
    case Dictionary(e) => InlineIsMet(w, e, ctx);
    case _ =>
  }

  /** A body refers to nothing that it does not mention. */
  lemma BodyIsMet(w: World, def: Definition, ctx: Context)
    requires WellFormed(w)
    ensures Refs(Body(w, def, ctx)) <= BodyMet(w, def, ctx)
  {
    if def.alias.Some? {
      InlineIsMet(w, def.alias.value, ctx);
    } else {
      match def.shape
      case StructKind(fields) =>
        var inlines := FieldInlines(w, fields, ctx);
        forall i | 0 <= i < |fields|
          ensures Refs(inlines[i]) <= FieldsMet(w, fields, ctx)
        {
          InlineIsMet(w, fields[i].typ, ctx);
          assert Refs(inlines[i]) <= FieldMet(w, fields[i], ctx);
        }
        CollectWithin(w, fields, inlines, FieldsMet(w, fields, ctx));
      case ListKind(e) => InlineIsMet(w, e, ctx);
      case DictionaryKind(e) => InlineIsMet(w, e, ctx);
      case _ =>
    }
  }
}
