/**
  The schema generator: derives components on demand, reserving a component's
  slot before descending into its fields so that recursive types terminate.
 */
module Derivation {
  import opened Wrappers
  import opened Schemas
  import opened TypeSchemas
  import opened Mentions

  datatype Violation =
    | UnregisteredMarshaler(typ: GoType)
    | UnregisteredEnum(typ: GoType)
    | EmbedsRegistered(owner: GoType, embedded: GoType)
    | RequestEmbeds(owner: GoType, embedded: GoType)
    | UnownedComponent(key: Key)

  function KeyIn(ctx: Context, id: nat): Key {
    if ctx.InRequest? then Request(id) else Base(id)
  }

  function ContextOf(k: Key): Context {
    if k.Request? then InRequest else InResponse
  }

  /** The component key a (type, context) pair has under an id assignment; 0 is never assigned. */
  function Slot(ids: map<GoType, nat>): Sym -> Key {
    (y: Sym) => KeyIn(y.ctx, if y.typ in ids then ids[y.typ] else 0)
  }

  // --- What must be reported -------------------------------------------------

  function InlineFaults(w: World, t: GoType): set<Violation> {
    match t
    case Pointer(e) => if t in w.known then {} else InlineFaults(w, e)
    case List(e) => InlineFaults(w, e)
    case Dictionary(e) => InlineFaults(w, e)
    case Named(_, _) =>
      if t !in w.known && t in w.defs && w.defs[t].marshals then {UnregisteredMarshaler(t)} else {}
    case _ => {}
  }

  function FieldFaults(w: World, owner: GoType, f: Field, ctx: Context): set<Violation> {
    match FieldRole(w, f)
    case Ignored => {}
    case Rejected => {EmbedsRegistered(owner, Embeds(f))}
    case Embedded =>
      InlineFaults(w, f.typ) + if ctx.InRequest? then {RequestEmbeds(owner, Embeds(f))} else {}
    case Property => InlineFaults(w, f.typ)
  }

  function FieldsFaults(w: World, owner: GoType, fields: seq<Field>, ctx: Context): set<Violation> {
    set i, v | 0 <= i < |fields| && v in FieldFaults(w, owner, fields[i], ctx) :: v
  }

  /** Every violation the derivation of one component must record. */
  function BodyFaults(w: World, t: GoType, ctx: Context): set<Violation>
    requires t in w.defs
  {
    var def := w.defs[t];
    if def.alias.Some? then InlineFaults(w, def.alias.value)
    else
      match def.shape
      case StringKind(enum) => if enum.None? then {UnregisteredEnum(t)} else {}
      case StructKind(fields) => FieldsFaults(w, t, fields, ctx)
      case ListKind(e) => InlineFaults(w, e)
      case DictionaryKind(e) => InlineFaults(w, e)
      case _ => {}
  }

  ghost predicate Extends<K, V>(b: map<K, V>, a: map<K, V>) {
    forall k :: k in a ==> k in b && b[k] == a[k]
  }

  // --- The generator's state -------------------------------------------------

  datatype State = State(
    ids: map<GoType, nat>, owner: map<Key, GoType>, schemas: map<Key, Schema<Key>>, violations: set<Violation>)

  const EMPTY_STATE := State(map[], map[], map[], {})

  /** Every one of them has an id and a reserved slot. */
  ghost predicate AllOwned(st: State, ys: set<Sym>) {
    forall y :: y in ys ==> y.typ in st.ids && Slot(st.ids)(y) in st.owner
  }

  /** Every reference in `s` has an id and a reserved slot. */
  ghost predicate Covered(st: State, s: Schema<Sym>) {
    AllOwned(st, Refs(s))
  }

  /** What a slot owned by `t` must hold, before references become component keys. */
  ghost function Content(w: World, t: GoType, ctx: Context): Schema<Sym> {
    if t in w.known then w.known[t] else if t in w.defs then Body(w, w.defs[t], ctx) else Scalar("object", [])
  }

  ghost function ContentFaults(w: World, t: GoType, ctx: Context): set<Violation> {
    if t in w.known || t !in w.defs then {} else BodyFaults(w, t, ctx)
  }

  /** `s` is the spelling of `content` in component keys, with every fault reported. */
  ghost predicate Holds(st: State, content: Schema<Sym>, faults: set<Violation>, s: Schema<Key>) {
    && Covered(st, content)
    && s == Rename(content, Slot(st.ids))
    && faults <= st.violations
  }

  ghost predicate SlotFilled(w: World, st: State, k: Key)
    requires k in st.owner && k in st.schemas
  {
    Holds(st, Content(w, st.owner[k], ContextOf(k)), ContentFaults(w, st.owner[k], ContextOf(k)), st.schemas[k])
  }

  /** One id per type, one (type, context) per slot, and every filled slot holds its owner's body. */
  ghost predicate ValidState(w: World, st: State) {
    && (forall t, u :: t in st.ids && u in st.ids && st.ids[t] == st.ids[u] ==> t == u)
    && st.schemas.Keys <= st.owner.Keys
    && (forall k :: k in st.owner ==> OwnerFits(w, st, k))
    && (forall k :: k in st.schemas ==> SlotFilled(w, st, k))
  }

  ghost predicate OwnerFits(w: World, st: State, k: Key)
    requires k in st.owner
  {
    var t := st.owner[k];
    && (t.Any? || t.Named?)
    && t in st.ids
    && st.ids[t] == k.id
    && (t in w.known ==> k.Base? && k in st.schemas)
    && (t !in w.known ==> t in w.defs && !w.defs[t].marshals)
  }

  ghost function PendingIn(st: State): set<Key> {
    st.owner.Keys - st.schemas.Keys
  }

  /** The defined types not yet reserved in a context: the bound on any descent. */
  ghost function UnreservedIn(w: World, st: State, ctx: Context): set<GoType> {
    w.defs.Keys - set k | k in st.owner && ContextOf(k) == ctx :: st.owner[k]
  }

  /**
    State only grows: no id, owner, body or violation is lost, and outside the
    context being derived only registry components appear.
   */
  ghost predicate Grows(w: World, st: State, st': State, ctx: Context) {
    && (forall k :: k in st'.owner && k !in st.owner ==> ContextOf(k) == ctx || st'.owner[k] in w.known)
    && Extends(st'.ids, st.ids)
    && Extends(st'.owner, st.owner)
    && Extends(st'.schemas, st.schemas)
    && st.violations <= st'.violations
    && UnreservedIn(w, st', ctx) <= UnreservedIn(w, st, ctx)
  }

  /** What a slot holds survives growth. */
  lemma HoldsGrows(st: State, st': State, content: Schema<Sym>, faults: set<Violation>, s: Schema<Key>)
    requires Holds(st, content, faults, s)
    requires Extends(st'.ids, st.ids) && Extends(st'.owner, st.owner) && st.violations <= st'.violations
    ensures Holds(st', content, faults, s)
  {
    RenameAgree(content, Slot(st.ids), Slot(st'.ids));
  }

  lemma HoldsNullable(st: State, content: Schema<Sym>, faults: set<Violation>, s: Schema<Key>)
    requires Holds(st, content, faults, s)
    ensures Holds(st, Nullable(content), faults, Nullable(s))
  {
    RenameNullable(content, Slot(st.ids));
  }

  lemma HoldsRef(st: State, y: Sym)
    requires y.typ in st.ids && Slot(st.ids)(y) in st.owner
    ensures Holds(st, Ref(y, []), {}, Ref(Slot(st.ids)(y), []))
  {
  }

  lemma HoldsHolding(st: State, openapiType: string, place: Place, content: Schema<Sym>, faults: set<Violation>,
                     s: Schema<Key>)
    requires Holds(st, content, faults, s)
    ensures Holds(st, Holding(openapiType, place, content), faults, Holding(openapiType, place, s))
  {
    assert Rename(Holding(openapiType, place, content), Slot(st.ids)).kids == [s];
  }

  ghost predicate FieldsHold(w: World, st: State, t: GoType, fields: seq<Field>, ctx: Context, ss: seq<Schema<Key>>) {
    && |ss| == |fields|
    && forall i :: 0 <= i < |ss| ==>
         Holds(st, FieldInline(w, fields[i], ctx), FieldFaults(w, t, fields[i], ctx), ss[i])
  }

  lemma FieldsGrow(w: World, st: State, st': State, t: GoType, fields: seq<Field>, ctx: Context, ss: seq<Schema<Key>>)
    requires FieldsHold(w, st, t, fields, ctx, ss)
    requires Extends(st'.ids, st.ids) && Extends(st'.owner, st.owner) && st.violations <= st'.violations
    ensures FieldsHold(w, st', t, fields, ctx, ss)
  {
    forall i | 0 <= i < |ss|
      ensures Holds(st', FieldInline(w, fields[i], ctx), FieldFaults(w, t, fields[i], ctx), ss[i])
    {
      HoldsGrows(st, st', FieldInline(w, fields[i], ctx), FieldFaults(w, t, fields[i], ctx), ss[i]);
    }
  }

  /** A struct assembled from its fields' derived schemas is its reference body. */
  lemma StructHolds(w: World, st: State, t: GoType, ctx: Context, ss: seq<Schema<Key>>)
    requires t in w.defs && w.defs[t].shape.StructKind? && w.defs[t].alias.None?
    requires FieldsHold(w, st, t, w.defs[t].shape.fields, ctx, ss)
    ensures Holds(st, Body(w, w.defs[t], ctx), BodyFaults(w, t, ctx),
                  StructOf(Collect(w, w.defs[t].shape.fields, ss), ctx))
  {
    hide Inline, FieldInline, FieldFaults, AddField, Collect, Rename, StructOf;
    var fields := w.defs[t].shape.fields;
    var inlines := FieldInlines(w, fields, ctx);
    assert Renamed(inlines, Slot(st.ids)) == ss;
    RenameCollect(w, fields, inlines, Slot(st.ids));
    RenameStructOf(Collect(w, fields, inlines), ctx, Slot(st.ids));
    var bound := set i, y | 0 <= i < |inlines| && y in Refs(inlines[i]) :: y;
    assert forall y :: y in bound ==> y.typ in st.ids && Slot(st.ids)(y) in st.owner;
    CollectWithin(w, fields, inlines, bound);
    StructWithin(Collect(w, fields, inlines), ctx, bound);
    assert Refs(Body(w, w.defs[t], ctx)) <= bound;
  }

  lemma SlotsGrow(w: World, st: State, st': State)
    requires ValidState(w, st)
    requires Extends(st'.ids, st.ids) && Extends(st'.owner, st.owner) && st.violations <= st'.violations
    requires st'.schemas == st.schemas
    ensures forall k :: k in st'.schemas ==> SlotFilled(w, st', k)
  {
    forall k | k in st'.schemas
      ensures SlotFilled(w, st', k)
    {
      assert SlotFilled(w, st, k);
      HoldsGrows(st, st', Content(w, st.owner[k], ContextOf(k)), ContentFaults(w, st.owner[k], ContextOf(k)),
                 st.schemas[k]);
    }
  }

  lemma {:induction false} AssignId(w: World, st: State, t: GoType, id: nat)
    requires ValidState(w, st) && t !in st.ids && forall u :: u in st.ids ==> st.ids[u] != id
    ensures var st' := st.(ids := st.ids[t := id]);
            ValidState(w, st') && forall ctx :: Grows(w, st, st', ctx)
  {
    var st' := st.(ids := st.ids[t := id]);
    SlotsGrow(w, st, st');
    forall k | k in st'.owner
      ensures OwnerFits(w, st', k)
    {
      assert OwnerFits(w, st, k);
    }
  }

  lemma Report(w: World, st: State, v: Violation)
    requires ValidState(w, st)
    ensures var st' := st.(violations := st.violations + {v});
            ValidState(w, st') && forall ctx :: Grows(w, st, st', ctx)
  {
    var st' := st.(violations := st.violations + {v});
    SlotsGrow(w, st, st');
    forall k | k in st'.owner
      ensures OwnerFits(w, st', k)
    {
      assert OwnerFits(w, st, k);
    }
  }

  /** Reserving a free slot keeps the state valid and uses up one unreserved type. */
  lemma ReserveSlot(w: World, st: State, t: GoType, ctx: Context)
    requires ValidState(w, st) && t.Named? && t in st.ids && KeyIn(ctx, st.ids[t]) !in st.owner
    requires t !in w.known && t in w.defs && !w.defs[t].marshals
    ensures var st' := st.(owner := st.owner[KeyIn(ctx, st.ids[t]) := t]);
            && ValidState(w, st')
            && Grows(w, st, st', ctx)
            && UnreservedIn(w, st', ctx) < UnreservedIn(w, st, ctx)
            && PendingIn(st') == PendingIn(st) + {KeyIn(ctx, st.ids[t])}
  {
    var key := KeyIn(ctx, st.ids[t]);
    var st' := st.(owner := st.owner[key := t]);
    SlotsGrow(w, st, st');
    forall k | k in st'.owner
      ensures OwnerFits(w, st', k)
    {
      if k != key {
        assert OwnerFits(w, st, k);
      }
    }
    assert t in UnreservedIn(w, st, ctx) by {
      forall k | k in st.owner && ContextOf(k) == ctx
        ensures st.owner[k] != t
      {
        assert OwnerFits(w, st, k);
      }
    }
    assert st'.owner[key] == t && ContextOf(key) == ctx;
  }

  function Filled(st: State, t: GoType, key: Key, s: Schema<Key>): State {
    st.(owner := st.owner[key := t], schemas := st.schemas[key := s])
  }

  lemma FilledSlots(w: World, st: State, t: GoType, key: Key, s: Schema<Key>)
    requires ValidState(w, st) && key !in st.schemas && (key in st.owner ==> st.owner[key] == t)
    requires Holds(st, Content(w, t, ContextOf(key)), ContentFaults(w, t, ContextOf(key)), s)
    ensures forall k :: k in Filled(st, t, key, s).schemas ==>
              k in Filled(st, t, key, s).owner && SlotFilled(w, Filled(st, t, key, s), k)
  {
    var st' := Filled(st, t, key, s);
    forall k | k in st'.schemas
      ensures k in st'.owner && SlotFilled(w, st', k)
    {
      assert k != key ==> SlotFilled(w, st, k);
      var o := st'.owner[k];
      HoldsGrows(st, st', Content(w, o, ContextOf(k)), ContentFaults(w, o, ContextOf(k)), st'.schemas[k]);
    }
  }

  /** Filling a free or reserved slot with its owner's body keeps the state valid. */
  lemma FillSlot(w: World, st: State, t: GoType, key: Key, s: Schema<Key>)
    requires ValidState(w, st) && key !in st.schemas && (key in st.owner ==> st.owner[key] == t)
    requires (t.Any? || t.Named?) && t in st.ids && st.ids[t] == key.id
    requires t in w.known ==> key.Base?
    requires t !in w.known ==> t in w.defs && !w.defs[t].marshals
    requires Holds(st, Content(w, t, ContextOf(key)), ContentFaults(w, t, ContextOf(key)), s)
    ensures ValidState(w, Filled(st, t, key, s))
  {
    var st' := Filled(st, t, key, s);
    FilledSlots(w, st, t, key, s);
    forall k | k in st'.owner
      ensures OwnerFits(w, st', k)
    {
      if k != key {
        assert OwnerFits(w, st, k);
      }
    }
  }

  lemma FillGrows(w: World, st: State, t: GoType, key: Key, s: Schema<Key>, ctx: Context)
    requires key !in st.schemas && (key in st.owner ==> st.owner[key] == t)
    requires ContextOf(key) == ctx || t in w.known
    ensures Grows(w, st, Filled(st, t, key, s), ctx)
    ensures PendingIn(Filled(st, t, key, s)) == PendingIn(st) - {key}
  {
  }

  lemma FreeRegistrySlot(w: World, st: State, t: GoType, key: Key)
    requires ValidState(w, st) && t in w.known && t in st.ids && key == Base(st.ids[t]) && key !in st.schemas
    ensures key !in st.owner
  {
    assert key in st.owner ==> OwnerFits(w, st, key);
  }

  lemma GrowsTransitive(w: World, a: State, b: State, c: State, ctx: Context)
    requires Grows(w, a, b, ctx) && Grows(w, b, c, ctx)
    ensures Grows(w, a, c, ctx)
  {
  }

  lemma OwnerIsDerivable(w: World, st: State, k: Key)
    requires ValidState(w, st) && k in st.owner
    ensures OwnerFits(w, st, k)
  {
  }

  lemma OwnerFaultless(w: World, t: GoType)
    requires t.Any? || t.Named?
    requires t !in w.known ==> t in w.defs && !w.defs[t].marshals
    ensures InlineFaults(w, t) == {}
  {
  }

  lemma PendingStays(start: State, reserved: State, derived: State, t: GoType, key: Key)
    requires reserved == start.(owner := start.owner[key := t]) && key !in start.owner
             && start.schemas.Keys <= start.owner.Keys
    requires PendingIn(derived) == PendingIn(reserved)
    ensures key in derived.owner && key !in derived.schemas
  {
    assert key in PendingIn(derived);
  }

  lemma FilledAreOwned(w: World, st: State)
    requires ValidState(w, st)
    ensures st.schemas.Keys <= st.owner.Keys
  {
  }

  /** Reserve, descend, fill: the whole protocol around one component keeps the state valid and settles its slot. */
  lemma FinishComponent(w: World, start: State, reserved: State, derived: State,
                        t: GoType, key: Key, built: Schema<Key>, ctx: Context)
    requires t.Named? && t in start.ids && key == KeyIn(ctx, start.ids[t]) && key !in start.owner
    requires t !in w.known && t in w.defs && !w.defs[t].marshals
    requires reserved == start.(owner := start.owner[key := t]) && start.schemas.Keys <= start.owner.Keys
    requires Grows(w, start, reserved, ctx) && Grows(w, reserved, derived, ctx)
    requires ValidState(w, derived) && PendingIn(derived) == PendingIn(reserved)
    requires Holds(derived, Body(w, w.defs[t], ctx), BodyFaults(w, t, ctx), built)
    ensures var done := Filled(derived, t, key, built);
            && ValidState(w, done)
            && Grows(w, start, done, ctx)
            && PendingIn(done) == PendingIn(start)
            && key in done.owner && done.owner == derived.owner
  {
    hide Body, BodyFaults, Rename, Refs, ValidState;
    assert key in PendingIn(reserved);
    assert reserved.owner[key] == t && derived.owner[key] == t && derived.ids[t] == key.id;
    FillSlot(w, derived, t, key, built);
    FillGrows(w, derived, t, key, built, ctx);
    GrowsTransitive(w, start, reserved, derived, ctx);
    GrowsTransitive(w, start, derived, Filled(derived, t, key, built), ctx);
  }

  // --- Everything mentioned is derived, and nothing else ---------------------

  /** Every mention of a body has its component, even that of a field that a later one of the same name replaces. */
  ghost predicate MentionsCovered(w: World, st: State, t: GoType, ctx: Context) {
    AllOwned(st, MentionedBy(w, Sym(t, ctx)))
  }

  ghost predicate MentionsHeld(w: World, st: State) {
    forall k :: k in st.schemas && k in st.owner ==> MentionsCovered(w, st, st.owner[k], ContextOf(k))
  }

  /** A violation that deriving some slot's body must record. */
  ghost predicate OwnedFault(w: World, st: State, v: Violation) {
    exists k :: k in st.owner && v in ContentFaults(w, st.owner[k], ContextOf(k))
  }

  /**
    Going from `a` to `b` has given every seed its component, and nothing came
    about without a reason: a new slot is mentioned from a seed, and a new
    violation is one of the given faults or that of some slot's body.
   */
  ghost predicate Accounts(w: World, a: State, b: State, faults: set<Violation>, seeds: set<Sym>) {
    && AllOwned(b, seeds)
    && (forall k :: k in b.owner && k !in a.owner ==> MentionedFrom(w, seeds, Sym(b.owner[k], ContextOf(k))))
    && (forall v :: v in b.violations ==> v in a.violations || v in faults || OwnedFault(w, b, v))
  }

  lemma OwnedFaultGrows(w: World, a: State, b: State, v: Violation)
    requires OwnedFault(w, a, v) && Extends(b.owner, a.owner)
    ensures OwnedFault(w, b, v)
  {
    hide ContentFaults;
    var k :| k in a.owner && v in ContentFaults(w, a.owner[k], ContextOf(k));
    assert k in b.owner && b.owner[k] == a.owner[k];
  }

  /** Reasons add up. */
  lemma AccountsFurther(w: World, a: State, b: State, c: State, f: set<Violation>, x: set<Sym>,
                        g: set<Violation>, y: set<Sym>)
    requires Accounts(w, a, b, f, x) && Accounts(w, b, c, g, y)
    requires Extends(c.ids, b.ids) && Extends(c.owner, b.owner)
    ensures Accounts(w, a, c, f + g, x + y)
  {
    hide MentionedFrom, OwnedFault;
    forall k | k in c.owner && k !in a.owner
      ensures MentionedFrom(w, x + y, Sym(c.owner[k], ContextOf(k)))
    {
      if k in b.owner {
        MentionedMore(w, x, x + y, Sym(c.owner[k], ContextOf(k)));
      } else {
        MentionedMore(w, y, x + y, Sym(c.owner[k], ContextOf(k)));
      }
    }
    forall v | v in c.violations
      ensures v in a.violations || v in f + g || OwnedFault(w, c, v)
    {
      if v in b.violations && OwnedFault(w, b, v) {
        OwnedFaultGrows(w, b, c, v);
      }
    }
  }

  /** A component's own slot and body account for everything that building it brings about. */
  lemma ComponentAccounts(w: World, start: State, reserved: State, derived: State, t: GoType, key: Key, ctx: Context,
                          built: Schema<Key>)
    requires t !in w.known && t in w.defs && key == KeyIn(ctx, key.id) && t in start.ids && start.ids[t] == key.id
    requires reserved == start.(owner := start.owner[key := t]) && Extends(derived.owner, reserved.owner)
             && Extends(derived.ids, reserved.ids)
    requires Accounts(w, reserved, derived, BodyFaults(w, t, ctx), MentionedBy(w, Sym(t, ctx)))
    ensures Accounts(w, start, Filled(derived, t, key, built), {}, {Sym(t, ctx)})
    ensures MentionsCovered(w, derived, t, ctx)
  {
    hide MentionedFrom, BodyFaults, BodyMet;
    var done := Filled(derived, t, key, built);
    assert reserved.owner[key] == t && derived.owner[key] == t && done.owner == derived.owner;
    forall k | k in done.owner && k !in start.owner
      ensures MentionedFrom(w, {Sym(t, ctx)}, Sym(done.owner[k], ContextOf(k)))
    {
      if k == key {
        SeedIsMentioned(w, {Sym(t, ctx)}, Sym(t, ctx));
      } else {
        MentionedThrough(w, Sym(t, ctx), Sym(done.owner[k], ContextOf(k)));
      }
    }
    forall v | v in done.violations
      ensures v in start.violations || OwnedFault(w, done, v)
    {
      if v in BodyFaults(w, t, ctx) {
        assert v in ContentFaults(w, done.owner[key], ContextOf(key));
      } else if v !in start.violations {
        OwnedFaultGrows(w, derived, done, v);
      }
    }
  }

  lemma NothingAccounted(w: World, st: State, t: GoType, ctx: Context)
    ensures Accounts(w, st, st, FieldsFaults(w, t, [], ctx), FieldsMet(w, [], ctx))
  {
  }

  lemma StructFaults(w: World, t: GoType, ctx: Context)
    requires t in w.defs && w.defs[t].shape.StructKind? && w.defs[t].alias.None?
    ensures BodyFaults(w, t, ctx) == FieldsFaults(w, t, w.defs[t].shape.fields, ctx)
    ensures BodyMet(w, w.defs[t], ctx) == FieldsMet(w, w.defs[t].shape.fields, ctx)
  {
  }

  lemma GrowsExtends(w: World, st: State, st': State, ctx: Context)
    requires Grows(w, st, st', ctx)
    ensures Extends(st'.ids, st.ids) && Extends(st'.owner, st.owner) && st.violations <= st'.violations
  {
  }

  lemma NextField(w: World, t: GoType, fields: seq<Field>, ctx: Context, i: nat)
    requires i < |fields|
    ensures FieldsFaults(w, t, fields[..i + 1], ctx)
            == FieldsFaults(w, t, fields[..i], ctx) + FieldFaults(w, t, fields[i], ctx)
    ensures FieldsMet(w, fields[..i + 1], ctx) == FieldsMet(w, fields[..i], ctx) + FieldMet(w, fields[i], ctx)
  {
    hide FieldFaults, FieldMet;
    assert forall j :: 0 <= j < i ==> fields[..i + 1][j] == fields[..i][j];
    assert fields[..i + 1][i] == fields[i];
  }

  lemma CoverGrows(w: World, st: State, st': State, t: GoType, ctx: Context)
    requires MentionsCovered(w, st, t, ctx) && Extends(st'.ids, st.ids) && Extends(st'.owner, st.owner)
    ensures MentionsCovered(w, st', t, ctx)
  {
  }

  lemma MentionsGrow(w: World, st: State, st': State)
    requires MentionsHeld(w, st) && st.schemas.Keys <= st.owner.Keys
    requires Extends(st'.ids, st.ids) && Extends(st'.owner, st.owner) && st'.schemas == st.schemas
    ensures MentionsHeld(w, st')
  {
    hide MentionsCovered;
    forall k | k in st'.schemas && k in st'.owner
      ensures MentionsCovered(w, st', st'.owner[k], ContextOf(k))
    {
      CoverGrows(w, st, st', st.owner[k], ContextOf(k));
    }
  }

  lemma MentionsFill(w: World, st: State, t: GoType, key: Key, s: Schema<Key>)
    requires MentionsHeld(w, st) && st.schemas.Keys <= st.owner.Keys && key !in st.schemas
             && (key in st.owner ==> st.owner[key] == t)
    requires MentionsCovered(w, st, t, ContextOf(key))
    ensures MentionsHeld(w, Filled(st, t, key, s))
  {
    hide MentionsCovered;
    var st' := Filled(st, t, key, s);
    forall k | k in st'.schemas && k in st'.owner
      ensures MentionsCovered(w, st', st'.owner[k], ContextOf(k))
    {
      CoverGrows(w, st, st', st'.owner[k], ContextOf(k));
    }
  }

  // --- Settled states --------------------------------------------------------

  /** Once nothing is pending, every reference names a filled slot. */
  lemma SettledResolved(w: World, st: State, content: Schema<Sym>, faults: set<Violation>, s: Schema<Key>)
    requires ValidState(w, st) && PendingIn(st) == {}
    requires Holds(st, content, faults, s)
    ensures Resolved(st.schemas, [s])
  {
    forall k | k in st.owner
      ensures k in st.schemas
    {
      assert k !in PendingIn(st);
    }
    RenameRefs(content, Slot(st.ids));
    forall k | k in st.schemas
      ensures Refs(st.schemas[k]) <= st.schemas.Keys
    {
      assert SlotFilled(w, st, k);
      RenameRefs(Content(w, st.owner[k], ContextOf(k)), Slot(st.ids));
    }
  }

  /** Where a request body's reference is re-pointed: owned, structurally derived components move to their variant. */
  function VariantOf(w: World, owner: map<Key, GoType>): Key -> Key {
    (k: Key) => if k.Base? && k in owner && owner[k] !in w.known then Request(k.id) else k
  }

  /** The variant of an owned key has a slot of its own; an unowned key was reported. */
  ghost predicate Redirected(w: World, st: State, owner: map<Key, GoType>, k: Key) {
    && (k.Base? && k !in st.owner ==> UnownedComponent(k) in st.violations)
    && (k in owner ==> VariantOf(w, owner)(k) in st.owner)
  }

  /** `out` is `s` re-pointed at request variants, all of which have slots. */
  ghost predicate Pointed(w: World, st: State, owner: map<Key, GoType>, s: Schema<Key>, out: Schema<Key>) {
    && out == Rename(s, VariantOf(w, owner))
    && forall k :: k in Refs(s) ==> Redirected(w, st, owner, k)
  }

  lemma PointedGrows(w: World, st: State, st': State, owner: map<Key, GoType>, s: Schema<Key>, out: Schema<Key>)
    requires Pointed(w, st, owner, s, out) && Grows(w, st, st', InRequest)
    ensures Pointed(w, st', owner, s, out)
  {
    forall k | k in Refs(s)
      ensures Redirected(w, st', owner, k)
    {
      assert Redirected(w, st, owner, k);
    }
  }

  /** Deriving request components in between changes no re-pointing decision. */
  lemma PointedFromStart(w: World, start: State, before: State, st: State, s: Schema<Key>, out: Schema<Key>)
    requires Grows(w, start, before, InRequest)
    requires Pointed(w, st, before.owner, s, out)
    ensures Pointed(w, st, start.owner, s, out)
  {
    forall k | k in Refs(s)
      ensures Redirected(w, st, start.owner, k) && VariantOf(w, start.owner)(k) == VariantOf(w, before.owner)(k)
    {
      assert Redirected(w, st, before.owner, k);
    }
    RenameAgree(s, VariantOf(w, start.owner), VariantOf(w, before.owner));
  }

  ghost predicate AllPointed(w: World, st: State, owner: map<Key, GoType>, ss: seq<Schema<Key>>,
                             outs: seq<Schema<Key>>) {
    |outs| == |ss| && forall i :: 0 <= i < |ss| ==> Pointed(w, st, owner, ss[i], outs[i])
  }

  lemma PointedNext(w: World, start: State, before: State, st: State,
                    ss: seq<Schema<Key>>, outs: seq<Schema<Key>>, s: Schema<Key>, out: Schema<Key>)
    requires Grows(w, start, before, InRequest) && Grows(w, before, st, InRequest)
    requires AllPointed(w, before, start.owner, ss, outs)
    requires Pointed(w, st, before.owner, s, out)
    ensures Grows(w, start, st, InRequest)
    ensures AllPointed(w, st, start.owner, ss + [s], outs + [out])
  {
    GrowsTransitive(w, start, before, st, InRequest);
    forall i | 0 <= i < |ss|
      ensures Pointed(w, st, start.owner, ss[i], outs[i])
    {
      PointedGrows(w, before, st, start.owner, ss[i], outs[i]);
    }
    PointedFromStart(w, start, before, st, s, out);
  }

  lemma PointedNode(w: World, st: State, owner: map<Key, GoType>, s: Schema<Key>, outs: seq<Schema<Key>>)
    requires s.Node? && AllPointed(w, st, owner, s.kids, outs)
    ensures Pointed(w, st, owner, s, Node(s.facts, outs))
  {
    assert Rename(s, VariantOf(w, owner)).kids == outs;
    forall k | k in Refs(s)
      ensures Redirected(w, st, owner, k)
    {
      var i :| 0 <= i < |s.kids| && k in Refs(s.kids[i]);
      assert Pointed(w, st, owner, s.kids[i], outs[i]);
    }
  }

  /** What re-pointing these keys asks for: the request components of their owners. */
  function VariantSeeds(w: World, owner: map<Key, GoType>, ks: set<Key>): set<Sym> {
    set k, y | k in ks && k.Base? && k in owner && y in Met(w, owner[k], InRequest) :: y
  }

  function KidRefsOf(kids: seq<Schema<Key>>): set<Key> {
    set i, k | 0 <= i < |kids| && k in Refs(kids[i]) :: k
  }

  lemma KidRefsNext(kids: seq<Schema<Key>>, i: nat)
    requires i < |kids|
    ensures KidRefsOf(kids[..i + 1]) == KidRefsOf(kids[..i]) + Refs(kids[i])
  {
    hide Refs;
    assert forall j :: 0 <= j < i ==> kids[..i + 1][j] == kids[..i][j];
    assert kids[..i + 1][i] == kids[i];
  }

  lemma NothingPointed(w: World, st: State)
    ensures Accounts(w, st, st, {}, VariantSeeds(w, st.owner, KidRefsOf([])))
  {
  }

  /** One more sub-schema is accounted for, where all that is referred to is owned. */
  lemma PointedAccounts(w: World, start: State, before: State, st: State, done: set<Key>, more: set<Key>)
    requires Grows(w, start, before, InRequest) && Grows(w, before, st, InRequest)
    requires done + more <= start.owner.Keys
    requires Accounts(w, start, before, {}, VariantSeeds(w, start.owner, done))
    requires Accounts(w, before, st, {}, VariantSeeds(w, before.owner, more))
    ensures Accounts(w, start, st, {}, VariantSeeds(w, start.owner, done + more))
  {
    hide Accounts, Met;
    var none: set<Violation> := {};
    assert none + none == none;
    assert VariantSeeds(w, before.owner, more) == VariantSeeds(w, start.owner, more);
    assert VariantSeeds(w, start.owner, done + more)
           == VariantSeeds(w, start.owner, done) + VariantSeeds(w, start.owner, more);
    AccountsFurther(w, start, before, st, {}, VariantSeeds(w, start.owner, done), {},
                    VariantSeeds(w, start.owner, more));
  }

  lemma RegisteredHolds(w: World, st: State, t: GoType, s: Schema<Key>)
    requires WellFormed(w) && t in w.known && s == Rename(w.known[t], Slot(st.ids))
    ensures Holds(st, w.known[t], {}, s)
  {
  }

  /** Storing a registry type's component, for the first time. */
  lemma FillRegistered(w: World, st: State, t: GoType, s: Schema<Key>, ctx: Context)
    requires ValidState(w, st) && MentionsHeld(w, st) && t in w.known && (t.Any? || t.Named?) && t in st.ids
    requires Base(st.ids[t]) !in st.schemas && Holds(st, w.known[t], {}, s)
    ensures var done := Filled(st, t, Base(st.ids[t]), s);
            && ValidState(w, done) && MentionsHeld(w, done) && Grows(w, st, done, ctx)
            && PendingIn(done) == PendingIn(st) && Holds(done, w.known[t], {}, s)
            && Accounts(w, st, done, {}, {Sym(t, InResponse)})
  {
    hide ValidState, MentionsHeld, Holds, MentionedFrom, SlotFilled;
    var key := Base(st.ids[t]);
    var done := Filled(st, t, key, s);
    FreeRegistrySlot(w, st, t, key);
    FillSlot(w, st, t, key, s);
    FillGrows(w, st, t, key, s, ctx);
    FilledAreOwned(w, st);
    MentionsFill(w, st, t, key, s);
    HoldsGrows(st, done, w.known[t], {}, s);
    SeedIsMentioned(w, {Sym(t, InResponse)}, Sym(t, InResponse));
  }

  class SchemaGenerator {
    const world: World
    var schemas: map<Key, Schema<Key>>
    var schemaOwner: map<Key, GoType>
    var componentIDs: map<GoType, nat>
    var nextID: nat
    var violations: set<Violation>

    constructor (w: World)
      requires WellFormed(w)
      ensures Valid() && world == w && View() == EMPTY_STATE
    {
      world := w;
      schemas, schemaOwner, componentIDs := map[], map[], map[];
      nextID, violations := 0, {};
    }

    ghost function View(): State
      reads this
    {
      State(componentIDs, schemaOwner, schemas, violations)
    }

    ghost predicate Valid()
      reads this
    {
      && WellFormed(world)
      && (forall t :: t in componentIDs ==> 1 <= componentIDs[t] <= nextID)
      && ValidState(world, View())
      && MentionsHeld(world, View())
    }

    method ComponentID(t: GoType) returns (id: nat)
      requires Valid()
      modifies this`componentIDs, this`nextID
      ensures Valid() && t in componentIDs && id == componentIDs[t]
      ensures forall ctx :: Grows(world, old(View()), View(), ctx)
      ensures Accounts(world, old(View()), View(), {}, {})
    {
      if t in componentIDs {
        return componentIDs[t];
      }
      nextID := nextID + 1;
      id := nextID;
      AssignId(world, View(), t, id);
      MentionsGrow(world, View(), View().(ids := componentIDs[t := id]));
      componentIDs := componentIDs[t := id];
    }

    method AddViolation(v: Violation)
      requires Valid()
      modifies this`violations
      ensures Valid() && violations == old(violations) + {v}
      ensures forall ctx :: Grows(world, old(View()), View(), ctx)
      ensures Accounts(world, old(View()), View(), {v}, {})
    {
      Report(world, View(), v);
      MentionsGrow(world, View(), View().(violations := violations + {v}));
      violations := violations + {v};
    }

    /** Stores a registry type's component once; registry shapes are the same in both contexts. */
    method DeriveRegistered(t: GoType, ctx: Context) returns (s: Schema<Key>)
      requires Valid() && t in world.known && (t.Any? || t.Named?)
      modifies this
      ensures Valid() && Grows(world, old(View()), View(), ctx) && PendingIn(View()) == old(PendingIn(View()))
      ensures Holds(View(), world.known[t], {}, s)
      ensures Accounts(world, old(View()), View(), {}, {Sym(t, InResponse)})
    {
      hide ValidState, SlotFilled, Content, ContentFaults, MentionsHeld, MentionedFrom, Holds;
      var id := ComponentID(t);
      ghost var st := View();
      var key := Base(id);
      s := Rename(world.known[t], Slot(componentIDs));
      RegisteredHolds(world, st, t, s);
      if key !in schemas {
        FillRegistered(world, st, t, s, ctx);
        schemas, schemaOwner := schemas[key := s], schemaOwner[key := t];
        assert View() == Filled(st, t, key, s);
        GrowsTransitive(world, old(View()), st, View(), ctx);
      } else {
        FilledAreOwned(world, st);
      }
    }

    /** A type in field position. */
    method DeriveType(t: GoType, ctx: Context) returns (s: Schema<Key>)
      requires Valid() && Provided(world, t)
      modifies this
      ensures Valid() && Grows(world, old(View()), View(), ctx) && PendingIn(View()) == old(PendingIn(View()))
      ensures Holds(View(), Inline(world, t, ctx), InlineFaults(world, t), s)
      ensures Accounts(world, old(View()), View(), InlineFaults(world, t), Met(world, t, ctx))
      decreases UnreservedIn(world, View(), ctx), 1, t, 1
    {
      hide ValidState, MentionsHeld;
      match t
      case Pointer(e) =>
        if t in world.known {
          s := Rename(world.known[t], Slot(componentIDs));
        } else {
          s := DeriveType(e, ctx);
          HoldsNullable(View(), Inline(world, e, ctx), InlineFaults(world, e), s);
          s := Nullable(s);
        }
      case List(e) =>
        s := DeriveType(e, ctx);
        HoldsHolding(View(), "array", Items, Inline(world, e, ctx), InlineFaults(world, e), s);
        s := Holding("array", Items, s);
      case Dictionary(e) =>
        s := DeriveType(e, ctx);
        HoldsHolding(View(), "object", AdditionalProperties, Inline(world, e, ctx), InlineFaults(world, e), s);
        s := Holding("object", AdditionalProperties, s);
      case Any =>
        if t in world.known {
          s := DeriveRegistered(t, ctx);
        } else {
          s := Scalar("object", []);
        }
      case Named(_, _) => s := DeriveNamed(t, ctx);
      case Int64 => s := Formatted("string", "int64");
      case Uint64 => s := Formatted("string", "uint64");
      case Basic(openapiType, format) => s := Formatted(openapiType, format);
      case Interface => s := Scalar("object", []);
      case AnonymousStruct => s := Scalar("object", []);
    }

    /** A defined type: registry, marshaler check, then reserve the slot, descend, and fill it. */
    method DeriveNamed(t: GoType, ctx: Context) returns (s: Schema<Key>)
      requires Valid() && t.Named? && Provided(world, t)
      modifies this
      ensures Valid() && Grows(world, old(View()), View(), ctx) && PendingIn(View()) == old(PendingIn(View()))
      ensures Holds(View(), Inline(world, t, ctx), InlineFaults(world, t), s)
      ensures Accounts(world, old(View()), View(), InlineFaults(world, t), Met(world, t, ctx))
      decreases UnreservedIn(world, View(), ctx), 1, t, 0
    {
      hide ValidState, Body, BodyFaults, MentionsHeld;
      if t in world.known {
        s := DeriveRegistered(t, ctx);
        return;
      }
      assert t in NamedIn(t);
      if world.defs[t].marshals {
        AddViolation(UnregisteredMarshaler(t));
        s := Scalar("object", []);
        return;
      }
      var id := ComponentID(t);
      ghost var st := View();
      var key := KeyIn(ctx, id);
      assert t in st.ids && st.ids[t] == id;
      if key !in schemaOwner {
        BuildComponent(t, ctx, key);
        GrowsTransitive(world, old(View()), st, View(), ctx);
        AccountsFurther(world, old(View()), st, View(), {}, {}, {}, {Sym(t, ctx)});
        assert Extends(componentIDs, st.ids);
      }
      s := Ref(key, []);
      HoldsRef(View(), Sym(t, ctx));
    }

    /** Reserves the slot of a type met for the first time, descends, and fills the slot. */
    method BuildComponent(t: GoType, ctx: Context, key: Key)
      requires Valid() && t in componentIDs && key == KeyIn(ctx, componentIDs[t]) && key !in schemaOwner
      requires t !in world.known && t in world.defs && !world.defs[t].marshals
      modifies this
      ensures Valid() && Grows(world, old(View()), View(), ctx) && PendingIn(View()) == old(PendingIn(View()))
      ensures key in schemas && key in schemaOwner && schemaOwner[key] == t
      ensures Accounts(world, old(View()), View(), {}, {Sym(t, ctx)})
      decreases UnreservedIn(world, View(), ctx), 0
    {
      hide Holds, Grows, Body, BodyFaults, ValidState, UnreservedIn, PendingIn, MentionsHeld, MentionsCovered;
      ghost var start := View();
      FilledAreOwned(world, start);
      ReserveSlot(world, start, t, ctx);
      schemaOwner := schemaOwner[key := t];
      ghost var reserved := View();
      MentionsGrow(world, start, reserved);
      var built := DeriveBody(t, ctx);
      ghost var derived := View();
      FinishComponent(world, start, reserved, derived, t, key, built, ctx);
      PendingStays(start, reserved, derived, t, key);
      FilledAreOwned(world, derived);
      GrowsExtends(world, reserved, derived, ctx);
      ComponentAccounts(world, start, reserved, derived, t, key, ctx, built);
      MentionsFill(world, derived, t, key, built);
      schemas := schemas[key := built];
      assert View() == Filled(derived, t, key, built);
    }

    /** The body behind a reserved slot. */
    method DeriveBody(t: GoType, ctx: Context) returns (built: Schema<Key>)
      requires Valid() && t in world.defs
      modifies this
      ensures Valid() && Grows(world, old(View()), View(), ctx) && PendingIn(View()) == old(PendingIn(View()))
      ensures Holds(View(), Body(world, world.defs[t], ctx), BodyFaults(world, t, ctx), built)
      ensures Accounts(world, old(View()), View(), BodyFaults(world, t, ctx), BodyMet(world, world.defs[t], ctx))
      decreases UnreservedIn(world, View(), ctx), 4
    {
      hide ValidState, MentionsHeld;
      var def := world.defs[t];
      if def.alias.Some? {
        built := DeriveType(def.alias.value, ctx);
        return;
      }
      match def.shape
      case StringKind(enum) =>
        if enum.None? {
          AddViolation(UnregisteredEnum(t));
        }
        built := EnumSchema(enum);
      case StructKind(fields) => built := DeriveStruct(t, fields, ctx);
      case ListKind(e) =>
        built := DeriveType(e, ctx);
        HoldsHolding(View(), "array", Items, Inline(world, e, ctx), InlineFaults(world, e), built);
        built := Holding("array", Items, built);
      case DictionaryKind(e) =>
        built := DeriveType(e, ctx);
        HoldsHolding(View(), "object", AdditionalProperties, Inline(world, e, ctx), InlineFaults(world, e), built);
        built := Holding("object", AdditionalProperties, built);
      case Int64Kind => built := Formatted("integer", "int64");
      case Uint64Kind => built := Formatted("integer", "uint64");
      case InterfaceKind => built := Scalar("object", []);
      case BasicKind(openapiType, format) => built := Formatted(openapiType, format);
    }

    /** A struct body, field by field. */
    method DeriveStruct(t: GoType, fields: seq<Field>, ctx: Context) returns (built: Schema<Key>)
      requires Valid() && t in world.defs && world.defs[t].shape == StructKind(fields) && world.defs[t].alias.None?
      modifies this
      ensures Valid() && Grows(world, old(View()), View(), ctx) && PendingIn(View()) == old(PendingIn(View()))
      ensures Holds(View(), Body(world, world.defs[t], ctx), BodyFaults(world, t, ctx), built)
      ensures Accounts(world, old(View()), View(), BodyFaults(world, t, ctx), BodyMet(world, world.defs[t], ctx))
      decreases UnreservedIn(world, View(), ctx), 3
    {
      hide Holds, Body, BodyFaults, Collect, StructOf, FieldInline, FieldFaults, ValidState, MentionsHeld;
      hide MentionsCovered, Accounts, FieldMet;
      var derived: seq<Schema<Key>> := [];
      NothingAccounted(world, View(), t, ctx);
      StructFaults(world, t, ctx);
      for i := 0 to |fields|
        invariant Valid() && Grows(world, old(View()), View(), ctx) && PendingIn(View()) == old(PendingIn(View()))
        invariant |derived| == i
        invariant FieldsHold(world, View(), t, fields[..i], ctx, derived)
        invariant Accounts(world, old(View()), View(), FieldsFaults(world, t, fields[..i], ctx),
                           FieldsMet(world, fields[..i], ctx))
      {
        ghost var before := View();
        var s := DeriveField(t, fields[i], ctx);
        GrowsTransitive(world, old(View()), before, View(), ctx);
        GrowsExtends(world, before, View(), ctx);
        FieldsGrow(world, before, View(), t, fields[..i], ctx, derived);
        AccountsFurther(world, old(View()), before, View(), FieldsFaults(world, t, fields[..i], ctx),
                        FieldsMet(world, fields[..i], ctx), FieldFaults(world, t, fields[i], ctx),
                        FieldMet(world, fields[i], ctx));
        NextField(world, t, fields, ctx, i);
        assert fields[..i + 1] == fields[..i] + [fields[i]];
        derived := derived + [s];
      }
      assert fields[..|fields|] == fields;
      StructHolds(world, View(), t, ctx, derived);
      built := StructOf(Collect(world, fields, derived), ctx);
    }

    method DeriveField(t: GoType, f: Field, ctx: Context) returns (s: Schema<Key>)
      requires Valid() && Provided(world, f.typ)
      modifies this
      ensures Valid() && Grows(world, old(View()), View(), ctx) && PendingIn(View()) == old(PendingIn(View()))
      ensures Holds(View(), FieldInline(world, f, ctx), FieldFaults(world, t, f, ctx), s)
      ensures Accounts(world, old(View()), View(), FieldFaults(world, t, f, ctx), FieldMet(world, f, ctx))
      decreases UnreservedIn(world, View(), ctx), 2
    {
      match FieldRole(world, f)
      case Ignored => s := Scalar("object", []);
      case Rejected =>
        AddViolation(EmbedsRegistered(t, Embeds(f)));
        s := Scalar("object", []);
      case Embedded =>
        if ctx.InRequest? {
          AddViolation(RequestEmbeds(t, Embeds(f)));
        }
        s := DeriveType(f.typ, ctx);
      case Property => s := DeriveType(f.typ, ctx);
    }

    /** Derives a whole use of a type: nothing is left reserved and unfilled. */
    method Derive(t: GoType, ctx: Context) returns (s: Schema<Key>)
      requires Valid() && Provided(world, t) && PendingIn(View()) == {}
      modifies this
      ensures Valid() && Grows(world, old(View()), View(), ctx) && PendingIn(View()) == {}
      ensures Holds(View(), Inline(world, t, ctx), InlineFaults(world, t), s)
      ensures Accounts(world, old(View()), View(), InlineFaults(world, t), Met(world, t, ctx))
      ensures Resolved(schemas, [s])
    {
      s := DeriveType(t, ctx);
      SettledResolved(world, View(), Inline(world, t, ctx), InlineFaults(world, t), s);
    }

    /** The request-context key for a component key, derived on demand from the type that owns it. */
    method RequestVariant(k: Key) returns (variant: Option<Key>)
      requires Valid()
      modifies this
      ensures Valid() && Grows(world, old(View()), View(), InRequest) && PendingIn(View()) == old(PendingIn(View()))
      ensures VariantOf(world, old(schemaOwner))(k) == (if variant.Some? then variant.value else k)
      ensures Redirected(world, View(), old(schemaOwner), k)
      ensures Accounts(world, old(View()), View(),
                       if k.Base? && k !in old(schemaOwner) then {UnownedComponent(k)} else {},
                       VariantSeeds(world, old(schemaOwner), {k}))
    {
      hide ValidState, Body, BodyFaults, MentionsHeld;
      if k.Request? {
        return Some(k);
      }
      if k !in schemaOwner {
        AddViolation(UnownedComponent(k));
        return None;
      }
      var t := schemaOwner[k];
      OwnerIsDerivable(world, View(), k);
      var s := DeriveType(t, InRequest);
      OwnerFaultless(world, t);
      assert VariantSeeds(world, old(schemaOwner), {k}) == Met(world, t, InRequest);
      variant := if s.Ref? then Some(s.key) else None;
    }

    /** Re-points a request body's schema at request-context components. */
    method PointAtRequestVariants(s: Schema<Key>) returns (out: Schema<Key>)
      requires Valid()
      modifies this
      ensures Valid() && Grows(world, old(View()), View(), InRequest) && PendingIn(View()) == old(PendingIn(View()))
      ensures Pointed(world, View(), old(schemaOwner), s, out)
      ensures Refs(s) <= old(schemaOwner).Keys ==>
                Accounts(world, old(View()), View(), {}, VariantSeeds(world, old(schemaOwner), Refs(s)))
      decreases s
    {
      hide ValidState, MentionsHeld, Accounts, VariantSeeds;
      match s
      case Ref(k, notes) =>
        var variant := RequestVariant(k);
        out := Ref(if variant.Some? then variant.value else k, notes);
        assert Refs(s) == {k};
      case Node(facts, kids) =>
        ghost var start := View();
        var pointed: seq<Schema<Key>> := [];
        NothingPointed(world, start);
        for i := 0 to |kids|
          invariant Valid() && Grows(world, start, View(), InRequest) && PendingIn(View()) == PendingIn(start)
          invariant AllPointed(world, View(), start.owner, kids[..i], pointed)
          invariant Refs(s) <= start.owner.Keys ==>
                      Accounts(world, start, View(), {}, VariantSeeds(world, start.owner, KidRefsOf(kids[..i])))
        {
          ghost var before := View();
          var next := PointAtRequestVariants(kids[i]);
          KidRefsNext(kids, i);
          if Refs(s) <= start.owner.Keys {
            PointedAccounts(world, start, before, View(), KidRefsOf(kids[..i]), Refs(kids[i]));
          }
          PointedNext(world, start, before, View(), kids[..i], pointed, kids[i], next);
          assert kids[..i + 1] == kids[..i] + [kids[i]];
          pointed := pointed + [next];
        }
        assert kids[..|kids|] == kids;
        assert Refs(s) == KidRefsOf(kids);
        out := Node(facts, pointed);
        PointedNode(world, View(), start.owner, s, pointed);
    }
  }
}
