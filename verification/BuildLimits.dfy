/**
  Where a document build falls short, at builds that show it: a component that
  nothing refers to is published with another's meaning, and two components that
  share a public name leave a root with the wrong one.
 */
module BuildLimits {
  import opened Wrappers
  import opened Schemas
  import opened TypeSchemas
  import opened Mentions
  import opened Derivation
  import opened Document
  import R = Reconcile
  import N = Naming

  function FieldOf(name: string, t: GoType): Field {
    Field(name, false, true, false, true, false, t, false, false, [])
  }

  /** An empty object, open in responses and closed in requests. */
  const DATUM := Named("m", "Datum")
  const DATA := Named("m", "Data")
  const ITEM := Named("m", "Item")

  const TEXT := Basic("string", "")

  /**
    `Item` has two fields of one name: the first one's type is derived, and then
    replaced. The schema code accepts such a struct, although the JSON library
    refuses to marshal one.
   */
  const ORPHAN_WORLD := World(
    map[DATUM := Definition(false, None, StructKind([])),
        DATA := Definition(false, None, ListKind(DATUM)),
        ITEM := Definition(false, None, StructKind([FieldOf("a", DATA), FieldOf("a", TEXT)]))],
    map[])

  const ORPHAN_USES := [Use(ITEM, false), Use(DATUM, true)]

  lemma OrphanBodies(ctx: Context)
    ensures WellFormed(ORPHAN_WORLD)
    ensures Body(ORPHAN_WORLD, ORPHAN_WORLD.defs[DATUM], ctx) == Node(Facts(["object"], ctx.InRequest?, [], [], []), [])
    ensures Body(ORPHAN_WORLD, ORPHAN_WORLD.defs[DATA], ctx) == Holding("array", Items, Ref(Sym(DATUM, ctx), []))
  {
  }

  /** The second field replaces the first, so the struct refers to nothing. */
  lemma ReplacedField(ctx: Context)
    ensures Refs(Body(ORPHAN_WORLD, ORPHAN_WORLD.defs[ITEM], ctx)) == {}
  {
    var w, fields := ORPHAN_WORLD, ORPHAN_WORLD.defs[ITEM].shape.fields;
    var inlines := FieldInlines(w, fields, ctx);
    var first, second := FieldSchema(fields[0], inlines[0]), FieldSchema(fields[1], inlines[1]);
    assert Refs(second) == {};
    assert fields[..2] == fields && inlines[..2] == inlines && fields[..1][..0] == [] && inlines[..1][..0] == [];
    assert Collect(w, fields[..1], inlines[..1]).props == [Member("a", first)];
    assert Collect(w, fields, inlines).props == [Member("a", second)];
    assert Collect(w, fields, inlines).allOf == [];
  }

  /** A use that reads as one reference has that reference's slot as its root. */
  lemma RootSlot(w: World, uses: seq<Use>, e: Ending, i: nat, y: Sym)
    requires Ends(w, uses, e) && i < |uses| && Reading(w, uses[i]) == Ref(y, [])
    ensures y.typ in e.st.ids && Slot(e.st.ids)(y) in e.st.schemas && e.st.owner[Slot(e.st.ids)(y)] == y.typ
    ensures |e.derived| == |uses| && e.derived[i] == Ref(Slot(e.st.ids)(y), [])
  {
    hide ValidState, MentionsHeld, R.Reconciled, Resolved, Reading, WellFormed;
    assert Holds(e.st, Ref(y, []), InlineFaults(w, uses[i].typ), e.derived[i]);
    assert y in Refs<Sym>(Ref(y, []));
    OwnedBy(w, e.st, y);
  }

  lemma OwnedBy(w: World, st: State, y: Sym)
    requires ValidState(w, st) && PendingIn(st) == {} && y.typ in st.ids && Slot(st.ids)(y) in st.owner
    ensures st.owner[Slot(st.ids)(y)] == y.typ && Slot(st.ids)(y) in st.schemas
  {
    var k := Slot(st.ids)(y);
    assert OwnerFits(w, st, k) && k !in PendingIn(st);
  }

  /** The slot of a derived type holds its body, spelled in keys. */
  lemma SlotBody(w: World, st: State, y: Sym)
    requires ValidState(w, st) && y.typ in st.ids && y.typ in w.defs && y.typ !in w.known
    requires Slot(st.ids)(y) in st.schemas && Slot(st.ids)(y) in st.owner && st.owner[Slot(st.ids)(y)] == y.typ
    ensures st.schemas[Slot(st.ids)(y)] == Rename(Body(w, w.defs[y.typ], y.ctx), Slot(st.ids))
    ensures Covered(st, Body(w, w.defs[y.typ], y.ctx))
  {
    hide Body, BodyFaults;
    assert SlotFilled(w, st, Slot(st.ids)(y));
  }

  /** The replaced field's type was derived all the same, and what it refers to. */
  lemma OrphanDerived(e: Ending)
    requires Ends(ORPHAN_WORLD, ORPHAN_USES, e)
    requires ITEM in e.st.ids && Base(e.st.ids[ITEM]) in e.st.schemas && e.st.owner[Base(e.st.ids[ITEM])] == ITEM
    ensures DATA in e.st.ids && Base(e.st.ids[DATA]) in e.st.schemas && e.st.owner[Base(e.st.ids[DATA])] == DATA
    ensures DATUM in e.st.ids && Base(e.st.ids[DATUM]) in e.st.schemas && e.st.owner[Base(e.st.ids[DATUM])] == DATUM
    ensures e.st.schemas[Base(e.st.ids[DATA])] == Holding("array", Items, Ref(Base(e.st.ids[DATUM]), []))
  {
    hide ValidState, Body, RootsHold, R.Reconciled, Resolved, WellFormed;
    OrphanBodies(InResponse);
    var w, st := ORPHAN_WORLD, e.st;
    assert MentionsCovered(w, st, ITEM, InResponse);
    ItemMentions();
    OwnedBy(w, st, Sym(DATA, InResponse));
    SlotBody(w, st, Sym(DATA, InResponse));
    HoldingCovered(st, Sym(DATUM, InResponse));
    OwnedBy(w, st, Sym(DATUM, InResponse));
  }

  lemma ItemMentions()
    ensures Sym(DATA, InResponse) in MentionedBy(ORPHAN_WORLD, Sym(ITEM, InResponse))
  {
    var fields := ORPHAN_WORLD.defs[ITEM].shape.fields;
    assert fields[0] == FieldOf("a", DATA) && Sym(DATA, InResponse) in FieldMet(ORPHAN_WORLD, fields[0], InResponse);
  }

  lemma HoldingCovered(st: State, y: Sym)
    requires Covered(st, Holding("array", Items, Ref(y, [])))
    ensures y.typ in st.ids && Slot(st.ids)(y) in st.owner
    ensures Rename(Holding("array", Items, Ref(y, [])), Slot(st.ids))
            == Holding("array", Items, Ref(Slot(st.ids)(y), []))
  {
    var s: Schema<Sym> := Holding("array", Items, Ref(y, []));
    assert s.kids[0] == Ref(y, []) && y in Refs(s.kids[0]) && y in Refs(s);
    assert Rename(s, Slot(st.ids)).kids == [Ref(Slot(st.ids)(y), [])];
  }

  /** The document reaches the replaced field's type no more than what it refers to in responses. */
  lemma OrphanReached(e: Ending)
    requires Ends(ORPHAN_WORLD, ORPHAN_USES, e)
    ensures ITEM in e.st.ids && Base(e.st.ids[ITEM]) in e.st.schemas && e.st.owner[Base(e.st.ids[ITEM])] == ITEM
    ensures DATUM in e.st.ids && Request(e.st.ids[DATUM]) in e.st.schemas
            && e.st.owner[Request(e.st.ids[DATUM])] == DATUM
    ensures e.reached <= {Base(e.st.ids[ITEM]), Request(e.st.ids[DATUM])}
  {
    hide ValidState, MentionsHeld, RootsHold, Body, Resolved, R.GreatestStable, WellFormed;
    var w, st := ORPHAN_WORLD, e.st;
    OrphanReadings();
    RootSlot(w, ORPHAN_USES, e, 0, Sym(ITEM, InResponse));
    RootSlot(w, ORPHAN_USES, e, 1, Sym(DATUM, InRequest));
    SlotBody(w, st, Sym(ITEM, InResponse));
    SlotBody(w, st, Sym(DATUM, InRequest));
    ReplacedField(InResponse);
    OrphanBodies(InRequest);
    RenameRefs(Body(w, w.defs[ITEM], InResponse), Slot(st.ids));
    RenameRefs(Body(w, w.defs[DATUM], InRequest), Slot(st.ids));
    var x := {Base(st.ids[ITEM]), Request(st.ids[DATUM])};
    assert |e.derived| == 2;
    assert R.Seeds(e.derived) <= x;
    assert R.Closed(st.schemas, x);
  }

  lemma OrphanReadings()
    ensures Reading(ORPHAN_WORLD, ORPHAN_USES[0]) == Ref(Sym(ITEM, InResponse), [])
    ensures Reading(ORPHAN_WORLD, ORPHAN_USES[1]) == Ref(Sym(DATUM, InRequest), [])
  {
  }

  lemma DatumBodies(w: World, st: State)
    requires w == ORPHAN_WORLD && ValidState(w, st) && DATUM in st.ids
    requires {Base(st.ids[DATUM]), Request(st.ids[DATUM])} <= st.schemas.Keys
    requires {Base(st.ids[DATUM]), Request(st.ids[DATUM])} <= st.owner.Keys
    requires st.owner[Base(st.ids[DATUM])] == DATUM && st.owner[Request(st.ids[DATUM])] == DATUM
    ensures st.schemas[Base(st.ids[DATUM])] == Node(Facts(["object"], false, [], [], []), [])
    ensures st.schemas[Request(st.ids[DATUM])] == Node(Facts(["object"], true, [], [], []), [])
  {
    hide ValidState, Body;
    SlotBody(w, st, Sym(DATUM, InResponse));
    SlotBody(w, st, Sym(DATUM, InRequest));
    OrphanBodies(InResponse);
    OrphanBodies(InRequest);
  }

  lemma DatumDiffers(c: map<Key, Schema<Key>>, datum: Key, variant: Key)
    requires datum in c && variant in c
    requires c[datum] == Node(Facts(["object"], false, [], [], []), [])
             && c[variant] == Node(Facts(["object"], true, [], [], []), [])
    ensures !R.SameMeaning(c, c[datum], c[variant])
    ensures !R.SameMeaning(c, Holding("array", Items, Ref(datum, [])), Holding("array", Items, Ref(variant, [])))
  {
    assert Unfold(c, c[datum], 0).facts != Unfold(c, c[variant], 0).facts;
    var plain, closed := Holding("array", Items, Ref(datum, [])), Holding("array", Items, Ref(variant, []));
    assert Unfold(c, plain, 1).kids[0] == Deref([], Unfold(c, c[datum], 0));
    assert Unfold(c, closed, 1).kids[0] == Deref([], Unfold(c, c[variant], 0));
  }

  lemma OrphanOverwritten(e: Ending)
    requires Ends(ORPHAN_WORLD, ORPHAN_USES, e)
    ensures {DATA, DATUM} <= e.st.ids.Keys
    ensures var data, datum, variant := Base(e.st.ids[DATA]), Base(e.st.ids[DATUM]), Request(e.st.ids[DATUM]);
            && {data, datum, variant} <= e.st.schemas.Keys && data in e.st.owner && e.st.owner[data] == DATA
            && e.st.schemas[data] == Holding("array", Items, Ref(datum, []))
            && e.st.schemas[datum] == Node(Facts(["object"], false, [], [], []), [])
            && e.st.schemas[variant] == Node(Facts(["object"], true, [], [], []), [])
            && R.Overwritten(e.renamed, datum)
  {
    hide Ends, ValidState, R.Overwritten;
    OrphanReached(e);
    OrphanDerived(e);
    EndsSettled(ORPHAN_WORLD, ORPHAN_USES, e);
    DatumBodies(ORPHAN_WORLD, e.st);
    UnreachedIsOverwritten(ORPHAN_WORLD, ORPHAN_USES, e, Base(e.st.ids[DATUM]));
  }

  lemma UnreachedIsOverwritten(w: World, uses: seq<Use>, e: Ending, k: Key)
    requires Ends(w, uses, e) && k.Base? && k !in e.reached && Request(k.id) in e.st.schemas
    ensures R.Overwritten(e.renamed, k)
  {
    hide ValidState, MentionsHeld, RootsHold, Resolved, WellFormed, R.GreatestStable, R.Reachable;
  }

  /** A component that refers to an overwritten one of another meaning is harmed, overwritten itself or not. */
  lemma Harmed(c: map<Key, Schema<Key>>, renamed: set<Key>, data: Key, datum: Key, variant: Key)
    requires {data, datum, variant} <= c.Keys && data.Base? && datum.Base? && variant == Request(datum.id)
    requires R.Overwritten(renamed, datum) && datum in Refs(c[data]) && !R.SameMeaning(c, c[datum], c[variant])
    requires R.Overwritten(renamed, data) ==> Request(data.id) in c && !R.SameMeaning(c, c[data], c[Request(data.id)])
    ensures !R.MeetsOnlyHarmless(c, renamed, data)
  {
    hide R.SameMeaning, Refs;
    if R.Overwritten(renamed, data) {
      assert R.Steps(c, renamed, [data]) && !R.Harmless(c, renamed, data);
    } else {
      assert R.Steps(c, renamed, [data, datum]) && !R.Harmless(c, renamed, datum);
    }
  }

  /** In every build of these uses the orphan meets harmful overwriting. */
  lemma OrphanIsHarmed(e: Ending)
    requires Ends(ORPHAN_WORLD, ORPHAN_USES, e)
    ensures DATA in e.st.ids && Base(e.st.ids[DATA]) in e.st.schemas
    ensures Base(e.st.ids[DATA]) in e.st.owner && e.st.owner[Base(e.st.ids[DATA])] == DATA
    ensures !MeetsOnlyHarmless(e, Base(e.st.ids[DATA]))
  {
    hide Ends, R.SameMeaning, R.MeetsOnlyHarmless, Refs, Unfold;
    OrphanOverwritten(e);
    var data, datum, variant := Base(e.st.ids[DATA]), Base(e.st.ids[DATUM]), Request(e.st.ids[DATUM]);
    DatumDiffers(e.st.schemas, datum, variant);
    HoldingRefs(datum);
    if R.Overwritten(e.renamed, data) {
      RenamedAreDerived(ORPHAN_WORLD, ORPHAN_USES, e, Request(data.id));
      OrphanVariant(e);
    }
    Harmed(e.st.schemas, e.renamed, data, datum, variant);
  }

  lemma RenamedAreDerived(w: World, uses: seq<Use>, e: Ending, v: Key)
    requires Ends(w, uses, e) && v in e.renamed
    ensures v in e.st.schemas
  {
    hide ValidState, MentionsHeld, RootsHold, Resolved, WellFormed, R.GreatestStable;
  }

  lemma HoldingRefs(k: Key)
    ensures k in Refs(Holding("array", Items, Ref(k, [])))
  {
    var s: Schema<Key> := Holding("array", Items, Ref(k, []));
    assert s.kids[0] == Ref(k, []) && k in Refs(s.kids[0]);
  }

  lemma OrphanVariant(e: Ending)
    requires Ends(ORPHAN_WORLD, ORPHAN_USES, e) && DATA in e.st.ids && Request(e.st.ids[DATA]) in e.st.schemas
    ensures DATUM in e.st.ids
    ensures e.st.schemas[Request(e.st.ids[DATA])] == Holding("array", Items, Ref(Request(e.st.ids[DATUM]), []))
  {
    hide ValidState, Body, RootsHold, R.Reconciled, Resolved, WellFormed, MentionsHeld;
    var w, st := ORPHAN_WORLD, e.st;
    OwnedBy(w, st, Sym(DATA, InRequest));
    SlotBody(w, st, Sym(DATA, InRequest));
    OrphanBodies(InRequest);
    HoldingCovered(st, Sym(DATUM, InRequest));
  }

  // --- Naming the orphan's build ---------------------------------------------

  const BY_NAME: N.NameFunc := (t: GoType) => if t.Named? then t.name else "any"

  /** Owners are the world's types. */
  lemma OwnersAreDefined(w: World, uses: seq<Use>, e: Ending, k: Key)
    requires Ends(w, uses, e) && w.known == map[] && k in OwnersOf(e)
    ensures OwnersOf(e)[k] in w.defs
  {
    hide MentionsHeld, RootsHold, Resolved, WellFormed;
    assert OwnerFits(w, e.st, R.Origin(e.renamed, k));
  }

  /** All of the orphan's types are of one package, and none is named like another's variant. */
  lemma PlainNames(keys: set<Key>, owner: map<Key, GoType>)
    requires keys <= owner.Keys && forall k :: k in keys ==> owner[k] in {DATUM, DATA, ITEM}
    ensures N.Clean(keys, owner, BY_NAME) && N.DistinctFullNames(keys, owner) && !N.SuffixClash(keys, owner, BY_NAME)
  {
    hide N.ValidComponentName;
    assert N.ValidComponentName("Datum") && N.ValidComponentName("Data")
           && N.ValidComponentName("Item") by { ValidNames(); }
    forall k | k in keys
      ensures N.ValidComponentName(N.FinalName(owner, BY_NAME, k))
      ensures N.OwnerLabel(owner, k) == "m." + N.FinalName(owner, BY_NAME, k)
    {
      N.SuffixIsValid(owner[k].name);
      assert owner[k].name + "" == owner[k].name;
      assert "m" + "." == "m.";
    }
    forall k, l | k in keys && l in keys && N.FullTypeName(owner[k]) == N.FullTypeName(owner[l])
      ensures owner[k] == owner[l]
    {
      assert N.FullTypeName(owner[k])[2..] == owner[k].name && N.FullTypeName(owner[l])[2..] == owner[l].name;
    }
    forall k, l | k in keys && l in keys
      ensures BY_NAME(owner[l]) != BY_NAME(owner[k]) + N.REQUEST_SUFFIX
    {
      assert |BY_NAME(owner[l])| <= 5 && |N.REQUEST_SUFFIX| == 8;
    }
  }

  lemma ValidNames()
    ensures N.ValidComponentName("Datum") && N.ValidComponentName("Data") && N.ValidComponentName("Item")
  {
  }

  lemma OrphanNames(e: Ending)
    requires Ends(ORPHAN_WORLD, ORPHAN_USES, e)
    ensures N.Clean(MergedOf(e).Keys, OwnersOf(e), BY_NAME) && Distinguished(e, BY_NAME)
  {
    hide Ends, MergedOf, OwnersOf, N.Clean, N.DistinctFullNames, N.SuffixClash;
    EndingKeys(ORPHAN_WORLD, ORPHAN_USES, e);
    forall k | k in MergedOf(e).Keys
      ensures OwnersOf(e)[k] in {DATUM, DATA, ITEM}
    {
      OwnersAreDefined(ORPHAN_WORLD, ORPHAN_USES, e, k);
    }
    PlainNames(MergedOf(e).Keys, OwnersOf(e));
  }

  /** A world of faultless types has nothing to report. */
  lemma NothingToReport(w: World, uses: seq<Use>, e: Ending)
    requires Exact(w, uses, e.st)
    requires forall t, ctx :: t in w.defs ==> BodyFaults(w, t, ctx) == {}
    requires forall u :: u in uses ==> InlineFaults(w, u.typ) == {}
    ensures e.st.violations == {}
  {
    hide InlineFaults, BodyFaults, MentionedSym, HasSlot;
    forall v: Violation
      ensures !FaultOf(w, uses, v)
    {
    }
    assert forall v :: v in e.st.violations ==> FaultOf(w, uses, v);
  }

  lemma {:induction false} FaultlessWorlds(t: GoType, ctx: Context)
    ensures t in ORPHAN_WORLD.defs ==> BodyFaults(ORPHAN_WORLD, t, ctx) == {}
    ensures t in CLASH_WORLD.defs ==> BodyFaults(CLASH_WORLD, t, ctx) == {}
  {
    if t == ITEM {
      assert FieldsFaults(ORPHAN_WORLD, t, ORPHAN_WORLD.defs[t].shape.fields, ctx) == {};
    }
  }

  /**
    Every build of these uses publishes, without a word, a component that does
    not unfold to its type's reading: the type of a replaced field, which nothing
    refers to, and which refers to a type that only a request body is made of.
   */
  lemma UnreachedComponentMayChange(e: Ending, components: map<N.FinalRef, Schema<N.FinalRef>>,
                                    published: seq<Schema<N.FinalRef>>)
    requires Ends(ORPHAN_WORLD, ORPHAN_USES, e) && Exact(ORPHAN_WORLD, ORPHAN_USES, e.st)
    requires Publishes(e, BY_NAME, components, published)
    ensures e.st.violations == {}
    ensures N.Clean(MergedOf(e).Keys, OwnersOf(e), BY_NAME) && Distinguished(e, BY_NAME)
    ensures DATA in e.st.ids && Base(e.st.ids[DATA]) in e.st.schemas
    ensures !ReadsAsOwner(ORPHAN_WORLD, e, BY_NAME, components, Base(e.st.ids[DATA]))
  {
    hide Ends, Publishes, N.Clean, Distinguished, MeetsOnlyHarmless, ReadsAsOwner, Exact, BodyFaults;
    forall t, ctx | t in ORPHAN_WORLD.defs
      ensures BodyFaults(ORPHAN_WORLD, t, ctx) == {}
    {
      FaultlessWorlds(t, ctx);
    }
    NothingToReport(ORPHAN_WORLD, ORPHAN_USES, e);
    OrphanIsHarmed(e);
    OrphanNames(e);
    ComponentMeaning(ORPHAN_WORLD, ORPHAN_USES, e, BY_NAME, components, published, Base(e.st.ids[DATA]));
  }

  lemma EndingKeys(w: World, uses: seq<Use>, e: Ending)
    requires Ends(w, uses, e)
    ensures MergedOf(e).Keys == OwnersOf(e).Keys && N.OneKeyPerOwner(MergedOf(e).Keys, OwnersOf(e))
  {
    hide ValidState, MentionsHeld, RootsHold, Resolved, WellFormed, R.Reconciled, R.Merged, R.Moved;
    MergedOwners(w, e.st, e.derived, e.reached, e.renamed, e.collapse);
  }

  // --- A shared public name --------------------------------------------------

  const ORDER := Named("p", "Order")
  const NESTED := Named("p.Order", "Request")

  /** A type with a request variant, and another spelled like it. */
  const CLASH_WORLD := World(
    map[ORDER := Definition(false, None, StructKind([])), NESTED := Definition(false, None, BasicKind("integer", ""))],
    map[])

  const CLASH_USES := [Use(ORDER, false), Use(ORDER, true), Use(NESTED, false)]

  const CLASH_NAMES: N.NameFunc := (t: GoType) => if t == ORDER then "Order" else "Order.Request"

  lemma ClashReadings()
    ensures WellFormed(CLASH_WORLD)
    ensures Reading(CLASH_WORLD, CLASH_USES[0]) == Ref(Sym(ORDER, InResponse), [])
    ensures Reading(CLASH_WORLD, CLASH_USES[1]) == Ref(Sym(ORDER, InRequest), [])
    ensures Reading(CLASH_WORLD, CLASH_USES[2]) == Ref(Sym(NESTED, InResponse), [])
    ensures Body(CLASH_WORLD, CLASH_WORLD.defs[ORDER], InRequest) == Node(Facts(["object"], true, [], [], []), [])
    ensures Body(CLASH_WORLD, CLASH_WORLD.defs[ORDER], InResponse) == Node(Facts(["object"], false, [], [], []), [])
    ensures Body(CLASH_WORLD, CLASH_WORLD.defs[NESTED], InResponse) == Node(Facts(["integer"], false, [], [], []), [])
  {
  }

  lemma ClashTrees()
    ensures !SameReadings(CLASH_WORLD, ORDER)
    ensures Unfold(Ideal(CLASH_WORLD), Reading(CLASH_WORLD, CLASH_USES[1]), 1)
            != Unfold(Ideal(CLASH_WORLD), Reading(CLASH_WORLD, CLASH_USES[2]), 1)
  {
    hide Body, Reading;
    ClashReadings();
    var w := CLASH_WORLD;
    var request, response := Body(w, w.defs[ORDER], InRequest), Body(w, w.defs[ORDER], InResponse);
    var nested := Body(w, w.defs[NESTED], InResponse);
    assert Unfold(Ideal(w), request, 0).facts != Unfold(Ideal(w), response, 0).facts;
    assert Unfold(Ideal(w), request, 0).facts != Unfold(Ideal(w), nested, 0).facts;
    assert Unfold(Ideal(w), Ref(Sym(ORDER, InRequest), []), 1) == Deref([], Unfold(Ideal(w), request, 0));
    assert Unfold(Ideal(w), Ref(Sym(NESTED, InResponse), []), 1) == Deref([], Unfold(Ideal(w), nested, 0));
  }

  lemma UsedIsReached(w: World, uses: seq<Use>, i: nat, y: Sym)
    requires i < |uses| && Reading(w, uses[i]) == Ref(y, []) && y in Ideal(w)
    ensures ReachedSym(w, uses, y)
  {
    assert ReadingWalk(w, [y]) && y in Refs<Sym>(Ref(y, []));
  }

  lemma ClashLabel(t: GoType, k: Key)
    requires t in {ORDER, NESTED}
    ensures N.ValidComponentName(CLASH_NAMES(t) + N.Suffix(k))
    ensures N.FullTypeName(t) + N.Suffix(k) == "p." + (CLASH_NAMES(t) + N.Suffix(k))
  {
    hide N.ValidComponentName;
    ValidClashNames();
    N.SuffixIsValid(CLASH_NAMES(t));
    assert CLASH_NAMES(t) + "" == CLASH_NAMES(t);
    ClashFullNames();
  }

  lemma ClashFullNames()
    ensures N.FullTypeName(ORDER) == "p." + "Order" && N.FullTypeName(NESTED) == "p." + "Order.Request"
    ensures N.FullTypeName(ORDER) != N.FullTypeName(NESTED)
  {
    assert N.FullTypeName(ORDER) == "p.Order" && N.FullTypeName(NESTED) == "p.Order.Request";
  }

  lemma IdealHas(w: World, t: GoType)
    requires t in w.defs
    ensures Sym(t, InRequest) in Ideal(w) && Sym(t, InResponse) in Ideal(w)
  {
  }

  /** Labels follow names, so the sweep is clean although two components share one. */
  lemma ClashIsClean(keys: set<Key>, owner: map<Key, GoType>)
    requires keys <= owner.Keys && forall k :: k in keys ==> owner[k] in {ORDER, NESTED}
    ensures N.Clean(keys, owner, CLASH_NAMES) && N.DistinctFullNames(keys, owner)
  {
    hide N.ValidComponentName, N.FullTypeName, N.Suffix;
    ClashFullNames();
    forall k | k in keys
      ensures N.ValidComponentName(N.FinalName(owner, CLASH_NAMES, k))
      ensures N.OwnerLabel(owner, k) == "p." + N.FinalName(owner, CLASH_NAMES, k)
    {
      ClashLabel(owner[k], k);
    }
  }

  lemma ValidClashNames()
    ensures N.ValidComponentName("Order") && N.ValidComponentName("Order.Request")
  {
  }

  /** The request component of the one type survives, and is published under the other's name. */
  lemma ClashRoots(e: Ending, components: map<N.FinalRef, Schema<N.FinalRef>>, published: seq<Schema<N.FinalRef>>)
    requires Ends(CLASH_WORLD, CLASH_USES, e) && Publishes(e, CLASH_NAMES, components, published)
    ensures |published| == 3
    ensures published[1] == Ref(N.Public("Order.Request"), []) && published[2] == Ref(N.Public("Order.Request"), [])
  {
    hide Ends, Publishes, MergedOf, NamesOf, Reading, SameReadings, ReachedSym, Body, Unfold, Ideal, WellFormed;
    var w, uses := CLASH_WORLD, CLASH_USES;
    ClashReadings();
    ClashTrees();
    IdealHas(w, ORDER);
    RootSlot(w, uses, e, 1, Sym(ORDER, InRequest));
    RootSlot(w, uses, e, 2, Sym(NESTED, InResponse));
    UsedIsReached(w, uses, 0, Sym(ORDER, InResponse));
    UsedIsReached(w, uses, 1, Sym(ORDER, InRequest));
    VariantPublishedIff(w, uses, e, ORDER);
    var variant, nested := Request(e.st.ids[ORDER]), Base(e.st.ids[NESTED]);
    StaysInPlace(w, uses, e, variant);
    StaysInPlace(w, uses, e, nested);
    KeptName(w, uses, e, variant, ORDER);
    KeptName(w, uses, e, nested, NESTED);
    SpelledRoot(w, uses, e, 1, variant, components, published);
    SpelledRoot(w, uses, e, 2, nested, components, published);
    assert "Order" + ".Request" == "Order.Request" && "Order.Request" + "" == "Order.Request";
  }

  lemma StaysInPlace(w: World, uses: seq<Use>, e: Ending, k: Key)
    requires Ends(w, uses, e) && k in e.st.schemas && (k.Base? || k in MergedOf(e))
    ensures k in MergedOf(e) && k !in e.renamed + e.collapse
  {
    hide ValidState, MentionsHeld, RootsHold, Resolved, WellFormed;
    R.FoldStaysMerged(e.st.schemas, e.derived, e.reached, e.renamed, e.collapse, k);
  }

  lemma KeptName(w: World, uses: seq<Use>, e: Ending, k: Key, t: GoType)
    requires Ends(w, uses, e) && k in MergedOf(e) && t in e.st.ids && e.st.ids[t] == k.id
    ensures k in NamesOf(e, CLASH_NAMES) && NamesOf(e, CLASH_NAMES)[k] == CLASH_NAMES(t) + N.Suffix(k)
  {
    hide MentionsHeld, RootsHold, Resolved, WellFormed, R.Reconciled;
    EndingKeys(w, uses, e);
    assert OwnerFits(w, e.st, R.Origin(e.renamed, k));
  }

  /** A root that is one reference to a key the merge leaves in place. */
  lemma SpelledRoot(w: World, uses: seq<Use>, e: Ending, i: nat, k: Key,
                    components: map<N.FinalRef, Schema<N.FinalRef>>, published: seq<Schema<N.FinalRef>>)
    requires Ends(w, uses, e) && Publishes(e, CLASH_NAMES, components, published)
    requires i < |e.derived| && e.derived[i] == Ref(k, []) && k in MergedOf(e) && k !in e.renamed + e.collapse
    ensures |published| == |e.derived| && published[i] == Ref(N.Public(NamesOf(e, CLASH_NAMES)[k]), [])
  {
    hide Ends, R.Merged, NamesOf;
  }

  /**
    Every build of these uses reports nothing, for owners of distinct full names,
    and publishes a root that does not unfold to its type's reading.
   */
  lemma SharedNameMisleads(e: Ending, components: map<N.FinalRef, Schema<N.FinalRef>>,
                           published: seq<Schema<N.FinalRef>>)
    requires Ends(CLASH_WORLD, CLASH_USES, e) && Exact(CLASH_WORLD, CLASH_USES, e.st)
    requires Publishes(e, CLASH_NAMES, components, published)
    ensures e.st.violations == {}
    ensures N.Clean(MergedOf(e).Keys, OwnersOf(e), CLASH_NAMES)
    ensures MergedOf(e).Keys <= OwnersOf(e).Keys && N.DistinctFullNames(MergedOf(e).Keys, OwnersOf(e))
    ensures |published| == |CLASH_USES|
    ensures exists i :: 0 <= i < |published| &&
              Unfold(components, published[i], 1) != Unfold(Ideal(CLASH_WORLD), Reading(CLASH_WORLD, CLASH_USES[i]), 1)
  {
    hide Ends, MergedOf, OwnersOf, N.Clean, N.DistinctFullNames, Unfold, Publishes, Reading, Exact, BodyFaults;
    forall t, ctx | t in CLASH_WORLD.defs
      ensures BodyFaults(CLASH_WORLD, t, ctx) == {}
    {
      FaultlessWorlds(t, ctx);
    }
    NothingToReport(CLASH_WORLD, CLASH_USES, e);
    EndingKeys(CLASH_WORLD, CLASH_USES, e);
    forall k | k in MergedOf(e).Keys
      ensures OwnersOf(e)[k] in {ORDER, NESTED}
    {
      OwnersAreDefined(CLASH_WORLD, CLASH_USES, e, k);
    }
    ClashIsClean(MergedOf(e).Keys, OwnersOf(e));
    ClashRoots(e, components, published);
    ClashTrees();
    if Unfold(components, published[1], 1) == Unfold(Ideal(CLASH_WORLD), Reading(CLASH_WORLD, CLASH_USES[1]), 1) {
      assert Unfold(components, published[2], 1) != Unfold(Ideal(CLASH_WORLD), Reading(CLASH_WORLD, CLASH_USES[2]), 1);
    }
  }

  /** The first build, carried out. */
  method OrphanBuild()
    returns (components: map<N.FinalRef, Schema<N.FinalRef>>, violations: seq<N.NamingViolation>,
             reported: set<Violation>, ghost e: Ending)
    ensures Ends(ORPHAN_WORLD, ORPHAN_USES, e) && violations == [] && reported == {} && DATA in e.st.ids
    ensures !ReadsAsOwner(ORPHAN_WORLD, e, BY_NAME, components, Base(e.st.ids[DATA]))
  {
    hide Ends, Publishes, Unfold, Ideal, Reading, ReadsAsOwner, N.Clean, Distinguished, WellFormed;
    hide ReachedSym, SameReadings;
    hide MeetsOnlyHarmless, VariantPublished, MergedOf, OwnersOf, ValidState, MentionsHeld;
    hide Exact, ReadsAs, KeepsReading, MentionedSym;
    OrphanBodies(InResponse);
    OrphanUses();
    var builder := new DocumentBuilder(ORPHAN_WORLD);
    var published;
    components, published, violations, e := builder.Build(ORPHAN_USES, BY_NAME);
    reported := builder.sg.violations;
    UnreachedComponentMayChange(e, components, published);
  }

  lemma OrphanUses()
    ensures forall u :: u in ORPHAN_USES ==> Provided(ORPHAN_WORLD, u.typ)
    ensures forall u :: u in CLASH_USES ==> Provided(CLASH_WORLD, u.typ)
  {
  }

  /** And the second. */
  method ClashBuild() returns (components: map<N.FinalRef, Schema<N.FinalRef>>, published: seq<Schema<N.FinalRef>>,
                               violations: seq<N.NamingViolation>, reported: set<Violation>)
    ensures violations == [] && reported == {} && |published| == |CLASH_USES|
    ensures exists i :: 0 <= i < |published| &&
              Unfold(components, published[i], 1) != Unfold(Ideal(CLASH_WORLD), Reading(CLASH_WORLD, CLASH_USES[i]), 1)
  {
    hide Ends, Publishes, Unfold, Ideal, Reading, ReadsAsOwner, N.Clean, Distinguished, WellFormed;
    hide ReachedSym, SameReadings;
    hide MeetsOnlyHarmless, VariantPublished, MergedOf, OwnersOf, ValidState, MentionsHeld;
    hide Exact, ReadsAs, KeepsReading, MentionedSym;
    ClashReadings();
    OrphanUses();
    var builder := new DocumentBuilder(CLASH_WORLD);
    ghost var e;
    components, published, violations, e := builder.Build(CLASH_USES, CLASH_NAMES);
    reported := builder.sg.violations;
    SharedNameMisleads(e, components, published);
  }
}
