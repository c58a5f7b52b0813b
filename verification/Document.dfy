/**
  The whole schema pipeline of one document build: derive every use of a type,
  re-document request bodies in request context, reconcile the two component
  sets, and publish them under their final names. The published document means
  what the Go types mean.
 */
module Document {
  import opened Schemas
  import opened TypeSchemas
  import opened Mentions
  import opened Derivation
  import S = StructBodies
  import R = Reconcile
  import N = Naming

  /** One place where an operation mentions a type; a JSON request body is documented in request context. */
  datatype Use = Use(typ: GoType, requestBody: bool)

  /** What a use documents when it is first derived, in response context. */
  function FirstReading(w: World, u: Use): Schema<Sym> {
    if u.requestBody then RemoveNullability(Inline(w, u.typ, InResponse)) else Inline(w, u.typ, InResponse)
  }

  /** What a use documents in the finished document. */
  function Reading(w: World, u: Use): Schema<Sym> {
    if u.requestBody then RemoveNullability(Inline(w, u.typ, InRequest)) else Inline(w, u.typ, InResponse)
  }

  // --- What a settled generator state means ----------------------------------

  /** The (type, context) pairs whose components were derived structurally. */
  ghost function DerivedSyms(w: World, st: State): set<Sym> {
    set k | k in st.owner && st.owner[k] !in w.known :: Sym(st.owner[k], ContextOf(k))
  }

  lemma CoveredAreDerived(w: World, st: State, content: Schema<Sym>)
    requires ValidState(w, st) && Covered(st, content)
    requires forall y :: y in Refs(content) ==> y.typ in w.defs && y.typ !in w.known
    ensures Refs(content) <= DerivedSyms(w, st)
  {
    forall y | y in Refs(content)
      ensures y in DerivedSyms(w, st)
    {
      var k := Slot(st.ids)(y);
      assert k in st.owner && OwnerFits(w, st, k);
    }
  }

  lemma DerivedBody(w: World, st: State, y: Sym)
    requires WellFormed(w) && ValidState(w, st) && PendingIn(st) == {} && y in DerivedSyms(w, st)
    ensures y in Ideal(w) && Refs(Ideal(w)[y]) <= DerivedSyms(w, st)
    ensures Slot(st.ids)(y) in st.schemas && st.schemas[Slot(st.ids)(y)] == Rename(Ideal(w)[y], Slot(st.ids))
  {
    var k :| k in st.owner && st.owner[k] !in w.known && y == Sym(st.owner[k], ContextOf(k));
    assert OwnerFits(w, st, k) && k !in PendingIn(st);
    assert k == Slot(st.ids)(y);
    assert SlotFilled(w, st, k);
    BodyRefs(w, y.typ, y.ctx);
    CoveredAreDerived(w, st, Body(w, w.defs[y.typ], y.ctx));
  }

  /** The derived components mean what the types mean: ids, reservations and visiting order leave no trace. */
  lemma {:induction false} DerivedMeaning(w: World, st: State, content: Schema<Sym>, faults: set<Violation>,
                                          s: Schema<Key>, n: nat)
    requires WellFormed(w) && ValidState(w, st) && PendingIn(st) == {}
    requires Holds(st, content, faults, s)
    requires forall y :: y in Refs(content) ==> y.typ in w.defs && y.typ !in w.known
    ensures Unfold(Ideal(w), content, n) == Unfold(st.schemas, s, n)
  {
    forall y | y in DerivedSyms(w, st) {
      DerivedBody(w, st, y);
    }
    CoveredAreDerived(w, st, content);
    RenamePreservesMeaning(Ideal(w), st.schemas, Slot(st.ids), DerivedSyms(w, st), content, n);
  }

  lemma {:induction false} TwinSpellings(ids: map<GoType, nat>, s: Schema<Sym>)
    requires forall y :: y in Refs(s) ==> y.ctx == InResponse
    ensures R.Parallel(Rename(Rename(s, ToRequest), Slot(ids)), Rename(s, Slot(ids)))
  {
    if s.Node? {
      forall i | 0 <= i < |s.kids|
        ensures R.Parallel(Rename(Rename(s.kids[i], ToRequest), Slot(ids)), Rename(s.kids[i], Slot(ids)))
      {
        KidRefs(s, i);
        TwinSpellings(ids, s.kids[i]);
      }
    }
  }

  /** A request component refers to request components only. */
  lemma RequestRefsAreVariants(w: World, st: State, v: Key)
    requires WellFormed(w) && ValidState(w, st) && PendingIn(st) == {} && v in R.Variants(st.schemas)
    ensures v in st.owner && Sym(st.owner[v], InRequest) in DerivedSyms(w, st)
    ensures forall k :: k in Refs(st.schemas[v]) ==> k in R.Variants(st.schemas)
  {
    hide Ideal, Body;
    assert OwnerFits(w, st, v);
    var y := Sym(st.owner[v], InRequest);
    assert y in DerivedSyms(w, st);
    DerivedBody(w, st, y);
    RenameRefs(Ideal(w)[y], Slot(st.ids));
    IdealRefs(w, y);
    forall z | z in Refs(Ideal(w)[y])
      ensures Slot(st.ids)(z) in R.Variants(st.schemas)
    {
      DerivedBody(w, st, z);
    }
  }

  lemma IdealRefs(w: World, y: Sym)
    requires WellFormed(w) && y in Ideal(w)
    ensures y.typ in w.defs && Ideal(w)[y] == Body(w, w.defs[y.typ], y.ctx)
    ensures forall z :: z in Refs(Ideal(w)[y]) ==> z.ctx == y.ctx
  {
    BodyRefs(w, y.typ, y.ctx);
  }

  /** Every request component mirrors its response twin and refers to request components only. */
  lemma {:induction false} DerivedTwins(w: World, st: State)
    requires WellFormed(w) && ValidState(w, st) && PendingIn(st) == {}
    ensures R.TwinDerivations(st.schemas)
  {
    hide Ideal, Body, Holds, Rename;
    forall v | v in R.Variants(st.schemas)
      ensures forall k :: k in Refs(st.schemas[v]) ==> k in R.Variants(st.schemas)
      ensures Base(v.id) in st.schemas ==> R.Parallel(st.schemas[v], st.schemas[Base(v.id)])
    {
      RequestRefsAreVariants(w, st, v);
      if Base(v.id) in st.schemas {
        var y, x := Sym(st.owner[v], InRequest), Sym(st.owner[v], InResponse);
        assert OwnerFits(w, st, v) && OwnerFits(w, st, Base(v.id));
        assert x in DerivedSyms(w, st);
        DerivedBody(w, st, y);
        DerivedBody(w, st, x);
        IdealRefs(w, y);
        IdealRefs(w, x);
        TwinSpellings(st.ids, Ideal(w)[x]);
        BodyTwin(w, w.defs[y.typ]);
        OpenedSpelling(Ideal(w)[y], Rename(Ideal(w)[x], ToRequest), Slot(st.ids));
      }
    }
  }

  lemma OpenedSpelling(a: Schema<Sym>, b: Schema<Sym>, f: Sym -> Key)
    requires Opened(a) == Opened(b)
    ensures Opened(Rename(a, f)) == Opened(Rename(b, f))
  {
    if a.Node? {
      assert a.kids == b.kids;
      assert Rename(a, f).kids == Rename(b, f).kids;
    }
  }

  // --- The passes ------------------------------------------------------------

  lemma ReadingRefs(w: World, u: Use, y: Sym)
    requires WellFormed(w) && Provided(w, u.typ) && (y in Refs(FirstReading(w, u)) || y in Refs(Reading(w, u)))
    ensures y.typ in w.defs && y.typ !in w.known
    ensures y in Refs(FirstReading(w, u)) ==> y.ctx == InResponse
  {
    InlineRefs(w, u.typ, InResponse);
    InlineRefs(w, u.typ, InRequest);
    RemoveNullabilityRefs(Inline(w, u.typ, InResponse));
    RemoveNullabilityRefs(Inline(w, u.typ, InRequest));
  }

  lemma HoldsStripped(st: State, content: Schema<Sym>, faults: set<Violation>, s: Schema<Key>)
    requires Holds(st, content, faults, s)
    ensures Holds(st, RemoveNullability(content), faults, RemoveNullability(s))
  {
    RenameRemoveNullability(content, Slot(st.ids));
    RemoveNullabilityRefs(content);
  }

  /** A re-pointed request body is the spelling of its type read in request context. */
  lemma PointedReading(w: World, st: State, st': State, u: Use, s: Schema<Key>, out: Schema<Key>)
    requires WellFormed(w) && Provided(w, u.typ) && u.requestBody
    requires ValidState(w, st) && Holds(st, FirstReading(w, u), InlineFaults(w, u.typ), s)
    requires Grows(w, st, st', InRequest) && Pointed(w, st', st.owner, s, out)
    ensures Holds(st', Reading(w, u), InlineFaults(w, u.typ), out)
  {
    var first := FirstReading(w, u);
    RequestReading(w, u);
    RenameRefs(first, Slot(st.ids));
    forall y | y in Refs(first)
      ensures y.typ in st'.ids && Slot(st'.ids)(ToRequest(y)) in st'.owner
      ensures VariantOf(w, st.owner)(Slot(st.ids)(y)) == Slot(st'.ids)(ToRequest(y))
    {
      ReadingRefs(w, u, y);
      var k := Slot(st.ids)(y);
      assert OwnerFits(w, st, k);
      assert k in Refs(s) && Redirected(w, st', st.owner, k);
    }
    var direct := (y: Sym) => Slot(st'.ids)(ToRequest(y));
    RenameCompose(first, Slot(st.ids), VariantOf(w, st.owner), direct);
    RenameCompose(first, ToRequest, Slot(st'.ids), direct);
  }

  /** Roots read as their uses do: the first `pointed` of them finished, the rest as first derived. */
  ghost predicate RootsHold(w: World, st: State, uses: seq<Use>, roots: seq<Schema<Key>>, pointed: nat) {
    && |roots| == |uses|
    && forall i :: 0 <= i < |roots| ==>
         Holds(st, if i < pointed then Reading(w, uses[i]) else FirstReading(w, uses[i]),
               InlineFaults(w, uses[i].typ), roots[i])
  }

  lemma RootsGrow(w: World, st: State, st': State, uses: seq<Use>, roots: seq<Schema<Key>>, pointed: nat, ctx: Context)
    requires RootsHold(w, st, uses, roots, pointed) && Grows(w, st, st', ctx)
    ensures RootsHold(w, st', uses, roots, pointed)
  {
    forall i | 0 <= i < |roots|
      ensures Holds(st', if i < pointed then Reading(w, uses[i]) else FirstReading(w, uses[i]),
                    InlineFaults(w, uses[i].typ), roots[i])
    {
      HoldsGrows(st, st', if i < pointed then Reading(w, uses[i]) else FirstReading(w, uses[i]),
                 InlineFaults(w, uses[i].typ), roots[i]);
    }
  }

  // --- What a build derives, and what it reports -----------------------------

  /** What the first `n` uses ask for when they are derived in response context. */
  function FirstMet(w: World, uses: seq<Use>, n: nat): set<Sym> {
    set i, y | 0 <= i < |uses| && i < n && y in Met(w, uses[i].typ, InResponse) :: y
  }

  function FirstFaults(w: World, uses: seq<Use>, n: nat): set<Violation> {
    set i, v | 0 <= i < |uses| && i < n && v in InlineFaults(w, uses[i].typ) :: v
  }

  /** What the first `n` uses ask for beyond that, as request bodies. */
  function BodiesMet(w: World, uses: seq<Use>, n: nat): set<Sym> {
    set i, y | 0 <= i < |uses| && i < n && uses[i].requestBody && y in Refs(Reading(w, uses[i])) :: y
  }

  /** The component is mentioned by a use, or on the way from one. */
  ghost predicate MentionedSym(w: World, uses: seq<Use>, y: Sym) {
    MentionedFrom(w, FirstMet(w, uses, |uses|) + BodiesMet(w, uses, |uses|), y)
  }

  /** A fault of a use, or of the body of a type that is mentioned. */
  ghost predicate FaultOf(w: World, uses: seq<Use>, v: Violation) {
    || v in FirstFaults(w, uses, |uses|)
    || exists y :: MentionedSym(w, uses, y) && v in ContentFaults(w, y.typ, y.ctx)
  }

  ghost predicate HasSlot(st: State, y: Sym) {
    y.typ in st.ids && Slot(st.ids)(y) in st.owner
  }

  /** Components are derived for what the uses mention and nothing else, and exactly their faults are reported. */
  ghost predicate Exact(w: World, uses: seq<Use>, st: State) {
    && (forall y :: HasSlot(st, y) <==> MentionedSym(w, uses, y))
    && (forall v :: v in st.violations <==> FaultOf(w, uses, v))
  }

  /** No id and no owner is lost. */
  ghost predicate Extending(st: State, st': State) {
    Extends(st'.ids, st.ids) && Extends(st'.owner, st.owner)
  }

  lemma NoBodies(w: World, st: State, uses: seq<Use>)
    ensures Accounts(w, st, st, {}, BodiesMet(w, uses, 0))
  {
  }

  lemma NoUses(w: World, st: State, uses: seq<Use>)
    ensures RootsHold(w, st, uses[..0], [], 0) && Accounts(w, st, st, FirstFaults(w, uses, 0), FirstMet(w, uses, 0))
  {
  }

  lemma MoreUses(w: World, uses: seq<Use>, i: nat, a: State, b: State, c: State)
    requires i < |uses| && Accounts(w, a, b, FirstFaults(w, uses, i), FirstMet(w, uses, i))
    requires Grows(w, b, c, InResponse)
    requires Accounts(w, b, c, InlineFaults(w, uses[i].typ), Met(w, uses[i].typ, InResponse))
    ensures Accounts(w, a, c, FirstFaults(w, uses, i + 1), FirstMet(w, uses, i + 1))
  {
    hide Accounts, FirstMet, FirstFaults, Met, InlineFaults;
    NextUse(w, uses, i);
    AccountsFurther(w, a, b, c, FirstFaults(w, uses, i), FirstMet(w, uses, i), InlineFaults(w, uses[i].typ),
                    Met(w, uses[i].typ, InResponse));
  }

  /** One more root is held, and those before it still are. */
  lemma NextRoot(w: World, st: State, st': State, uses: seq<Use>, i: nat, roots: seq<Schema<Key>>, s: Schema<Key>)
    requires i < |uses| && RootsHold(w, st, uses[..i], roots, 0) && Grows(w, st, st', InResponse)
    requires Holds(st', Inline(w, uses[i].typ, InResponse), InlineFaults(w, uses[i].typ), s)
    ensures RootsHold(w, st', uses[..i + 1], roots + [if uses[i].requestBody then RemoveNullability(s) else s], 0)
  {
    hide Holds, Inline, InlineFaults, Grows;
    RootsGrow(w, st, st', uses[..i], roots, 0, InResponse);
    HoldsStripped(st', Inline(w, uses[i].typ, InResponse), InlineFaults(w, uses[i].typ), s);
    assert uses[..i + 1] == uses[..i] + [uses[i]];
  }

  lemma MoreBodies(w: World, uses: seq<Use>, i: nat, a: State, b: State, c: State)
    requires i < |uses| && Accounts(w, a, b, {}, BodiesMet(w, uses, i)) && Extending(b, c)
    requires Accounts(w, b, c, {}, if uses[i].requestBody then Refs(Reading(w, uses[i])) else {})
    ensures Accounts(w, a, c, {}, BodiesMet(w, uses, i + 1))
  {
    hide Accounts, BodiesMet, Reading, Refs;
    var none: set<Violation> := {};
    assert none + none == none;
    NextUse(w, uses, i);
    AccountsFurther(w, a, b, c, {}, BodiesMet(w, uses, i), {},
                    if uses[i].requestBody then Refs(Reading(w, uses[i])) else {});
  }

  lemma SameIfNoBody(w: World, u: Use)
    ensures !u.requestBody ==> Reading(w, u) == FirstReading(w, u)
  {
  }

  lemma NextUse(w: World, uses: seq<Use>, i: nat)
    requires i < |uses|
    ensures FirstMet(w, uses, i + 1) == FirstMet(w, uses, i) + Met(w, uses[i].typ, InResponse)
    ensures FirstFaults(w, uses, i + 1) == FirstFaults(w, uses, i) + InlineFaults(w, uses[i].typ)
    ensures BodiesMet(w, uses, i + 1)
            == BodiesMet(w, uses, i) + if uses[i].requestBody then Refs(Reading(w, uses[i])) else {}
  {
    hide Met, InlineFaults, Reading, Refs;
  }

  /** Re-pointing a request body asks for what its type refers to in request context. */
  lemma BodySeeds(w: World, st: State, u: Use, s: Schema<Key>)
    requires WellFormed(w) && Provided(w, u.typ) && u.requestBody
    requires ValidState(w, st) && Holds(st, FirstReading(w, u), InlineFaults(w, u.typ), s)
    ensures Refs(s) <= st.owner.Keys && VariantSeeds(w, st.owner, Refs(s)) == Refs(Reading(w, u))
  {
    hide Reading, FirstReading, InlineFaults, ValidState, Rename, WellFormed, Met, Refs;
    var first := FirstReading(w, u);
    RenameRefs(first, Slot(st.ids));
    RequestReading(w, u);
    forall y | y in Refs(first)
      ensures var k := Slot(st.ids)(y);
              k.Base? && k in st.owner && st.owner[k] == y.typ && Met(w, y.typ, InRequest) == {ToRequest(y)}
    {
      ReadingRefs(w, u, y);
      OwnerMet(w, st, y);
    }
  }

  lemma OwnerMet(w: World, st: State, y: Sym)
    requires WellFormed(w) && ValidState(w, st) && HasSlot(st, y) && y.typ !in w.known
    ensures st.owner[Slot(st.ids)(y)] == y.typ && Met(w, y.typ, InRequest) == {ToRequest(y)}
  {
    assert OwnerFits(w, st, Slot(st.ids)(y));
  }

  lemma RequestReading(w: World, u: Use)
    requires WellFormed(w) && u.requestBody
    ensures Reading(w, u) == Rename(FirstReading(w, u), ToRequest)
    ensures Refs(Reading(w, u)) == set y | y in Refs(FirstReading(w, u)) :: ToRequest(y)
  {
    InlineTwin(w, u.typ);
    RenameRemoveNullability(Inline(w, u.typ, InResponse), ToRequest);
    RenameRefs(FirstReading(w, u), ToRequest);
  }

  /** Whatever is mentioned has its slot. */
  lemma {:induction false} MentionedHasSlot(w: World, st: State, seeds: set<Sym>, ys: seq<Sym>)
    requires ValidState(w, st) && PendingIn(st) == {} && MentionsHeld(w, st) && AllOwned(st, seeds)
    requires MentionWalk(w, ys) && ys[0] in seeds
    ensures HasSlot(st, ys[|ys| - 1])
    decreases |ys|
  {
    hide ValidState, MentionedBy, Slot;
    var n := |ys| - 1;
    if n > 0 {
      var y := ys[n - 1];
      assert MentionWalk(w, ys[..n]) && ys[..n][n - 1] == y && ys[(n - 1) + 1] in MentionedBy(w, y);
      MentionedHasSlot(w, st, seeds, ys[..n]);
      SlotOwner(w, st, y);
      assert MentionsCovered(w, st, y.typ, y.ctx);
    }
  }

  lemma SlotOwner(w: World, st: State, y: Sym)
    requires ValidState(w, st) && PendingIn(st) == {} && HasSlot(st, y)
    ensures var k := Slot(st.ids)(y);
            k in st.schemas && st.owner[k] == y.typ && ContextOf(k) == y.ctx
  {
    var k := Slot(st.ids)(y);
    assert OwnerFits(w, st, k) && k !in PendingIn(st);
  }

  lemma OwnerSlot(w: World, st: State, k: Key)
    requires ValidState(w, st) && k in st.owner
    ensures var y := Sym(st.owner[k], ContextOf(k));
            HasSlot(st, y) && Slot(st.ids)(y) == k
  {
    assert OwnerFits(w, st, k);
  }

  /** A build from an empty generator derives and reports exactly what its uses mention. */
  lemma {:induction false} FreshIsExact(w: World, uses: seq<Use>, st: State, roots: seq<Schema<Key>>)
    requires ValidState(w, st) && PendingIn(st) == {} && MentionsHeld(w, st) && RootsHold(w, st, uses, roots, |uses|)
    requires Accounts(w, EMPTY_STATE, st, FirstFaults(w, uses, |uses|),
                      FirstMet(w, uses, |uses|) + BodiesMet(w, uses, |uses|))
    ensures Exact(w, uses, st)
  {
    hide ValidState, MentionsHeld, Reading, FirstReading, Slot, InlineFaults, Met, MentionedBy;
    hide ContentFaults, FirstMet, BodiesMet;
    var seeds := FirstMet(w, uses, |uses|) + BodiesMet(w, uses, |uses|);
    forall y
      ensures HasSlot(st, y) <==> MentionedSym(w, uses, y)
    {
      if HasSlot(st, y) {
        SlotOwner(w, st, y);
      }
      if MentionedSym(w, uses, y) {
        var ys :| MentionWalk(w, ys) && ys[0] in seeds && ys[|ys| - 1] == y;
        MentionedHasSlot(w, st, seeds, ys);
      }
    }
    forall v
      ensures v in st.violations <==> FaultOf(w, uses, v)
    {
      if v in st.violations && OwnedFault(w, st, v) {
        var k :| k in st.owner && v in ContentFaults(w, st.owner[k], ContextOf(k));
        OwnerSlot(w, st, k);
      }
      if y :| MentionedSym(w, uses, y) && v in ContentFaults(w, y.typ, y.ctx) {
        SlotOwner(w, st, y);
        SlotFaults(w, st, Slot(st.ids)(y));
      }
    }
  }

  lemma SlotFaults(w: World, st: State, k: Key)
    requires ValidState(w, st) && k in st.schemas && k in st.owner
    ensures ContentFaults(w, st.owner[k], ContextOf(k)) <= st.violations
  {
    hide Content, ContentFaults;
    assert SlotFilled(w, st, k);
  }

  // --- How a build ends ------------------------------------------------------

  /** The state derived, its roots, and what the merge decided. */
  datatype Ending = Ending(
    st: State, derived: seq<Schema<Key>>, reached: set<Key>, renamed: set<Key>, collapse: set<Key>)

  ghost predicate Ends(w: World, uses: seq<Use>, e: Ending) {
    && WellFormed(w) && (forall u :: u in uses ==> Provided(w, u.typ))
    && ValidState(w, e.st) && PendingIn(e.st) == {} && MentionsHeld(w, e.st)
    && RootsHold(w, e.st, uses, e.derived, |uses|)
    && Resolved(e.st.schemas, e.derived) && e.st.owner.Keys == e.st.schemas.Keys
    && R.Reconciled(e.st.schemas, e.derived, e.reached, e.renamed, e.collapse)
  }

  ghost function MergedOf(e: Ending): map<Key, Schema<Key>> {
    R.Merged(e.st.schemas, e.renamed, e.collapse)
  }

  ghost function OwnersOf(e: Ending): map<Key, GoType> {
    R.Moved(e.st.owner, e.renamed, e.collapse)
  }

  ghost function RootsOf(e: Ending): seq<Schema<Key>> {
    seq(|e.derived|, i requires 0 <= i < |e.derived| => R.Repoint(e.derived[i], e.renamed + e.collapse))
  }

  ghost function NamesOf(e: Ending, nameFunc: N.NameFunc): map<Key, string> {
    map k | k in MergedOf(e) && k in OwnersOf(e) :: N.FinalName(OwnersOf(e), nameFunc, k)
  }

  /** Components and roots under their public names; a shared name leaves open whose body it holds. */
  ghost predicate Publishes(e: Ending, nameFunc: N.NameFunc, components: map<N.FinalRef, Schema<N.FinalRef>>,
                            published: seq<Schema<N.FinalRef>>)
  {
    var names, merged := NamesOf(e, nameFunc), MergedOf(e);
    && merged.Keys == names.Keys
    && components.Keys == (set k | k in merged :: N.Spelled(names)(k))
    && ((forall k, l :: k in merged && l in merged && names[k] == names[l] ==> k == l) ==>
          forall k :: k in merged ==> components[N.Spelled(names)(k)] == Rename(merged[k], N.Spelled(names)))
    && |published| == |e.derived|
    && forall i :: 0 <= i < |published| ==> published[i] == Rename(RootsOf(e)[i], N.Spelled(names))
  }

  /** Owners have names of their own, and none is spelled like another's request variant. */
  ghost predicate Distinguished(e: Ending, nameFunc: N.NameFunc) {
    && MergedOf(e).Keys <= OwnersOf(e).Keys
    && N.DistinctFullNames(MergedOf(e).Keys, OwnersOf(e))
    && !N.SuffixClash(MergedOf(e).Keys, OwnersOf(e), nameFunc)
  }

  /** Where a derived component is published. */
  ghost function PublishedAt(e: Ending, nameFunc: N.NameFunc, k: Key): N.FinalRef {
    N.Spelled(NamesOf(e, nameFunc))(R.Fold(e.renamed + e.collapse)(k))
  }

  /** The published component unfolds, at every depth, to its owner's reading in the context it was derived in. */
  ghost predicate ReadsAsOwner(w: World, e: Ending, nameFunc: N.NameFunc,
                               components: map<N.FinalRef, Schema<N.FinalRef>>, k: Key) {
    && k in e.st.owner && e.st.owner[k] in w.defs
    && PublishedAt(e, nameFunc, k) in components
    && forall n: nat :: Unfold(components, components[PublishedAt(e, nameFunc, k)], n)
                        == Unfold(Ideal(w), Body(w, w.defs[e.st.owner[k]], ContextOf(k)), n)
  }

  /** The same, of the component a type was derived as. */
  ghost predicate ReadsAs(w: World, e: Ending, nameFunc: N.NameFunc,
                          components: map<N.FinalRef, Schema<N.FinalRef>>, y: Sym) {
    y.typ in e.st.ids && ReadsAsOwner(w, e, nameFunc, components, Slot(e.st.ids)(y))
  }

  /** The component a struct type was derived as has its members, requires those demanded, and is closed in requests. */
  ghost predicate SaysItsFields(w: World, e: Ending, nameFunc: N.NameFunc,
                                components: map<N.FinalRef, Schema<N.FinalRef>>, y: Sym)
    requires S.IsStructType(w, y.typ)
  {
    && y.typ in e.st.ids && PublishedAt(e, nameFunc, Slot(e.st.ids)(y)) in components
    && S.StructFacts(w, w.defs[y.typ].shape.fields, y.ctx, components[PublishedAt(e, nameFunc, Slot(e.st.ids)(y))])
  }

  ghost predicate MeetsOnlyHarmless(e: Ending, k: Key) {
    R.MeetsOnlyHarmless(e.st.schemas, e.renamed, k)
  }

  /** The type has a request component beside its plain one. */
  ghost predicate VariantPublished(e: Ending, t: GoType) {
    t in e.st.ids && Request(e.st.ids[t]) in MergedOf(e)
  }

  /** A walk along the references of the types' readings. */
  ghost predicate ReadingWalk(w: World, ys: seq<Sym>) {
    && ys != []
    && (forall i :: 0 <= i < |ys| ==> ys[i] in Ideal(w))
    && (forall i :: 0 <= i < |ys| - 1 ==> ys[i + 1] in Refs(Ideal(w)[ys[i]]))
  }

  /** The document reaches the type in this direction: some use's reading leads to it. */
  ghost predicate ReachedSym(w: World, uses: seq<Use>, y: Sym) {
    exists ys, i :: 0 <= i < |uses| && ReadingWalk(w, ys) && ys[0] in Refs(Reading(w, uses[i])) && ys[|ys| - 1] == y
  }

  /** A type only request bodies are documented with, whose response component is mentioned in passing. */
  ghost predicate OverwrittenSym(w: World, uses: seq<Use>, y: Sym) {
    y.ctx == InResponse && MentionedSym(w, uses, ToRequest(y)) && !ReachedSym(w, uses, y)
  }

  /** A walk that meets nothing overwritten before its end. */
  ghost predicate ClearWalk(w: World, uses: seq<Use>, ys: seq<Sym>) {
    ReadingWalk(w, ys) && forall i :: 0 <= i < |ys| - 1 ==> !OverwrittenSym(w, uses, ys[i])
  }

  /** Whatever overwritten type is met first, on any walk along the readings, reads the same in both directions. */
  ghost predicate KeepsReading(w: World, uses: seq<Use>, y: Sym) {
    forall ys :: ClearWalk(w, uses, ys) && ys[0] == y ==> HarmlessSym(w, uses, ys[|ys| - 1])
  }

  ghost predicate HarmlessSym(w: World, uses: seq<Use>, y: Sym) {
    OverwrittenSym(w, uses, y) && y.typ in w.defs ==> SameReadings(w, y.typ)
  }

  /** A reference of a structurally read body is mentioned by it. */
  lemma StepIsMention(w: World, y: Sym, z: Sym)
    requires WellFormed(w) && y in Ideal(w) && y.typ !in w.known && z in Refs(Ideal(w)[y])
    ensures z in MentionedBy(w, y) && z.typ !in w.known
  {
    BodyIsMet(w, w.defs[y.typ], y.ctx);
    BodyRefs(w, y.typ, y.ctx);
  }

  lemma {:induction false} WalkIsMention(w: World, ys: seq<Sym>)
    requires WellFormed(w) && ReadingWalk(w, ys) && ys[0].typ !in w.known
    ensures MentionWalk(w, ys) && ys[|ys| - 1].typ !in w.known
    decreases |ys|
  {
    hide Ideal, MentionedBy, WellFormed;
    var n := |ys| - 1;
    if n > 0 {
      assert ReadingWalk(w, ys[..n]) && ys[(n - 1) + 1] in Refs(Ideal(w)[ys[n - 1]]);
      WalkIsMention(w, ys[..n]);
      StepIsMention(w, ys[n - 1], ys[n]);
    }
  }

  /** What the document reaches, the uses mention. */
  lemma ReachedIsMentioned(w: World, uses: seq<Use>, y: Sym)
    requires WellFormed(w) && (forall u :: u in uses ==> Provided(w, u.typ)) && ReachedSym(w, uses, y)
    ensures MentionedSym(w, uses, y)
  {
    hide Ideal, WellFormed, MentionedBy, Inline, Met, Refs;
    var ys, i :| 0 <= i < |uses| && ReadingWalk(w, ys) && ys[0] in Refs(Reading(w, uses[i])) && ys[|ys| - 1] == y;
    assert uses[i] in uses;
    ReadingRefs(w, uses[i], ys[0]);
    InlineIsMet(w, uses[i].typ, InResponse);
    WalkIsMention(w, ys);
    var seeds := FirstMet(w, uses, |uses|) + BodiesMet(w, uses, |uses|);
    assert ys[0] in seeds;
  }

  class DocumentBuilder {
    const sg: SchemaGenerator
    var roots: seq<Schema<Key>>

    constructor (w: World)
      requires WellFormed(w)
      ensures sg.Valid() && sg.world == w && fresh(sg) && roots == [] && sg.View() == EMPTY_STATE
    {
      sg := new SchemaGenerator(w);
      roots := [];
    }

    /** Derives every use in response context. */
    method BuildOperations(uses: seq<Use>)
      requires sg.Valid() && PendingIn(sg.View()) == {}
      requires forall u :: u in uses ==> Provided(sg.world, u.typ)
      modifies this, sg
      ensures sg.Valid() && PendingIn(sg.View()) == {}
      ensures RootsHold(sg.world, sg.View(), uses, roots, 0)
      ensures Accounts(sg.world, old(sg.View()), sg.View(), FirstFaults(sg.world, uses, |uses|),
                       FirstMet(sg.world, uses, |uses|))
    {
      hide ValidState, MentionsHeld, WellFormed, RootsHold, Holds, Inline, InlineFaults, Met, Accounts;
      hide FirstMet, FirstFaults;
      roots := [];
      NoUses(sg.world, sg.View(), uses);
      for i := 0 to |uses|
        invariant sg.Valid() && PendingIn(sg.View()) == {}
        invariant RootsHold(sg.world, sg.View(), uses[..i], roots, 0)
        invariant Accounts(sg.world, old(sg.View()), sg.View(), FirstFaults(sg.world, uses, i),
                           FirstMet(sg.world, uses, i))
      {
        ghost var before := sg.View();
        assert uses[i] in uses;
        var s := sg.Derive(uses[i].typ, InResponse);
        MoreUses(sg.world, uses, i, old(sg.View()), before, sg.View());
        NextRoot(sg.world, before, sg.View(), uses, i, roots, s);
        roots := roots + [if uses[i].requestBody then RemoveNullability(s) else s];
      }
      assert uses[..|uses|] == uses;
    }

    /** Re-documents one use, if it is a request body, in request context. */
    method ApplyRequestSchemaContext(uses: seq<Use>, i: nat)
      requires sg.Valid() && PendingIn(sg.View()) == {} && i < |uses|
      requires forall u :: u in uses ==> Provided(sg.world, u.typ)
      requires RootsHold(sg.world, sg.View(), uses, roots, i)
      modifies this, sg
      ensures sg.Valid() && PendingIn(sg.View()) == {}
      ensures RootsHold(sg.world, sg.View(), uses, roots, i + 1)
      ensures Accounts(sg.world, old(sg.View()), sg.View(), {},
                       if uses[i].requestBody then Refs(Reading(sg.world, uses[i])) else {})
      ensures Extending(old(sg.View()), sg.View())
    {
      hide ValidState, MentionsHeld, VariantSeeds, FirstReading, InlineFaults, Holds, Refs, MentionedFrom, OwnedFault;
      hide Rename, WellFormed;
      SameIfNoBody(sg.world, uses[i]);
      if uses[i].requestBody {
        ghost var before := sg.View();
        assert Provided(sg.world, uses[i].typ) by { assert uses[i] in uses; }
        BodySeeds(sg.world, before, uses[i], roots[i]);
        var out := sg.PointAtRequestVariants(roots[i]);
        PointedReading(sg.world, before, sg.View(), uses[i], roots[i], out);
        RootsGrow(sg.world, before, sg.View(), uses, roots, i, InRequest);
        roots := roots[i := out];
      }
    }

    /** Re-documents every request body in request context. */
    method ApplyRequestSchemaContexts(uses: seq<Use>)
      requires sg.Valid() && PendingIn(sg.View()) == {}
      requires forall u :: u in uses ==> Provided(sg.world, u.typ)
      requires RootsHold(sg.world, sg.View(), uses, roots, 0)
      modifies this, sg
      ensures sg.Valid() && PendingIn(sg.View()) == {}
      ensures RootsHold(sg.world, sg.View(), uses, roots, |uses|)
      ensures Accounts(sg.world, old(sg.View()), sg.View(), {}, BodiesMet(sg.world, uses, |uses|))
      ensures Extending(old(sg.View()), sg.View())
    {
      hide ValidState, MentionsHeld, Accounts, BodiesMet, RootsHold, Reading, Refs, WellFormed;
      NoBodies(sg.world, sg.View(), uses);
      for i := 0 to |uses|
        invariant sg.Valid() && PendingIn(sg.View()) == {}
        invariant RootsHold(sg.world, sg.View(), uses, roots, i)
        invariant Accounts(sg.world, old(sg.View()), sg.View(), {}, BodiesMet(sg.world, uses, i))
        invariant Extending(old(sg.View()), sg.View())
      {
        ghost var before := sg.View();
        ApplyRequestSchemaContext(uses, i);
        MoreBodies(sg.world, uses, i, old(sg.View()), before, sg.View());
      }
    }

    /** Merges the two component sets, in place. */
    method ReconcileSchemaContexts()
      returns (ghost reached: set<Key>, ghost renamed: set<Key>, ghost collapse: set<Key>)
      requires sg.schemas.Keys <= sg.schemaOwner.Keys
      modifies this, sg`schemas, sg`schemaOwner
      ensures R.Reconciled(old(sg.schemas), old(roots), reached, renamed, collapse)
      ensures sg.schemas == R.Merged(old(sg.schemas), renamed, collapse)
      ensures sg.schemaOwner == R.Moved(old(sg.schemaOwner), renamed, collapse)
      ensures |roots| == |old(roots)|
      ensures forall i :: 0 <= i < |roots| ==> roots[i] == R.Repoint(old(roots)[i], renamed + collapse)
    {
      sg.schemas, sg.schemaOwner, roots, reached, renamed, collapse :=
        R.Reconcile(sg.schemas, sg.schemaOwner, roots);
    }

    /** Derives every use, re-documents request bodies and merges the two component sets. */
    method BuildComponents(uses: seq<Use>) returns (ghost e: Ending)
      requires sg.Valid() && PendingIn(sg.View()) == {}
      requires forall u :: u in uses ==> Provided(sg.world, u.typ)
      modifies this, sg
      ensures Ends(sg.world, uses, e) && MergedOf(e).Keys == OwnersOf(e).Keys
      ensures sg.schemas == MergedOf(e) && sg.schemaOwner == OwnersOf(e) && roots == RootsOf(e)
      ensures sg.violations == e.st.violations
      ensures old(sg.View()) == EMPTY_STATE ==> Exact(sg.world, uses, e.st)
    {
      hide Ends, ValidState, MentionsHeld, WellFormed, RootsHold, R.Reconciled, R.Merged, R.Moved;
      hide Accounts, FirstMet, FirstFaults, BodiesMet, Exact, Resolved;
      ghost var w, start := sg.world, sg.View();
      BuildOperations(uses);
      ghost var first := sg.View();
      ApplyRequestSchemaContexts(uses);
      ghost var st, derived := sg.View(), roots;
      BuildAccounts(w, uses, start, first, st);
      if start == EMPTY_STATE {
        FreshIsExact(w, uses, st, derived);
      }
      RootsResolved(w, st, uses, derived);
      ghost var reached, renamed, collapse := ReconcileSchemaContexts();
      e := Ending(st, derived, reached, renamed, collapse);
      EndingHolds(w, uses, e);
      assert roots == RootsOf(e);
    }

    /**
      The whole build. When naming reports nothing and no type is spelled like
      another's request variant, the published document has no dangling
      reference, every root unfolds, at every depth, to its type's reading, a
      component unfolds to its owner's reading exactly when it meets only
      harmless overwriting, and a type has a ".Request" component of its own
      exactly when both directions reach it and read it differently. From an empty
      generator, it derives and reports exactly what the uses mention, and which
      components keep their reading is told from the types and the uses alone.
     */
    method Build(uses: seq<Use>, nameFunc: N.NameFunc)
      returns (components: map<N.FinalRef, Schema<N.FinalRef>>, published: seq<Schema<N.FinalRef>>,
               violations: seq<N.NamingViolation>, ghost e: Ending)
      requires sg.Valid() && PendingIn(sg.View()) == {}
      requires forall u :: u in uses ==> Provided(sg.world, u.typ)
      modifies this, sg
      ensures Ends(sg.world, uses, e) && sg.schemas == MergedOf(e) && sg.schemaOwner == OwnersOf(e)
      ensures sg.violations == e.st.violations
      ensures old(sg.View()) == EMPTY_STATE ==> Exact(sg.world, uses, e.st)
      ensures Publishes(e, nameFunc, components, published)
      ensures violations == [] <==> N.Clean(MergedOf(e).Keys, OwnersOf(e), nameFunc)
      ensures violations == [] && Distinguished(e, nameFunc) ==>
                && Resolved(components, published)
                && (forall i, n: nat :: 0 <= i < |uses| ==>
                      Unfold(components, published[i], n) == Unfold(Ideal(sg.world), Reading(sg.world, uses[i]), n))
                && (forall k :: k in e.st.schemas && e.st.owner[k] !in sg.world.known ==>
                      (ReadsAsOwner(sg.world, e, nameFunc, components, k) <==> MeetsOnlyHarmless(e, k)))
      ensures forall t :: ReachedSym(sg.world, uses, Sym(t, InRequest)) ==>
                t in sg.world.defs
                && (VariantPublished(e, t)
                    <==> ReachedSym(sg.world, uses, Sym(t, InResponse)) && !SameReadings(sg.world, t))
      ensures old(sg.View()) == EMPTY_STATE && violations == [] && Distinguished(e, nameFunc) ==>
                forall y :: MentionedSym(sg.world, uses, y) && y.typ !in sg.world.known ==>
                  (ReadsAs(sg.world, e, nameFunc, components, y) <==> KeepsReading(sg.world, uses, y))
      ensures old(sg.View()) == EMPTY_STATE && violations == [] && Distinguished(e, nameFunc) ==>
                forall y ::
                  && MentionedSym(sg.world, uses, y) && y.typ !in sg.world.known && KeepsReading(sg.world, uses, y)
                  && S.IsStructType(sg.world, y.typ) ==>
                    SaysItsFields(sg.world, e, nameFunc, components, y)
    {
      hide Ends, MergedOf, OwnersOf, RootsOf, NamesOf, N.Clean, Publishes, Distinguished, ReadsAsOwner, Unfold;
      hide MeetsOnlyHarmless, VariantPublished, ReachedSym, SameReadings, Exact, MentionedSym, ReadsAs, KeepsReading;
      hide Refs, Rename, Reading, Ideal, WellFormed, ValidState, MentionsHeld, Resolved, SaysItsFields;
      e := BuildComponents(uses);
      var keys := R.Listed(sg.schemas.Keys);
      var names;
      names, violations := N.ChooseNames(keys, sg.schemaOwner, nameFunc);
      NamesAgree(e, nameFunc, names);
      components, published := N.Publish(sg.schemas, roots, names);
      PublishesAll(e, nameFunc, names, components, published);
      BuildMeaning(sg.world, uses, e, nameFunc, components, published);
      VariantsPublished(sg.world, uses, e);
      if Exact(sg.world, uses, e.st) && violations == [] && Distinguished(e, nameFunc) {
        ComponentsKeepReading(sg.world, uses, e, nameFunc, components, published);
        forall y: Sym | S.IsStructType(sg.world, y.typ) && ReadsAs(sg.world, e, nameFunc, components, y)
          ensures SaysItsFields(sg.world, e, nameFunc, components, y)
        {
          PublishedStruct(sg.world, uses, e, nameFunc, components, y);
        }
      }
    }
  }

  lemma NamesAgree(e: Ending, nameFunc: N.NameFunc, names: map<Key, string>)
    requires MergedOf(e).Keys == OwnersOf(e).Keys == names.Keys
    requires forall k :: k in names ==> names[k] == N.FinalName(OwnersOf(e), nameFunc, k)
    ensures names == NamesOf(e, nameFunc)
  {
    hide MergedOf, OwnersOf;
  }

  lemma VariantsPublished(w: World, uses: seq<Use>, e: Ending)
    requires Ends(w, uses, e)
    ensures forall t :: ReachedSym(w, uses, Sym(t, InRequest)) ==>
              && t in w.defs
              && (VariantPublished(e, t) <==> ReachedSym(w, uses, Sym(t, InResponse)) && !SameReadings(w, t))
  {
    hide Ends, ReachedSym, VariantPublished, SameReadings;
    forall t | ReachedSym(w, uses, Sym(t, InRequest))
      ensures t in w.defs
      ensures VariantPublished(e, t) <==> ReachedSym(w, uses, Sym(t, InResponse)) && !SameReadings(w, t)
    {
      VariantPublishedIff(w, uses, e, t);
    }
  }

  lemma PublishedStruct(w: World, uses: seq<Use>, e: Ending, nameFunc: N.NameFunc,
                        components: map<N.FinalRef, Schema<N.FinalRef>>, y: Sym)
    requires Ends(w, uses, e) && S.IsStructType(w, y.typ) && ReadsAs(w, e, nameFunc, components, y)
    ensures SaysItsFields(w, e, nameFunc, components, y)
  {
    hide Ends, Body, Ideal, Unfold, PublishedAt, S.StructFacts, ValidState;
    var k := Slot(e.st.ids)(y);
    EndsSettled(w, uses, e);
    SlotOwner(w, e.st, y);
    S.BodyFacts(w, y.typ, y.ctx);
    S.SameTreeSameFacts(w, w.defs[y.typ].shape.fields, y.ctx, components, components[PublishedAt(e, nameFunc, k)],
                        Ideal(w), Body(w, w.defs[y.typ], y.ctx));
  }

  lemma BuildAccounts(w: World, uses: seq<Use>, start: State, first: State, st: State)
    requires Accounts(w, start, first, FirstFaults(w, uses, |uses|), FirstMet(w, uses, |uses|))
    requires Accounts(w, first, st, {}, BodiesMet(w, uses, |uses|)) && Extending(first, st)
    ensures Accounts(w, start, st, FirstFaults(w, uses, |uses|),
                     FirstMet(w, uses, |uses|) + BodiesMet(w, uses, |uses|))
  {
    hide Accounts, FirstFaults, FirstMet, BodiesMet;
    var faults, none: set<Violation> := FirstFaults(w, uses, |uses|), {};
    assert faults + none == faults;
    AccountsFurther(w, start, first, st, faults, FirstMet(w, uses, |uses|), none, BodiesMet(w, uses, |uses|));
  }

  lemma EndingHolds(w: World, uses: seq<Use>, e: Ending)
    requires WellFormed(w) && (forall u :: u in uses ==> Provided(w, u.typ))
    requires ValidState(w, e.st) && PendingIn(e.st) == {} && MentionsHeld(w, e.st)
             && RootsHold(w, e.st, uses, e.derived, |uses|)
    requires Resolved(e.st.schemas, e.derived) && e.st.owner.Keys == e.st.schemas.Keys
    requires R.Reconciled(e.st.schemas, e.derived, e.reached, e.renamed, e.collapse)
    ensures Ends(w, uses, e) && MergedOf(e).Keys == OwnersOf(e).Keys
  {
    hide ValidState, MentionsHeld, WellFormed, RootsHold, Resolved, R.Reconciled, R.Merged, R.Moved;
    MergedOwners(w, e.st, e.derived, e.reached, e.renamed, e.collapse);
  }

  lemma PublishesAll(e: Ending, nameFunc: N.NameFunc, names: map<Key, string>,
                     components: map<N.FinalRef, Schema<N.FinalRef>>, published: seq<Schema<N.FinalRef>>)
    requires names == NamesOf(e, nameFunc) && MergedOf(e).Keys == OwnersOf(e).Keys
    requires components.Keys == set k | k in MergedOf(e) :: N.Spelled(names)(k)
    requires (forall k, l :: k in MergedOf(e) && l in MergedOf(e) && names[k] == names[l] ==> k == l) ==>
               forall k :: k in MergedOf(e) ==>
                 components[N.Spelled(names)(k)] == Rename(MergedOf(e)[k], N.Spelled(names))
    requires |published| == |RootsOf(e)|
    requires forall i :: 0 <= i < |published| ==> published[i] == Rename(RootsOf(e)[i], N.Spelled(names))
    ensures Publishes(e, nameFunc, components, published)
  {
    hide MergedOf, OwnersOf, N.Spelled, Rename;
  }

  lemma RootsResolved(w: World, st: State, uses: seq<Use>, roots: seq<Schema<Key>>)
    requires ValidState(w, st) && PendingIn(st) == {} && RootsHold(w, st, uses, roots, |uses|)
    ensures Resolved(st.schemas, roots) && st.owner.Keys == st.schemas.Keys
  {
    forall k | k in st.owner
      ensures k in st.schemas
    {
      assert k !in PendingIn(st);
    }
    SettledResolved(w, st, Scalar("object", []), {}, Scalar("object", []));
    forall r | r in roots
      ensures Refs(r) <= st.schemas.Keys
    {
      var i :| 0 <= i < |roots| && roots[i] == r;
      RenameRefs(Reading(w, uses[i]), Slot(st.ids));
    }
  }

  /** After the merge every component is still owned, by one type per context. */
  lemma MergedOwners(w: World, st: State, roots: seq<Schema<Key>>, reached: set<Key>, renamed: set<Key>,
                     collapse: set<Key>)
    requires ValidState(w, st) && st.owner.Keys == st.schemas.Keys
    requires R.Reconciled(st.schemas, roots, reached, renamed, collapse)
    ensures var owner := R.Moved(st.owner, renamed, collapse);
            var keys := R.Merged(st.schemas, renamed, collapse).Keys;
            keys == owner.Keys && N.OneKeyPerOwner(keys, owner)
  {
    var owner := R.Moved(st.owner, renamed, collapse);
    forall k | k in owner
      ensures owner[k] in st.ids && st.ids[owner[k]] == k.id
    {
      assert OwnerFits(w, st, R.Origin(renamed, k));
    }
  }

  lemma PublishedResolved(schemas: map<Key, Schema<Key>>, roots: seq<Schema<Key>>, names: map<Key, string>,
                          components: map<N.FinalRef, Schema<N.FinalRef>>, published: seq<Schema<N.FinalRef>>)
    requires Resolved(schemas, roots) && schemas.Keys <= names.Keys
    requires components.Keys == set k | k in schemas :: N.Spelled(names)(k)
    requires forall k :: k in schemas ==> components[N.Spelled(names)(k)] == Rename(schemas[k], N.Spelled(names))
    requires |published| == |roots|
    requires forall i :: 0 <= i < |roots| ==> published[i] == Rename(roots[i], N.Spelled(names))
    ensures Resolved(components, published)
  {
    forall c | c in components
      ensures Refs(components[c]) <= components.Keys
    {
      var k :| k in schemas && c == N.Spelled(names)(k);
      RenameRefs(schemas[k], N.Spelled(names));
    }
    forall p | p in published
      ensures Refs(p) <= components.Keys
    {
      var i :| 0 <= i < |published| && published[i] == p;
      assert roots[i] in roots;
      RenameRefs(roots[i], N.Spelled(names));
    }
  }

  /** Derivation and reconciliation, composed. */
  lemma {:induction false} MergedMeaning(w: World, st: State, uses: seq<Use>, derived: seq<Schema<Key>>,
                      reached: set<Key>, renamed: set<Key>, collapse: set<Key>, i: nat, n: nat)
    requires WellFormed(w) && ValidState(w, st) && PendingIn(st) == {}
    requires RootsHold(w, st, uses, derived, |uses|) && Resolved(st.schemas, derived)
    requires R.Reconciled(st.schemas, derived, reached, renamed, collapse)
    requires i < |uses| && Provided(w, uses[i].typ)
    ensures Unfold(R.Merged(st.schemas, renamed, collapse), R.Repoint(derived[i], renamed + collapse), n)
            == Unfold(Ideal(w), Reading(w, uses[i]), n)
  {
    assert derived[i] in derived;
    assert Refs(derived[i]) <= R.Seeds(derived);
    forall y | y in Refs(Reading(w, uses[i])) {
      ReadingRefs(w, uses[i], y);
    }
    DerivedMeaning(w, st, Reading(w, uses[i]), InlineFaults(w, uses[i].typ), derived[i], n);
    R.ReconcilePreservesMeaning(st.schemas, derived, reached, renamed, collapse, derived[i], n);
  }

  /** A one-to-one naming on top: a published root means what its type means. */
  lemma {:induction false} PublishedMeaning(w: World, st: State, uses: seq<Use>, derived: seq<Schema<Key>>,
                         reached: set<Key>, renamed: set<Key>, collapse: set<Key>,
                         merged: map<Key, Schema<Key>>, roots: seq<Schema<Key>>, names: map<Key, string>,
                         components: map<N.FinalRef, Schema<N.FinalRef>>, i: nat, n: nat)
    requires WellFormed(w) && ValidState(w, st) && PendingIn(st) == {}
    requires RootsHold(w, st, uses, derived, |uses|) && Resolved(st.schemas, derived)
    requires R.Reconciled(st.schemas, derived, reached, renamed, collapse)
    requires merged == R.Merged(st.schemas, renamed, collapse) && Resolved(merged, roots)
    requires merged.Keys <= names.Keys
    requires forall k :: k in merged ==>
               && N.Spelled(names)(k) in components
               && components[N.Spelled(names)(k)] == Rename(merged[k], N.Spelled(names))
    requires i < |uses| == |roots| && Provided(w, uses[i].typ)
    requires roots[i] == R.Repoint(derived[i], renamed + collapse)
    ensures Unfold(components, Rename(roots[i], N.Spelled(names)), n) == Unfold(Ideal(w), Reading(w, uses[i]), n)
  {
    MergedMeaning(w, st, uses, derived, reached, renamed, collapse, i, n);
    assert roots[i] in roots;
    N.NamingPreservesMeaning(merged, components, names, roots[i], n);
  }

  /** The two readings of a type never differ, at any depth. */
  ghost predicate SameReadings(w: World, t: GoType)
    requires t in w.defs
  {
    forall n: nat ::
      Unfold(Ideal(w), Body(w, w.defs[t], InRequest), n) == Unfold(Ideal(w), Body(w, w.defs[t], InResponse), n)
  }

  lemma SlotMeaning(w: World, st: State, k: Key, n: nat)
    requires WellFormed(w) && ValidState(w, st) && PendingIn(st) == {} && k in st.schemas && st.owner[k] !in w.known
    ensures st.owner[k] in w.defs
    ensures Unfold(st.schemas, st.schemas[k], n) == Unfold(Ideal(w), Body(w, w.defs[st.owner[k]], ContextOf(k)), n)
  {
    assert OwnerFits(w, st, k) && SlotFilled(w, st, k);
    var t := st.owner[k];
    BodyRefs(w, t, ContextOf(k));
    DerivedMeaning(w, st, Body(w, w.defs[t], ContextOf(k)), BodyFaults(w, t, ContextOf(k)), st.schemas[k], n);
  }

  /**
    In the finished document a type keeps a separate ".Request" component
    exactly when the document reaches its response component and its two
    readings differ at some depth.
   */
  lemma {:induction false} PublishedVariants(w: World, st: State, uses: seq<Use>, derived: seq<Schema<Key>>,
                          reached: set<Key>, renamed: set<Key>, collapse: set<Key>, v: Key)
    requires WellFormed(w) && ValidState(w, st) && PendingIn(st) == {}
    requires RootsHold(w, st, uses, derived, |uses|)
    requires R.Reconciled(st.schemas, derived, reached, renamed, collapse)
    requires v in R.Variants(st.schemas)
    ensures st.owner[v] in w.defs
    ensures v in R.Merged(st.schemas, renamed, collapse) <==>
            Base(v.id) in reached && !SameReadings(w, st.owner[v])
  {
    hide Ideal, Body, Holds, R.Merged;
    assert OwnerFits(w, st, v);
    RootsResolved(w, st, uses, derived);
    DerivedTwins(w, st);
    R.ReachedHaveComponents(st.schemas, derived, reached);
    R.VariantSurvivesIffItDiffers(st.schemas, derived, reached, renamed, collapse, v);
    if Base(v.id) in reached {
      TwinsMean(w, st, v);
    }
  }

  /** Two stored twins never differ exactly when their type's two readings never do. */
  lemma {:induction false} TwinsMean(w: World, st: State, v: Key)
    requires WellFormed(w) && ValidState(w, st) && PendingIn(st) == {}
    requires v.Request? && v in st.schemas && Base(v.id) in st.schemas
    ensures st.owner[v] in w.defs
    ensures R.SameMeaning(st.schemas, st.schemas[v], st.schemas[Base(v.id)]) <==> SameReadings(w, st.owner[v])
  {
    hide Ideal, Body, Holds, Unfold;
    var t, base := st.owner[v], Base(v.id);
    assert OwnerFits(w, st, v) && OwnerFits(w, st, base);
    forall n: nat
      ensures Unfold(st.schemas, st.schemas[v], n) == Unfold(Ideal(w), Body(w, w.defs[t], InRequest), n)
      ensures Unfold(st.schemas, st.schemas[base], n) == Unfold(Ideal(w), Body(w, w.defs[t], InResponse), n)
    {
      SlotMeaning(w, st, v, n);
      SlotMeaning(w, st, base, n);
    }
  }

  // --- Every published component ---------------------------------------------

  lemma NamesAreOneToOne(w: World, uses: seq<Use>, e: Ending, nameFunc: N.NameFunc)
    requires Ends(w, uses, e) && N.Clean(MergedOf(e).Keys, OwnersOf(e), nameFunc) && Distinguished(e, nameFunc)
    ensures var names := NamesOf(e, nameFunc);
            forall k, l ::
              k in MergedOf(e) && l in MergedOf(e) && k in names && l in names && names[k] == names[l] ==> k == l
  {
    hide ValidState, MentionsHeld, RootsHold;
    MergedOwners(w, e.st, e.derived, e.reached, e.renamed, e.collapse);
    N.CleanNamesAreOneToOne(MergedOf(e).Keys, OwnersOf(e), nameFunc);
  }

  lemma MergedResolved(w: World, uses: seq<Use>, e: Ending)
    requires Ends(w, uses, e)
    ensures Resolved(MergedOf(e), RootsOf(e))
  {
    hide ValidState, MentionsHeld, RootsHold;
    R.ReconcileKeepsRefsResolved(e.st.schemas, e.derived, RootsOf(e), e.reached, e.renamed, e.collapse);
  }

  /** A derived component, before the merge, reads as its owner. */
  lemma SlotReads(w: World, st: State, k: Key)
    requires WellFormed(w) && ValidState(w, st) && PendingIn(st) == {} && k in st.schemas && st.owner[k] !in w.known
    ensures st.owner[k] in w.defs
    ensures forall n: nat ::
              Unfold(st.schemas, st.schemas[k], n) == Unfold(Ideal(w), Body(w, w.defs[st.owner[k]], ContextOf(k)), n)
  {
    hide ValidState, Ideal, Body, Unfold;
    FilledAreOwned(w, st);
    SlotMeaning(w, st, k, 0);
    forall n: nat
      ensures Unfold(st.schemas, st.schemas[k], n) == Unfold(Ideal(w), Body(w, w.defs[st.owner[k]], ContextOf(k)), n)
    {
      SlotMeaning(w, st, k, n);
    }
  }

  /** Naming changes no component's meaning. */
  lemma NamedReads(merged: map<Key, Schema<Key>>, names: map<Key, string>,
                   components: map<N.FinalRef, Schema<N.FinalRef>>, l: Key)
    requires Resolved(merged, []) && merged.Keys <= names.Keys && l in merged
    requires forall k :: k in merged ==>
               N.Spelled(names)(k) in components
                 && components[N.Spelled(names)(k)] == Rename(merged[k], N.Spelled(names))
    ensures forall n: nat :: Unfold(merged, merged[l], n) == Unfold(components, components[N.Spelled(names)(l)], n)
  {
    hide Unfold;
    forall n: nat
      ensures Unfold(merged, merged[l], n) == Unfold(components, components[N.Spelled(names)(l)], n)
    {
      N.NamingPreservesMeaning(merged, components, names, merged[l], n);
    }
  }

  lemma PublishedBodies(w: World, uses: seq<Use>, e: Ending, nameFunc: N.NameFunc,
                        components: map<N.FinalRef, Schema<N.FinalRef>>, published: seq<Schema<N.FinalRef>>)
    requires Ends(w, uses, e) && Publishes(e, nameFunc, components, published)
    requires N.Clean(MergedOf(e).Keys, OwnersOf(e), nameFunc) && Distinguished(e, nameFunc)
    ensures var names, merged := NamesOf(e, nameFunc), MergedOf(e);
            forall k :: k in merged ==>
              N.Spelled(names)(k) in components
                && components[N.Spelled(names)(k)] == Rename(merged[k], N.Spelled(names))
  {
    hide Ends, N.Clean, Distinguished, MergedOf, NamesOf;
    NamesAreOneToOne(w, uses, e, nameFunc);
  }

  /** What a build's ending says of one derived component. */
  lemma ComponentKept(w: World, uses: seq<Use>, e: Ending, k: Key)
    requires Ends(w, uses, e) && k in e.st.schemas
    ensures R.Fold(e.renamed + e.collapse)(k) in MergedOf(e)
    ensures R.SameIn(e.st.schemas, k, MergedOf(e), R.Fold(e.renamed + e.collapse)(k)) <==> MeetsOnlyHarmless(e, k)
  {
    hide ValidState, MentionsHeld, RootsHold, R.TwinDerivations, R.Reconciled, R.MeetsOnlyHarmless, R.SameIn;
    hide R.Merged, R.Fold;
    hide Resolved, Refs, Rename, Unfold;
    DerivedTwins(w, e.st);
    R.MeaningKeptIff(e.st.schemas, e.derived, e.reached, e.renamed, e.collapse, k);
  }

  lemma MergedResolvedAlone(w: World, uses: seq<Use>, e: Ending)
    requires Ends(w, uses, e)
    ensures Resolved(MergedOf(e), [])
  {
    hide Ends, MergedOf, Refs;
    MergedResolved(w, uses, e);
  }

  lemma EndsSettled(w: World, uses: seq<Use>, e: Ending)
    requires Ends(w, uses, e)
    ensures WellFormed(w) && ValidState(w, e.st) && PendingIn(e.st) == {} && e.st.owner.Keys == e.st.schemas.Keys
  {
    hide ValidState, WellFormed, RootsHold;
  }

  /** Readings that are equal one by one are equal along. */
  lemma EqualReadings(a: nat -> Tree, b: nat -> Tree, c: nat -> Tree, d: nat -> Tree)
    requires (forall n: nat :: a(n) == b(n)) && forall n: nat :: c(n) == d(n)
    ensures (forall n: nat :: a(n) == c(n)) <==> forall n: nat :: d(n) == b(n)
  {
    if forall n: nat :: d(n) == b(n) {
      forall n: nat
        ensures a(n) == c(n)
      {
        assert d(n) == b(n);
      }
    }
    if forall n: nat :: a(n) == c(n) {
      forall n: nat
        ensures d(n) == b(n)
      {
        assert a(n) == c(n);
      }
    }
  }

  /** A derived component reads as its owner exactly when the merge keeps its meaning. */
  lemma ComponentMeaning(w: World, uses: seq<Use>, e: Ending, nameFunc: N.NameFunc,
                         components: map<N.FinalRef, Schema<N.FinalRef>>, published: seq<Schema<N.FinalRef>>, k: Key)
    requires Ends(w, uses, e) && Publishes(e, nameFunc, components, published)
    requires N.Clean(MergedOf(e).Keys, OwnersOf(e), nameFunc) && Distinguished(e, nameFunc)
    requires k in e.st.schemas && k in e.st.owner && e.st.owner[k] !in w.known
    ensures ReadsAsOwner(w, e, nameFunc, components, k) <==> MeetsOnlyHarmless(e, k)
  {
    hide Ends, Ideal, Body, Unfold, Refs, Rename, NamesOf, MergedOf, MeetsOnlyHarmless, N.Clean;
    hide Distinguished, N.Spelled, R.Fold;
    hide ValidState, WellFormed, PendingIn, Resolved;
    var l, names := R.Fold(e.renamed + e.collapse)(k), NamesOf(e, nameFunc);
    PublishedBodies(w, uses, e, nameFunc, components, published);
    ComponentKept(w, uses, e, k);
    EndsSettled(w, uses, e);
    SlotReads(w, e.st, k);
    MergedResolvedAlone(w, uses, e);
    NamedReads(MergedOf(e), names, components, l);
    var t := e.st.owner[k];
    var derived := (n: nat) => Unfold(e.st.schemas, e.st.schemas[k], n);
    var reading := (n: nat) => Unfold(Ideal(w), Body(w, w.defs[t], ContextOf(k)), n);
    var merged := (n: nat) => Unfold(MergedOf(e), MergedOf(e)[l], n);
    var public := (n: nat) => Unfold(components, components[N.Spelled(names)(l)], n);
    EqualReadings(derived, reading, merged, public);
    if forall n: nat :: derived(n) == merged(n) {
      forall n: nat
        ensures Unfold(e.st.schemas, e.st.schemas[k], n) == Unfold(MergedOf(e), MergedOf(e)[l], n)
      {
        assert derived(n) == merged(n);
      }
    }
    assert ReadsAsOwner(w, e, nameFunc, components, k) <==> forall n: nat :: public(n) == reading(n);
  }

  lemma BuildMeaning(w: World, uses: seq<Use>, e: Ending, nameFunc: N.NameFunc,
                     components: map<N.FinalRef, Schema<N.FinalRef>>, published: seq<Schema<N.FinalRef>>)
    requires Ends(w, uses, e) && Publishes(e, nameFunc, components, published)
    ensures N.Clean(MergedOf(e).Keys, OwnersOf(e), nameFunc) && Distinguished(e, nameFunc) ==>
              && Resolved(components, published)
              && (forall i, n: nat :: 0 <= i < |uses| ==>
                    Unfold(components, published[i], n) == Unfold(Ideal(w), Reading(w, uses[i]), n))
              && (forall k :: k in e.st.schemas && e.st.owner[k] !in w.known ==>
                    (ReadsAsOwner(w, e, nameFunc, components, k) <==> MeetsOnlyHarmless(e, k)))
  {
    hide ValidState, MentionsHeld, Ideal, Unfold, R.Merged, MeetsOnlyHarmless, N.Clean, Distinguished;
    hide ReadsAsOwner, Holds;
    if N.Clean(MergedOf(e).Keys, OwnersOf(e), nameFunc) && Distinguished(e, nameFunc) {
      var names := NamesOf(e, nameFunc);
      NamesAreOneToOne(w, uses, e, nameFunc);
      MergedResolved(w, uses, e);
      PublishedResolved(MergedOf(e), RootsOf(e), names, components, published);
      forall i, n: nat | 0 <= i < |uses|
        ensures Unfold(components, published[i], n) == Unfold(Ideal(w), Reading(w, uses[i]), n)
      {
        PublishedMeaning(w, e.st, uses, e.derived, e.reached, e.renamed, e.collapse,
                         MergedOf(e), RootsOf(e), names, components, i, n);
      }
      forall k | k in e.st.schemas && e.st.owner[k] !in w.known
        ensures ReadsAsOwner(w, e, nameFunc, components, k) <==> MeetsOnlyHarmless(e, k)
      {
        ComponentMeaning(w, uses, e, nameFunc, components, published, k);
      }
    }
  }

  // --- What the document reaches, in terms of readings -----------------------

  lemma ReadingIsDerived(w: World, uses: seq<Use>, e: Ending, i: nat)
    requires Ends(w, uses, e) && i < |uses|
    ensures Refs(Reading(w, uses[i])) <= DerivedSyms(w, e.st)
    ensures Refs(e.derived[i]) == set y | y in Refs(Reading(w, uses[i])) :: Slot(e.st.ids)(y)
    ensures Refs(e.derived[i]) <= e.reached
  {
    hide ValidState, MentionsHeld, Reading, R.GreatestStable;
    forall y | y in Refs(Reading(w, uses[i]))
      ensures y.typ in w.defs && y.typ !in w.known
    {
      assert uses[i] in uses;
      ReadingRefs(w, uses[i], y);
    }
    CoveredAreDerived(w, e.st, Reading(w, uses[i]));
    RenameRefs(Reading(w, uses[i]), Slot(e.st.ids));
    assert Refs(e.derived[i]) <= R.Seeds(e.derived);
  }

  lemma BodyIsDerived(w: World, uses: seq<Use>, e: Ending, y: Sym)
    requires Ends(w, uses, e) && y in DerivedSyms(w, e.st)
    ensures y in Ideal(w) && Refs(Ideal(w)[y]) <= DerivedSyms(w, e.st) && Slot(e.st.ids)(y) in e.st.schemas
    ensures Refs(e.st.schemas[Slot(e.st.ids)(y)]) == set z | z in Refs(Ideal(w)[y]) :: Slot(e.st.ids)(z)
    ensures Slot(e.st.ids)(y) in e.reached ==> Refs(e.st.schemas[Slot(e.st.ids)(y)]) <= e.reached
  {
    hide ValidState, MentionsHeld, RootsHold, R.GreatestStable, Ideal, DerivedSyms;
    DerivedBody(w, e.st, y);
    RenameRefs(Ideal(w)[y], Slot(e.st.ids));
  }

  /** A walk along readings stays among derived, reached components. */
  lemma {:induction false} WalkIsReached(w: World, uses: seq<Use>, e: Ending, i: nat, ys: seq<Sym>)
    requires Ends(w, uses, e) && i < |uses| && ReadingWalk(w, ys) && ys[0] in Refs(Reading(w, uses[i]))
    ensures ys[|ys| - 1] in DerivedSyms(w, e.st) && Slot(e.st.ids)(ys[|ys| - 1]) in e.reached
    decreases |ys|
  {
    hide Ends, DerivedSyms, Reading, Ideal;
    var n := |ys| - 1;
    if n == 0 {
      ReadingIsDerived(w, uses, e, i);
    } else {
      var front := ys[..n];
      assert ReadingWalk(w, front) && ys[(n - 1) + 1] in Refs(Ideal(w)[ys[n - 1]]);
      WalkIsReached(w, uses, e, i, front);
      BodyIsDerived(w, uses, e, ys[n - 1]);
    }
  }

  ghost predicate WalkedTo(w: World, uses: seq<Use>, e: Ending, k: Key) {
    exists y :: y in DerivedSyms(w, e.st) && ReachedSym(w, uses, y) && Slot(e.st.ids)(y) == k
  }

  lemma StartWalk(w: World, uses: seq<Use>, e: Ending, i: nat, k: Key)
    requires Ends(w, uses, e) && i < |uses| && k in Refs(e.derived[i])
    ensures WalkedTo(w, uses, e, k)
  {
    hide Ends, DerivedSyms, Reading, Ideal;
    ReadingIsDerived(w, uses, e, i);
    var y :| y in Refs(Reading(w, uses[i])) && Slot(e.st.ids)(y) == k;
    BodyIsDerived(w, uses, e, y);
    assert ReadingWalk(w, [y]);
    assert ReachedSym(w, uses, y);
  }

  lemma ExtendWalk(w: World, uses: seq<Use>, e: Ending, k: Key, l: Key)
    requires Ends(w, uses, e) && WalkedTo(w, uses, e, k) && k in e.st.schemas && l in Refs(e.st.schemas[k])
    ensures WalkedTo(w, uses, e, l)
  {
    hide Ends, DerivedSyms, Reading, Ideal;
    var y :| y in DerivedSyms(w, e.st) && ReachedSym(w, uses, y) && Slot(e.st.ids)(y) == k;
    BodyIsDerived(w, uses, e, y);
    var z :| z in Refs(Ideal(w)[y]) && Slot(e.st.ids)(z) == l;
    BodyIsDerived(w, uses, e, z);
    var ys, i :| 0 <= i < |uses| && ReadingWalk(w, ys) && ys[0] in Refs(Reading(w, uses[i])) && ys[|ys| - 1] == y;
    var more := ys + [z];
    assert ReadingWalk(w, more) && more[0] == ys[0] && more[|more| - 1] == z;
    assert ReachedSym(w, uses, z);
  }

  /** What the merge takes as reached is what the readings lead to, no more and no less. */
  lemma ReachedIsWalked(w: World, uses: seq<Use>, e: Ending, k: Key)
    requires Ends(w, uses, e)
    ensures k in e.reached <==> WalkedTo(w, uses, e, k)
  {
    hide ValidState, MentionsHeld, R.GreatestStable, Holds, DerivedSyms, ReachedSym, WalkedTo;
    var walked := set l | l in e.reached && WalkedTo(w, uses, e, l);
    forall l | l in R.Seeds(e.derived)
      ensures l in walked
    {
      var r :| r in e.derived && l in Refs(r);
      var i :| 0 <= i < |e.derived| && e.derived[i] == r;
      StartWalk(w, uses, e, i, l);
    }
    forall l | l in walked && l in e.st.schemas
      ensures Refs(e.st.schemas[l]) <= walked
    {
      forall j | j in Refs(e.st.schemas[l])
        ensures j in walked
      {
        ExtendWalk(w, uses, e, l, j);
      }
    }
    assert R.Closed(e.st.schemas, walked);
    WalkedIsReached(w, uses, e, k);
  }

  lemma WalkedIsReached(w: World, uses: seq<Use>, e: Ending, k: Key)
    requires Ends(w, uses, e)
    ensures WalkedTo(w, uses, e, k) ==> k in e.reached
  {
    hide Ends, DerivedSyms, Reading, Ideal;
    if WalkedTo(w, uses, e, k) {
      var y :| y in DerivedSyms(w, e.st) && ReachedSym(w, uses, y) && Slot(e.st.ids)(y) == k;
      var ys, i :| 0 <= i < |uses| && ReadingWalk(w, ys) && ys[0] in Refs(Reading(w, uses[i])) && ys[|ys| - 1] == y;
      WalkIsReached(w, uses, e, i, ys);
    }
  }

  /** One sym per slot. */
  lemma SlotIsOneSym(w: World, uses: seq<Use>, e: Ending, y: Sym, z: Sym)
    requires Ends(w, uses, e) && y in DerivedSyms(w, e.st) && z.typ in e.st.ids
             && Slot(e.st.ids)(y) == Slot(e.st.ids)(z)
    ensures y == z && y.typ in e.st.ids
  {
    hide MentionsHeld, RootsHold, R.Reconciled, Resolved;
    var k :| k in e.st.owner && e.st.owner[k] !in w.known && y == Sym(e.st.owner[k], ContextOf(k));
    assert OwnerFits(w, e.st, k);
  }

  lemma ReachedSymIff(w: World, uses: seq<Use>, e: Ending, y: Sym)
    requires Ends(w, uses, e) && y.typ in e.st.ids
    ensures ReachedSym(w, uses, y) <==> Slot(e.st.ids)(y) in e.reached
  {
    hide Ends, DerivedSyms, Reading, Ideal;
    ReachedIsWalked(w, uses, e, Slot(e.st.ids)(y));
    if ReachedSym(w, uses, y) {
      var ys, i :| 0 <= i < |uses| && ReadingWalk(w, ys) && ys[0] in Refs(Reading(w, uses[i])) && ys[|ys| - 1] == y;
      WalkIsReached(w, uses, e, i, ys);
    }
    if WalkedTo(w, uses, e, Slot(e.st.ids)(y)) {
      var z :| z in DerivedSyms(w, e.st) && ReachedSym(w, uses, z) && Slot(e.st.ids)(z) == Slot(e.st.ids)(y);
      SlotIsOneSym(w, uses, e, z, y);
    }
  }

  /** A type the document reaches in request direction was derived in it. */
  lemma ReachedVariant(w: World, uses: seq<Use>, e: Ending, t: GoType)
    requires Ends(w, uses, e) && ReachedSym(w, uses, Sym(t, InRequest))
    ensures t in e.st.ids && t in w.defs && Request(e.st.ids[t]) in R.Variants(e.st.schemas)
    ensures e.st.owner[Request(e.st.ids[t])] == t
  {
    hide MentionsHeld, RootsHold, R.Reconciled, Resolved, Reading, Ideal;
    var ys, i :| 0 <= i < |uses| && ReadingWalk(w, ys) && ys[0] in Refs(Reading(w, uses[i]))
      && ys[|ys| - 1] == Sym(t, InRequest);
    WalkIsReached(w, uses, e, i, ys);
    var k :| k in e.st.owner && e.st.owner[k] !in w.known && Sym(t, InRequest) == Sym(e.st.owner[k], ContextOf(k));
    assert OwnerFits(w, e.st, k);
  }

  lemma VariantPublishedIff(w: World, uses: seq<Use>, e: Ending, t: GoType)
    requires Ends(w, uses, e) && ReachedSym(w, uses, Sym(t, InRequest))
    ensures t in w.defs && (VariantPublished(e, t) <==> ReachedSym(w, uses, Sym(t, InResponse)) && !SameReadings(w, t))
  {
    hide ValidState, MentionsHeld, RootsHold, R.Reconciled, Resolved, R.Merged, R.Variants, ReachedSym, SameReadings;
    ReachedVariant(w, uses, e, t);
    ReachedSymIff(w, uses, e, Sym(t, InResponse));
    PublishedVariants(w, e.st, uses, e.derived, e.reached, e.renamed, e.collapse, Request(e.st.ids[t]));
  }

  // --- Which components read as their owner, in terms of readings ------------

  /** Both describe a component derived structurally. */
  lemma DerivedIsSlot(w: World, uses: seq<Use>, e: Ending, y: Sym)
    requires Ends(w, uses, e) && y in DerivedSyms(w, e.st)
    ensures HasSlot(e.st, y) && y.typ in w.defs && y.typ !in w.known
    ensures Slot(e.st.ids)(y) in e.st.schemas && e.st.owner[Slot(e.st.ids)(y)] == y.typ
  {
    hide MentionsHeld, RootsHold, R.Reconciled, Resolved, WellFormed;
    var k :| k in e.st.owner && e.st.owner[k] !in w.known && y == Sym(e.st.owner[k], ContextOf(k));
    assert OwnerFits(w, e.st, k);
    OwnerSlot(w, e.st, k);
  }

  lemma SlotIsDerived(w: World, uses: seq<Use>, e: Ending, y: Sym)
    requires Ends(w, uses, e) && HasSlot(e.st, y) && y.typ !in w.known
    ensures y in DerivedSyms(w, e.st)
  {
    hide ValidState, MentionsHeld, RootsHold, R.Reconciled, Resolved, WellFormed;
    SlotOwner(w, e.st, y);
  }

  lemma OverwrittenIff(w: World, uses: seq<Use>, e: Ending, y: Sym)
    requires Ends(w, uses, e) && Exact(w, uses, e.st) && y in DerivedSyms(w, e.st)
    ensures R.Overwritten(e.renamed, Slot(e.st.ids)(y)) <==> OverwrittenSym(w, uses, y)
    ensures OverwrittenSym(w, uses, y) ==> Request(Slot(e.st.ids)(y).id) in e.st.schemas
  {
    hide ValidState, MentionsHeld, RootsHold, Resolved, WellFormed, MentionedSym, ReachedSym, R.GreatestStable, FaultOf;
    hide DerivedSyms;
    DerivedIsSlot(w, uses, e, y);
    ReachedSymIff(w, uses, e, y);
    assert HasSlot(e.st, ToRequest(y)) <==> MentionedSym(w, uses, ToRequest(y));
  }

  lemma HarmlessIff(w: World, uses: seq<Use>, e: Ending, y: Sym)
    requires Ends(w, uses, e) && Exact(w, uses, e.st) && y in DerivedSyms(w, e.st)
    ensures Slot(e.st.ids)(y) in e.st.schemas
    ensures R.Harmless(e.st.schemas, e.renamed, Slot(e.st.ids)(y)) <==> HarmlessSym(w, uses, y)
  {
    hide ValidState, MentionsHeld, RootsHold, Resolved, WellFormed, R.Reconciled, Exact, DerivedSyms, R.Overwritten;
    hide OverwrittenSym, SameReadings;
    DerivedIsSlot(w, uses, e, y);
    OverwrittenIff(w, uses, e, y);
    if OverwrittenSym(w, uses, y) {
      var v := Request(Slot(e.st.ids)(y).id);
      OnlyResponsesAreOverwritten(w, uses, y);
      TwinsMean(w, e.st, v);
      TwinOwner(w, uses, e, v);
    }
  }

  lemma OnlyResponsesAreOverwritten(w: World, uses: seq<Use>, y: Sym)
    requires OverwrittenSym(w, uses, y)
    ensures y.ctx == InResponse
  {
  }

  lemma TwinOwner(w: World, uses: seq<Use>, e: Ending, v: Key)
    requires Ends(w, uses, e) && v in e.st.schemas && Base(v.id) in e.st.schemas
    ensures e.st.owner[v] == e.st.owner[Base(v.id)]
  {
    hide MentionsHeld, RootsHold, R.Reconciled, Resolved, WellFormed;
    assert OwnerFits(w, e.st, v) && OwnerFits(w, e.st, Base(v.id));
  }

  /** A clear walk along readings is one along the derived components. */
  lemma {:induction false} WalkToSteps(w: World, uses: seq<Use>, e: Ending, ys: seq<Sym>) returns (ks: seq<Key>)
    requires Ends(w, uses, e) && Exact(w, uses, e.st) && ClearWalk(w, uses, ys) && ys[0] in DerivedSyms(w, e.st)
    ensures ys[|ys| - 1] in DerivedSyms(w, e.st)
    ensures R.Steps(e.st.schemas, e.renamed, ks)
    ensures ks[0] == Slot(e.st.ids)(ys[0]) && ks[|ks| - 1] == Slot(e.st.ids)(ys[|ys| - 1])
    decreases |ys|
  {
    hide Ends, Exact, DerivedSyms, Ideal, Slot, OverwrittenSym, R.Overwritten;
    var n := |ys| - 1;
    BodyIsDerived(w, uses, e, ys[0]);
    if n == 0 {
      ks := [Slot(e.st.ids)(ys[0])];
    } else {
      var y, z := ys[n - 1], ys[n];
      assert ClearWalk(w, uses, ys[..n]) && ys[..n][n - 1] == y && ys[(n - 1) + 1] in Refs(Ideal(w)[y]);
      var front := WalkToSteps(w, uses, e, ys[..n]);
      BodyIsDerived(w, uses, e, y);
      BodyIsDerived(w, uses, e, z);
      OverwrittenIff(w, uses, e, y);
      ks := front + [Slot(e.st.ids)(z)];
      StepFurther(e.st.schemas, e.renamed, front, Slot(e.st.ids)(z));
    }
  }

  lemma StepFurther(c: map<Key, Schema<Key>>, renamed: set<Key>, ks: seq<Key>, k: Key)
    requires R.Steps(c, renamed, ks) && !R.Overwritten(renamed, ks[|ks| - 1])
    requires k in c && k in Refs(c[ks[|ks| - 1]])
    ensures R.Steps(c, renamed, ks + [k])
  {
    hide R.Overwritten, Refs;
  }

  /** And the other way round. */
  lemma {:induction false} StepsToWalk(w: World, uses: seq<Use>, e: Ending, y: Sym, ks: seq<Key>)
    returns (ys: seq<Sym>)
    requires Ends(w, uses, e) && Exact(w, uses, e.st) && R.Steps(e.st.schemas, e.renamed, ks)
    requires y in DerivedSyms(w, e.st) && ks[0] == Slot(e.st.ids)(y)
    ensures ClearWalk(w, uses, ys) && ys[0] == y
    ensures ys[|ys| - 1] in DerivedSyms(w, e.st) && ks[|ks| - 1] == Slot(e.st.ids)(ys[|ys| - 1])
    decreases |ks|
  {
    hide Ends, Exact, DerivedSyms, Ideal, Slot, OverwrittenSym, R.Overwritten;
    var n := |ks| - 1;
    if n == 0 {
      BodyIsDerived(w, uses, e, y);
      ys := [y];
    } else {
      assert R.Steps(e.st.schemas, e.renamed, ks[..n]) && ks[(n - 1) + 1] in Refs(e.st.schemas[ks[n - 1]]);
      var front := StepsToWalk(w, uses, e, y, ks[..n]);
      var x := front[|front| - 1];
      BodyIsDerived(w, uses, e, x);
      var z :| z in Refs(Ideal(w)[x]) && Slot(e.st.ids)(z) == ks[n];
      BodyIsDerived(w, uses, e, z);
      OverwrittenIff(w, uses, e, x);
      ys := front + [z];
      WalkFurther(w, uses, front, z);
    }
  }

  lemma WalkFurther(w: World, uses: seq<Use>, ys: seq<Sym>, z: Sym)
    requires ClearWalk(w, uses, ys) && !OverwrittenSym(w, uses, ys[|ys| - 1])
    requires z in Ideal(w) && ys[|ys| - 1] in Ideal(w) && z in Refs(Ideal(w)[ys[|ys| - 1]])
    ensures ClearWalk(w, uses, ys + [z])
  {
    hide Ideal, OverwrittenSym, Refs;
  }

  /** Meeting only harmless overwriting, told from the types and their uses. */
  lemma MeetsOnlyHarmlessIff(w: World, uses: seq<Use>, e: Ending, y: Sym)
    requires Ends(w, uses, e) && Exact(w, uses, e.st) && y in DerivedSyms(w, e.st)
    ensures MeetsOnlyHarmless(e, Slot(e.st.ids)(y)) <==> KeepsReading(w, uses, y)
  {
    hide Ends, Exact, DerivedSyms, Slot, HarmlessSym, R.Harmless, Ideal, OverwrittenSym, R.Overwritten, Refs;
    if MeetsOnlyHarmless(e, Slot(e.st.ids)(y)) {
      forall ys | ClearWalk(w, uses, ys) && ys[0] == y
        ensures HarmlessSym(w, uses, ys[|ys| - 1])
      {
        var ks := WalkToSteps(w, uses, e, ys);
        HarmlessIff(w, uses, e, ys[|ys| - 1]);
      }
    }
    if KeepsReading(w, uses, y) {
      forall ks | R.Steps(e.st.schemas, e.renamed, ks) && ks[0] == Slot(e.st.ids)(y)
        ensures R.Harmless(e.st.schemas, e.renamed, ks[|ks| - 1])
      {
        var ys := StepsToWalk(w, uses, e, y, ks);
        HarmlessIff(w, uses, e, ys[|ys| - 1]);
      }
    }
  }

  /** Every mentioned type's component is published with its reading exactly when it keeps it. */
  lemma ComponentsKeepReading(w: World, uses: seq<Use>, e: Ending, nameFunc: N.NameFunc,
                              components: map<N.FinalRef, Schema<N.FinalRef>>, published: seq<Schema<N.FinalRef>>)
    requires Ends(w, uses, e) && Exact(w, uses, e.st) && Publishes(e, nameFunc, components, published)
    requires N.Clean(MergedOf(e).Keys, OwnersOf(e), nameFunc) && Distinguished(e, nameFunc)
    ensures forall y :: MentionedSym(w, uses, y) && y.typ !in w.known ==>
              (ReadsAs(w, e, nameFunc, components, y) <==> KeepsReading(w, uses, y))
  {
    hide Ends, Publishes, N.Clean, Distinguished, MentionedSym, ReadsAsOwner, KeepsReading, MeetsOnlyHarmless, FaultOf;
    hide DerivedSyms;
    forall y | MentionedSym(w, uses, y) && y.typ !in w.known
      ensures ReadsAs(w, e, nameFunc, components, y) <==> KeepsReading(w, uses, y)
    {
      assert HasSlot(e.st, y);
      SlotIsDerived(w, uses, e, y);
      DerivedIsSlot(w, uses, e, y);
      MeetsOnlyHarmlessIff(w, uses, e, y);
      ComponentMeaning(w, uses, e, nameFunc, components, published, Slot(e.st.ids)(y));
    }
  }
}
