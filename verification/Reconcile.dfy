/**
  Merging the request and response component sets: which components the
  document reaches, which request variants take the plain name, which collapse
  onto their response twin, and what the merged document means.
 */
module Reconcile {
  import opened Schemas

  // --- Reachability ----------------------------------------------------------

  ghost predicate Closed(c: map<Key, Schema<Key>>, x: set<Key>) {
    forall k :: k in x && k in c ==> Refs(c[k]) <= x
  }

  /** The keys the document itself refers to. */
  function Seeds(roots: seq<Schema<Key>>): set<Key> {
    set r, k | r in roots && k in Refs(r) :: k
  }

  /** `x` is the least set of keys that holds the seeds and follows references. */
  ghost predicate Reachable(c: map<Key, Schema<Key>>, roots: seq<Schema<Key>>, x: set<Key>) {
    && Seeds(roots) <= x
    && Closed(c, x)
    && forall y :: Seeds(roots) <= y && Closed(c, y) ==> x <= y
  }

  /** Depth-first descent below one component. */
  method Visit(c: map<Key, Schema<Key>>, id: Key, reached: set<Key>, ghost all: set<Key>) returns (out: set<Key>)
    requires id in all && reached <= all && Closed(c, all)
    ensures reached <= out <= all && id in out
    ensures forall k :: k in out - reached && k in c ==> Refs(c[k]) <= out
    ensures forall y :: id in y && Closed(c, y) ==> out <= reached + y
    decreases all - reached
  {
    if id in reached {
      return reached;
    }
    out := reached + {id};
    var next := if id in c then Refs(c[id]) else {};
    var todo := next;
    while todo != {}
      invariant reached + {id} <= out <= all
      invariant todo <= next && next - todo <= out
      invariant forall k :: k in out - reached - {id} && k in c ==> Refs(c[k]) <= out
      invariant forall y :: id in y && Closed(c, y) ==> out <= reached + y
      decreases todo
    {
      var child :| child in todo;
      out := Visit(c, child, out, all);
      todo := todo - {child};
    }
  }

  /** The components reachable from the document, followed transitively through component bodies. */
  method ReachableComponents(c: map<Key, Schema<Key>>, roots: seq<Schema<Key>>) returns (reached: set<Key>)
    ensures Reachable(c, roots, reached)
  {
    var seeds := Seeds(roots);
    ghost var all := seeds + c.Keys + set k, r | k in c && r in Refs(c[k]) :: r;
    reached := {};
    var todo := seeds;
    while todo != {}
      invariant todo <= seeds && seeds - todo <= reached <= all
      invariant Closed(c, reached)
      invariant forall y :: seeds <= y && Closed(c, y) ==> reached <= y
      decreases todo
    {
      var id :| id in todo;
      reached := Visit(c, id, reached, all);
      todo := todo - {id};
    }
  }

  // --- The collapse fixed point ----------------------------------------------

  /** Reads the request variants in `folded` as their response twins. */
  function Fold(folded: set<Key>): Key -> Key {
    k => if k in folded then Base(k.id) else k
  }

  function Repoint(s: Schema<Key>, folded: set<Key>): Schema<Key> {
    Rename(s, Fold(folded))
  }

  /** A request variant and its response twin read the same once `folded` is identified. */
  predicate Equivalent(c: map<Key, Schema<Key>>, v: Key, folded: set<Key>) {
    && v in c
    && Base(v.id) in c
    && Repoint(c[v], folded) == Repoint(c[Base(v.id)], folded)
  }

  /** Every twin in `x` is equal modulo identifying exactly `x` (and the renamed variants). */
  ghost predicate Stable(c: map<Key, Schema<Key>>, renamed: set<Key>, x: set<Key>) {
    forall v :: v in x ==> Equivalent(c, v, renamed + x)
  }

  ghost predicate GreatestStable(c: map<Key, Schema<Key>>, renamed: set<Key>, shared: set<Key>, x: set<Key>) {
    && x <= shared
    && Stable(c, renamed, x)
    && forall y :: y <= shared && Stable(c, renamed, y) ==> y <= x
  }

  /** Identifying more variants never separates schemas already read as equal. */
  lemma FoldMonotone(a: Schema<Key>, b: Schema<Key>, x: set<Key>, y: set<Key>)
    requires x <= y
    requires Repoint(a, x) == Repoint(b, x)
    ensures Repoint(a, y) == Repoint(b, y)
  {
    RenameCompose(a, Fold(x), Fold(y), Fold(y));
    RenameCompose(b, Fold(x), Fold(y), Fold(y));
  }

  /**
    The sweep that deletes from the set while walking it, in whatever order
    `shared` lists the variants: it ends at the one greatest stable set.
   */
  method CollapseTwins(c: map<Key, Schema<Key>>, renamed: set<Key>, shared: seq<Key>) returns (collapse: set<Key>)
    ensures GreatestStable(c, renamed, (set v | v in shared), collapse)
  {
    ghost var all := set v | v in shared;
    collapse := set v | v in shared;
    var changed := true;
    while changed
      invariant collapse <= all
      invariant forall y :: y <= all && Stable(c, renamed, y) ==> y <= collapse
      invariant !changed ==> Stable(c, renamed, collapse)
      decreases collapse, changed
    {
      changed := false;
      ghost var before := collapse;
      for i := 0 to |shared|
        invariant collapse <= before
        invariant changed <==> collapse != before
        invariant forall y :: y <= all && Stable(c, renamed, y) ==> y <= collapse
        invariant !changed ==> forall j :: 0 <= j < i && shared[j] in collapse ==>
                  Equivalent(c, shared[j], renamed + collapse)
      {
        var v := shared[i];
        if v in collapse && !Equivalent(c, v, renamed + collapse) {
          forall y | y <= all && Stable(c, renamed, y)
            ensures v !in y
          {
            if v in y {
              FoldMonotone(c[v], c[Base(v.id)], renamed + y, renamed + collapse);
            }
          }
          collapse := collapse - {v};
          changed := true;
        }
      }
    }
  }

  // --- The merged component set ----------------------------------------------

  function Variants(c: map<Key, Schema<Key>>): set<Key> {
    set k | k in c && k.Request?
  }

  /** Variants that are their type's only documentation. */
  function Renamed(c: map<Key, Schema<Key>>, reached: set<Key>): set<Key> {
    set v | v in Variants(c) && (Base(v.id) !in c || Base(v.id) !in reached)
  }

  function Shared(c: map<Key, Schema<Key>>, reached: set<Key>): set<Key> {
    Variants(c) - Renamed(c, reached)
  }

  /** Whose body a surviving key holds: a renamed variant moves onto the plain key. */
  function Origin(renamed: set<Key>, k: Key): Key {
    if Request(k.id) in renamed then Request(k.id) else k
  }

  /** A component-keyed table once renamed variants are moved and collapsed ones dropped. */
  function Moved<V>(m: map<Key, V>, renamed: set<Key>, collapse: set<Key>): map<Key, V> {
    var keys := (m.Keys - renamed - collapse) + set v | v in renamed :: Base(v.id);
    map k | k in keys && Origin(renamed, k) in m :: m[Origin(renamed, k)]
  }

  /** The merged components, every reference re-pointed. */
  function Merged(c: map<Key, Schema<Key>>, renamed: set<Key>, collapse: set<Key>): map<Key, Schema<Key>> {
    var moved := Moved(c, renamed, collapse);
    map k | k in moved :: Repoint(moved[k], renamed + collapse)
  }

  lemma MoveOne<V>(m: map<Key, V>, done: set<Key>, v: Key)
    requires v in m && v.Request? && v !in done && forall d :: d in done ==> d.Request?
    ensures v in Moved(m, done, {})
    ensures Moved(m, done, {})[Base(v.id) := Moved(m, done, {})[v]] - {v} == Moved(m, done + {v}, {})
  {
    var a := Moved(m, done, {})[Base(v.id) := m[v]] - {v};
    var b := Moved(m, done + {v}, {});
    forall k
      ensures k in a <==> k in b
      ensures k in a && k in b ==> a[k] == b[k]
    {
      if k == Base(v.id) {
        assert Origin(done + {v}, k) == v;
        assert v in done + {v};
      } else if k != v {
        assert Origin(done + {v}, k) == Origin(done, k);
      }
    }
    assert a == b;
  }

  lemma DropOne<V>(m: map<Key, V>, renamed: set<Key>, gone: set<Key>, v: Key)
    requires v.Request? && v !in renamed && forall d :: d in renamed ==> d.Request?
    ensures Moved(m, renamed, gone) - {v} == Moved(m, renamed, gone + {v})
  {
  }

  /** Moves every renamed variant onto its plain key, then drops the collapsed ones, one entry at a time. */
  method Move<V>(m: map<Key, V>, renamed: set<Key>, collapse: set<Key>) returns (out: map<Key, V>)
    requires renamed <= m.Keys && renamed !! collapse
    requires forall v :: v in renamed + collapse ==> v.Request?
    ensures out == Moved(m, renamed, collapse)
  {
    out := m;
    ghost var done: set<Key> := {};
    var todo := renamed;
    assert Moved(m, {}, {}) == m;
    while todo != {}
      invariant done + todo == renamed && done !! todo
      invariant out == Moved(m, done, {})
      decreases todo
    {
      var v :| v in todo;
      MoveOne(m, done, v);
      out := out[Base(v.id) := out[v]] - {v};
      todo, done := todo - {v}, done + {v};
    }
    ghost var gone: set<Key> := {};
    todo := collapse;
    while todo != {}
      invariant gone + todo == collapse && gone !! todo
      invariant out == Moved(m, renamed, gone)
      decreases todo
    {
      var v :| v in todo;
      DropOne(m, renamed, gone, v);
      out := out - {v};
      todo, gone := todo - {v}, gone + {v};
    }
  }

  /** What the merge decided for `c` and `roots`, and how it was justified. */
  ghost predicate Reconciled(c: map<Key, Schema<Key>>, roots: seq<Schema<Key>>,
                             reached: set<Key>, renamed: set<Key>, collapse: set<Key>)
  {
    && Reachable(c, roots, reached)
    && renamed == Renamed(c, reached)
    && GreatestStable(c, renamed, Shared(c, reached), collapse)
  }

  /** The whole merge on one component table, its owners and the document's roots. */
  method Reconcile<V>(c: map<Key, Schema<Key>>, owner: map<Key, V>, roots: seq<Schema<Key>>)
    returns (c': map<Key, Schema<Key>>, owner': map<Key, V>, roots': seq<Schema<Key>>,
             reached: set<Key>, renamed: set<Key>, collapse: set<Key>)
    requires c.Keys <= owner.Keys
    ensures Reconciled(c, roots, reached, renamed, collapse)
    ensures c' == Merged(c, renamed, collapse)
    ensures owner' == Moved(owner, renamed, collapse)
    ensures |roots'| == |roots|
    ensures forall i :: 0 <= i < |roots| ==> roots'[i] == Repoint(roots[i], renamed + collapse)
  {
    reached := ReachableComponents(c, roots);
    renamed := Renamed(c, reached);
    var shared := Listed(Shared(c, reached));
    collapse := CollapseTwins(c, renamed, shared);
    var moved := Move(c, renamed, collapse);
    c' := map k | k in moved :: Repoint(moved[k], renamed + collapse);
    owner' := Move(owner, renamed, collapse);
    roots' := seq(|roots|, i requires 0 <= i < |roots| => Repoint(roots[i], renamed + collapse));
  }

  method Listed(s: set<Key>) returns (out: seq<Key>)
    ensures (set x | x in out) == s
  {
    out := [];
    var todo := s;
    while todo != {}
      invariant todo <= s
      invariant forall x :: x in out <==> x in s && x !in todo
      decreases todo
    {
      var x :| x in todo;
      out := out + [x];
      todo := todo - {x};
    }
  }

  lemma ReachedHaveComponents(c: map<Key, Schema<Key>>, roots: seq<Schema<Key>>, reached: set<Key>)
    requires Reachable(c, roots, reached) && Resolved(c, roots)
    ensures reached <= c.Keys
  {
    assert Closed(c, c.Keys);
    assert Seeds(roots) <= c.Keys;
  }

  /** A plain key that a renamed variant moves onto. */
  predicate Overwritten(renamed: set<Key>, k: Key) {
    k.Base? && Request(k.id) in renamed
  }

  /** On keys the merge did not overwrite, the merged body is the re-pointed body. */
  lemma MergedBody(c: map<Key, Schema<Key>>, roots: seq<Schema<Key>>,
                   reached: set<Key>, renamed: set<Key>, collapse: set<Key>, k: Key)
    requires Reconciled(c, roots, reached, renamed, collapse)
    requires k in c && !Overwritten(renamed, k)
    ensures var m := Merged(c, renamed, collapse);
            Fold(renamed + collapse)(k) in m && m[Fold(renamed + collapse)(k)] == Repoint(c[k], renamed + collapse)
  {
    var k' := Fold(renamed + collapse)(k);
    if k in collapse {
      assert Equivalent(c, k, renamed + collapse);
      assert k !in renamed && Request(k'.id) == k;
      assert Base(k.id) !in renamed + collapse;
    } else if k in renamed {
      assert k' == Base(k.id) && Origin(renamed, k') == k;
    }
  }

  /** Meaning is preserved on every reference-closed set of keys that avoids the overwritten ones. */
  lemma MergePreservesMeaning(c: map<Key, Schema<Key>>, roots: seq<Schema<Key>>,
                              reached: set<Key>, renamed: set<Key>, collapse: set<Key>,
                              keys: set<Key>, s: Schema<Key>, n: nat)
    requires Reconciled(c, roots, reached, renamed, collapse)
    requires keys <= c.Keys && Closed(c, keys) && forall k :: k in keys ==> !Overwritten(renamed, k)
    requires Refs(s) <= keys
    ensures Unfold(c, s, n) == Unfold(Merged(c, renamed, collapse), Repoint(s, renamed + collapse), n)
  {
    forall k | k in keys {
      MergedBody(c, roots, reached, renamed, collapse, k);
    }
    RenamePreservesMeaning(c, Merged(c, renamed, collapse), Fold(renamed + collapse), keys, s, n);
  }

  /**
    Reconciliation preserves meaning: every schema whose references the document
    reaches unfolds, at every depth, to the same tree before the pass and, once
    re-pointed, after it.
   */
  lemma ReconcilePreservesMeaning(c: map<Key, Schema<Key>>, roots: seq<Schema<Key>>,
                                  reached: set<Key>, renamed: set<Key>, collapse: set<Key>, s: Schema<Key>, n: nat)
    requires Resolved(c, roots)
    requires Reconciled(c, roots, reached, renamed, collapse)
    requires Refs(s) <= reached
    ensures Unfold(c, s, n) == Unfold(Merged(c, renamed, collapse), Repoint(s, renamed + collapse), n)
  {
    ReachedHaveComponents(c, roots, reached);
    MergePreservesMeaning(c, roots, reached, renamed, collapse, reached, s, n);
  }

  /** No key of the old table is left without a component. */
  lemma FoldStaysMerged(c: map<Key, Schema<Key>>, roots: seq<Schema<Key>>,
                        reached: set<Key>, renamed: set<Key>, collapse: set<Key>, k: Key)
    requires Reconciled(c, roots, reached, renamed, collapse) && k in c
    ensures Fold(renamed + collapse)(k) in Merged(c, renamed, collapse)
  {
    if k in collapse {
      assert Equivalent(c, k, renamed + collapse);
    }
  }

  lemma MergedFrom(c: map<Key, Schema<Key>>, renamed: set<Key>, collapse: set<Key>, k: Key)
    requires k in Merged(c, renamed, collapse)
    ensures Origin(renamed, k) in c
    ensures Merged(c, renamed, collapse)[k] == Repoint(c[Origin(renamed, k)], renamed + collapse)
  {
  }

  /** Reconciliation leaves no reference dangling, in the document or in any component it publishes. */
  lemma ReconcileKeepsRefsResolved(c: map<Key, Schema<Key>>, roots: seq<Schema<Key>>, roots': seq<Schema<Key>>,
                                   reached: set<Key>, renamed: set<Key>, collapse: set<Key>)
    requires Resolved(c, roots)
    requires Reconciled(c, roots, reached, renamed, collapse)
    requires |roots'| == |roots|
    requires forall i :: 0 <= i < |roots| ==> roots'[i] == Repoint(roots[i], renamed + collapse)
    ensures Resolved(Merged(c, renamed, collapse), roots')
  {
    hide Merged, Reconciled, Fold;
    var m, f := Merged(c, renamed, collapse), Fold(renamed + collapse);
    forall k | k in c
      ensures f(k) in m
    {
      FoldStaysMerged(c, roots, reached, renamed, collapse, k);
    }
    forall k | k in m
      ensures Refs(m[k]) <= m.Keys
    {
      MergedFrom(c, renamed, collapse, k);
      RenameRefs(c[Origin(renamed, k)], f);
    }
    forall r | r in roots'
      ensures Refs(r) <= m.Keys
    {
      var i :| 0 <= i < |roots| && r == roots'[i];
      assert roots[i] in roots;
      RenameRefs(roots[i], f);
    }
  }

  // --- Which variants survive ------------------------------------------------

  /** The two derivations of one type: the same shape, each reference in its own context. */
  ghost predicate Parallel(a: Schema<Key>, b: Schema<Key>)
  {
    match (a, b)
    case (Ref(k, _), Ref(l, _)) => k.Request? && l == Base(k.id)
    case (Node(_, xs), Node(_, ys)) => |xs| == |ys| && forall i :: 0 <= i < |xs| ==> Parallel(xs[i], ys[i])
    case _ => false
  }

  /** Request components refer to request components, and mirror their response twins. */
  ghost predicate TwinDerivations(c: map<Key, Schema<Key>>) {
    forall v :: v in Variants(c) ==>
      && (forall k :: k in Refs(c[v]) ==> k in Variants(c))
      && (Base(v.id) in c ==> Parallel(c[v], c[Base(v.id)]))
  }

  ghost predicate SameMeaning(c: map<Key, Schema<Key>>, a: Schema<Key>, b: Schema<Key>) {
    forall n: nat :: Unfold(c, a, n) == Unfold(c, b, n)
  }

  /** Parallel schemas that never differ are read as equal once the variants that never differ are folded. */
  lemma {:induction false} SameMeaningFolds(
      c: map<Key, Schema<Key>>, reached: set<Key>, folded: set<Key>, a: Schema<Key>, b: Schema<Key>)
    requires Closed(c, reached) && reached <= c.Keys
    requires Refs(a) <= Variants(c) && Refs(b) <= reached
    requires Parallel(a, b) && SameMeaning(c, a, b)
    requires forall v :: v in Shared(c, reached) && SameMeaning(c, c[v], c[Base(v.id)]) ==> v in folded
    requires forall v :: v in folded ==> v.Request?
    ensures Repoint(a, folded) == Repoint(b, folded)
    decreases a
  {
    if a.Ref? {
      assert Unfold(c, a, 1) == Unfold(c, b, 1);
      forall n: nat
        ensures Unfold(c, c[a.key], n) == Unfold(c, c[b.key], n)
      {
        assert Unfold(c, a, n + 1) == Unfold(c, b, n + 1);
      }
    } else {
      assert Unfold(c, a, 0) == Unfold(c, b, 0);
      forall i | 0 <= i < |a.kids|
        ensures Repoint(a.kids[i], folded) == Repoint(b.kids[i], folded)
      {
        KidRefs(a, i);
        KidRefs(b, i);
        forall n: nat
          ensures Unfold(c, a.kids[i], n) == Unfold(c, b.kids[i], n)
        {
          assert Unfold(c, a, n).kids[i] == Unfold(c, b, n).kids[i];
        }
        SameMeaningFolds(c, reached, folded, a.kids[i], b.kids[i]);
      }
      assert Repoint(a, folded).kids == Repoint(b, folded).kids;
    }
  }

  /** Twins that never differ are merged. */
  lemma SameMeaningCollapses(c: map<Key, Schema<Key>>, roots: seq<Schema<Key>>,
                             reached: set<Key>, renamed: set<Key>, collapse: set<Key>, v: Key)
    requires Resolved(c, roots) && TwinDerivations(c)
    requires Reconciled(c, roots, reached, renamed, collapse)
    requires v in Shared(c, reached) && SameMeaning(c, c[v], c[Base(v.id)])
    ensures v in collapse
  {
    ReachedHaveComponents(c, roots, reached);
    var same := set w | w in Shared(c, reached) && SameMeaning(c, c[w], c[Base(w.id)]);
    forall w | w in same
      ensures Equivalent(c, w, renamed + same)
    {
      assert Refs(c[w]) <= Variants(c);
      SameMeaningFolds(c, reached, renamed + same, c[w], c[Base(w.id)]);
    }
    assert Stable(c, renamed, same);
  }

  /** Collapsed twins never differ. */
  lemma {:induction false} CollapsedNeverDiffer(c: map<Key, Schema<Key>>, roots: seq<Schema<Key>>,
                             reached: set<Key>, renamed: set<Key>, collapse: set<Key>, v: Key)
    requires Resolved(c, roots) && TwinDerivations(c)
    requires Reconciled(c, roots, reached, renamed, collapse)
    requires v in collapse
    ensures SameMeaning(c, c[v], c[Base(v.id)])
  {
    ReachedHaveComponents(c, roots, reached);
    var keys := reached + Variants(c);
    assert Equivalent(c, v, renamed + collapse);
    assert Refs(c[v]) <= Variants(c) <= keys;
    forall n: nat
      ensures Unfold(c, c[v], n) == Unfold(c, c[Base(v.id)], n)
    {
      MergePreservesMeaning(c, roots, reached, renamed, collapse, keys, c[v], n);
      MergePreservesMeaning(c, roots, reached, renamed, collapse, keys, c[Base(v.id)], n);
    }
  }

  /**
    A separate ".Request" component survives exactly when the type is reachable
    in the response direction and its two derivations differ at some depth.
   */
  lemma {:induction false} VariantSurvivesIffItDiffers(c: map<Key, Schema<Key>>, roots: seq<Schema<Key>>,
                                    reached: set<Key>, renamed: set<Key>, collapse: set<Key>, v: Key)
    requires Resolved(c, roots) && TwinDerivations(c)
    requires Reconciled(c, roots, reached, renamed, collapse)
    requires v in Variants(c)
    ensures v in Merged(c, renamed, collapse) <==>
            && Base(v.id) in c
            && Base(v.id) in reached
            && !SameMeaning(c, c[v], c[Base(v.id)])
  {
    if v in collapse {
      CollapsedNeverDiffer(c, roots, reached, renamed, collapse, v);
    } else if v in Shared(c, reached) && SameMeaning(c, c[v], c[Base(v.id)]) {
      SameMeaningCollapses(c, roots, reached, renamed, collapse, v);
    }
  }

  // --- What becomes of components the document does not reach ----------------

  /** The table with every overwritten key already holding what it is overwritten with. */
  function Overlaid(c: map<Key, Schema<Key>>, renamed: set<Key>): map<Key, Schema<Key>> {
    map k | k in c :: if Overwritten(renamed, k) && Request(k.id) in c then c[Request(k.id)] else c[k]
  }

  lemma MergedOverlay(c: map<Key, Schema<Key>>, roots: seq<Schema<Key>>,
                      reached: set<Key>, renamed: set<Key>, collapse: set<Key>, k: Key)
    requires Reconciled(c, roots, reached, renamed, collapse) && k in c
    ensures var m := Merged(c, renamed, collapse);
            && Fold(renamed + collapse)(k) in m
            && m[Fold(renamed + collapse)(k)] == Repoint(Overlaid(c, renamed)[k], renamed + collapse)
  {
    hide Merged, Repoint;
    FoldStaysMerged(c, roots, reached, renamed, collapse, k);
    if Overwritten(renamed, k) {
      assert Fold(renamed + collapse)(k) == k && Origin(renamed, k) == Request(k.id);
      MergedFrom(c, renamed, collapse, k);
    } else {
      MergedBody(c, roots, reached, renamed, collapse, k);
    }
  }

  /** The merge preserves the meaning of the overlaid table, everywhere. */
  lemma OverlayPreservesMeaning(c: map<Key, Schema<Key>>, roots: seq<Schema<Key>>,
                                reached: set<Key>, renamed: set<Key>, collapse: set<Key>, s: Schema<Key>, n: nat)
    requires Resolved(c, roots) && Reconciled(c, roots, reached, renamed, collapse) && Refs(s) <= c.Keys
    ensures Unfold(Overlaid(c, renamed), s, n)
            == Unfold(Merged(c, renamed, collapse), Repoint(s, renamed + collapse), n)
  {
    hide Merged, Reconciled;
    forall k | k in c {
      MergedOverlay(c, roots, reached, renamed, collapse, k);
    }
    RenamePreservesMeaning(Overlaid(c, renamed), Merged(c, renamed, collapse), Fold(renamed + collapse), c.Keys, s, n);
  }

  /** Tables that agree on a reference-closed set of keys agree on every schema over it. */
  lemma {:induction false} AgreeingTables(c: map<Key, Schema<Key>>, d: map<Key, Schema<Key>>, keys: set<Key>,
                                          s: Schema<Key>, n: nat)
    requires forall k :: k in keys ==> k in c && k in d && c[k] == d[k] && Refs(c[k]) <= keys
    requires Refs(s) <= keys
    ensures Unfold(c, s, n) == Unfold(d, s, n)
    decreases n, s
  {
    match s
    case Ref(k, _) =>
      if n > 0 {
        AgreeingTables(c, d, keys, c[k], n - 1);
      }
    case Node(_, kids) =>
      forall i | 0 <= i < |kids|
        ensures Unfold(c, kids[i], n) == Unfold(d, kids[i], n)
      {
        KidRefs(s, i);
        AgreeingTables(c, d, keys, kids[i], n);
      }
      assert Unfold(c, s, n).kids == Unfold(d, s, n).kids;
  }

  /** References followed from component to component, none of them overwritten but perhaps the last. */
  ghost predicate Steps(c: map<Key, Schema<Key>>, renamed: set<Key>, ks: seq<Key>) {
    && ks != []
    && (forall i :: 0 <= i < |ks| ==> ks[i] in c)
    && (forall i :: 0 <= i < |ks| - 1 ==> !Overwritten(renamed, ks[i]) && ks[i + 1] in Refs(c[ks[i]]))
  }

  /** An overwritten key that holds what it did, as far as anyone can tell. */
  ghost predicate Harmless(c: map<Key, Schema<Key>>, renamed: set<Key>, k: Key)
    requires k in c
  {
    Overwritten(renamed, k) && Request(k.id) in c ==> SameMeaning(c, c[k], c[Request(k.id)])
  }

  /** Every overwritten key that is met from `k`, before any other, is harmless. */
  ghost predicate MeetsOnlyHarmless(c: map<Key, Schema<Key>>, renamed: set<Key>, k: Key) {
    forall ks :: Steps(c, renamed, ks) && ks[0] == k ==> Harmless(c, renamed, ks[|ks| - 1])
  }

  lemma HarmlessStep(c: map<Key, Schema<Key>>, renamed: set<Key>, k: Key, l: Key)
    requires k in c && MeetsOnlyHarmless(c, renamed, k) && !Overwritten(renamed, k) && l in Refs(c[k]) && l in c
    ensures MeetsOnlyHarmless(c, renamed, l)
  {
    forall ks | Steps(c, renamed, ks) && ks[0] == l
      ensures Harmless(c, renamed, ks[|ks| - 1])
    {
      var more := [k] + ks;
      assert forall i :: 0 < i < |more| ==> more[i] == ks[i - 1];
      assert Steps(c, renamed, more) && more[0] == k && more[|more| - 1] == ks[|ks| - 1];
    }
  }

  lemma HarmlessItself(c: map<Key, Schema<Key>>, renamed: set<Key>, k: Key)
    requires k in c && MeetsOnlyHarmless(c, renamed, k)
    ensures Harmless(c, renamed, k)
  {
    assert Steps(c, renamed, [k]);
  }

  /** Request components mean the same in the overlaid table. */
  lemma VariantsKeepMeaning(c: map<Key, Schema<Key>>, renamed: set<Key>, v: Key, n: nat)
    requires TwinDerivations(c) && v in Variants(c)
    ensures Unfold(c, c[v], n) == Unfold(Overlaid(c, renamed), c[v], n)
  {
    AgreeingTables(c, Overlaid(c, renamed), Variants(c), c[v], n);
  }

  lemma {:induction false} HarmlessKeepsMeaning(c: map<Key, Schema<Key>>, renamed: set<Key>, s: Schema<Key>, n: nat)
    requires TwinDerivations(c) && Resolved(c, [s]) && renamed <= c.Keys
    requires forall k :: k in Refs(s) ==> MeetsOnlyHarmless(c, renamed, k)
    ensures Unfold(c, s, n) == Unfold(Overlaid(c, renamed), s, n)
    decreases n, 0, s
  {
    hide MeetsOnlyHarmless, TwinDerivations;
    assert s in [s];
    match s
    case Ref(k, _) =>
      if n > 0 {
        HarmlessBody(c, renamed, k, n - 1);
      }
    case Node(_, kids) =>
      forall i | 0 <= i < |kids|
        ensures Unfold(c, kids[i], n) == Unfold(Overlaid(c, renamed), kids[i], n)
      {
        KidRefs(s, i);
        HarmlessKeepsMeaning(c, renamed, kids[i], n);
      }
      assert Unfold(c, s, n).kids == Unfold(Overlaid(c, renamed), s, n).kids;
  }

  lemma {:induction false} HarmlessBody(c: map<Key, Schema<Key>>, renamed: set<Key>, k: Key, n: nat)
    requires TwinDerivations(c) && Resolved(c, []) && renamed <= c.Keys && k in c && MeetsOnlyHarmless(c, renamed, k)
    ensures Unfold(c, c[k], n) == Unfold(Overlaid(c, renamed), Overlaid(c, renamed)[k], n)
    decreases n, 1
  {
    hide MeetsOnlyHarmless, TwinDerivations;
    if Overwritten(renamed, k) {
      HarmlessItself(c, renamed, k);
      VariantsKeepMeaning(c, renamed, Request(k.id), n);
    } else {
      forall l | l in Refs(c[k])
        ensures MeetsOnlyHarmless(c, renamed, l)
      {
        HarmlessStep(c, renamed, k, l);
      }
      HarmlessKeepsMeaning(c, renamed, c[k], n);
    }
  }

  /** Where a schema unfolds alike in two tables, so does what it refers to. */
  lemma {:induction false} RefsUnfoldAlike(c: map<Key, Schema<Key>>, d: map<Key, Schema<Key>>, s: Schema<Key>, k: Key,
                                           n: nat)
    requires k in Refs(s) && k in c && k in d && Unfold(c, s, n + 1) == Unfold(d, s, n + 1)
    ensures Unfold(c, c[k], n) == Unfold(d, d[k], n)
    decreases s
  {
    if s.Node? {
      var i :| 0 <= i < |s.kids| && k in Refs(s.kids[i]);
      assert Unfold(c, s, n + 1).kids[i] == Unfold(d, s, n + 1).kids[i];
      RefsUnfoldAlike(c, d, s.kids[i], k, n);
    }
  }

  /** A component whose meaning is kept meets only harmless overwriting. */
  lemma {:induction false} KeptMeetsHarmless(c: map<Key, Schema<Key>>, renamed: set<Key>, ks: seq<Key>)
    requires TwinDerivations(c) && renamed <= c.Keys && Steps(c, renamed, ks)
    requires forall n: nat :: Unfold(c, c[ks[0]], n) == Unfold(Overlaid(c, renamed), Overlaid(c, renamed)[ks[0]], n)
    ensures Harmless(c, renamed, ks[|ks| - 1])
    decreases |ks|
  {
    hide TwinDerivations;
    var d := Overlaid(c, renamed);
    if |ks| == 1 {
      if Overwritten(renamed, ks[0]) {
        forall n: nat
          ensures Unfold(c, c[ks[0]], n) == Unfold(c, c[Request(ks[0].id)], n)
        {
          VariantsKeepMeaning(c, renamed, Request(ks[0].id), n);
        }
      }
    } else {
      var rest := ks[1..];
      assert forall i :: 0 <= i < |rest| ==> rest[i] == ks[i + 1];
      assert d[ks[0]] == c[ks[0]] && ks[1] in Refs(c[ks[0]]);
      forall n: nat
        ensures Unfold(c, c[rest[0]], n) == Unfold(d, d[rest[0]], n)
      {
        RefsUnfoldAlike(c, d, c[ks[0]], ks[1], n);
      }
      KeptMeetsHarmless(c, renamed, rest);
    }
  }

  /** A component means in one table what another means in a second. */
  ghost predicate SameIn(c: map<Key, Schema<Key>>, k: Key, d: map<Key, Schema<Key>>, l: Key)
    requires k in c && l in d
  {
    forall n: nat :: Unfold(c, c[k], n) == Unfold(d, d[l], n)
  }

  lemma MergedMeansOverlay(c: map<Key, Schema<Key>>, roots: seq<Schema<Key>>,
                           reached: set<Key>, renamed: set<Key>, collapse: set<Key>, k: Key)
    requires Resolved(c, roots) && Reconciled(c, roots, reached, renamed, collapse) && k in c
    ensures Fold(renamed + collapse)(k) in Merged(c, renamed, collapse)
    ensures SameIn(Merged(c, renamed, collapse), Fold(renamed + collapse)(k), Overlaid(c, renamed), k)
  {
    hide Merged, Repoint, Overlaid, Reconciled;
    OverlayRefs(c, renamed, k);
    MergedOverlay(c, roots, reached, renamed, collapse, k);
    forall n: nat
      ensures Unfold(Merged(c, renamed, collapse), Merged(c, renamed, collapse)[Fold(renamed + collapse)(k)], n)
              == Unfold(Overlaid(c, renamed), Overlaid(c, renamed)[k], n)
    {
      OverlayPreservesMeaning(c, roots, reached, renamed, collapse, Overlaid(c, renamed)[k], n);
    }
  }

  lemma OverlayMeansIff(c: map<Key, Schema<Key>>, renamed: set<Key>, k: Key)
    requires TwinDerivations(c) && Resolved(c, []) && renamed <= c.Keys && k in c
    ensures k in Overlaid(c, renamed)
    ensures SameIn(c, k, Overlaid(c, renamed), k) <==> MeetsOnlyHarmless(c, renamed, k)
  {
    hide TwinDerivations, MeetsOnlyHarmless, Unfold;
    if MeetsOnlyHarmless(c, renamed, k) {
      forall n: nat
        ensures Unfold(c, c[k], n) == Unfold(Overlaid(c, renamed), Overlaid(c, renamed)[k], n)
      {
        HarmlessBody(c, renamed, k, n);
      }
    }
    if SameIn(c, k, Overlaid(c, renamed), k) {
      AllStepsHarmless(c, renamed, k);
    }
  }

  lemma SameInChain(c: map<Key, Schema<Key>>, k: Key, d: map<Key, Schema<Key>>, l: Key, e: map<Key, Schema<Key>>,
                    j: Key)
    requires k in c && l in d && j in e && SameIn(e, j, d, l)
    ensures SameIn(c, k, e, j) <==> SameIn(c, k, d, l)
  {
    hide Unfold;
  }

  /**
    For every component, reached by the document or not: the merge leaves its
    meaning as it was, at every depth, if and only if each overwritten key it
    meets means the same as the variant it is overwritten with.
   */
  lemma MeaningKeptIff(c: map<Key, Schema<Key>>, roots: seq<Schema<Key>>,
                       reached: set<Key>, renamed: set<Key>, collapse: set<Key>, k: Key)
    requires Resolved(c, roots) && TwinDerivations(c) && Reconciled(c, roots, reached, renamed, collapse) && k in c
    ensures Fold(renamed + collapse)(k) in Merged(c, renamed, collapse)
    ensures SameIn(c, k, Merged(c, renamed, collapse), Fold(renamed + collapse)(k))
            <==> MeetsOnlyHarmless(c, renamed, k)
  {
    hide TwinDerivations, MeetsOnlyHarmless, Merged, SameIn, Overlaid, GreatestStable;
    MergedMeansOverlay(c, roots, reached, renamed, collapse, k);
    OverlayMeansIff(c, renamed, k);
    SameInChain(c, k, Overlaid(c, renamed), k, Merged(c, renamed, collapse), Fold(renamed + collapse)(k));
  }

  lemma OverlayRefs(c: map<Key, Schema<Key>>, renamed: set<Key>, k: Key)
    requires Resolved(c, []) && k in c
    ensures k in Overlaid(c, renamed) && Refs(Overlaid(c, renamed)[k]) <= c.Keys
  {
  }

  lemma AllStepsHarmless(c: map<Key, Schema<Key>>, renamed: set<Key>, k: Key)
    requires TwinDerivations(c) && renamed <= c.Keys && k in c
    requires forall n: nat :: Unfold(c, c[k], n) == Unfold(Overlaid(c, renamed), Overlaid(c, renamed)[k], n)
    ensures MeetsOnlyHarmless(c, renamed, k)
  {
    hide TwinDerivations;
    forall ks | Steps(c, renamed, ks) && ks[0] == k
      ensures Harmless(c, renamed, ks[|ks| - 1])
    {
      KeptMeetsHarmless(c, renamed, ks);
    }
  }

  /** What the document reaches meets nothing overwritten. */
  lemma ReachedMeetsOnlyHarmless(c: map<Key, Schema<Key>>, roots: seq<Schema<Key>>,
                                 reached: set<Key>, renamed: set<Key>, collapse: set<Key>, k: Key)
    requires Reconciled(c, roots, reached, renamed, collapse) && k in reached
    ensures MeetsOnlyHarmless(c, renamed, k)
  {
    hide Harmless, GreatestStable;
    forall ks | Steps(c, renamed, ks) && ks[0] == k
      ensures Harmless(c, renamed, ks[|ks| - 1])
    {
      StepsStay(c, renamed, reached, ks);
      NotOverwritten(c, renamed, reached, ks[|ks| - 1]);
    }
  }

  lemma {:induction false} StepsStay(c: map<Key, Schema<Key>>, renamed: set<Key>, keys: set<Key>, ks: seq<Key>)
    requires Closed(c, keys) && Steps(c, renamed, ks) && ks[0] in keys
    ensures ks[|ks| - 1] in keys
    decreases |ks|
  {
    if |ks| > 1 {
      var rest := ks[1..];
      assert forall i :: 0 <= i < |rest| ==> rest[i] == ks[i + 1];
      assert ks[0 + 1] in Refs(c[ks[0]]);
      StepsStay(c, renamed, keys, rest);
    }
  }

  lemma NotOverwritten(c: map<Key, Schema<Key>>, renamed: set<Key>, reached: set<Key>, k: Key)
    requires renamed == Renamed(c, reached) && k in reached && k in c
    ensures Harmless(c, renamed, k)
  {
  }

  /** Nor does a request component. */
  lemma VariantsMeetOnlyHarmless(c: map<Key, Schema<Key>>, renamed: set<Key>, v: Key)
    requires TwinDerivations(c) && v in Variants(c)
    ensures MeetsOnlyHarmless(c, renamed, v)
  {
    forall ks | Steps(c, renamed, ks) && ks[0] == v
      ensures Harmless(c, renamed, ks[|ks| - 1])
    {
      StepsStay(c, renamed, Variants(c), ks);
    }
  }
}
