/**
  The schema document model: components that refer to each other by key, the
  renaming every re-pointing pass performs, and the meaning of a schema as the
  tree obtained by following references to any finite depth.
 */
module Schemas {
  /** Where a sub-schema sits inside its parent. */
  datatype Place =
    | Property(name: string)
    | Items
    | AdditionalProperties
    | AnyOf
    | AllOf

  /** Everything a schema object says apart from its reference and sub-schemas. */
  datatype Facts = Facts(
    types: seq<string>, closed: bool, required: seq<string>, notes: seq<string>, places: seq<Place>)

  /** A schema whose references are keys of type `K`; a reference carries no sub-schemas. */
  datatype Schema<K> =
    | Ref(key: K, notes: seq<string>)
    | Node(facts: Facts, kids: seq<Schema<K>>)

  /** An opaque component key: a type's component id, with or without the ".Request" suffix. */
  datatype Key = Base(id: nat) | Request(id: nat)

  /** The keys a schema refers to, at any depth of its own structure. */
  function Refs<K>(s: Schema<K>): set<K> {
    match s
    case Ref(k, _) => {k}
    case Node(_, kids) => set i, k | 0 <= i < |kids| && k in Refs(kids[i]) :: k
  }

  /** Re-points every reference of a schema. */
  function Rename<K, L>(s: Schema<K>, f: K -> L): Schema<L> {
    match s
    case Ref(k, notes) => Ref(f(k), notes)
    case Node(facts, kids) => Node(facts, seq(|kids|, i requires 0 <= i < |kids| => Rename(kids[i], f)))
  }

  /** The finite trees a schema denotes once its references are followed. */
  datatype Tree =
    | Cut
    | Missing
    | Deref(notes: seq<string>, target: Tree)
    | Branch(facts: Facts, kids: seq<Tree>)

  /** The meaning of `s` in `components`, with at most `n` references followed on any branch. */
  function Unfold<K>(components: map<K, Schema<K>>, s: Schema<K>, n: nat): Tree
    decreases n, s
  {
    match s
    case Ref(k, notes) =>
      if n == 0 then Cut
      else if k !in components then Missing
      else Deref(notes, Unfold(components, components[k], n - 1))
    case Node(facts, kids) =>
      Branch(facts, seq(|kids|, i requires 0 <= i < |kids| => Unfold(components, kids[i], n)))
  }

  /** No component and no root refers to a key that has no component. */
  ghost predicate Resolved<K>(components: map<K, Schema<K>>, roots: seq<Schema<K>>) {
    && (forall k :: k in components ==> Refs(components[k]) <= components.Keys)
    && (forall r :: r in roots ==> Refs(r) <= components.Keys)
  }

  lemma KidRefs<K>(s: Schema<K>, i: nat)
    requires s.Node? && i < |s.kids|
    ensures Refs(s.kids[i]) <= Refs(s)
  {
  }

  /** Renamings that agree on a schema's references agree on the schema. */
  lemma {:induction false} RenameAgree<K, L>(s: Schema<K>, f: K -> L, g: K -> L)
    requires forall k :: k in Refs(s) ==> f(k) == g(k)
    ensures Rename(s, f) == Rename(s, g)
  {
    if s.Node? {
      forall i | 0 <= i < |s.kids|
        ensures Rename(s.kids[i], f) == Rename(s.kids[i], g)
      {
        KidRefs(s, i);
        RenameAgree(s.kids[i], f, g);
      }
      assert Rename(s, f).kids == Rename(s, g).kids;
    }
  }

  lemma {:induction false} RenameCompose<K, L, M>(s: Schema<K>, f: K -> L, g: L -> M, h: K -> M)
    requires forall k :: k in Refs(s) ==> h(k) == g(f(k))
    ensures Rename(Rename(s, f), g) == Rename(s, h)
  {
    if s.Node? {
      forall i | 0 <= i < |s.kids|
        ensures Rename(Rename(s.kids[i], f), g) == Rename(s.kids[i], h)
      {
        KidRefs(s, i);
        RenameCompose(s.kids[i], f, g, h);
      }
      assert Rename(Rename(s, f), g).kids == Rename(s, h).kids;
    }
  }

  /** The references of a renamed schema are the images of the original ones. */
  lemma {:induction false} RenameRefs<K, L>(s: Schema<K>, f: K -> L)
    ensures Refs(Rename(s, f)) == set k | k in Refs(s) :: f(k)
  {
    if s.Node? {
      var renamed := Rename(s, f);
      forall i | 0 <= i < |s.kids|
        ensures Refs(renamed.kids[i]) == set k | k in Refs(s.kids[i]) :: f(k)
      {
        RenameRefs(s.kids[i], f);
      }
      var image := set k | k in Refs(s) :: f(k);
      forall l | l in Refs(renamed)
        ensures l in image
      {
        var i :| 0 <= i < |s.kids| && l in Refs(renamed.kids[i]);
        KidRefs(s, i);
      }
      forall k | k in Refs(s)
        ensures f(k) in Refs(renamed)
      {
        var i :| 0 <= i < |s.kids| && k in Refs(s.kids[i]);
        assert f(k) in Refs(renamed.kids[i]);
      }
    }
  }

  /**
    Re-pointing preserves meaning. If, on a reference-closed set of keys, every
    component's renamed body is what its new key holds, then any schema over
    that set unfolds to the same tree before and after, at every depth: the
    keys may be merged, moved or spelled differently, on cyclic graphs too.
   */
  lemma {:induction false} RenamePreservesMeaning<K, L>(
      before: map<K, Schema<K>>, after: map<L, Schema<L>>, f: K -> L, keys: set<K>, s: Schema<K>, n: nat)
    requires forall k :: k in keys ==>
               k in before && Refs(before[k]) <= keys && f(k) in after && after[f(k)] == Rename(before[k], f)
    requires Refs(s) <= keys
    ensures Unfold(before, s, n) == Unfold(after, Rename(s, f), n)
    decreases n, s
  {
    match s
    case Ref(k, _) =>
      if n > 0 {
        RenamePreservesMeaning(before, after, f, keys, before[k], n - 1);
      }
    case Node(_, kids) =>
      forall i | 0 <= i < |kids|
        ensures Unfold(before, kids[i], n) == Unfold(after, Rename(kids[i], f), n)
      {
        KidRefs(s, i);
        RenamePreservesMeaning(before, after, f, keys, kids[i], n);
      }
      assert Unfold(before, s, n).kids == Unfold(after, Rename(s, f), n).kids;
  }
}
