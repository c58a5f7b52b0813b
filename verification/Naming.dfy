/**
  Final component naming: the naming policy runs once per component, a
  collision is reported instead of being renamed away, and every reference is
  re-pointed at the chosen names.
 */
module Naming {
  import opened Schemas
  import opened TypeSchemas

  const REQUEST_SUFFIX := ".Request"

  /** A reference in the published document; an unmapped one keeps its internal spelling. */
  datatype FinalRef = Public(name: string) | Internal(key: Key)

  datatype NamingViolation = NoOwner(key: Key) | InvalidName(key: Key, name: string) | Collision(key: Key, name: string)

  type NameFunc = GoType -> string

  function FullTypeName(t: GoType): string {
    match t
    case Named(path, name) => path + "." + name
    case _ => "interface {}"
  }

  function Suffix(k: Key): string {
    if k.Request? then REQUEST_SUFFIX else ""
  }

  /** The public name of a component. */
  function FinalName(owner: map<Key, GoType>, nameFunc: NameFunc, k: Key): string
    requires k in owner
  {
    nameFunc(owner[k]) + Suffix(k)
  }

  /** Whom the collision check believes a component documents. */
  function OwnerLabel(owner: map<Key, GoType>, k: Key): string
    requires k in owner
  {
    FullTypeName(owner[k]) + Suffix(k)
  }

  predicate ValidComponentName(name: string) {
    && name != ""
    && forall i :: 0 <= i < |name| ==>
         'A' <= name[i] <= 'Z' || 'a' <= name[i] <= 'z' || '0' <= name[i] <= '9' || name[i] in "._-"
  }

  /** The characters that section 4.8.7 of OpenAPI 3.1.0 allows in the keys of its components, by code point. */
  lemma ComponentNameCharacters(name: string)
    ensures ValidComponentName(name) <==>
            && |name| > 0
            && forall c :: c in name ==>
                 || 65 <= c as int <= 90 || 97 <= c as int <= 122 || 48 <= c as int <= 57 || c as int in {45, 46, 95}
  {
    assert forall i :: 0 <= i < |name| ==> name[i] in name;
    assert forall c :: c in name ==> exists i :: 0 <= i < |name| && name[i] == c;
  }

  /** Nothing to report: owned, well-named, and one label per public name. */
  ghost predicate Clean(keys: set<Key>, owner: map<Key, GoType>, nameFunc: NameFunc) {
    && keys <= owner.Keys
    && (forall k :: k in keys ==> ValidComponentName(FinalName(owner, nameFunc, k)))
    && (forall k, l :: k in keys && l in keys && FinalName(owner, nameFunc, k) == FinalName(owner, nameFunc, l) ==>
          OwnerLabel(owner, k) == OwnerLabel(owner, l))
  }

  /** The names in use are exactly those of the components done, each standing for its component's label. */
  ghost predicate InUse(done: set<Key>, owner: map<Key, GoType>, nameFunc: NameFunc, used: map<string, string>) {
    && done <= owner.Keys
    && (forall k :: k in done ==>
          FinalName(owner, nameFunc, k) in used && used[FinalName(owner, nameFunc, k)] == OwnerLabel(owner, k))
    && (forall n :: n in used ==> exists k :: k in done && FinalName(owner, nameFunc, k) == n)
  }

  /** The collision check on one more component is exact. */
  lemma CleanStep(done: set<Key>, id: Key, owner: map<Key, GoType>, nameFunc: NameFunc, used: map<string, string>)
    requires id in owner && InUse(done, owner, nameFunc, used) && Clean(done, owner, nameFunc)
    ensures var final := FinalName(owner, nameFunc, id);
            Clean(done + {id}, owner, nameFunc) <==>
              ValidComponentName(final) && (final in used ==> used[final] == OwnerLabel(owner, id))
    ensures Clean(done + {id}, owner, nameFunc) ==>
              InUse(done + {id}, owner, nameFunc, used[FinalName(owner, nameFunc, id) := OwnerLabel(owner, id)])
  {
    var final := FinalName(owner, nameFunc, id);
    if final in used {
      var k :| k in done && FinalName(owner, nameFunc, k) == final;
      assert used[final] == OwnerLabel(owner, k);
    }
  }

  lemma CleanShrinks(done: set<Key>, more: set<Key>, owner: map<Key, GoType>, nameFunc: NameFunc)
    requires done <= more && Clean(more, owner, nameFunc)
    ensures Clean(done, owner, nameFunc)
  {
  }

  /** Records one component's name, or why it cannot have it. */
  method NameOne(id: Key, final: string, ownerName: string, used: map<string, string>, violations: seq<NamingViolation>)
    returns (violations': seq<NamingViolation>, used': map<string, string>)
    ensures violations' == [] <==>
            violations == [] && ValidComponentName(final) && (final in used ==> used[final] == ownerName)
    ensures violations' == [] ==> used' == used[final := ownerName]
  {
    violations', used' := violations, used;
    if !ValidComponentName(final) {
      violations' := violations' + [InvalidName(id, final)];
    }
    if final in used && used[final] != ownerName {
      violations' := violations' + [Collision(id, final)];
    } else {
      used' := used[final := ownerName];
    }
  }

  /**
    The naming sweep, in whatever order `keys` lists the components: it reports
    nothing exactly when naming is clean.
   */
  method ChooseNames(keys: seq<Key>, owner: map<Key, GoType>, nameFunc: NameFunc)
    returns (names: map<Key, string>, violations: seq<NamingViolation>)
    ensures violations == [] <==> Clean((set k | k in keys), owner, nameFunc)
    ensures names.Keys == set k | k in keys && k in owner
    ensures forall k :: k in names ==> names[k] == FinalName(owner, nameFunc, k)
  {
    names, violations := map[], [];
    var used: map<string, string> := map[];
    ghost var done: set<Key> := {};
    for i := 0 to |keys|
      invariant done == set k | k in keys[..i]
      invariant names.Keys == done * owner.Keys
      invariant forall k :: k in names ==> names[k] == FinalName(owner, nameFunc, k)
      invariant violations == [] <==> Clean(done, owner, nameFunc)
      invariant violations == [] ==> InUse(done, owner, nameFunc, used)
    {
      var id := keys[i];
      assert keys[..i + 1] == keys[..i] + [id];
      ghost var before := done;
      done := done + {id};
      if violations != [] && Clean(done, owner, nameFunc) {
        CleanShrinks(before, done, owner, nameFunc);
      }
      if id !in owner {
        violations := violations + [NoOwner(id)];
        continue;
      }
      if violations == [] {
        CleanStep(before, id, owner, nameFunc, used);
      }
      var final := FinalName(owner, nameFunc, id);
      names := names[id := final];
      violations, used := NameOne(id, final, OwnerLabel(owner, id), used, violations);
    }
    assert keys[..|keys|] == keys;
  }

  // --- When the public names are one to one ----------------------------------

  ghost predicate DistinctFullNames(keys: set<Key>, owner: map<Key, GoType>)
    requires keys <= owner.Keys
  {
    forall k, l :: k in keys && l in keys && FullTypeName(owner[k]) == FullTypeName(owner[l]) ==> owner[k] == owner[l]
  }

  /** One (type, context) per key, as the generator guarantees. */
  ghost predicate OneKeyPerOwner(keys: set<Key>, owner: map<Key, GoType>)
    requires keys <= owner.Keys
  {
    forall k, l :: k in keys && l in keys && owner[k] == owner[l] && k.Request? == l.Request? ==> k == l
  }

  ghost predicate OneToOne(keys: set<Key>, owner: map<Key, GoType>, nameFunc: NameFunc)
    requires keys <= owner.Keys
  {
    forall k, l :: k in keys && l in keys && FinalName(owner, nameFunc, k) == FinalName(owner, nameFunc, l) ==> k == l
  }

  /** A type whose own names are spelled like another type's request variant. */
  ghost predicate SuffixClash(keys: set<Key>, owner: map<Key, GoType>, nameFunc: NameFunc)
    requires keys <= owner.Keys
  {
    exists k, l :: k in keys && l in keys && k.Request? && l.Base?
      && FullTypeName(owner[l]) == FullTypeName(owner[k]) + REQUEST_SUFFIX
      && nameFunc(owner[l]) == nameFunc(owner[k]) + REQUEST_SUFFIX
  }

  lemma SuffixCancels(a: string, b: string, suffix: string)
    requires a + suffix == b + suffix
    ensures a == b
  {
    assert a == (a + suffix)[..|a|];
    assert b == (b + suffix)[..|b|];
  }

  /** Two components that share a public name without being reported are a type and another type's variant. */
  lemma SharedNameIsSuffixClash(keys: set<Key>, owner: map<Key, GoType>, nameFunc: NameFunc, k: Key, l: Key)
    requires Clean(keys, owner, nameFunc)
    requires DistinctFullNames(keys, owner) && OneKeyPerOwner(keys, owner)
    requires k in keys && l in keys && k != l && (l.Request? ==> k.Request?)
    requires FinalName(owner, nameFunc, k) == FinalName(owner, nameFunc, l)
    ensures SuffixClash(keys, owner, nameFunc)
  {
    assert OwnerLabel(owner, k) == OwnerLabel(owner, l);
    if k.Request? == l.Request? {
      SuffixCancels(FullTypeName(owner[k]), FullTypeName(owner[l]), Suffix(k));
    } else {
      assert FullTypeName(owner[l]) + "" == FullTypeName(owner[l]);
      assert nameFunc(owner[l]) + "" == nameFunc(owner[l]);
    }
  }

  /**
    For owners with distinct full names, a sweep that reports nothing has named
    the components one to one exactly when no type is spelled like another
    type's ".Request" variant. The collision check compares labels, so that one
    spelling passes it.
   */
  lemma CleanNamesAreOneToOne(keys: set<Key>, owner: map<Key, GoType>, nameFunc: NameFunc)
    requires Clean(keys, owner, nameFunc)
    requires DistinctFullNames(keys, owner) && OneKeyPerOwner(keys, owner)
    ensures OneToOne(keys, owner, nameFunc) <==> !SuffixClash(keys, owner, nameFunc)
  {
    if SuffixClash(keys, owner, nameFunc) {
      var k, l :| k in keys && l in keys && k.Request? && l.Base?
        && FullTypeName(owner[l]) == FullTypeName(owner[k]) + REQUEST_SUFFIX
        && nameFunc(owner[l]) == nameFunc(owner[k]) + REQUEST_SUFFIX;
      assert nameFunc(owner[l]) + "" == nameFunc(owner[l]);
      assert FinalName(owner, nameFunc, k) == FinalName(owner, nameFunc, l);
    } else if !OneToOne(keys, owner, nameFunc) {
      var k, l :| k in keys && l in keys && FinalName(owner, nameFunc, k) == FinalName(owner, nameFunc, l) && k != l;
      if k.Request? {
        SharedNameIsSuffixClash(keys, owner, nameFunc, k, l);
      } else {
        SharedNameIsSuffixClash(keys, owner, nameFunc, l, k);
      }
    }
  }

  /**
    The spelling that slips through: next to any type there can be another,
    named "Request" in a package spelled after it, for which the sweep is clean
    although the two components share one public name.
   */
  lemma CleanNamesMayMerge(path: string, name: string, public: string)
      returns (keys: set<Key>, owner: map<Key, GoType>, nameFunc: NameFunc)
    requires ValidComponentName(public)
    ensures {Base(1), Request(1)} <= keys <= owner.Keys && owner[Base(1)] == owner[Request(1)] == Named(path, name)
    ensures Clean(keys, owner, nameFunc) && DistinctFullNames(keys, owner) && OneKeyPerOwner(keys, owner)
    ensures !OneToOne(keys, owner, nameFunc)
  {
    hide FullTypeName, ValidComponentName;
    var order, request := Named(path, name), Named(path + "." + name, "Request");
    keys := {Base(1), Request(1), Base(2)};
    owner := map[Base(1) := order, Request(1) := order, Base(2) := request];
    nameFunc := t => if t == order then public else public + REQUEST_SUFFIX;
    NestedName(path, name);
    SuffixIsValid(public);
    assert owner[Request(1)] == order;
    assert FinalName(owner, nameFunc, Base(2)) == public + REQUEST_SUFFIX + "";
    assert FinalName(owner, nameFunc, Request(1)) == FinalName(owner, nameFunc, Base(2));
    assert OwnerLabel(owner, Base(2)) == FullTypeName(request) + "";
    assert OwnerLabel(owner, Request(1)) == OwnerLabel(owner, Base(2));
    assert FinalName(owner, nameFunc, Base(1)) == public + "" == public;
    assert |public + REQUEST_SUFFIX| > |public|;
  }

  lemma NestedName(path: string, name: string)
    ensures FullTypeName(Named(path + "." + name, "Request")) == FullTypeName(Named(path, name)) + REQUEST_SUFFIX
    ensures Named(path + "." + name, "Request") != Named(path, name)
    ensures FullTypeName(Named(path + "." + name, "Request")) != FullTypeName(Named(path, name))
  {
    assert "." + "Request" == REQUEST_SUFFIX;
    assert FullTypeName(Named(path + "." + name, "Request")) == FullTypeName(Named(path, name)) + ("." + "Request");
    assert |path + "." + name| > |path|;
  }

  lemma SuffixIsValid(name: string)
    requires ValidComponentName(name)
    ensures ValidComponentName(name + REQUEST_SUFFIX)
  {
    forall i | 0 <= i < |REQUEST_SUFFIX|
      ensures 'A' <= REQUEST_SUFFIX[i] <= 'Z' || 'a' <= REQUEST_SUFFIX[i] <= 'z' || REQUEST_SUFFIX[i] in "._-"
    {
    }
  }

  // --- The published document ------------------------------------------------

  function Spelled(names: map<Key, string>): Key -> FinalRef {
    (k: Key) => if k in names then Public(names[k]) else Internal(k)
  }

  /** Moves every component to its public name and re-points every reference. */
  method Publish(schemas: map<Key, Schema<Key>>, roots: seq<Schema<Key>>, names: map<Key, string>)
    returns (components: map<FinalRef, Schema<FinalRef>>, roots': seq<Schema<FinalRef>>)
    requires schemas.Keys <= names.Keys
    ensures components.Keys == set k | k in schemas :: Spelled(names)(k)
    ensures (forall k, l :: k in schemas && l in schemas && names[k] == names[l] ==> k == l) ==>
              forall k :: k in schemas ==> components[Spelled(names)(k)] == Rename(schemas[k], Spelled(names))
    ensures |roots'| == |roots| && forall i :: 0 <= i < |roots| ==> roots'[i] == Rename(roots[i], Spelled(names))
  {
    components := map[];
    var todo := schemas.Keys;
    while todo != {}
      invariant todo <= schemas.Keys
      invariant components.Keys == set k | k in schemas.Keys - todo :: Spelled(names)(k)
      invariant (forall k, l :: k in schemas && l in schemas && names[k] == names[l] ==> k == l) ==>
                  forall k :: k in schemas.Keys - todo ==>
                    components[Spelled(names)(k)] == Rename(schemas[k], Spelled(names))
      decreases todo
    {
      var k :| k in todo;
      components := components[Public(names[k]) := Rename(schemas[k], Spelled(names))];
      assert schemas.Keys - (todo - {k}) == (schemas.Keys - todo) + {k};
      todo := todo - {k};
    }
    roots' := seq(|roots|, i requires 0 <= i < |roots| => Rename(roots[i], Spelled(names)));
  }

  /** A one-to-one naming leaves every reference resolved and every unfolding unchanged. */
  lemma NamingPreservesMeaning(schemas: map<Key, Schema<Key>>, components: map<FinalRef, Schema<FinalRef>>,
                               names: map<Key, string>, s: Schema<Key>, n: nat)
    requires Resolved(schemas, [s]) && schemas.Keys <= names.Keys
    requires forall k :: k in schemas ==>
               Spelled(names)(k) in components && components[Spelled(names)(k)] == Rename(schemas[k], Spelled(names))
    ensures Unfold(schemas, s, n) == Unfold(components, Rename(s, Spelled(names)), n)
  {
    assert s in [s];
    RenamePreservesMeaning(schemas, components, Spelled(names), schemas.Keys, s, n);
  }
}
