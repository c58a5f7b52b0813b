/**
  The credential algebra: requirement sets are ORs of ANDs, guard chains
  conjoin them, and the documented security array is what the chain enforces.
 */
module Credentials {

  /** One alternative: every scheme must be presented together, with its scopes. */
  type CredentialSet = map<string, seq<string>>

  /** The OR of alternatives; the empty sequence states nothing about credentials. */
  type RequirementSet = seq<CredentialSet>

  // --- Merging alternatives --------------------------------------------------

  /** `existing` followed by the scopes of `more` it does not contain, in first-seen order. */
  function UnionScopes(existing: seq<string>, more: seq<string>): seq<string>
    decreases more
  {
    if more == [] then existing
    else UnionScopes(if more[0] in existing then existing else existing + [more[0]], more[1..])
  }

  /** Both alternatives at once: schemes united, scopes united per scheme. */
  function Merge(a: CredentialSet, b: CredentialSet): CredentialSet {
    map s | s in a.Keys + b.Keys ::
      if s !in b then a[s] else if s !in a then b[s] else UnionScopes(a[s], b[s])
  }

  method MergeScopes(existing: seq<string>, more: seq<string>) returns (out: seq<string>)
    ensures out == UnionScopes(existing, more)
  {
    out := existing;
    for i := 0 to |more|
      invariant UnionScopes(out, more[i..]) == UnionScopes(existing, more)
    {
      if more[i] !in out {
        out := out + [more[i]];
      }
    }
  }

  method MergeCredentials(a: CredentialSet, b: CredentialSet) returns (out: CredentialSet)
    ensures out == Merge(a, b)
  {
    out := a;
    var todo := b.Keys;
    while todo != {}
      invariant todo <= b.Keys && out.Keys == a.Keys + (b.Keys - todo)
      invariant forall s :: s in out && s !in todo ==> out[s] == Merge(a, b)[s]
      invariant forall s :: s in todo && s in a ==> out[s] == a[s]
      decreases todo
    {
      var s :| s in todo;
      if s !in out {
        out := out[s := b[s]];
      } else {
        var scopes := MergeScopes(out[s], b[s]);
        out := out[s := scopes];
      }
      todo := todo - {s};
    }
  }

  lemma {:induction false} UnionScopesMembers(existing: seq<string>, more: seq<string>, x: string)
    ensures x in UnionScopes(existing, more) <==> x in existing || x in more
    decreases more
  {
    if more != [] {
      UnionScopesMembers(if more[0] in existing then existing else existing + [more[0]], more[1..], x);
    }
  }

  /** Adding scopes that are all present changes nothing; otherwise the additions only depend on what is present. */
  lemma {:induction false} UnionScopesSplit(existing: seq<string>, x: seq<string>, y: seq<string>)
    ensures UnionScopes(existing, x + y) == UnionScopes(UnionScopes(existing, x), y)
    decreases x
  {
    if x == [] {
      assert x + y == y;
    } else {
      assert (x + y)[1..] == x[1..] + y;
      UnionScopesSplit(if x[0] in existing then existing else existing + [x[0]], x[1..], y);
    }
  }

  lemma {:induction false} UnionScopesAssociative(a: seq<string>, b: seq<string>, c: seq<string>)
    ensures UnionScopes(UnionScopes(a, b), c) == UnionScopes(a, UnionScopes(b, c))
    decreases |c|
  {
    if c != [] {
      var x, n := c[|c| - 1], |c| - 1;
      assert c == c[..n] + [x];
      UnionScopesSplit(UnionScopes(a, b), c[..n], [x]);
      UnionScopesSplit(b, c[..n], [x]);
      UnionScopesAssociative(a, b, c[..n]);
      var bc := UnionScopes(b, c[..n]);
      UnionScopesMembers(a, bc, x);
      if x !in bc {
        assert UnionScopes(bc, [x]) == bc + [x];
        UnionScopesSplit(a, bc, [x]);
      }
    }
  }

  lemma MergeAssociative(a: CredentialSet, b: CredentialSet, c: CredentialSet)
    ensures Merge(Merge(a, b), c) == Merge(a, Merge(b, c))
  {
    forall s | s in a && s in b && s in c {
      UnionScopesAssociative(a[s], b[s], c[s]);
    }
  }

  // --- Conjoining requirement sets -------------------------------------------

  /** Appends an alternative unless an identical one is already present. */
  function Or(r: RequirementSet, alt: CredentialSet): RequirementSet {
    if alt in r then r else r + [alt]
  }

  function OrAll(r: RequirementSet, alts: seq<CredentialSet>): RequirementSet
    decreases alts
  {
    if alts == [] then r else OrAll(Or(r, alts[0]), alts[1..])
  }

  /** `left` merged with each alternative of `right`, in order. */
  function Row(left: CredentialSet, right: RequirementSet): seq<CredentialSet> {
    if right == [] then [] else [Merge(left, right[0])] + Row(left, right[1..])
  }

  /** Every (left, right) pair merged, left-major. */
  function Pairs(left: RequirementSet, right: RequirementSet): seq<CredentialSet> {
    if left == [] then [] else Row(left[0], right) + Pairs(left[1..], right)
  }

  /** Conjunction: an unstated operand is the identity, otherwise the deduplicated Cartesian product. */
  function And(r: RequirementSet, other: RequirementSet): RequirementSet {
    if other == [] then r else if r == [] then other else OrAll([], Pairs(r, other))
  }

  method Conjoin(r: RequirementSet, other: RequirementSet) returns (out: RequirementSet)
    ensures out == And(r, other)
  {
    if other == [] {
      return r;
    }
    if r == [] {
      return other;
    }
    out := [];
    for i := 0 to |r|
      invariant OrAll(out, Pairs(r[i..], other)) == OrAll([], Pairs(r, other))
    {
      assert r[i..][1..] == r[i + 1..];
      OrAllSplit(out, Row(r[i], other), Pairs(r[i + 1..], other));
      out := ConjoinRow(out, r[i], other);
    }
  }

  method ConjoinRow(r: RequirementSet, left: CredentialSet, right: RequirementSet) returns (out: RequirementSet)
    ensures out == OrAll(r, Row(left, right))
  {
    out := r;
    for j := 0 to |right|
      invariant OrAll(out, Row(left, right[j..])) == OrAll(r, Row(left, right))
    {
      assert right[j..][1..] == right[j + 1..];
      var merged := MergeCredentials(left, right[j]);
      out := Or(out, merged);
    }
  }

  lemma {:induction false} OrAllSplit(r: RequirementSet, x: seq<CredentialSet>, y: seq<CredentialSet>)
    ensures OrAll(r, x + y) == OrAll(OrAll(r, x), y)
    decreases x
  {
    if x == [] {
      assert x + y == y;
    } else {
      assert (x + y)[1..] == x[1..] + y;
      OrAllSplit(Or(r, x[0]), x[1..], y);
    }
  }

  lemma {:induction false} OrAllMembers(r: RequirementSet, alts: seq<CredentialSet>, c: CredentialSet)
    ensures c in OrAll(r, alts) <==> c in r || c in alts
    decreases alts
  {
    if alts != [] {
      OrAllMembers(Or(r, alts[0]), alts[1..], c);
    }
  }

  lemma {:induction false} OrAllPresent(r: RequirementSet, alts: seq<CredentialSet>)
    requires forall c :: c in alts ==> c in r
    ensures OrAll(r, alts) == r
    decreases alts
  {
    if alts != [] {
      OrAllPresent(r, alts[1..]);
    }
  }

  lemma {:induction false} RowSplit(left: CredentialSet, x: RequirementSet, y: RequirementSet)
    ensures Row(left, x + y) == Row(left, x) + Row(left, y)
  {
    if x == [] {
      assert x + y == y;
    } else {
      assert (x + y)[1..] == x[1..] + y;
      RowSplit(left, x[1..], y);
    }
  }

  lemma {:induction false} PairsSplit(x: RequirementSet, y: RequirementSet, right: RequirementSet)
    ensures Pairs(x + y, right) == Pairs(x, right) + Pairs(y, right)
  {
    if x == [] {
      assert x + y == y;
    } else {
      assert (x + y)[1..] == x[1..] + y;
      PairsSplit(x[1..], y, right);
    }
  }

  lemma {:induction false} RowMembers(left: CredentialSet, right: RequirementSet, c: CredentialSet)
    ensures c in Row(left, right) <==> exists r :: r in right && c == Merge(left, r)
  {
    if right != [] {
      RowMembers(left, right[1..], c);
    }
  }

  lemma {:induction false} PairsMembers(left: RequirementSet, right: RequirementSet, c: CredentialSet)
    ensures c in Pairs(left, right) <==> exists l, r :: l in left && r in right && c == Merge(l, r)
  {
    if left != [] {
      RowMembers(left[0], right, c);
      PairsMembers(left[1..], right, c);
    }
  }

  /** Deduplicating the right operand first does not change what a row adds. */
  lemma {:induction false} RowIgnoresDuplicates(r: RequirementSet, left: CredentialSet, y: RequirementSet)
    ensures OrAll(r, Row(left, OrAll([], y))) == OrAll(r, Row(left, y))
    decreases |y|
  {
    if y != [] {
      var e, n := y[|y| - 1], |y| - 1;
      assert y == y[..n] + [e];
      OrAllSplit([], y[..n], [e]);
      RowIgnoresDuplicates(r, left, y[..n]);
      RowSplit(left, y[..n], [e]);
      OrAllSplit(r, Row(left, y[..n]), Row(left, [e]));
      var kept := OrAll([], y[..n]);
      OrAllMembers([], y[..n], e);
      if e in kept {
        RowMembers(left, y[..n], Merge(left, e));
        OrAllMembers(r, Row(left, y[..n]), Merge(left, e));
        OrAllPresent(OrAll(r, Row(left, y[..n])), Row(left, [e]));
      } else {
        RowSplit(left, kept, [e]);
        OrAllSplit(r, Row(left, kept), Row(left, [e]));
      }
    }
  }

  lemma {:induction false} PairsIgnoreRightDuplicates(r: RequirementSet, left: RequirementSet, y: RequirementSet)
    ensures OrAll(r, Pairs(left, OrAll([], y))) == OrAll(r, Pairs(left, y))
    decreases left
  {
    if left != [] {
      OrAllSplit(r, Row(left[0], y), Pairs(left[1..], y));
      OrAllSplit(r, Row(left[0], OrAll([], y)), Pairs(left[1..], OrAll([], y)));
      RowIgnoresDuplicates(r, left[0], y);
      PairsIgnoreRightDuplicates(OrAll(r, Row(left[0], y)), left[1..], y);
    }
  }

  lemma {:induction false} PairsIgnoreLeftDuplicates(r: RequirementSet, x: RequirementSet, right: RequirementSet)
    ensures OrAll(r, Pairs(OrAll([], x), right)) == OrAll(r, Pairs(x, right))
    decreases |x|
  {
    if x != [] {
      var e, n := x[|x| - 1], |x| - 1;
      assert x == x[..n] + [e];
      OrAllSplit([], x[..n], [e]);
      PairsIgnoreLeftDuplicates(r, x[..n], right);
      PairsSplit(x[..n], [e], right);
      OrAllSplit(r, Pairs(x[..n], right), Pairs([e], right));
      var kept := OrAll([], x[..n]);
      OrAllMembers([], x[..n], e);
      if e in kept {
        forall c | c in Pairs([e], right)
          ensures c in OrAll(r, Pairs(x[..n], right))
        {
          PairsMembers([e], right, c);
          PairsMembers(x[..n], right, c);
          OrAllMembers(r, Pairs(x[..n], right), c);
        }
        OrAllPresent(OrAll(r, Pairs(x[..n], right)), Pairs([e], right));
      } else {
        PairsSplit(kept, [e], right);
        OrAllSplit(r, Pairs(kept, right), Pairs([e], right));
      }
    }
  }

  lemma {:induction false} RowOfRow(a: CredentialSet, b: CredentialSet, c: RequirementSet)
    ensures Row(Merge(a, b), c) == Row(a, Row(b, c))
  {
    if c != [] {
      MergeAssociative(a, b, c[0]);
      RowOfRow(a, b, c[1..]);
    }
  }

  lemma {:induction false} PairsOfRow(a: CredentialSet, b: RequirementSet, c: RequirementSet)
    ensures Pairs(Row(a, b), c) == Row(a, Pairs(b, c))
  {
    if b != [] {
      RowOfRow(a, b[0], c);
      PairsOfRow(a, b[1..], c);
      RowSplit(a, Row(b[0], c), Pairs(b[1..], c));
    }
  }

  lemma {:induction false} PairsAssociative(a: RequirementSet, b: RequirementSet, c: RequirementSet)
    ensures Pairs(Pairs(a, b), c) == Pairs(a, Pairs(b, c))
  {
    if a != [] {
      PairsSplit(Row(a[0], b), Pairs(a[1..], b), c);
      PairsOfRow(a[0], b, c);
      PairsAssociative(a[1..], b, c);
    }
  }

  lemma AndStated(a: RequirementSet, b: RequirementSet)
    requires a != [] && b != []
    ensures And(a, b) != []
  {
    OrAllMembers([], Pairs(a, b), Merge(a[0], b[0]));
    PairsMembers(a, b, Merge(a[0], b[0]));
  }

  /** `And` with the unstated set is a monoid, order and deduplication included. */
  lemma AndIsMonoid(a: RequirementSet, b: RequirementSet, c: RequirementSet)
    ensures And([], a) == a && And(a, []) == a
    ensures And(And(a, b), c) == And(a, And(b, c))
  {
    if a != [] && b != [] && c != [] {
      AndStated(a, b);
      AndStated(b, c);
      PairsIgnoreLeftDuplicates([], Pairs(a, b), c);
      PairsIgnoreRightDuplicates([], a, Pairs(b, c));
      PairsAssociative(a, b, c);
    }
  }

  // --- What a requirement set demands ----------------------------------------

  /** Credentials presented by a caller: schemes with the scopes they carry. */
  type Presented = map<string, set<string>>

  predicate Grants(p: Presented, alt: CredentialSet) {
    forall s :: s in alt ==> s in p && forall x :: x in alt[s] ==> x in p[s]
  }

  /** Some alternative is granted, or nothing is stated. */
  predicate Satisfies(p: Presented, r: RequirementSet) {
    r == [] || exists alt :: alt in r && Grants(p, alt)
  }

  lemma GrantsMerge(p: Presented, a: CredentialSet, b: CredentialSet)
    ensures Grants(p, Merge(a, b)) <==> Grants(p, a) && Grants(p, b)
  {
    forall s, x | s in a && s in b {
      UnionScopesMembers(a[s], b[s], x);
    }
    if Grants(p, Merge(a, b)) {
      forall s | s in a
        ensures s in p && forall x :: x in a[s] ==> x in p[s]
      {
        assert s in Merge(a, b);
      }
      forall s | s in b
        ensures s in p && forall x :: x in b[s] ==> x in p[s]
      {
        assert s in Merge(a, b);
      }
    }
  }

  lemma SatisfiesAnd(p: Presented, a: RequirementSet, b: RequirementSet)
    ensures Satisfies(p, And(a, b)) <==> Satisfies(p, a) && Satisfies(p, b)
  {
    if a != [] && b != [] {
      AndStated(a, b);
      if Satisfies(p, And(a, b)) {
        var c :| c in And(a, b) && Grants(p, c);
        OrAllMembers([], Pairs(a, b), c);
        PairsMembers(a, b, c);
        var l, r :| l in a && r in b && c == Merge(l, r);
        GrantsMerge(p, l, r);
      }
      if Satisfies(p, a) && Satisfies(p, b) {
        var l :| l in a && Grants(p, l);
        var r :| r in b && Grants(p, r);
        GrantsMerge(p, l, r);
        PairsMembers(a, b, Merge(l, r));
        OrAllMembers([], Pairs(a, b), Merge(l, r));
      }
    }
  }

  // --- The documented security of an operation -------------------------------

  /** The document's root security: one alternative that needs no credential. */
  const ROOT_SECURITY: RequirementSet := [map[]]

  datatype SecurityField = Inherited | Stated(alternatives: RequirementSet)

  /** The conjunction of a guard chain's requirements, left to right. */
  function ChainRequirement(guards: seq<RequirementSet>): RequirementSet {
    if guards == [] then [] else And(ChainRequirement(guards[..|guards| - 1]), guards[|guards| - 1])
  }

  /** An operation without a security field inherits the root's (section 4.8.10 of OpenAPI 3.1.0). */
  function Effective(field: SecurityField): RequirementSet {
    match field
    case Inherited => ROOT_SECURITY
    case Stated(alternatives) => alternatives
  }

  method OperationSecurity(guards: seq<RequirementSet>, own: RequirementSet) returns (field: SecurityField)
    ensures forall p :: Satisfies(p, Effective(field)) <==>
              (forall i :: 0 <= i < |guards| ==> Satisfies(p, guards[i])) && Satisfies(p, own)
  {
    var required: RequirementSet := [];
    for i := 0 to |guards|
      invariant required == ChainRequirement(guards[..i])
    {
      assert guards[..i + 1][..i] == guards[..i];
      required := Conjoin(required, guards[i]);
    }
    assert guards[..|guards|] == guards;
    ghost var chain := required;
    required := Conjoin(required, own);
    field := if required == [] then Inherited else Stated(required);
    forall p
      ensures Satisfies(p, Effective(field)) <==>
                (forall i :: 0 <= i < |guards| ==> Satisfies(p, guards[i])) && Satisfies(p, own)
    {
      SatisfiesAnd(p, chain, own);
      SatisfiesChain(p, guards);
      assert Grants(p, map[]) && map[] in ROOT_SECURITY;
    }
  }

  /** Presented credentials satisfy a chain's conjunction exactly when they satisfy every guard of it. */
  lemma {:induction false} SatisfiesChain(p: Presented, guards: seq<RequirementSet>)
    ensures Satisfies(p, ChainRequirement(guards)) <==> forall i :: 0 <= i < |guards| ==> Satisfies(p, guards[i])
  {
    if guards != [] {
      var n := |guards| - 1;
      SatisfiesChain(p, guards[..n]);
      SatisfiesAnd(p, ChainRequirement(guards[..n]), guards[n]);
      assert forall i :: 0 <= i < n ==> guards[..n][i] == guards[i];
    }
  }
}
