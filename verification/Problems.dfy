/**
  Problems: the closed vocabulary of failure kinds, error chains as the
  dispatcher sees them, and the one path by which a failure reaches the wire.
 */
module Problems {
  import opened Wrappers

  datatype Kind =
    | BadRequest
    | Unauthorized
    | Forbidden
    | NotFound
    | Conflict
    | PayloadTooLarge
    | UnsupportedMediaType
    | UnprocessableEntity
    | TooManyRequests
    | Internal

  datatype Definition = Definition(code: string, status: nat, title: string)

  function DefinitionOf(kind: Kind): Definition {
    match kind
    case BadRequest => Definition("bad-request", 400, "Bad Request")
    case Unauthorized => Definition("unauthorized", 401, "Unauthorized")
    case Forbidden => Definition("forbidden", 403, "Forbidden")
    case NotFound => Definition("not-found", 404, "Not Found")
    case Conflict => Definition("conflict", 409, "Conflict")
    case PayloadTooLarge => Definition("payload-too-large", 413, "Payload Too Large")
    case UnsupportedMediaType => Definition("unsupported-media-type", 415, "Unsupported Media Type")
    case UnprocessableEntity => Definition("validation", 422, "Validation Error")
    case TooManyRequests => Definition("too-many-requests", 429, "Too Many Requests")
    case Internal => Definition("server-error", 500, "Internal Server Error")
  }

  function Status(kind: Kind): nat {
    DefinitionOf(kind).status
  }

  const NAMESPACE := "urn:tinker:error:"

  /**
    A problem value; one built outside the vocabulary has no kind. `retryAfter` is
    its extension of that name, `encodes` says that its extensions can be
    marshalled.
   */
  datatype Problem = Problem(
    kind: Option<Kind>, typeURI: string, title: string, status: int, retryAfter: Option<int>, encodes: bool)

  function New(kind: Kind): Problem {
    Problem(Some(kind), NAMESPACE + DefinitionOf(kind).code, DefinitionOf(kind).title, Status(kind), None, true)
  }

  /** The kind owns the wire fields, whatever the caller did to them. */
  function Restored(p: Problem): Problem {
    if p.kind.Some? then New(p.kind.value).(retryAfter := p.retryAfter, encodes := p.encodes) else p
  }

  /** White space as string trimming has it. */
  predicate Space(c: char) {
    || '\t' <= c <= '\r' || c == ' ' || c == '\U{85}' || c == '\U{A0}' || c == '\U{1680}'
    || '\U{2000}' <= c <= '\U{200A}' || c == '\U{2028}' || c == '\U{2029}' || c == '\U{202F}'
    || c == '\U{205F}' || c == '\U{3000}'
  }

  predicate Blank(s: string) {
    forall i :: 0 <= i < |s| ==> Space(s[i])
  }

  /** What section 3.1 of RFC 9457 needs and the status line allows. */
  predicate ValidProblem(p: Problem) {
    400 <= p.status <= 599 && !Blank(p.typeURI) && !Blank(p.title)
  }

  lemma KnownProblemsAreValid(kind: Kind)
    ensures ValidProblem(New(kind))
  {
    var p := New(kind);
    assert p.typeURI[0] == 'u' && p.title[0] == DefinitionOf(kind).title[0];
  }

  /** A status belongs to one kind only, so declaring by status and declaring by kind are the same. */
  lemma StatusIdentifiesKind(a: Kind, b: Kind)
    ensures Status(a) == Status(b) ==> a == b
  {
    assert a.Internal? <==> Status(a) == 500;
    assert a.BadRequest? <==> Status(a) == 400;
  }

  /** Nor do two kinds share a type. */
  lemma TypeIdentifiesKind(a: Kind, b: Kind)
    ensures New(a).typeURI == New(b).typeURI ==> a == b
  {
    var c, d := DefinitionOf(a).code, DefinitionOf(b).code;
    assert New(a).typeURI[|NAMESPACE|..] == c && New(b).typeURI[|NAMESPACE|..] == d;
  }

  // --- Error chains ----------------------------------------------------------

  datatype PgCode = UniqueViolation | ForeignKeyViolation | CheckViolation | NotNullViolation
                  | InvalidText | Truncation | OutOfRange | OtherCode

  /** One error; a typed problem may be a nil pointer. */
  datatype Node =
    | ProblemNode(problem: Option<Problem>)
    | ChallengeNode(challenge: string)
    | ValidationNode
    | NoRows
    | PgNode(code: PgCode)
    | Opaque

  /** An error with what it wraps, in order. */
  datatype Err = Err(node: Node, wraps: seq<Err>)

  /** The first error of a chain that passes a test, outermost first, then depth first through what it wraps. */
  function As(e: Err, test: Node -> bool): Option<Node>
    decreases e, 1, 0
  {
    if test(e.node) then Some(e.node) else AsAny(e, |e.wraps|, test)
  }

  /** The first hit among the last `n` wrapped errors. */
  function AsAny(e: Err, n: nat, test: Node -> bool): Option<Node>
    requires n <= |e.wraps|
    decreases e, 0, n
  {
    if n == 0 then None
    else
      var first := As(e.wraps[|e.wraps| - n], test);
      if first.Some? then first else AsAny(e, n - 1, test)
  }

  lemma {:induction false} AsPasses(e: Err, test: Node -> bool)
    ensures As(e, test).Some? ==> test(As(e, test).value)
    decreases e, 1, 0
  {
    AsAnyPasses(e, |e.wraps|, test);
  }

  lemma {:induction false} AsAnyPasses(e: Err, n: nat, test: Node -> bool)
    requires n <= |e.wraps|
    ensures AsAny(e, n, test).Some? ==> test(AsAny(e, n, test).value)
    decreases e, 0, n
  {
    if n > 0 {
      AsPasses(e.wraps[|e.wraps| - n], test);
      AsAnyPasses(e, n - 1, test);
    }
  }

  function IsProblem(n: Node): bool { n.ProblemNode? }
  function IsChallenge(n: Node): bool { n.ChallengeNode? }
  function IsValidation(n: Node): bool { n.ValidationNode? }
  function IsNoRows(n: Node): bool { n.NoRows? }
  function IsPg(n: Node): bool { n.PgNode? }

  function ClassifyDatabaseError(e: Err): Option<Kind> {
    if As(e, IsNoRows).Some? then Some(NotFound)
    else
      var found := As(e, IsPg);
      if found.None? || !found.value.PgNode? then None
      else
        match found.value.code
        case UniqueViolation => Some(Conflict)
        case ForeignKeyViolation => Some(BadRequest)
        case CheckViolation => Some(BadRequest)
        case NotNullViolation => Some(BadRequest)
        case InvalidText => Some(BadRequest)
        case Truncation => Some(BadRequest)
        case OutOfRange => Some(BadRequest)
        case OtherCode => Some(Internal)
  }

  /** A problem for any error, and the kind to be enforced when it counts as typed. */
  datatype Classified = Classified(problem: Problem, typed: bool, kind: Option<Kind>)

  function ErrorToProblem(e: Err, classifyValidation: bool): Classified {
    var found := As(e, IsProblem);
    if found.Some? && found.value.ProblemNode? && found.value.problem.Some? then
      var p := Restored(found.value.problem.value);
      if ValidProblem(p) then Classified(p, true, p.kind) else Classified(New(Internal), true, Some(Internal))
    else if classifyValidation && As(e, IsValidation).Some? then
      Classified(New(UnprocessableEntity), false, Some(UnprocessableEntity))
    else
      match ClassifyDatabaseError(e)
      case Some(kind) => Classified(New(kind), true, Some(kind))
      case None => Classified(New(Internal), false, Some(Internal))
  }

  // --- The wire --------------------------------------------------------------

  datatype Body = NoContent | ProblemBody(problem: Problem) | Payload

  /** What has been written; a status is committed at most once. */
  datatype Wire = Wire(
    status: Option<int>, cookies: seq<string>, challenge: Option<string>, location: Option<string>,
    retryAfter: Option<int>, body: Body)

  const EMPTY_WIRE := Wire(None, [], None, None, None, NoContent)

  /** What may be written on behalf of an operation or a guard. */
  datatype Plan = Plan(allowed: set<Kind>, allowChallenge: bool)

  predicate Permits(plan: Option<Plan>, kind: Option<Kind>) {
    plan.Some? ==> kind.Some? && kind.value in plan.value.allowed
  }

  /** The problem that ends up written for an error. */
  function Settled(e: Err, plan: Option<Plan>, enforce: bool, classifyValidation: bool): Problem {
    if As(e, IsChallenge).Some? then New(Internal)
    else
      var c := ErrorToProblem(e, classifyValidation);
      if enforce && c.typed && !Permits(plan, c.kind) then New(Internal) else c.problem
  }

  predicate AnswersChallenge(e: Err, plan: Option<Plan>) {
    As(e, IsChallenge).Some? && (plan.Some? ==> plan.value.allowChallenge)
  }

  /** A problem that is invalid or does not encode is replaced by the plain 500. */
  function Encoded(p: Problem): Problem {
    if ValidProblem(p) && p.encodes then p else New(Internal)
  }

  /** A positive wait is mirrored into the Retry-After header, whatever the problem's kind. */
  function RetryHeader(p: Problem): Option<int> {
    if p.retryAfter.Some? && p.retryAfter.value > 0 then p.retryAfter else None
  }

  function ProblemWire(p: Problem): Wire {
    EMPTY_WIRE.(status := Some(p.status), retryAfter := RetryHeader(p), body := ProblemBody(p))
  }

  /** What a failure comes to on the wire. */
  function DispatchWire(e: Err, plan: Option<Plan>, enforce: bool, classifyValidation: bool): Wire {
    if AnswersChallenge(e, plan) then
      var node := As(e, IsChallenge).value;
      EMPTY_WIRE.(status := Some(401), challenge := Some(if node.ChallengeNode? then node.challenge else ""))
    else ProblemWire(Encoded(Settled(e, plan, enforce, classifyValidation)))
  }

  class ResponseWriter {
    var wire: Wire

    constructor ()
      ensures wire == EMPTY_WIRE
    {
      wire := EMPTY_WIRE;
    }

    /** The first status stands. */
    method WriteHeader(status: int)
      modifies this
      ensures wire == old(wire).(status := if old(wire).status.Some? then old(wire).status else Some(status))
    {
      if wire.status.None? {
        wire := wire.(status := Some(status));
      }
    }

    /** Encodes first, so that the fallback can still choose the status. */
    method WriteProblem(problem: Problem)
      modifies this
      requires wire.status.None? && wire.retryAfter.None?
      ensures wire == old(wire).(status := Some(Encoded(problem).status), retryAfter := RetryHeader(Encoded(problem)),
                                 body := ProblemBody(Encoded(problem)))
    {
      var p := problem;
      if !ValidProblem(p) || !p.encodes {
        p := New(Internal);
      }
      if p.retryAfter.Some? && p.retryAfter.value > 0 {
        wire := wire.(retryAfter := p.retryAfter);
      }
      WriteHeader(p.status);
      wire := wire.(body := ProblemBody(p));
    }

    /** The single write path of every failure. */
    method Dispatch(e: Err, plan: Option<Plan>, enforce: bool, classifyValidation: bool)
      modifies this
      requires wire == EMPTY_WIRE
      ensures wire == DispatchWire(e, plan, enforce, classifyValidation)
    {
      var challenge := As(e, IsChallenge);
      AsPasses(e, IsChallenge);
      if challenge.Some? && (plan.None? || plan.value.allowChallenge) {
        wire := wire.(challenge := Some(challenge.value.challenge));
        WriteHeader(401);
        return;
      }
      var problem := New(Internal);
      if challenge.None? {
        var c := ErrorToProblem(e, classifyValidation);
        if !(enforce && c.typed && !Permits(plan, c.kind)) {
          problem := c.problem;
        }
      }
      WriteProblem(problem);
    }
  }

  /**
    A problem on the wire: the body's own status is the response's, as section 3.1
    of RFC 9457 has it, the kind's fields are its own, and its wait is mirrored.
   */
  predicate WellFormed(wire: Wire) {
    if wire.body.ProblemBody? then
      && ValidProblem(wire.body.problem)
      && wire.status == Some(wire.body.problem.status)
      && Restored(wire.body.problem) == wire.body.problem
      && wire.retryAfter == RetryHeader(wire.body.problem)
    else wire.retryAfter.None?
  }

  /** What a plan lets through: the plain 500, a permitted kind, or the challenge. */
  ghost predicate Contracted(plan: Plan, wire: Wire) {
    && WellFormed(wire) && wire.cookies == [] && wire.location.None?
    && if wire.challenge.Some? then plan.allowChallenge && wire.status == Some(401) && wire.body == NoContent
       else
         && wire.body.ProblemBody?
         && (|| (wire.status == Some(500) && wire.retryAfter.None?)
             || exists kind :: kind in plan.allowed && wire.status == Some(Status(kind)))
  }

  /** Whatever error chain is dispatched under a plan, what reaches the wire is within the plan. */
  lemma DispatchKeepsContract(e: Err, plan: Plan)
    ensures Contracted(plan, DispatchWire(e, Some(plan), true, false))
  {
    hide As, ValidProblem, Blank;
    AsPasses(e, IsChallenge);
    KnownProblemsAreValid(Internal);
    if !AnswersChallenge(e, Some(plan)) {
      var c := ErrorToProblem(e, false);
      var p := Encoded(Settled(e, Some(plan), true, false));
      if p != New(Internal) && !(p.status == 500 && p.retryAfter.None?) {
        assert c.typed && c.kind.value in plan.allowed && p.status == Status(c.kind.value);
      }
    }
  }

  function Returning(kind: Kind, retryAfter: Option<int>): Err {
    Err(ProblemNode(Some(New(kind).(retryAfter := retryAfter))), [])
  }

  /** Any permitted kind can be written, with whatever wait it carries: a handler or guard that returns it. */
  lemma PermittedKindsAreWritten(kind: Kind, retryAfter: Option<int>, plan: Plan)
    requires kind in plan.allowed
    ensures DispatchWire(Returning(kind, retryAfter), Some(plan), true, false)
            == ProblemWire(New(kind).(retryAfter := retryAfter))
  {
    KnownProblemsAreValid(kind);
    var e := Returning(kind, retryAfter);
    assert As(e, IsProblem) == Some(e.node) && As(e, IsChallenge).None?;
  }

  // --- What is written, told from the chain ----------------------------------

  /** A chain's errors in the order in which they are asked: each before what it wraps. */
  function Chain(e: Err): seq<Node>
    decreases e, 1, 0
  {
    [e.node] + WrappedFrom(e, 0)
  }

  /** The chains of the errors wrapped from the `k`-th on. */
  function WrappedFrom(e: Err, k: nat): seq<Node>
    requires k <= |e.wraps|
    decreases e, 0, |e.wraps| - k
  {
    if k == |e.wraps| then [] else Chain(e.wraps[k]) + WrappedFrom(e, k + 1)
  }

  ghost predicate FirstIs(chain: seq<Node>, test: Node -> bool, n: Node) {
    exists i :: 0 <= i < |chain| && chain[i] == n && test(n) && forall j :: 0 <= j < i ==> !test(chain[j])
  }

  ghost predicate NoneIs(chain: seq<Node>, test: Node -> bool) {
    forall i :: 0 <= i < |chain| ==> !test(chain[i])
  }

  /** A lookup in `chain` that came to `found`. */
  ghost predicate Finds(chain: seq<Node>, test: Node -> bool, found: Option<Node>) {
    if found.Some? then FirstIs(chain, test, found.value) else NoneIs(chain, test)
  }

  lemma FindsConcat(a: seq<Node>, b: seq<Node>, test: Node -> bool, x: Option<Node>, y: Option<Node>)
    requires Finds(a, test, x) && Finds(b, test, y)
    ensures Finds(a + b, test, if x.Some? then x else y)
  {
    if x.Some? {
      var i :| 0 <= i < |a| && a[i] == x.value && test(x.value) && forall j :: 0 <= j < i ==> !test(a[j]);
      assert (a + b)[i] == x.value;
    } else if y.Some? {
      var i :| 0 <= i < |b| && b[i] == y.value && test(y.value) && forall j :: 0 <= j < i ==> !test(b[j]);
      assert (a + b)[|a| + i] == y.value;
    }
  }

  /** The search of a chain finds the first error, in that order, that passes the test. */
  lemma {:induction false} AsFindsFirst(e: Err, test: Node -> bool)
    ensures Finds(Chain(e), test, As(e, test))
    decreases e, 1, 0
  {
    AsAnyFindsFirst(e, |e.wraps|, test);
    var own := if test(e.node) then Some(e.node) else None;
    assert [e.node][0] == e.node;
    FindsConcat([e.node], WrappedFrom(e, 0), test, own, AsAny(e, |e.wraps|, test));
  }

  lemma {:induction false} AsAnyFindsFirst(e: Err, n: nat, test: Node -> bool)
    requires n <= |e.wraps|
    ensures Finds(WrappedFrom(e, |e.wraps| - n), test, AsAny(e, n, test))
    decreases e, 0, n
  {
    hide Finds, Chain;
    if n == 0 {
      NothingFound(test);
    } else {
      var k := |e.wraps| - n;
      AsFindsFirst(e.wraps[k], test);
      AsAnyFindsFirst(e, n - 1, test);
      FindsConcat(Chain(e.wraps[k]), WrappedFrom(e, k + 1), test, As(e.wraps[k], test), AsAny(e, n - 1, test));
    }
  }

  lemma NothingFound(test: Node -> bool)
    ensures Finds([], test, None)
  {
  }

  /** The framework's own problem of a kind, and nothing else. */
  predicate Answers(w: Wire, kind: Kind) {
    && w.status == Some(Status(kind)) && w.body.ProblemBody? && w.body.problem.kind == Some(kind)
    && w.challenge.None? && w.location.None? && w.retryAfter.None? && w.cookies == []
  }

  /** Enforcement turns a kind that the plan does not allow into a plain 500. */
  function Enforced(plan: Option<Plan>, enforce: bool, kind: Kind): Kind {
    if enforce && plan.Some? && kind !in plan.value.allowed then Internal else kind
  }

  /** No rows is not found, a duplicate is a conflict, other refused values are bad requests, the rest is internal. */
  predicate DatabaseKind(chain: seq<Node>, kind: Kind) {
    if NoRows in chain then kind == NotFound
    else
      exists i :: 0 <= i < |chain| && chain[i].PgNode? && (forall j :: 0 <= j < i ==> !chain[j].PgNode?)
        && (kind == Conflict <==> chain[i].code == UniqueViolation)
        && (kind == Internal <==> chain[i].code == OtherCode)
        && kind in {Conflict, Internal, BadRequest}
  }

  ghost predicate HasChallenge(chain: seq<Node>) {
    exists i :: 0 <= i < |chain| && chain[i].ChallengeNode?
  }

  ghost predicate HasProblem(chain: seq<Node>, problem: Option<Problem>) {
    FirstIs(chain, IsProblem, ProblemNode(problem))
  }

  /** No problem, or a nil one before all others. */
  ghost predicate NoProblem(chain: seq<Node>) {
    HasProblem(chain, None) || forall i :: 0 <= i < |chain| ==> !chain[i].ProblemNode?
  }

  lemma OneFirst(chain: seq<Node>, test: Node -> bool, a: Node, b: Node)
    requires FirstIs(chain, test, a) && FirstIs(chain, test, b)
    ensures a == b
  {
    var i :| 0 <= i < |chain| && chain[i] == a && test(a) && forall j :: 0 <= j < i ==> !test(chain[j]);
    var k :| 0 <= k < |chain| && chain[k] == b && test(b) && forall j :: 0 <= j < k ==> !test(chain[j]);
  }

  /** A challenge anywhere in the chain is answered with the first one's text, or with a plain 500 where not allowed. */
  lemma ChallengesAnswered(e: Err, plan: Option<Plan>, enforce: bool, classify: bool, challenge: string)
    requires FirstIs(Chain(e), IsChallenge, ChallengeNode(challenge))
    ensures var w := DispatchWire(e, plan, enforce, classify);
            if plan.None? || plan.value.allowChallenge then
              w == Wire(Some(401), [], Some(challenge), None, None, NoContent)
            else Answers(w, Internal)
  {
    hide As, ValidProblem, Chain, Finds;
    AsFindsFirst(e, IsChallenge);
    FoundFirst(Chain(e), IsChallenge, As(e, IsChallenge), ChallengeNode(challenge));
    KnownProblemsAreValid(Internal);
  }

  lemma FoundFirst(chain: seq<Node>, test: Node -> bool, found: Option<Node>, n: Node)
    requires Finds(chain, test, found) && FirstIs(chain, test, n)
    ensures found == Some(n)
  {
    if found.Some? {
      OneFirst(chain, test, found.value, n);
    }
  }

  lemma FoundNone(chain: seq<Node>, test: Node -> bool, found: Option<Node>)
    requires Finds(chain, test, found) && NoneIs(chain, test)
    ensures found.None?
  {
  }

  /** Without a challenge or a problem of its own, a database error is answered with its kind, where allowed. */
  lemma DatabaseErrorsAnswered(e: Err, plan: Option<Plan>, enforce: bool, classify: bool, kind: Kind)
    requires !HasChallenge(Chain(e)) && NoProblem(Chain(e)) && !(classify && ValidationNode in Chain(e))
    requires DatabaseKind(Chain(e), kind)
    ensures Answers(DispatchWire(e, plan, enforce, classify), Enforced(plan, enforce, kind))
  {
    hide As, ValidProblem, Chain, Finds;
    var chain := Chain(e);
    hide DispatchWire, Answers;
    NotFoundHere(e, plan, enforce, classify);
    AsFindsFirst(e, IsNoRows);
    AsFindsFirst(e, IsPg);
    if NoRows in chain {
      FindsNoRows(chain, As(e, IsNoRows));
    } else {
      FoundNone(chain, IsNoRows, As(e, IsNoRows));
      var i :| 0 <= i < |chain| && chain[i].PgNode? && (forall j :: 0 <= j < i ==> !chain[j].PgNode?)
        && (kind == Conflict <==> chain[i].code == UniqueViolation)
        && (kind == Internal <==> chain[i].code == OtherCode)
        && kind in {Conflict, Internal, BadRequest};
      assert FirstIs(chain, IsPg, chain[i]);
      FoundFirst(chain, IsPg, As(e, IsPg), chain[i]);
    }
    ClassifiedIsAnswered(e, plan, enforce, classify, kind);
  }

  lemma ClassifiedIsAnswered(e: Err, plan: Option<Plan>, enforce: bool, classify: bool, kind: Kind)
    requires As(e, IsChallenge).None? && (As(e, IsProblem).None? || As(e, IsProblem) == Some(ProblemNode(None)))
    requires (classify ==> As(e, IsValidation).None?) && ClassifyDatabaseError(e) == Some(kind)
    ensures Answers(DispatchWire(e, plan, enforce, classify), Enforced(plan, enforce, kind))
  {
    hide As, ValidProblem, ClassifyDatabaseError;
    KnownProblemsAreValid(kind);
    KnownProblemsAreValid(Internal);
  }

  lemma FindsNoRows(chain: seq<Node>, found: Option<Node>)
    requires NoRows in chain && Finds(chain, IsNoRows, found)
    ensures found.Some?
  {
    var i :| 0 <= i < |chain| && chain[i] == NoRows;
    assert IsNoRows(chain[i]);
  }

  /** Neither a challenge nor a problem is found, nor validation where it counts. */
  lemma NotFoundHere(e: Err, plan: Option<Plan>, enforce: bool, classify: bool)
    requires !HasChallenge(Chain(e)) && NoProblem(Chain(e))
    ensures As(e, IsChallenge).None?
    ensures As(e, IsProblem).None? || As(e, IsProblem) == Some(ProblemNode(None))
    ensures classify && ValidationNode !in Chain(e) ==> As(e, IsValidation).None?
    ensures classify && ValidationNode in Chain(e) ==> As(e, IsValidation).Some?
  {
    hide As, Chain;
    var chain := Chain(e);
    AsFindsFirst(e, IsChallenge);
    AsFindsFirst(e, IsProblem);
    AsFindsFirst(e, IsValidation);
    if HasProblem(chain, None) {
      FoundFirst(chain, IsProblem, As(e, IsProblem), ProblemNode(None));
    }
    if ValidationNode in chain {
      var i :| 0 <= i < |chain| && chain[i] == ValidationNode;
      assert IsValidation(chain[i]);
    }
  }

  /** Validator errors are 422s where they are classified, with no plan asked. */
  lemma ValidationAnswered(e: Err, plan: Option<Plan>, enforce: bool)
    requires !HasChallenge(Chain(e)) && NoProblem(Chain(e)) && ValidationNode in Chain(e)
    ensures Answers(DispatchWire(e, plan, enforce, true), UnprocessableEntity)
  {
    hide As, ValidProblem, Chain;
    NotFoundHere(e, plan, enforce, true);
    KnownProblemsAreValid(UnprocessableEntity);
  }

  /** Any other error is a plain 500. */
  lemma OthersAnswered(e: Err, plan: Option<Plan>, enforce: bool, classify: bool)
    requires !HasChallenge(Chain(e)) && NoProblem(Chain(e)) && !(classify && ValidationNode in Chain(e))
    requires NoRows !in Chain(e) && forall i :: 0 <= i < |Chain(e)| ==> !Chain(e)[i].PgNode?
    ensures Answers(DispatchWire(e, plan, enforce, classify), Internal)
  {
    hide As, ValidProblem, Chain;
    NotFoundHere(e, plan, enforce, classify);
    AsFindsFirst(e, IsNoRows);
    AsFindsFirst(e, IsPg);
    FoundNone(Chain(e), IsNoRows, As(e, IsNoRows));
    FoundNone(Chain(e), IsPg, As(e, IsPg));
    KnownProblemsAreValid(Internal);
  }

  /** A response that carries this problem, its own status, and its wait if it is a positive one. */
  predicate Carries(w: Wire, p: Problem) {
    && w.body == ProblemBody(p) && w.status == Some(p.status)
    && w.retryAfter == (if p.retryAfter.Some? && p.retryAfter.value > 0 then p.retryAfter else None)
    && w.challenge.None? && w.location.None? && w.cookies == []
  }

  /**
    The first problem of a chain is the one written. One of a known kind has that
    kind's fields, whatever it was given, and is written where it is allowed; one
    without a kind is written as it is, where no plan is enforced, if its status is
    an error's and its type and title say something. All others become a plain 500.
   */
  lemma ProblemsAnswered(e: Err, plan: Option<Plan>, enforce: bool, classify: bool, p: Problem)
    requires !HasChallenge(Chain(e)) && HasProblem(Chain(e), Some(p))
    ensures var w := DispatchWire(e, plan, enforce, classify);
            match p.kind
            case Some(kind) =>
              if (enforce && plan.Some? && kind !in plan.value.allowed) || !p.encodes then Answers(w, Internal)
              else Carries(w, New(kind).(retryAfter := p.retryAfter))
            case None =>
              if && !(enforce && plan.Some?) && p.encodes && 400 <= p.status < 600
                 && !Blank(p.typeURI) && !Blank(p.title) then Carries(w, p)
              else Answers(w, Internal)
  {
    hide As, Blank, Chain;
    var chain := Chain(e);
    AsFindsFirst(e, IsChallenge);
    AsFindsFirst(e, IsProblem);
    FoundNone(chain, IsChallenge, As(e, IsChallenge));
    FoundFirst(chain, IsProblem, As(e, IsProblem), ProblemNode(Some(p)));
    assert ProblemNode(Some(p)).problem == Some(p);
    KnownProblemsAreValid(Internal);
    if p.kind.Some? {
      KnownProblemsAreValid(p.kind.value);
    }
  }

  /** What counts as blank are the characters that Unicode calls white space. */
  lemma BlankIsWhiteSpace(s: string)
    ensures Blank(s) <==> forall c :: c in s ==>
              || c as int in {9, 10, 11, 12, 13, 32, 133, 160, 5760, 8232, 8233, 8239, 8287, 12288}
              || (c as int / 16 == 512 && c as int % 16 <= 10)
  {
    assert forall i :: 0 <= i < |s| ==> s[i] in s;
    assert forall c :: c in s ==> exists i :: 0 <= i < |s| && s[i] == c;
  }
}
