/**
  The contract between runtime and document: guards, binding, handler and
  writer of one operation run over an exchange, the response set the document
  derives for it, and the proof that the two agree in both directions.
 */
module Contract {
  import opened Wrappers
  import opened Parameters
  import opened Binding
  import opened Problems
  import E = Enums

  /** A guard's own claims: the kinds it may reject with, and whether it may challenge. */
  datatype GuardClaims = GuardClaims(problems: seq<Kind>, challenge: bool)

  datatype Mode = Enveloped | Page | Message | Redirect

  datatype WritePlan = WritePlan(mode: Mode, status: nat, cookies: set<string>)

  predicate Bodiless(p: WritePlan) {
    p.status == 204 || p.status == 205
  }

  /** The success modes an operation may declare. */
  predicate ValidSuccess(p: WritePlan) {
    && (if p.mode.Redirect? then p.status in {300, 301, 302, 303, 307, 308} else 200 <= p.status <= 299)
    && (Bodiless(p) ==> p.mode.Message?)
  }

  /** Success is a 2xx, or a 3xx with a location; 204 and 205 have no body to speak of. */
  lemma SuccessStatuses(p: WritePlan)
    ensures ValidSuccess(p) <==>
            && (p.mode != Redirect ==> p.status / 100 == 2)
            && (p.mode == Redirect ==> p.status / 100 == 3 && p.status % 100 in {0, 1, 2, 3, 7, 8})
            && (p.status in {204, 205} ==> p.mode == Message)
  {
  }

  datatype Operation = Operation(guards: seq<GuardClaims>, request: RequestPlan, problems: seq<Kind>,
                                 response: WritePlan)

  predicate Binds(op: Operation) {
    op.request.fields != [] || op.request.body.Some?
  }

  // --- One exchange ----------------------------------------------------------

  datatype GuardResult = Passes | NoRequest | Denies(err: Err)

  datatype ReplyKind = DataReply | PagedReply | MessageReply | RedirectReply

  datatype Cookie = NilCookie | Cookie(name: string, valid: bool)

  /** A reply; `encodes` and `conforms` are the outcomes of marshalling and of response validation. */
  datatype Reply = Reply(kind: ReplyKind, cookies: seq<Cookie>, location: string, encodes: bool, conforms: bool)

  datatype HandlerResult = Fails(err: Err) | NoReply | Replies(reply: Reply)

  /** Everything that is not the framework's: the request, the guards' checks and the handler. */
  datatype Exchange = Exchange(guards: seq<GuardResult>, request: HttpRequest, handler: HandlerResult)

  predicate Possible(lib: Lib, op: Operation, x: Exchange) {
    |x.guards| == |op.guards| && Admissible(lib, op.request, x.request)
  }

  /** An operation that compiled. */
  ghost predicate Accepted(lib: Lib, op: Operation) {
    ValidSuccess(op.response) && Compiled(lib, op.request)
  }

  function GuardPlan(g: GuardClaims): Plan {
    Plan((set k | k in g.problems), g.challenge)
  }

  function HandlerPlan(op: Operation): Plan {
    Plan({Internal} + (set k | k in op.problems), false)
  }

  const INTERNAL_ERROR := Err(ProblemNode(Some(New(Internal))), [])

  /** Validate-tag failures are the validator's own errors, all others are problems. */
  function AdapterError(e: BindError, encodes: bool): Err {
    if e.TagViolation? then Err(ValidationNode, [])
    else Err(ProblemNode(Some(New(AdapterKind(e)).(encodes := encodes))), [])
  }

  function AdapterKind(e: BindError): Kind {
    match e
    case Malformed => BadRequest
    case Oversized => PayloadTooLarge
    case WrongMedia => UnsupportedMediaType
    case TagViolation => UnprocessableEntity
    case EnumViolation => UnprocessableEntity
  }

  predicate Accepts(mode: Mode, kind: ReplyKind) {
    match mode
    case Enveloped => kind.DataReply?
    case Page => kind.PagedReply?
    case Message => kind.MessageReply?
    case Redirect => kind.RedirectReply?
  }

  predicate CookieOk(p: WritePlan, c: Cookie) {
    c.Cookie? && c.name in p.cookies && c.valid
  }

  /** The reply can be written as the operation declared it. */
  predicate Writable(p: WritePlan, r: Reply) {
    && Accepts(p.mode, r.kind)
    && (forall i :: 0 <= i < |r.cookies| ==> CookieOk(p, r.cookies[i]))
    && match p.mode
       case Redirect => !Blank(r.location)
       case Message => Bodiless(p) || r.encodes
       case Page => r.encodes && r.conforms
       case Enveloped => r.encodes && r.conforms
  }

  function CookieNames(cookies: seq<Cookie>): seq<string> {
    seq(|cookies|, i requires 0 <= i < |cookies| => if cookies[i].Cookie? then cookies[i].name else "")
  }

  /** The declared success, or else a plain 500 that carries nothing of the reply. */
  function CommitWire(p: WritePlan, r: Reply): Wire {
    if !Writable(p, r) then ProblemWire(New(Internal))
    else
      Wire(Some(p.status), CookieNames(r.cookies), None, if p.mode.Redirect? then Some(r.location) else None, None,
           if p.mode.Redirect? || (p.mode.Message? && Bodiless(p)) then NoContent else Payload)
  }

  function BoundWire(lib: Lib, op: Operation, x: Exchange): Wire {
    var failure := if Binds(op) then BindOutcome(lib, op.request, x.request) else None;
    if failure.Some? then DispatchWire(AdapterError(failure.value, x.request.encodes), None, false, true)
    else
      match x.handler
      case Fails(err) => DispatchWire(err, Some(HandlerPlan(op)), true, false)
      case NoReply => ProblemWire(New(Internal))
      case Replies(reply) => CommitWire(op.response, reply)
  }

  /** What the exchange comes to from the i-th guard on. */
  function Respond(lib: Lib, op: Operation, x: Exchange, i: nat): Wire
    requires i <= |op.guards| == |x.guards|
    decreases |op.guards| - i
  {
    if i == |op.guards| then BoundWire(lib, op, x)
    else
      match x.guards[i]
      case Passes => Respond(lib, op, x, i + 1)
      case NoRequest => DispatchWire(INTERNAL_ERROR, Some(GuardPlan(op.guards[i])), true, false)
      case Denies(err) => DispatchWire(err, Some(GuardPlan(op.guards[i])), true, false)
  }

  lemma {:induction false} KnownErrorIsWritten(kind: Kind, classify: bool)
    ensures DispatchWire(Err(ProblemNode(Some(New(kind))), []), None, false, classify) == ProblemWire(New(kind))
  {
    KnownProblemsAreValid(kind);
    var e := Err(ProblemNode(Some(New(kind))), []);
    assert As(e, IsProblem) == Some(e.node) && As(e, IsChallenge).None?;
  }

  /** A binding failure is answered with its kind, or with the plain 500 when its detail cannot be marshalled. */
  lemma AdapterErrorIsWritten(e: BindError, encodes: bool)
    ensures DispatchWire(AdapterError(e, encodes), None, false, true)
            == ProblemWire(New(if encodes || e.TagViolation? then AdapterKind(e) else Internal))
  {
    hide Blank;
    if e.TagViolation? {
      ValidationIsWritten();
    } else {
      KnownProblemsAreValid(AdapterKind(e));
      var err := AdapterError(e, encodes);
      assert As(err, IsProblem) == Some(err.node) && As(err, IsChallenge).None?;
    }
  }

  lemma ValidationIsWritten()
    ensures DispatchWire(Err(ValidationNode, []), None, false, true) == ProblemWire(New(UnprocessableEntity))
  {
    KnownProblemsAreValid(UnprocessableEntity);
    var e := Err(ValidationNode, []);
    assert As(e, IsProblem).None? && As(e, IsChallenge).None? && As(e, IsValidation) == Some(e.node);
  }

  // --- What a reply comes to -------------------------------------------------

  /** Made by the constructor of the declared mode, with declared, well-formed cookies, and ready to be written. */
  ghost predicate Proper(p: WritePlan, r: Reply) {
    && (p.mode, r.kind) in {(Enveloped, DataReply), (Page, PagedReply), (Message, MessageReply),
                            (Redirect, RedirectReply)}
    && (forall c :: c in r.cookies ==> c != NilCookie && c.name in p.cookies && c.valid)
    && (p.mode == Redirect ==> !Blank(r.location))
    && (p.mode == Message && p.status !in {204, 205} ==> r.encodes)
    && (p.mode == Page || p.mode == Enveloped ==> r.encodes && r.conforms)
  }

  /** A proper reply is answered as declared, with its own cookies in order; any other with a plain 500 of its own. */
  ghost predicate AnswersReply(p: WritePlan, r: Reply, w: Wire) {
    if Proper(p, r) then
      && w.status == Some(p.status) && w.challenge.None? && w.retryAfter.None?
      && |w.cookies| == |r.cookies|
      && (forall i :: 0 <= i < |r.cookies| ==> r.cookies[i].Cookie? && w.cookies[i] == r.cookies[i].name)
      && (w.location == if p.mode == Redirect then Some(r.location) else None)
      && (w.body == if p.mode == Redirect || (p.mode == Message && p.status in {204, 205}) then NoContent else Payload)
    else Answers(w, Internal)
  }

  lemma ReplyIsAnswered(p: WritePlan, r: Reply)
    ensures AnswersReply(p, r, CommitWire(p, r))
  {
    hide Blank;
    assert forall i :: 0 <= i < |r.cookies| ==> r.cookies[i] in r.cookies;
    if Writable(p, r) {
      forall c | c in r.cookies
        ensures CookieOk(p, c)
      {
        var i :| 0 <= i < |r.cookies| && r.cookies[i] == c;
      }
    }
  }

  /** Whenever a handler replies, past guards and binding, its reply is answered like that. */
  lemma {:induction false} RepliesAreAnswered(lib: Lib, op: Operation, x: Exchange)
    requires |x.guards| == |op.guards| && x.handler.Replies?
    requires forall i :: 0 <= i < |x.guards| ==> x.guards[i] == Passes
    requires Binds(op) ==> BindOutcome(lib, op.request, x.request).None?
    ensures AnswersReply(op.response, x.handler.reply, Respond(lib, op, x, 0))
  {
    hide AnswersReply, BindOutcome, CommitWire;
    RespondSkips(lib, op, x, |op.guards|, 0);
    ReplyIsAnswered(op.response, x.handler.reply);
  }

  // --- Running it ------------------------------------------------------------

  /** The staged writer: nothing is written before the body is known to encode. */
  method Commit(w: ResponseWriter, p: WritePlan, r: Reply)
    requires w.wire == EMPTY_WIRE
    modifies w
    ensures w.wire == CommitWire(p, r) && AnswersReply(p, r, w.wire)
  {
    hide DispatchWire, Blank, CookieNames, CookieOk, AnswersReply;
    ReplyIsAnswered(p, r);
    KnownErrorIsWritten(Internal, true);
    var cookiesOk := CheckCookies(p, r.cookies);
    if !Accepts(p.mode, r.kind) || !cookiesOk || (p.mode.Redirect? && Blank(r.location)) {
      w.Dispatch(INTERNAL_ERROR, None, false, true);
    } else if p.mode.Redirect? {
      w.wire := w.wire.(cookies := CookieNames(r.cookies), location := Some(r.location));
      w.WriteHeader(p.status);
    } else if p.mode.Message? && Bodiless(p) {
      w.wire := w.wire.(cookies := CookieNames(r.cookies));
      w.WriteHeader(p.status);
    } else {
      CommitJSON(w, p, r, p.mode.Message? || r.conforms);
    }
  }

  /** Every cookie must be declared and well formed. */
  method CheckCookies(p: WritePlan, cookies: seq<Cookie>) returns (ok: bool)
    ensures ok <==> forall i :: 0 <= i < |cookies| ==> CookieOk(p, cookies[i])
  {
    for i := 0 to |cookies|
      invariant forall j :: 0 <= j < i ==> CookieOk(p, cookies[j])
    {
      if !CookieOk(p, cookies[i]) {
        return false;
      }
    }
    ok := true;
  }

  method CommitJSON(w: ResponseWriter, p: WritePlan, r: Reply, conforms: bool)
    requires w.wire == EMPTY_WIRE
    modifies w
    ensures w.wire == if r.encodes && conforms then
                        Wire(Some(p.status), CookieNames(r.cookies), None, None, None, Payload)
                      else ProblemWire(New(Internal))
  {
    KnownProblemsAreValid(Internal);
    if !r.encodes || !conforms {
      w.WriteProblem(New(Internal));
      return;
    }
    w.wire := w.wire.(cookies := CookieNames(r.cookies));
    w.WriteHeader(p.status);
    w.wire := w.wire.(body := Payload);
  }

  /** The bound adapter: bind, call the handler, write its reply; an error wins over a reply. */
  method Adapt(lib: Lib, op: Operation, c: CompiledPlan, x: Exchange, w: ResponseWriter)
    requires Compiled(lib, op.request) && Validating(lib, op.request, c)
    requires w.wire == EMPTY_WIRE
    modifies w
    ensures w.wire == BoundWire(lib, op, x)
  {
    hide CommitWire, DispatchWire, BindOutcome, Compiled, Validating, FieldFails, SomeFieldFails;
    KnownErrorIsWritten(Internal, true);
    if Binds(op) {
      var failure, _, _, _ := Bind(lib, op.request, c, x.request);
      if failure.Some? {
        w.Dispatch(AdapterError(failure.value, x.request.encodes), None, false, true);
        return;
      }
    }
    match x.handler
    case Fails(err) => w.Dispatch(err, Some(HandlerPlan(op)), true, false);
    case NoReply => w.Dispatch(INTERNAL_ERROR, None, false, true);
    case Replies(reply) => Commit(w, op.response, reply);
  }

  /** Guards around the adapter: each answers, or hands on to the next. */
  method ServeFrom(lib: Lib, op: Operation, c: CompiledPlan, x: Exchange, i: nat, w: ResponseWriter)
    requires Compiled(lib, op.request) && Validating(lib, op.request, c)
    requires i <= |op.guards| == |x.guards| && w.wire == EMPTY_WIRE
    modifies w
    ensures w.wire == Respond(lib, op, x, i)
    decreases |op.guards| - i
  {
    hide BoundWire, DispatchWire, Compiled, Validating;
    if i == |op.guards| {
      Adapt(lib, op, c, x, w);
    } else {
      match x.guards[i]
      case Passes => ServeFrom(lib, op, c, x, i + 1, w);
      case NoRequest => w.Dispatch(INTERNAL_ERROR, Some(GuardPlan(op.guards[i])), true, false);
      case Denies(err) => w.Dispatch(err, Some(GuardPlan(op.guards[i])), true, false);
    }
  }

  // --- The documented responses ----------------------------------------------

  function Statuses(kinds: seq<Kind>): set<nat> {
    set k | k in kinds :: Status(k)
  }

  function GuardStatuses(guards: seq<GuardClaims>): set<nat> {
    set i, k | 0 <= i < |guards| && k in guards[i].problems :: Status(k)
  }

  ghost function BindStatuses(lib: Lib, op: Operation): set<nat> {
    if !Binds(op) then {}
    else
      (if CanFailBind(op.request) then {400} else {})
      + (if op.request.body.Some? then {413, 415} else {})
      + (if CanFailValidation(lib, op.request) then {422} else {})
  }

  /** Statuses documented with a problem body. */
  ghost function ProblemStatuses(lib: Lib, op: Operation): set<nat> {
    {500} + Statuses(op.problems) + BindStatuses(lib, op) + GuardStatuses(op.guards)
  }

  predicate Challenges(guards: seq<GuardClaims>) {
    exists i :: 0 <= i < |guards| && guards[i].challenge
  }

  ghost function Documented(lib: Lib, op: Operation): set<nat> {
    {op.response.status} + ProblemStatuses(lib, op) + if Challenges(op.guards) then {401} else {}
  }

  /** What a documented response says of content and headers. */
  datatype ResponseDoc = ResponseDoc(problem: bool, payload: bool, challenge: bool, location: bool, cookies: bool,
                                     retryAfter: bool)

  const EMPTY_DOC := ResponseDoc(false, false, false, false, false, false)

  /** A problem response; the wait is documented for a declared 429 only. */
  function ProblemDoc(status: nat, declared: bool): ResponseDoc {
    EMPTY_DOC.(problem := true, retryAfter := declared && status == Status(TooManyRequests))
  }

  function SuccessDoc(p: WritePlan): ResponseDoc {
    EMPTY_DOC.(payload := !(Bodiless(p) || p.mode.Redirect?), location := p.mode.Redirect?, cookies := p.cookies != {})
  }

  ghost function DocOf(lib: Lib, op: Operation, status: nat): ResponseDoc {
    if status == op.response.status then SuccessDoc(op.response)
    else
      EMPTY_DOC.(problem := status in ProblemStatuses(lib, op), challenge := status == 401 && Challenges(op.guards),
                 retryAfter := status == Status(TooManyRequests) && TooManyRequests in op.problems)
  }

  type Responses = map<nat, ResponseDoc>

  /** Earlier claims stay; new statuses get a problem response. */
  function Claimed(responses: Responses, statuses: set<nat>, declared: bool): Responses {
    map s | s in responses.Keys + statuses :: if s in responses then responses[s] else ProblemDoc(s, declared)
  }

  lemma ClaimedTwice(responses: Responses, a: set<nat>, b: set<nat>, declared: bool)
    ensures Claimed(Claimed(responses, a, declared), b, declared) == Claimed(responses, a + b, declared)
  {
  }

  lemma ClaimedNothing(responses: Responses, declared: bool)
    ensures Claimed(responses, {}, declared) == responses
  {
  }

  lemma ClaimedNext(responses: Responses, statuses: set<nat>, status: nat, declared: bool)
    ensures var claimed := Claimed(responses, statuses, declared);
            Claimed(responses, statuses + {status}, declared)
            == if status in claimed then claimed else claimed[status := ProblemDoc(status, declared)]
  {
    hide ProblemDoc;
  }

  method ClaimKinds(responses: Responses, kinds: seq<Kind>, declared: bool) returns (responses': Responses)
    ensures responses' == Claimed(responses, Statuses(kinds), declared)
  {
    hide Status, ProblemDoc, Claimed;
    responses' := responses;
    ClaimedNothing(responses, declared);
    assert Statuses(kinds[..0]) == {};
    for i := 0 to |kinds|
      invariant responses' == Claimed(responses, Statuses(kinds[..i]), declared)
    {
      var status := Status(kinds[i]);
      assert kinds[..i + 1] == kinds[..i] + [kinds[i]];
      assert Statuses(kinds[..i + 1]) == Statuses(kinds[..i]) + {status};
      ClaimedNext(responses, Statuses(kinds[..i]), status, declared);
      if status !in responses' {
        responses' := responses'[status := ProblemDoc(status, declared)];
      }
    }
    assert kinds[..|kinds|] == kinds;
  }

  method ClaimGuards(responses: Responses, guards: seq<GuardClaims>) returns (responses': Responses)
    ensures responses' == Claimed(responses, GuardStatuses(guards), false)
  {
    hide Claimed;
    responses' := responses;
    ClaimNothing(responses);
    for i := 0 to |guards|
      invariant responses' == Claimed(responses, GuardStatuses(guards[..i]), false)
    {
      GuardStatusesNext(guards, i);
      ClaimedTwice(responses, GuardStatuses(guards[..i]), Statuses(guards[i].problems), false);
      responses' := ClaimKinds(responses', guards[i].problems, false);
    }
    assert guards[..|guards|] == guards;
  }

  lemma ClaimNothing(responses: Responses)
    ensures Claimed(responses, GuardStatuses([]), false) == responses
  {
  }

  lemma GuardStatusesNext(guards: seq<GuardClaims>, i: nat)
    requires i < |guards|
    ensures GuardStatuses(guards[..i + 1]) == GuardStatuses(guards[..i]) + Statuses(guards[i].problems)
  {
    var more, fewer := guards[..i + 1], guards[..i];
    forall s | s in GuardStatuses(fewer)
      ensures s in GuardStatuses(more)
    {
      var j, k :| 0 <= j < |fewer| && k in fewer[j].problems && s == Status(k);
      assert more[j] == fewer[j];
    }
    forall s | s in Statuses(guards[i].problems)
      ensures s in GuardStatuses(more)
    {
      var k :| k in guards[i].problems && s == Status(k);
      assert more[i] == guards[i];
    }
    forall s | s in GuardStatuses(more)
      ensures s in GuardStatuses(fewer) + Statuses(guards[i].problems)
    {
      var j, k :| 0 <= j < |more| && k in more[j].problems && s == Status(k);
      assert j < i ==> fewer[j] == more[j];
    }
  }

  lemma StatusesConcat(a: seq<Kind>, b: seq<Kind>)
    ensures Statuses(a + b) == Statuses(a) + Statuses(b)
  {
  }

  lemma StatusesOne(kind: Kind)
    ensures Statuses([kind]) == {Status(kind)}
  {
    assert kind in [kind];
  }

  lemma StatusesOf()
    ensures Statuses([Internal]) == {500} && Statuses([BadRequest]) == {400} && Statuses([UnprocessableEntity]) == {422}
    ensures Statuses([PayloadTooLarge, UnsupportedMediaType]) == {413, 415}
  {
    hide Statuses;
    StatusesOne(Internal);
    StatusesOne(BadRequest);
    StatusesOne(UnprocessableEntity);
    StatusesOne(PayloadTooLarge);
    StatusesOne(UnsupportedMediaType);
    StatusesConcat([PayloadTooLarge], [UnsupportedMediaType]);
    assert [PayloadTooLarge] + [UnsupportedMediaType] == [PayloadTooLarge, UnsupportedMediaType];
  }

  /** The kinds of the statuses every operation, and this operation's binding, can give. */
  method DerivedKinds(lib: Lib, op: Operation, c: CompiledPlan) returns (kinds: seq<Kind>)
    requires c.canFailBind == CanFailBind(op.request) && c.canFailValidation == CanFailValidation(lib, op.request)
    ensures Statuses(kinds) == {500} + BindStatuses(lib, op)
  {
    hide Statuses, CanFailBind, CanFailValidation;
    StatusesOf();
    kinds := [Internal];
    if Binds(op) {
      var malformed := if c.canFailBind then [BadRequest] else [];
      var body := if op.request.body.Some? then [PayloadTooLarge, UnsupportedMediaType] else [];
      var invalid := if c.canFailValidation then [UnprocessableEntity] else [];
      StatusesConcat(kinds, malformed);
      StatusesConcat(kinds + malformed, body);
      StatusesConcat(kinds + malformed + body, invalid);
      NoStatuses();
      kinds := kinds + malformed + body + invalid;
    }
  }

  lemma NoStatuses()
    ensures Statuses([]) == {}
  {
  }

  /** The 401 response with the challenge header: an existing one, or one made for it. */
  function Challenged(responses: Responses): ResponseDoc {
    (if 401 in responses then responses[401] else EMPTY_DOC).(challenge := true)
  }

  /** The challenge header is added to an existing 401, or makes one. */
  method AddChallenge(responses: Responses, guards: seq<GuardClaims>) returns (responses': Responses)
    ensures responses' == if !Challenges(guards) then responses
                          else responses[401 := Challenged(responses)]
  {
    for i := 0 to |guards|
      invariant !Challenges(guards[..i])
    {
      if guards[i].challenge {
        return responses[401 := Challenged(responses)];
      }
    }
    assert guards[..|guards|] == guards;
    responses' := responses;
  }

  /** Builds the response set: declarations first, derived statuses after, none overwritten. */
  method BuildResponses(lib: Lib, op: Operation, c: CompiledPlan) returns (responses: Responses)
    requires ValidSuccess(op.response)
    requires c.canFailBind == CanFailBind(op.request) && c.canFailValidation == CanFailValidation(lib, op.request)
    ensures responses.Keys == Documented(lib, op)
    ensures forall s :: s in responses ==> responses[s] == DocOf(lib, op, s)
  {
    hide CanFailBind, CanFailValidation, GuardStatuses, Statuses, Challenges, BindStatuses, Claimed, DocOf, Documented;
    responses := map[op.response.status := SuccessDoc(op.response)];
    responses := ClaimKinds(responses, op.problems, true);
    ghost var declared := responses;
    var kinds := DerivedKinds(lib, op, c);
    responses := ClaimKinds(responses, kinds, false);
    ClaimedTwice(declared, Statuses(kinds), GuardStatuses(op.guards), false);
    responses := ClaimGuards(responses, op.guards);
    ClaimedDocs(lib, op, declared, Statuses(kinds) + GuardStatuses(op.guards));
    ghost var claimed := responses;
    responses := AddChallenge(responses, op.guards);
    ChallengedDocs(lib, op, claimed, responses);
  }

  lemma ChallengedDocs(lib: Lib, op: Operation, claimed: Responses, final: Responses)
    requires ValidSuccess(op.response) && claimed.Keys == {op.response.status} + ProblemStatuses(lib, op)
    requires forall s :: s in claimed ==> claimed[s] == DocOf(lib, op, s).(challenge := false)
    requires final == if !Challenges(op.guards) then claimed
                      else claimed[401 := Challenged(claimed)]
    ensures final.Keys == Documented(lib, op) && forall s :: s in final ==> final[s] == DocOf(lib, op, s)
  {
    hide ProblemStatuses, Challenges;
  }

  lemma ClaimedDocs(lib: Lib, op: Operation, declared: Responses, more: set<nat>)
    requires ValidSuccess(op.response)
    requires declared == Claimed(map[op.response.status := SuccessDoc(op.response)], Statuses(op.problems), true)
    requires {op.response.status} + Statuses(op.problems) + more == {op.response.status} + ProblemStatuses(lib, op)
    ensures var all := Claimed(declared, more, false);
            && all.Keys == {op.response.status} + ProblemStatuses(lib, op)
            && forall s :: s in all ==> all[s] == DocOf(lib, op, s).(challenge := false)
  {
    hide ProblemStatuses, Challenges, Statuses;
    DeclaredThrottle(op);
  }

  lemma DeclaredThrottle(op: Operation)
    ensures Status(TooManyRequests) in Statuses(op.problems) <==> TooManyRequests in op.problems
  {
  }

  // --- Runtime and document agree --------------------------------------------

  /** What is written is what the document says of its status: content, challenge, location and cookies. */
  ghost predicate Agrees(lib: Lib, op: Operation, w: Wire) {
    && WellFormed(w)
    && w.status.Some? && w.status.value >= 0
    && w.status.value in Documented(lib, op)
    && var doc := DocOf(lib, op, w.status.value);
       && (w.body.ProblemBody? ==> doc.problem)
       && (w.body.Payload? ==> doc.payload)
       && (w.body.NoContent? ==> w.challenge.Some? || (w.status.value == op.response.status && !doc.payload))
       && (w.challenge.Some? ==> doc.challenge)
       && (w.location.Some? <==> doc.location)
       && (w.cookies != [] ==>
             w.status.value == op.response.status && doc.cookies && forall c :: c in w.cookies ==>
               c in op.response.cookies)
  }

  lemma ProblemAgrees(lib: Lib, op: Operation, kind: Kind)
    requires ValidSuccess(op.response) && Status(kind) in ProblemStatuses(lib, op)
    ensures Agrees(lib, op, ProblemWire(New(kind)))
  {
    hide ProblemStatuses, Challenges;
    KnownProblemsAreValid(kind);
  }

  /** What a plan lets through agrees with the document when its kinds and its challenge are documented. */
  lemma ContractedAgrees(lib: Lib, op: Operation, plan: Plan, w: Wire)
    requires ValidSuccess(op.response) && Contracted(plan, w)
    requires forall kind :: kind in plan.allowed ==> Status(kind) in ProblemStatuses(lib, op)
    requires plan.allowChallenge ==> Challenges(op.guards)
    ensures Agrees(lib, op, w)
  {
    hide Statuses, GuardStatuses, BindStatuses, Challenges, Restored;
    if w.challenge.None? && w.status != Some(500) {
      var kind :| kind in plan.allowed && w.status == Some(Status(kind));
    }
  }

  lemma GuardAgrees(lib: Lib, op: Operation, i: nat, e: Err)
    requires ValidSuccess(op.response) && i < |op.guards|
    ensures Agrees(lib, op, DispatchWire(e, Some(GuardPlan(op.guards[i])), true, false))
  {
    hide DispatchWire, Agrees, Contracted, ValidSuccess, BindStatuses;
    DispatchKeepsContract(e, GuardPlan(op.guards[i]));
    ContractedAgrees(lib, op, GuardPlan(op.guards[i]), DispatchWire(e, Some(GuardPlan(op.guards[i])), true, false));
  }

  lemma HandlerErrorAgrees(lib: Lib, op: Operation, e: Err)
    requires ValidSuccess(op.response)
    ensures Agrees(lib, op, DispatchWire(e, Some(HandlerPlan(op)), true, false))
  {
    hide DispatchWire, Agrees, Contracted, ValidSuccess, GuardStatuses, BindStatuses;
    DispatchKeepsContract(e, HandlerPlan(op));
    ContractedAgrees(lib, op, HandlerPlan(op), DispatchWire(e, Some(HandlerPlan(op)), true, false));
  }

  lemma BindFailureAgrees(lib: Lib, op: Operation, r: HttpRequest)
    requires Accepted(lib, op) && Binds(op) && Admissible(lib, op.request, r) && BindOutcome(lib, op.request, r).Some?
    ensures Agrees(lib, op,
                   DispatchWire(AdapterError(BindOutcome(lib, op.request, r).value, r.encodes), None, false, true))
  {
    hide DispatchWire, Agrees, BindOutcome, ValidSuccess, Admissible, Compiled, ProblemWire, New, Announced;
    hide CanFailBind, CanFailValidation;
    var e := BindOutcome(lib, op.request, r).value;
    FailuresAreAnnounced(lib, op.request, r);
    AdapterErrorIsWritten(e, r.encodes);
    FiveHundredDocumented(lib, op);
    BindFailureDocumented(lib, op, e);
    ProblemAgrees(lib, op, if r.encodes || e.TagViolation? then AdapterKind(e) else Internal);
  }

  lemma BindFailureDocumented(lib: Lib, op: Operation, e: BindError)
    requires Binds(op) && Compiled(lib, op.request) && Announced(lib, op.request, e)
    ensures Status(AdapterKind(e)) in BindStatuses(lib, op)
  {
    hide CanFailBind, CanFailValidation, Compiled, NeverMalformed, EnumsViolate;
    AnnouncedIsFlagged(lib, op.request, e);
  }

  lemma CommitAgrees(lib: Lib, op: Operation, r: Reply)
    requires ValidSuccess(op.response)
    ensures Agrees(lib, op, CommitWire(op.response, r))
  {
    hide ProblemStatuses, Challenges, Blank;
    if Writable(op.response, r) {
      var names := CookieNames(r.cookies);
      forall c | c in names
        ensures c in op.response.cookies
      {
        var i :| 0 <= i < |names| && names[i] == c;
        assert CookieOk(op.response, r.cookies[i]);
      }
      if r.cookies != [] {
        assert CookieOk(op.response, r.cookies[0]);
      }
    } else {
      FiveHundredDocumented(lib, op);
      ProblemAgrees(lib, op, Internal);
    }
  }

  lemma FiveHundredDocumented(lib: Lib, op: Operation)
    ensures Status(Internal) in ProblemStatuses(lib, op)
  {
  }

  /** Every exchange ends in exactly one committed status, documented with the content and headers that are written. */
  lemma {:induction false} EveryResponseIsDocumented(lib: Lib, op: Operation, x: Exchange, i: nat)
    requires Accepted(lib, op) && Possible(lib, op, x) && i <= |op.guards|
    ensures Agrees(lib, op, Respond(lib, op, x, i))
    decreases |op.guards| - i
  {
    hide Agrees, DispatchWire, BindOutcome, CommitWire, ValidSuccess, Compiled, Admissible, ProblemWire, New;
    if i == |op.guards| {
      FiveHundredDocumented(lib, op);
      ProblemAgrees(lib, op, Internal);
      if Binds(op) && BindOutcome(lib, op.request, x.request).Some? {
        BindFailureAgrees(lib, op, x.request);
      } else {
        match x.handler
        case Fails(err) => HandlerErrorAgrees(lib, op, err);
        case NoReply =>
        case Replies(reply) => CommitAgrees(lib, op, reply);
      }
    } else {
      match x.guards[i]
      case Passes => EveryResponseIsDocumented(lib, op, x, i + 1);
      case NoRequest => GuardAgrees(lib, op, i, INTERNAL_ERROR);
      case Denies(err) => GuardAgrees(lib, op, i, err);
    }
  }

  // --- Which statuses are written --------------------------------------------

  /** Some routed request gets past binding, so that the handler has its say. */
  ghost predicate HandlerReached(lib: Lib, op: Operation) {
    if Binds(op) then Bindable(lib, op.request) else Routable(op.request)
  }

  /** A status the handler gives: the success or a declared problem. */
  predicate HandlerGives(op: Operation, status: nat) {
    status == op.response.status || status in Statuses(op.problems)
  }

  predicate GuardGives(op: Operation, status: nat) {
    status in GuardStatuses(op.guards) || (status == 401 && Challenges(op.guards))
  }

  /** A status binding gives. */
  ghost predicate BindingGives(lib: Lib, op: Operation, status: nat)
    requires Compiled(lib, op.request)
  {
    exists e :: Announced(lib, op.request, e) && Status(AdapterKind(e)) == status
  }

  /** The statuses that some exchange is answered with. */
  ghost predicate Answerable(lib: Lib, op: Operation, status: nat)
    requires Compiled(lib, op.request)
  {
    && Routable(op.request)
    && (|| status == 500
        || GuardGives(op, status)
        || (Binds(op) && BindingGives(lib, op, status))
        || (HandlerReached(lib, op) && HandlerGives(op, status)))
  }

  /** What a plan lets through is a status it names. */
  lemma DispatchedIsNamed(e: Err, plan: Plan)
    ensures var w := DispatchWire(e, Some(plan), true, false);
            || w.status == Some(500)
            || (w.status == Some(401) && plan.allowChallenge)
            || exists kind :: kind in plan.allowed && w.status == Some(Status(kind))
  {
    hide DispatchWire;
    DispatchKeepsContract(e, plan);
  }

  /** Whatever an exchange is answered with is answerable. */
  lemma {:induction false} WrittenIsAnswerable(lib: Lib, op: Operation, x: Exchange, i: nat, status: nat)
    requires Accepted(lib, op) && Possible(lib, op, x) && i <= |op.guards|
    requires Respond(lib, op, x, i).status == Some(status)
    ensures Answerable(lib, op, status)
    decreases |op.guards| - i
  {
    hide DispatchWire, BindOutcome, Compiled, Admissible, Announced, ValidSuccess, Bindable, Routable;
    ExchangeIsRouted(lib, op, x);
    if i == |op.guards| {
      AdapterIsAnswerable(lib, op, x, status);
    } else {
      match x.guards[i]
      case Passes => WrittenIsAnswerable(lib, op, x, i + 1, status);
      case NoRequest => DispatchedIsNamed(INTERNAL_ERROR, GuardPlan(op.guards[i]));
      case Denies(err) => DispatchedIsNamed(err, GuardPlan(op.guards[i]));
    }
  }

  lemma ExchangeIsRouted(lib: Lib, op: Operation, x: Exchange)
    requires Possible(lib, op, x)
    ensures Routable(op.request)
  {
    hide E.HasType;
  }

  lemma AdapterIsAnswerable(lib: Lib, op: Operation, x: Exchange, status: nat)
    requires Accepted(lib, op) && Possible(lib, op, x) && BoundWire(lib, op, x).status == Some(status)
    ensures Answerable(lib, op, status)
  {
    hide DispatchWire, BindOutcome, Compiled, Admissible, Announced, ValidSuccess, Bindable, GuardGives, Routable;
    ExchangeIsRouted(lib, op, x);
    if Binds(op) && BindOutcome(lib, op.request, x.request).Some? {
      var e := BindOutcome(lib, op.request, x.request).value;
      FailuresAreAnnounced(lib, op.request, x.request);
      AdapterErrorIsWritten(e, x.request.encodes);
    } else {
      if Binds(op) {
        BindingShowsBindable(lib, op.request, x.request);
      }
      match x.handler
      case Fails(err) => DispatchedIsNamed(err, HandlerPlan(op));
      case NoReply =>
      case Replies(reply) =>
    }
  }

  /** The first `i` guards let the request through. */
  predicate PassesUpTo(x: Exchange, i: nat) {
    i <= |x.guards| && forall j :: 0 <= j < i ==> x.guards[j] == Passes
  }

  lemma {:induction false} RespondSkips(lib: Lib, op: Operation, x: Exchange, i: nat, j: nat)
    requires |op.guards| == |x.guards| && j <= i && PassesUpTo(x, i)
    ensures Respond(lib, op, x, j) == Respond(lib, op, x, i)
    decreases i - j
  {
    hide BoundWire, DispatchWire;
    if j < i {
      RespondSkips(lib, op, x, i, j + 1);
    }
  }

  function AllPass(n: nat): seq<GuardResult> {
    seq(n, _ => Passes)
  }

  /** A routed request of any kind; binding it may fail. */
  lemma SomeRequest(lib: Lib, plan: RequestPlan) returns (r: HttpRequest)
    requires Compiled(lib, plan) && Routable(plan)
    ensures Admissible(lib, plan, r) && !r.tagsFail && !r.encodes
  {
    hide Compiled, E.HasType;
    var b := FineBody(lib, plan);
    var p :| plan.routes(p);
    r := HttpRequest(OnlyPath(p), b, false, false);
  }

  /** An exchange whose i-th guard is the first that does not pass. */
  lemma {:induction false} GuardAnswers(lib: Lib, op: Operation, i: nat, e: Err) returns (x: Exchange)
    requires Compiled(lib, op.request) && Routable(op.request) && i < |op.guards|
    ensures Possible(lib, op, x)
            && Respond(lib, op, x, 0) == DispatchWire(e, Some(GuardPlan(op.guards[i])), true, false)
  {
    hide DispatchWire, Compiled, Admissible, BoundWire;
    var r := SomeRequest(lib, op.request);
    x := Exchange(AllPass(|op.guards|)[i := Denies(e)], r, NoReply);
    RespondSkips(lib, op, x, i, 0);
  }

  /** An exchange that all guards let through. */
  lemma AdapterAnswers(lib: Lib, op: Operation, r: HttpRequest, h: HandlerResult) returns (x: Exchange)
    requires Admissible(lib, op.request, r)
    ensures Possible(lib, op, x) && Respond(lib, op, x, 0) == BoundWire(lib, op, x) && x.request == r && x.handler == h
  {
    hide BoundWire, Admissible;
    x := Exchange(AllPass(|op.guards|), r, h);
    RespondSkips(lib, op, x, |op.guards|, 0);
  }

  /** What a handler's result comes to. */
  function HandlerWire(op: Operation, h: HandlerResult): Wire {
    match h
    case Fails(err) => DispatchWire(err, Some(HandlerPlan(op)), true, false)
    case NoReply => ProblemWire(New(Internal))
    case Replies(reply) => CommitWire(op.response, reply)
  }

  /** A handler's own result, answered after everything before it succeeds. */
  lemma HandlerAnswers(lib: Lib, op: Operation, h: HandlerResult) returns (x: Exchange)
    requires Compiled(lib, op.request) && HandlerReached(lib, op)
    ensures Possible(lib, op, x) && Respond(lib, op, x, 0) == HandlerWire(op, h)
  {
    hide DispatchWire, CommitWire, ProblemWire, Compiled, Bindable, Admissible, BindOutcome, Respond;
    var r: HttpRequest;
    if Binds(op) {
      r := SomeRequestBinds(lib, op.request);
    } else {
      r := SomeRequest(lib, op.request);
    }
    x := AdapterAnswers(lib, op, r, h);
  }

  function GoodReply(mode: Mode, cookies: seq<Cookie>): Reply {
    var kind := match mode
                case Enveloped => DataReply
                case Page => PagedReply
                case Message => MessageReply
                case Redirect => RedirectReply;
    Reply(kind, cookies, "/", true, true)
  }

  /** The declared success is written, with any declared, well-formed cookies. */
  lemma SuccessIsWritten(lib: Lib, op: Operation, cookies: seq<Cookie>) returns (x: Exchange)
    requires Compiled(lib, op.request) && HandlerReached(lib, op)
    requires forall c :: c in cookies ==> c != NilCookie && c.name in op.response.cookies && c.valid
    ensures Possible(lib, op, x) && Respond(lib, op, x, 0).status == Some(op.response.status)
    ensures var sent := Respond(lib, op, x, 0).cookies;
            |sent| == |cookies|
              && forall i :: 0 <= i < |cookies| ==> cookies[i].Cookie? && sent[i] == cookies[i].name
  {
    hide BoundWire, Respond, Compiled, HandlerReached, Admissible, CommitWire;
    var reply := GoodReply(op.response.mode, cookies);
    x := HandlerAnswers(lib, op, Replies(reply));
    assert !Blank("/") by { assert !Space("/"[0]); }
    ReplyIsAnswered(op.response, reply);
  }

  lemma BindFailureIsWritten(lib: Lib, op: Operation, e: BindError) returns (x: Exchange)
    requires Binds(op) && Compiled(lib, op.request) && Announced(lib, op.request, e)
    ensures Possible(lib, op, x) && Respond(lib, op, x, 0).status == Some(Status(AdapterKind(e)))
  {
    hide DispatchWire, BindOutcome, Announced, Compiled, Admissible;
    var r := AnnouncedFailuresHappen(lib, op.request, e);
    x := AdapterAnswers(lib, op, r, NoReply);
    AdapterErrorIsWritten(e, true);
  }

  /**
    500 is always among the answers: a handler that replies nothing, or a failure
    whose detail cannot be marshalled.
   */
  lemma FiveHundredIsWritten(lib: Lib, op: Operation) returns (x: Exchange)
    requires Compiled(lib, op.request) && Routable(op.request)
    ensures Possible(lib, op, x) && Respond(lib, op, x, 0).status == Some(500)
  {
    hide DispatchWire, Admissible, Respond, Compiled, FieldFails, SomeFieldFails, ParameterErrors, BodyErrors, BindBody;
    var r := SomeRequest(lib, op.request);
    x := AdapterAnswers(lib, op, r, NoReply);
    if Binds(op) && BindOutcome(lib, op.request, r).Some? {
      BindBodyKinds(op.request, r);
      AdapterErrorIsWritten(BindOutcome(lib, op.request, r).value, false);
    }
  }

  lemma BindBodyKinds(plan: RequestPlan, r: HttpRequest)
    ensures plan.body.Some? ==> BindBody(plan.body.value, r.body) != Some(TagViolation)
  {
  }

  lemma GuardKindIsWritten(lib: Lib, op: Operation, status: nat, retryAfter: Option<int>)
    returns (x: Exchange, kind: Kind)
    requires Compiled(lib, op.request) && Routable(op.request) && status in GuardStatuses(op.guards)
    ensures Possible(lib, op, x) && Status(kind) == status
    ensures Respond(lib, op, x, 0) == ProblemWire(New(kind).(retryAfter := retryAfter))
  {
    hide Respond, Compiled, Admissible, DispatchWire, ProblemWire;
    var i, k :| 0 <= i < |op.guards| && k in op.guards[i].problems && Status(k) == status;
    kind := k;
    x := GuardAnswers(lib, op, i, Returning(kind, retryAfter));
    PermittedKindsAreWritten(kind, retryAfter, GuardPlan(op.guards[i]));
  }

  lemma HandlerKindIsWritten(lib: Lib, op: Operation, kind: Kind, retryAfter: Option<int>) returns (x: Exchange)
    requires Compiled(lib, op.request) && HandlerReached(lib, op) && kind in HandlerPlan(op).allowed
    ensures Possible(lib, op, x) && Respond(lib, op, x, 0) == ProblemWire(New(kind).(retryAfter := retryAfter))
  {
    hide Respond, Compiled, Admissible, DispatchWire, ProblemWire, HandlerReached;
    x := HandlerAnswers(lib, op, Fails(Returning(kind, retryAfter)));
    PermittedKindsAreWritten(kind, retryAfter, HandlerPlan(op));
  }

  lemma {:induction false} ChallengeIsWritten(lib: Lib, op: Operation, i: nat) returns (x: Exchange)
    requires Compiled(lib, op.request) && Routable(op.request) && i < |op.guards| && op.guards[i].challenge
    ensures Possible(lib, op, x) && Respond(lib, op, x, 0).status == Some(401)
  {
    hide Respond, Compiled, Admissible;
    var e := Err(ChallengeNode("Basic"), []);
    assert As(e, IsChallenge) == Some(e.node);
    x := GuardAnswers(lib, op, i, e);
  }

  /** Every answerable status is the answer to some exchange. */
  lemma {:induction false} AnswerableIsWritten(lib: Lib, op: Operation, status: nat) returns (x: Exchange)
    requires Compiled(lib, op.request) && Answerable(lib, op, status)
    ensures Possible(lib, op, x) && Respond(lib, op, x, 0).status == Some(status)
  {
    hide Respond, Compiled, Admissible, HandlerReached, Announced, DispatchWire;
    if status == 500 {
      x := FiveHundredIsWritten(lib, op);
    } else if status in GuardStatuses(op.guards) {
      var kind;
      x, kind := GuardKindIsWritten(lib, op, status, None);
    } else if GuardGives(op, status) {
      var i :| 0 <= i < |op.guards| && op.guards[i].challenge;
      x := ChallengeIsWritten(lib, op, i);
    } else if Binds(op) && BindingGives(lib, op, status) {
      var e :| Announced(lib, op.request, e) && Status(AdapterKind(e)) == status;
      x := BindFailureIsWritten(lib, op, e);
    } else if status == op.response.status {
      x := SuccessIsWritten(lib, op, []);
    } else {
      var kind :| kind in op.problems && Status(kind) == status;
      x := HandlerKindIsWritten(lib, op, kind, None);
    }
  }

  /** Documented, and yet no exchange is answered with it. */
  ghost predicate Overstated(lib: Lib, op: Operation, status: nat)
    requires Compiled(lib, op.request)
  {
    || !Routable(op.request)
    || (&& status != 500
        && !GuardGives(op, status)
        && (HandlerGives(op, status) ==> !HandlerReached(lib, op))
        && (status == 400 ==> NeverMalformed(lib, op.request))
        && (status in {413, 415} ==> op.request.body.None?)
        && (status == 422 ==> NeverInvalid(lib, op.request)))
  }

  /** No tag fails and no enum is violated on a routed request. */
  ghost predicate NeverInvalid(lib: Lib, plan: RequestPlan)
    requires Compiled(lib, plan)
  {
    (plan.tagged ==> !Convertible(lib, plan)) && !EnumsViolate(lib, plan)
  }

  lemma BindingGivesIff(lib: Lib, op: Operation, status: nat)
    requires Compiled(lib, op.request)
    ensures BindingGives(lib, op, status) <==>
            || (status == 400 && !NeverMalformed(lib, op.request))
            || (status in {413, 415} && Routable(op.request) && op.request.body.Some?)
            || (status == 422 && !NeverInvalid(lib, op.request))
  {
    hide Compiled, NeverMalformed, EnumsViolate, Routable, Convertible;
    if status == 400 {
      assert Status(AdapterKind(Malformed)) == status;
    } else if status == 413 {
      assert Status(AdapterKind(Oversized)) == status;
    } else if status == 415 {
      assert Status(AdapterKind(WrongMedia)) == status;
    } else if status == 422 {
      assert Status(AdapterKind(TagViolation)) == status && Status(AdapterKind(EnumViolation)) == status;
    }
  }

  lemma NothingToBind(lib: Lib, op: Operation)
    requires Compiled(lib, op.request) && !Binds(op)
    ensures NeverMalformed(lib, op.request) && op.request.body.None? && NeverInvalid(lib, op.request)
  {
    hide E.Constructible;
  }

  lemma OverstatedIffUnanswerable(lib: Lib, op: Operation, status: nat)
    requires Compiled(lib, op.request)
    ensures Overstated(lib, op, status) <==> !Answerable(lib, op, status)
  {
    hide GuardGives, HandlerGives, HandlerReached, Compiled, BindingGives, NeverMalformed, NeverInvalid;
    hide Binds, Routable;
    BindingGivesIff(lib, op, status);
    if !Binds(op) {
      NothingToBind(lib, op);
    }
  }

  lemma AnswerableIsDocumented(lib: Lib, op: Operation, status: nat)
    requires Compiled(lib, op.request) && Answerable(lib, op, status)
    ensures status in Documented(lib, op)
  {
    hide Compiled, Announced, HandlerReached;
    if Binds(op) && BindingGives(lib, op, status) {
      var e :| Announced(lib, op.request, e) && Status(AdapterKind(e)) == status;
      BindFailureDocumented(lib, op, e);
    }
  }

  /**
    The central promise, in both directions: some exchange is answered with a
    status exactly when the document lists it and does not overstate it.
   */
  lemma StatusWrittenIffDocumented(lib: Lib, op: Operation, status: nat)
    requires Accepted(lib, op)
    ensures (exists x :: Possible(lib, op, x) && Respond(lib, op, x, 0).status == Some(status))
            <==> status in Documented(lib, op) && !Overstated(lib, op, status)
  {
    hide Respond, Documented, Compiled, Answerable, Overstated, ValidSuccess, Admissible;
    OverstatedIffUnanswerable(lib, op, status);
    if Answerable(lib, op, status) {
      AnswerableIsDocumented(lib, op, status);
      var x := AnswerableIsWritten(lib, op, status);
    } else {
      forall x | Possible(lib, op, x)
        ensures Respond(lib, op, x, 0).status != Some(status)
      {
        if Respond(lib, op, x, 0).status == Some(status) {
          WrittenIsAnswerable(lib, op, x, 0, status);
        }
      }
    }
  }

  /** Any operation with one parameter and nothing else to answer with but a 200. */
  function OneParameter(f: FieldPlan, routes: PathTexts -> bool): Operation {
    Operation([], RequestPlan([f], None, false, routes), [], WritePlan(Message, 200, {}))
  }

  /** A 400 that is documented and never written: a path parameter whose decoder accepts every text. */
  lemma AcceptingDecoderOverstates(lib: Lib, routes: PathTexts -> bool, id: nat, ty: E.Ty) returns (op: Operation)
    requires E.Constructible(lib.types) && ty in lib.types && lib.types[ty].Other?
    requires forall text :: lib.decode(TextDecoded(id), text).Some?
    ensures op.request.routes == routes
    ensures Accepted(lib, op) && 400 in Documented(lib, op) && Overstated(lib, op, 400)
  {
    hide E.Constructible, CanFailValidation, FieldFine;
    var field := FieldPlan(PathSource, "tag", Scalar(TextDecoded(id)), ty, false);
    op := OneParameter(field, routes);
    assert op.request.fields[0] == field && CanFailBinding(PathSource, field.ty);
    FlagOverstates(lib, Admitted(op.request, "tag"), id);
  }

  /** A 422 that is documented and never written: a body whose only enums are in an array of no elements. */
  lemma EmptyArrayOverstates(lib: Lib, routes: PathTexts -> bool) returns (op: Operation)
    requires lib.types == E.EMPTY_ARRAY
    ensures op.request.routes == routes
    ensures Accepted(lib, op) && 422 in Documented(lib, op) && Overstated(lib, op, 422)
  {
    hide E.Constructible, E.Reaches, CanFailBind;
    E.EmptyArrayCarriesInVain();
    var body := BodyPlan(true, false, 0, false);
    op := Operation([], RequestPlan([], Some(body), false, routes), [], WritePlan(Message, 200, {}));
  }

  // --- Constrained placeholders -----------------------------------------------

  /** The routes of a pattern whose one placeholder takes only the given texts. */
  function Alternatives(name: string, texts: set<string>): PathTexts -> bool {
    p => TextAt(p, name) in texts
  }

  lemma AlternativeRouted(name: string, texts: set<string>, text: string)
    requires text in texts
    ensures Alternatives(name, texts)(map[name := text]) && TextAt(map[name := text], name) == text
  {
  }

  /**
    A scalar behind a placeholder of alternatives: its documented 400 is never
    written exactly when every alternative converts, as it does for a boolean
    behind the alternatives true and false.
   */
  lemma AlternativesThatConvert(lib: Lib, scalar: Scalar, ty: E.Ty, texts: set<string>) returns (op: Operation)
    requires E.Constructible(lib.types) && ty in lib.types && lib.types[ty].Other? && texts != {}
    ensures Accepted(lib, op) && Routable(op.request) && op.request.routes == Alternatives("flag", texts)
    ensures op.request.fields == [FieldPlan(PathSource, "flag", Scalar(scalar), ty, false)]
    ensures 400 in Documented(lib, op)
    ensures Overstated(lib, op, 400) <==>
            forall text :: text in texts && text != "" ==> lib.decode(scalar, text).Some?
  {
    hide E.Constructible, CanFailValidation, Fallible, Admitted, Set, Overstated, Documented;
    var f := FieldPlan(PathSource, "flag", Scalar(scalar), ty, false);
    op := OneParameter(f, Alternatives("flag", texts));
    assert op.request.fields[0] == f && CanFailBinding(PathSource, f.ty);
    var text :| text in texts;
    AlternativeRouted("flag", texts, text);
    OneParameterOverstates(lib, f, Alternatives("flag", texts));
    AlternativesAdmitted(op.request, "flag", texts);
    ScalarFails(lib, Admitted(op.request, "flag"), scalar);
  }

  /** What such an operation documents, and when it overstates it. */
  lemma OneParameterOverstates(lib: Lib, f: FieldPlan, routes: PathTexts -> bool)
    requires Compiled(lib, OneParameter(f, routes).request) && Routable(OneParameter(f, routes).request)
    ensures var op := OneParameter(f, routes);
            && 200 in Documented(lib, op)
            && (400 in Documented(lib, op) <==> CanFailBind(op.request))
            && (422 in Documented(lib, op) <==> CanFailValidation(lib, op.request))
            && (Overstated(lib, op, 400) <==> NeverMalformed(lib, op.request))
            && (Overstated(lib, op, 422) <==> NeverInvalid(lib, op.request))
            && (Overstated(lib, op, 200) <==> !Bindable(lib, op.request))
  {
    hide Compiled, Routable, CanFailBind, CanFailValidation, NeverMalformed, NeverInvalid, Bindable, Status;
  }

  lemma AlternativesAdmitted(plan: RequestPlan, name: string, texts: set<string>)
    requires plan.routes == Alternatives(name, texts)
    ensures forall text :: Admitted(plan, name)(text) <==> text in texts
  {
    forall text | text in texts
      ensures Admitted(plan, name)(text)
    {
      AlternativeRouted(name, texts, text);
    }
  }

  lemma ScalarFails(lib: Lib, admits: Admits, scalar: Scalar)
    ensures Fallible(lib, admits, PathSource, Scalar(scalar)) <==>
            exists text :: text != "" && admits(text) && lib.decode(scalar, text).None?
  {
    forall text
      ensures Set(lib, Scalar(scalar), One(text)).None? && ReachesLeaf(admits, PathSource, Scalar(scalar), text) <==>
              text != "" && admits(text) && lib.decode(scalar, text).None?
    {
    }
  }

  /**
    An enum behind a placeholder of alternatives: its documented 422 is never
    written exactly when every alternative is registered, and its success never
    exactly when none is.
   */
  lemma AlternativesThatAreListed(lib: Lib, ty: E.Ty, texts: set<string>) returns (op: Operation)
    requires E.Constructible(lib.types) && ty in lib.types && E.IsEnum(lib.types[ty]) && texts != {}
    ensures Accepted(lib, op) && Routable(op.request) && op.request.routes == Alternatives("s", texts)
    ensures op.request.fields == [FieldPlan(PathSource, "s", Str, ty, false)]
    ensures 422 in Documented(lib, op) && 200 in Documented(lib, op)
    ensures Overstated(lib, op, 422) <==> forall text :: text in texts ==> text in lib.types[ty].registered.value
    ensures Overstated(lib, op, 200) <==> forall text :: text in texts ==> text !in lib.types[ty].registered.value
  {
    hide E.Constructible, CanFailBind, E.Reaches, Overstated, Documented, NeverInvalid, Bindable, E.IsEnum;
    var f := FieldPlan(PathSource, "s", Str, ty, false);
    op := OneParameter(f, Alternatives("s", texts));
    assert op.request.fields[0] == f;
    var text :| text in texts;
    AlternativeRouted("s", texts, text);
    EnumIsParameter(lib, f);
    assert CanFailValidation(lib, op.request) by { E.EnumReached(lib.types, ty, false); }
    OneParameterOverstates(lib, f, Alternatives("s", texts));
    EnumOutcomes(lib, f, op.request, texts);
  }

  lemma EnumIsParameter(lib: Lib, f: FieldPlan)
    requires f.enumTy in lib.types && E.IsEnum(lib.types[f.enumTy]) && f.ty == Str
    ensures Mirrors(lib.types, f.enumTy, f.ty)
  {
  }

  /** What routed requests come to: a violation where an alternative is not registered, success where one is. */
  lemma EnumOutcomes(lib: Lib, f: FieldPlan, plan: RequestPlan, texts: set<string>)
    requires Compiled(lib, plan) && plan == RequestPlan([f], None, false, Alternatives(f.name, texts))
    requires f.enumTy in lib.types && E.IsEnum(lib.types[f.enumTy]) && f.source == PathSource && f.ty == Str
    requires !f.omitZero
    ensures NeverInvalid(lib, plan) <==> forall text :: text in texts ==> text in lib.types[f.enumTy].registered.value
    ensures Bindable(lib, plan) <==> exists text :: text in texts && text in lib.types[f.enumTy].registered.value
  {
    hide Compiled, PathConverts, PathOffends, PathClean, FieldViolates, FieldFine, TextAt;
    forall p
      ensures PathConverts(lib, plan.fields, p)
      ensures PathOffends(lib, plan.fields, p) <==> TextAt(p, f.name) !in lib.types[f.enumTy].registered.value
      ensures PathClean(lib, plan.fields, p) <==> TextAt(p, f.name) in lib.types[f.enumTy].registered.value
    {
      EnumPath(lib, f, p);
    }
    forall text | text in texts
      ensures plan.routes(map[f.name := text]) && TextAt(map[f.name := text], f.name) == text
    {
      AlternativeRouted(f.name, texts, text);
    }
  }

  lemma EnumPath(lib: Lib, f: FieldPlan, p: PathTexts)
    requires f.enumTy in lib.types && E.IsEnum(lib.types[f.enumTy]) && f.source == PathSource && f.ty == Str
    requires !f.omitZero
    ensures PathConverts(lib, [f], p)
    ensures PathOffends(lib, [f], p) <==> TextAt(p, f.name) !in lib.types[f.enumTy].registered.value
    ensures PathClean(lib, [f], p) <==> TextAt(p, f.name) in lib.types[f.enumTy].registered.value
  {
    hide FieldFails, FieldOffends, FieldClean, TextAt;
    assert [f][0] == f;
    EnumText(lib, f, p);
  }

  /** A path parameter of an enum type always converts, and is reported exactly when its text is not registered. */
  lemma EnumText(lib: Lib, f: FieldPlan, p: PathTexts)
    requires f.enumTy in lib.types && E.IsEnum(lib.types[f.enumTy]) && f.source == PathSource && f.ty == Str
    requires !f.omitZero
    ensures !FieldFails(lib, f, OnlyPath(p))
    ensures FieldOffends(lib, f, OnlyPath(p)) <==> TextAt(p, f.name) !in lib.types[f.enumTy].registered.value
    ensures FieldClean(lib, f, OnlyPath(p)) <==> TextAt(p, f.name) in lib.types[f.enumTy].registered.value
  {
    OffendsWhen(lib, f, OnlyPath(p));
  }

  // --- The wait ---------------------------------------------------------------

  /** A response tells its caller to wait, and its documentation does not mention it. */
  ghost predicate UndocumentedWait(lib: Lib, op: Operation, w: Wire) {
    w.retryAfter.Some? && (w.status.None? || w.status.value < 0 || !DocOf(lib, op, w.status.value).retryAfter)
  }

  /**
    For each response: exactly when the problem written carries a wait, and is not
    a 429 that the operation itself declares.
   */
  lemma WaitIsDocumentedIff(lib: Lib, op: Operation, x: Exchange)
    requires Accepted(lib, op) && Possible(lib, op, x)
    ensures var w := Respond(lib, op, x, 0);
            UndocumentedWait(lib, op, w) <==>
              && w.body.ProblemBody?
              && RetryHeader(w.body.problem).Some?
              && !(w.status == Some(Status(TooManyRequests)) && TooManyRequests in op.problems)
  {
    hide Respond, Documented, Compiled, Admissible, ProblemStatuses, Challenges;
    EveryResponseIsDocumented(lib, op, x, 0);
  }

  /** A status whose problem may carry a wait: a declared kind's, or a handler's own 500. */
  ghost predicate MayWait(lib: Lib, op: Operation, status: nat) {
    || (Routable(op.request) && status in GuardStatuses(op.guards))
    || (HandlerReached(lib, op) && (status == 500 || status in Statuses(op.problems)))
  }

  lemma DispatchedWait(e: Err, plan: Plan)
    ensures var w := DispatchWire(e, Some(plan), true, false);
            w.retryAfter.Some? ==> exists kind :: kind in plan.allowed && w.status == Some(Status(kind))
  {
    hide DispatchWire, Restored, ValidProblem;
    DispatchKeepsContract(e, plan);
  }

  lemma {:induction false} WaitShows(lib: Lib, op: Operation, x: Exchange, i: nat, status: nat)
    requires Compiled(lib, op.request) && Possible(lib, op, x) && i <= |op.guards|
    requires Respond(lib, op, x, i).status == Some(status) && Respond(lib, op, x, i).retryAfter.Some?
    ensures MayWait(lib, op, status)
    decreases |op.guards| - i
  {
    hide DispatchWire, BindOutcome, Compiled, Admissible, Bindable, Routable;
    ExchangeIsRouted(lib, op, x);
    if i == |op.guards| {
      if Binds(op) && BindOutcome(lib, op.request, x.request).Some? {
        AdapterErrorIsWritten(BindOutcome(lib, op.request, x.request).value, x.request.encodes);
      } else {
        if Binds(op) {
          BindingShowsBindable(lib, op.request, x.request);
        }
        if x.handler.Fails? {
          DispatchedWait(x.handler.err, HandlerPlan(op));
        }
      }
    } else {
      match x.guards[i]
      case Passes => WaitShows(lib, op, x, i + 1, status);
      case NoRequest => DispatchedWait(INTERNAL_ERROR, GuardPlan(op.guards[i]));
      case Denies(err) => DispatchedWait(err, GuardPlan(op.guards[i]));
    }
  }

  lemma WaitHappens(lib: Lib, op: Operation, status: nat) returns (x: Exchange)
    requires Compiled(lib, op.request) && MayWait(lib, op, status)
    ensures Possible(lib, op, x)
    ensures Respond(lib, op, x, 0).status == Some(status) && Respond(lib, op, x, 0).retryAfter.Some?
  {
    hide Respond, Compiled, Admissible, HandlerReached;
    if Routable(op.request) && status in GuardStatuses(op.guards) {
      var kind;
      x, kind := GuardKindIsWritten(lib, op, status, Some(30));
    } else if status == 500 {
      x := HandlerKindIsWritten(lib, op, Internal, Some(30));
    } else {
      var kind :| kind in op.problems && Status(kind) == status;
      x := HandlerKindIsWritten(lib, op, kind, Some(30));
    }
  }

  /**
    For the operation: some exchange is answered with a status and an
    undocumented wait exactly when a guard or the handler may answer with that
    status and it is not a 429 that the operation itself declares.
   */
  lemma UndocumentedWaitIff(lib: Lib, op: Operation, status: nat)
    requires Accepted(lib, op)
    ensures (exists x :: && Possible(lib, op, x) && Respond(lib, op, x, 0).status == Some(status)
                         && UndocumentedWait(lib, op, Respond(lib, op, x, 0)))
            <==> MayWait(lib, op, status) && !(status == Status(TooManyRequests) && TooManyRequests in op.problems)
  {
    hide Respond, Compiled, Admissible, MayWait, Documented;
    forall x | Possible(lib, op, x) && Respond(lib, op, x, 0).status == Some(status)
      && Respond(lib, op, x, 0).retryAfter.Some?
      ensures MayWait(lib, op, status)
      ensures UndocumentedWait(lib, op, Respond(lib, op, x, 0)) <==>
              !(status == Status(TooManyRequests) && TooManyRequests in op.problems)
    {
      WaitShows(lib, op, x, 0, status);
      WaitIsDocumentedIff(lib, op, x);
      EveryResponseIsDocumented(lib, op, x, 0);
    }
    if MayWait(lib, op, status) {
      var x := WaitHappens(lib, op, status);
      assert Respond(lib, op, x, 0).retryAfter.Some?;
    }
  }

  /** A guard's 429: the wait is on the wire and not in the document. */
  lemma GuardThrottleIsUndocumented(lib: Lib) returns (op: Operation, x: Exchange)
    requires E.Constructible(lib.types)
    ensures Accepted(lib, op) && Possible(lib, op, x)
    ensures Respond(lib, op, x, 0).status == Some(429) && Respond(lib, op, x, 0).retryAfter == Some(30)
    ensures 429 in Documented(lib, op) && !DocOf(lib, op, 429).retryAfter
  {
    hide E.Constructible, DispatchWire;
    var guard := GuardClaims([TooManyRequests], false);
    op := Operation([guard], RequestPlan([], None, false, p => p == map[]), [], WritePlan(Message, 200, {}));
    assert guard == op.guards[0] && TooManyRequests in guard.problems;
    var r := HttpRequest(EMPTY_INCOMING, BodyInput(false, false, Unreadable), false, true);
    x := Exchange([Denies(Returning(TooManyRequests, Some(30)))], r, NoReply);
    PermittedKindsAreWritten(TooManyRequests, Some(30), GuardPlan(guard));
  }
}
