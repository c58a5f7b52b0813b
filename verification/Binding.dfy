/**
  Request binding: parameters, the body's content policy, enum validation of
  what was bound, the flags the document is built from, and which failures a
  plan can answer with.
 */
module Binding {
  import opened Wrappers
  import opened Parameters
  import E = Enums
  import V = EnumValidator
  import P = ErrorPlaces

  // --- Plans -----------------------------------------------------------------

  /** A parameter: where it is looked up, its type as the setter sees it and as the enum compiler does. */
  datatype FieldPlan = FieldPlan(source: Source, name: string, ty: Param, enumTy: E.Ty, omitZero: bool)

  /** `raw` bodies keep their bytes and leave decoding errors to the handler. */
  datatype BodyPlan = BodyPlan(required: bool, raw: bool, ty: E.Ty, omitZero: bool)

  /** What the router took from a request's path, by placeholder. */
  type PathTexts = map<string, string>

  /**
    `tagged`: some validate tag can fail. `routes`: the path texts with which the
    router hands on requests to the operation, as the pattern's expressions and
    the other routes leave them; a missing text reads as an empty one.
   */
  datatype RequestPlan = RequestPlan(fields: seq<FieldPlan>, body: Option<BodyPlan>, tagged: bool,
                                     routes: PathTexts -> bool)

  /** One type, seen twice; what a scalar is made of is its own business. */
  predicate Mirrors(types: E.Types, ty: E.Ty, t: Param)
    decreases t
  {
    ty in types &&
    match t
    case Pointer(elem) => types[ty].Pointer? && Mirrors(types, types[ty].elem, elem)
    case Slice(elem) => types[ty].List? && types[ty].length.None? && Mirrors(types, types[ty].elem, elem)
    case Str => types[ty].Str?
    case Scalar(_) => !types[ty].Pointer? && !types[ty].List? && !types[ty].Str?
  }

  predicate Distinct(fields: seq<FieldPlan>) {
    forall i, j :: 0 <= i < j < |fields| ==>
      fields[i].source != fields[j].source || fields[i].name != fields[j].name
  }

  /**
    What compilation accepts: no parameter twice, an optional body behind a
    pointer, a required one not, no tag on nothing.
   */
  ghost predicate Compiled(lib: Lib, plan: RequestPlan) {
    && E.Constructible(lib.types)
    && (plan.fields == [] && plan.body.None? ==> !plan.tagged)
    && (forall i :: 0 <= i < |plan.fields| ==> Mirrors(lib.types, plan.fields[i].enumTy, plan.fields[i].ty))
    && Distinct(plan.fields)
    && (plan.body.Some? ==>
          var bp := plan.body.value;
          && bp.ty in lib.types
          && if bp.raw then lib.types[bp.ty].RawJSON? else bp.required <==> !lib.types[bp.ty].Pointer?)
  }

  /** What reading the body comes to; bytes that decode give a value of the body's type. */
  datatype Stream = TooLarge | Unreadable | Bytes(size: nat, decodes: bool, nullLiteral: bool, value: E.Value)

  datatype BodyInput = BodyInput(present: bool, json: bool, stream: Stream)

  /** A request with the verdict of the validate tags; `encodes`: what a failure quotes from it can be marshalled. */
  datatype HttpRequest = HttpRequest(incoming: Incoming, body: BodyInput, tagsFail: bool, encodes: bool)

  /** A routed request; the validator reports only what the type declares, and decoding yields values of the type. */
  predicate Admissible(lib: Lib, plan: RequestPlan, r: HttpRequest) {
    && plan.routes(r.incoming.path)
    && (r.tagsFail ==> plan.tagged)
    && (plan.body.Some? && r.body.stream.Bytes? ==> E.HasType(lib.types, plan.body.value.ty, r.body.stream.value))
  }

  // --- Binding a request -----------------------------------------------------

  datatype BindError = Malformed | Oversized | WrongMedia | TagViolation | EnumViolation

  function BindRaw(bp: BodyPlan, b: BodyInput): Option<BindError> {
    if !b.present && bp.required then Some(Malformed)
    else
      match b.stream
      case TooLarge => Some(Oversized)
      case Unreadable => Some(Malformed)
      case Bytes(size, _, _, _) => if bp.required && size == 0 then Some(Malformed) else None
  }

  function BindBody(bp: BodyPlan, b: BodyInput): Option<BindError> {
    if b.present && !b.json then Some(WrongMedia)
    else if bp.raw then BindRaw(bp, b)
    else if !b.present then (if bp.required then Some(Malformed) else None)
    else
      match b.stream
      case TooLarge => Some(Oversized)
      case Unreadable => Some(Malformed)
      case Bytes(_, decodes, nullLiteral, _) => if decodes && !nullLiteral then None else Some(Malformed)
  }

  /** What the body field holds once bound: an absent optional body stays null. */
  function BodyValue(bp: BodyPlan, b: BodyInput): E.Value {
    if b.stream.Bytes? && (bp.raw || b.present) then b.stream.value else E.Nil
  }

  function ValueOf(b: Bound): E.Value {
    match b
    case Null => E.Nil
    case Held(target) => E.Ref(ValueOf(target))
    case Elems(elems) => E.Items(seq(|elems|, i requires 0 <= i < |elems| => ValueOf(elems[i])), false)
    case Text(text) => E.Text(text)
    case Converted(_, value) => value
  }

  function ZeroOf(lib: Lib, t: Param): E.Value {
    match t
    case Pointer(_) => E.Nil
    case Slice(_) => E.Nil
    case Str => E.Text("")
    case Scalar(s) => lib.zero(s)
  }

  predicate FieldFails(lib: Lib, f: FieldPlan, q: Incoming) {
    Fails(lib, f.source, f.ty, f.name, q)
  }

  predicate SomeFieldFails(lib: Lib, fields: seq<FieldPlan>, q: Incoming) {
    exists i :: 0 <= i < |fields| && FieldFails(lib, fields[i], q)
  }

  /** What a parameter's field holds: the zero value when nothing was sent. */
  function FieldValue(lib: Lib, f: FieldPlan, q: Incoming): E.Value
    requires !FieldFails(lib, f, q)
  {
    match Lookup(f.source, f.name, q)
    case None => ZeroOf(lib, f.ty)
    case Some(raw) => ValueOf(Set(lib, f.ty, raw).value)
  }

  function FieldErrors(lib: Lib, f: FieldPlan, q: Incoming): seq<E.ValidationError>
    requires !FieldFails(lib, f, q)
  {
    V.Reported(lib.types, f.enumTy, f.omitZero, FieldValue(lib, f, q), E.Push([], f.name))
  }

  /** The enum errors of the first `n` parameters, in order. */
  function ParameterErrors(lib: Lib, fields: seq<FieldPlan>, n: nat, q: Incoming): seq<E.ValidationError>
    requires n <= |fields| && !SomeFieldFails(lib, fields, q)
  {
    if n == 0 then []
    else
      assert !FieldFails(lib, fields[n - 1], q);
      ParameterErrors(lib, fields, n - 1, q) + FieldErrors(lib, fields[n - 1], q)
  }

  function BodyErrors(lib: Lib, plan: RequestPlan, b: BodyInput): seq<E.ValidationError> {
    if plan.body.None? then []
    else V.Reported(lib.types, plan.body.value.ty, plan.body.value.omitZero, BodyValue(plan.body.value, b), [])
  }

  /** Body before parameters before validate tags before enums; the first failure answers. */
  function BindOutcome(lib: Lib, plan: RequestPlan, r: HttpRequest): Option<BindError> {
    if plan.body.Some? && BindBody(plan.body.value, r.body).Some? then BindBody(plan.body.value, r.body)
    else if SomeFieldFails(lib, plan.fields, r.incoming) then Some(Malformed)
    else if r.tagsFail then Some(TagViolation)
    else
      var errors := ParameterErrors(lib, plan.fields, |plan.fields|, r.incoming) + BodyErrors(lib, plan, r.body);
      if errors != [] then Some(EnumViolation) else None
  }

  // --- What binding comes to, told from the request --------------------------

  /**
    A body that is bound: present where required and of the right media type;
    JSON that decodes and is not the null literal, or else, for a raw body, bytes
    that can be read, and some of them where required.
   */
  predicate BodyTaken(bp: BodyPlan, b: BodyInput) {
    && (b.present ==> b.json) && (bp.required ==> b.present)
    && (bp.raw ==> b.stream.Bytes? && (bp.required ==> b.stream.size > 0))
    && (!bp.raw && b.present ==> b.stream.Bytes? && b.stream.decodes && !b.stream.nullLiteral)
  }

  /** Why it is not: the media type before absence, absence before what reading it comes to. */
  predicate BodyRefused(bp: BodyPlan, b: BodyInput, e: BindError) {
    var read := if bp.raw then bp.required ==> b.present else b.present;
    match e
    case WrongMedia => b.present && !b.json
    case Oversized => (b.present ==> b.json) && read && b.stream.TooLarge?
    case Malformed =>
      && (b.present ==> b.json)
      && (|| (bp.required && !b.present)
          || (read && b.stream.Unreadable?)
          || (read && b.stream.Bytes? && bp.raw && bp.required && b.stream.size == 0)
          || (read && b.stream.Bytes? && !bp.raw && !(b.stream.decodes && !b.stream.nullLiteral)))
    case TagViolation => false
    case EnumViolation => false
  }

  predicate BodyPasses(plan: RequestPlan, b: BodyInput) {
    plan.body.Some? ==> BodyTaken(plan.body.value, b)
  }

  /** The one outcome of a request: body before parameters before validate tags before enums. */
  predicate Outcome(lib: Lib, plan: RequestPlan, r: HttpRequest, errors: seq<E.ValidationError>,
                    failure: Option<BindError>)
  {
    var converts := forall i :: 0 <= i < |plan.fields| ==> !FieldFails(lib, plan.fields[i], r.incoming);
    match failure
    case None => BodyPasses(plan, r.body) && converts && !r.tagsFail && errors == []
    case Some(WrongMedia) => plan.body.Some? && BodyRefused(plan.body.value, r.body, WrongMedia)
    case Some(Oversized) => plan.body.Some? && BodyRefused(plan.body.value, r.body, Oversized)
    case Some(Malformed) =>
      || (plan.body.Some? && BodyRefused(plan.body.value, r.body, Malformed))
      || (BodyPasses(plan, r.body) && !converts)
    case Some(TagViolation) => BodyPasses(plan, r.body) && converts && r.tagsFail
    case Some(EnumViolation) => BodyPasses(plan, r.body) && converts && !r.tagsFail && errors != []
  }

  lemma BodyRules(bp: BodyPlan, b: BodyInput)
    ensures BindBody(bp, b).None? <==> BodyTaken(bp, b)
    ensures BindBody(bp, b).Some? ==> BodyRefused(bp, b, BindBody(bp, b).value)
    ensures BodyTaken(bp, b) ==> forall e :: !BodyRefused(bp, b, e)
  {
  }

  /** The errors a request is answered with, once everything before the enums has passed. */
  function EnumErrors(lib: Lib, plan: RequestPlan, r: HttpRequest): seq<E.ValidationError> {
    if SomeFieldFails(lib, plan.fields, r.incoming) then []
    else ParameterErrors(lib, plan.fields, |plan.fields|, r.incoming) + BodyErrors(lib, plan, r.body)
  }

  lemma OutcomeIs(lib: Lib, plan: RequestPlan, r: HttpRequest)
    ensures Outcome(lib, plan, r, EnumErrors(lib, plan, r), BindOutcome(lib, plan, r))
  {
    hide FieldFails, ParameterErrors, BodyErrors, BindBody;
    if plan.body.Some? {
      BodyRules(plan.body.value, r.body);
    }
  }

  /** A request has one outcome. */
  lemma OneOutcome(lib: Lib, plan: RequestPlan, r: HttpRequest, errors: seq<E.ValidationError>,
                   a: Option<BindError>, b: Option<BindError>)
    requires Outcome(lib, plan, r, errors, a) && Outcome(lib, plan, r, errors, b)
    ensures a == b
  {
    hide FieldFails;
  }

  /** Where nothing is sent a parameter holds the zero value of its type, given that the library's are. */
  lemma NothingSentIsZero(lib: Lib, f: FieldPlan, q: Incoming)
    requires Mirrors(lib.types, f.enumTy, f.ty) && Lookup(f.source, f.name, q).None?
    requires f.ty.Scalar? ==>
               E.HasType(lib.types, f.enumTy, lib.zero(f.ty.scalar)) && E.IsZero(lib.zero(f.ty.scalar))
    ensures !FieldFails(lib, f, q)
    ensures E.HasType(lib.types, f.enumTy, FieldValue(lib, f, q)) && E.IsZero(FieldValue(lib, f, q))
  {
  }

  /** An empty query value is like none, except to a text decoder, which is asked about it. */
  lemma EmptyQueryValueIsZero(lib: Lib, f: FieldPlan, q: Incoming)
    requires f.source == QuerySource && f.name in q.query && q.query[f.name] == [""] && !f.ty.Slice?
    ensures !(f.ty.Scalar? && f.ty.scalar.TextDecoded?) ==>
              !FieldFails(lib, f, q) && FieldValue(lib, f, q) == ZeroOf(lib, f.ty)
    ensures f.ty.Scalar? && f.ty.scalar.TextDecoded? ==>
              && FieldFails(lib, f, q) == lib.decode(f.ty.scalar, "").None?
              && (!FieldFails(lib, f, q) ==> Some(FieldValue(lib, f, q)) == lib.decode(f.ty.scalar, ""))
  {
  }

  /** A scalar that is sent holds what its decoder makes of the text. */
  lemma SentScalarIsDecoded(lib: Lib, f: FieldPlan, q: Incoming, text: string)
    requires f.ty.Scalar? && text != "" && Lookup(f.source, f.name, q) == Some(One(text))
    ensures FieldFails(lib, f, q) == lib.decode(f.ty.scalar, text).None?
    ensures !FieldFails(lib, f, q) ==> Some(FieldValue(lib, f, q)) == lib.decode(f.ty.scalar, text)
  {
  }

  /** A parameter holds an unregistered text, and the error tells where, from the parameter's name on. */
  ghost predicate ParameterTells(lib: Lib, f: FieldPlan, q: Incoming, err: E.ValidationError)
    requires !FieldFails(lib, f, q)
  {
    var v := FieldValue(lib, f, q);
    && !(f.omitZero && E.IsZero(v))
    && P.ToldFrom(lib.types, P.Place(f.enumTy, v, if f.name == "" then [] else [E.Name(f.name)]), err)
  }

  /** The body does, and the error tells where, from the body itself on. */
  ghost predicate BodyTells(lib: Lib, plan: RequestPlan, b: BodyInput, err: E.ValidationError) {
    && plan.body.Some?
    && var bp, v := plan.body.value, BodyValue(plan.body.value, b);
       && !(bp.omitZero && E.IsZero(v))
       && P.ToldFrom(lib.types, P.Place(bp.ty, v, []), err)
  }

  lemma {:induction false} ParameterErrorsAreTold(lib: Lib, fields: seq<FieldPlan>, n: nat, q: Incoming,
                                                  err: E.ValidationError)
    requires n <= |fields| && !SomeFieldFails(lib, fields, q)
    ensures err in ParameterErrors(lib, fields, n, q) <==>
            exists i :: 0 <= i < n && !FieldFails(lib, fields[i], q) && ParameterTells(lib, fields[i], q, err)
    decreases n
  {
    hide FieldFails, FieldValue, P.ToldFrom, E.IsZero;
    if n > 0 {
      ParameterErrorsAreTold(lib, fields, n - 1, q, err);
      var f := fields[n - 1];
      assert !FieldFails(lib, fields[n - 1], q);
      assert E.Push([], f.name) == if f.name == "" then [] else [E.Name(f.name)];
      P.ErrorsAreTold(lib.types, f.enumTy, FieldValue(lib, f, q), E.Push([], f.name), err);
    }
  }

  /** The errors a request is answered with are exactly those that its parameters and its body tell. */
  lemma ErrorsAreTold(lib: Lib, plan: RequestPlan, r: HttpRequest, err: E.ValidationError)
    requires !SomeFieldFails(lib, plan.fields, r.incoming)
    ensures err in EnumErrors(lib, plan, r) <==>
            || (exists i :: 0 <= i < |plan.fields| && !FieldFails(lib, plan.fields[i], r.incoming)
                  && ParameterTells(lib, plan.fields[i], r.incoming, err))
            || BodyTells(lib, plan, r.body, err)
  {
    hide SomeFieldFails, FieldFails, ParameterErrors, ParameterTells, BodyValue, P.ToldFrom, E.IsZero;
    ParameterErrorsAreTold(lib, plan.fields, |plan.fields|, r.incoming, err);
    if plan.body.Some? {
      var bp := plan.body.value;
      P.ErrorsAreTold(lib.types, bp.ty, BodyValue(bp, r.body), [], err);
    }
  }

  /** What a body field holds: what was sent, or null where nothing had to be; a value of the body's type. */
  lemma BoundBody(lib: Lib, plan: RequestPlan, r: HttpRequest)
    requires Compiled(lib, plan) && plan.body.Some? && BodyTaken(plan.body.value, r.body)
    ensures var bp, v := plan.body.value, BodyValue(plan.body.value, r.body);
            && (r.body.present ==> r.body.stream.Bytes? && v == r.body.stream.value)
            && (!r.body.present && !bp.raw ==> v == E.Nil)
            && (Admissible(lib, plan, r) ==> E.HasType(lib.types, bp.ty, v))
  {
    hide E.Constructible, Mirrors;
  }

  /** The validators compiled with a plan, and the two flags the document reads. */
  datatype CompiledPlan = CompiledPlan(
    validators: seq<Option<V.Validator>>, bodyValidator: Option<V.Validator>,
    canFailBind: bool, canFailValidation: bool)

  predicate CanFailBind(plan: RequestPlan) {
    plan.body.Some? || exists i :: 0 <= i < |plan.fields| && CanFailBinding(plan.fields[i].source, plan.fields[i].ty)
  }

  ghost predicate CanFailValidation(lib: Lib, plan: RequestPlan) {
    || plan.tagged
    || (exists i :: 0 <= i < |plan.fields| && E.Carries(lib.types, plan.fields[i].enumTy))
    || (plan.body.Some? && E.Carries(lib.types, plan.body.value.ty))
  }

  ghost predicate Validating(lib: Lib, plan: RequestPlan, c: CompiledPlan) {
    && |c.validators| == |plan.fields|
    && (forall i :: 0 <= i < |plan.fields| ==>
          V.Reports(c.validators[i], lib.types, plan.fields[i].enumTy, plan.fields[i].omitZero))
    && (plan.body.Some? ==> V.Reports(c.bodyValidator, lib.types, plan.body.value.ty, plan.body.value.omitZero))
  }

  /** Compiles the enum validators of a plan and accumulates its flags. */
  method CompileRequest(lib: Lib, plan: RequestPlan) returns (c: CompiledPlan)
    requires Compiled(lib, plan)
    ensures Validating(lib, plan, c)
    ensures c.canFailBind == CanFailBind(plan) && c.canFailValidation == CanFailValidation(lib, plan)
  {
    hide E.Constructible, E.Carries, CanFailBinding, V.Run;
    TypesKnown(lib, plan);
    var validators, canFailBind, enums := [], plan.body.Some?, false;
    for i := 0 to |plan.fields|
      invariant |validators| == i
      invariant forall j :: 0 <= j < i ==>
                V.Reports(validators[j], lib.types, plan.fields[j].enumTy, plan.fields[j].omitZero)
      invariant canFailBind <==>
                || plan.body.Some?
                || exists j :: 0 <= j < i && CanFailBinding(plan.fields[j].source, plan.fields[j].ty)
      invariant enums <==> exists j :: 0 <= j < i && E.Carries(lib.types, plan.fields[j].enumTy)
    {
      var f := plan.fields[i];
      var validator := V.CompileEnumValidator(lib.types, f.enumTy, f.omitZero);
      var canFail := ParameterTypeCanFailBinding(f.source, f.ty);
      validators, canFailBind, enums := validators + [validator], canFailBind || canFail, enums || validator.Some?;
    }
    var bodyValidator: Option<V.Validator> := None;
    if plan.body.Some? {
      bodyValidator := V.CompileEnumValidator(lib.types, plan.body.value.ty, plan.body.value.omitZero);
      enums := enums || bodyValidator.Some?;
    }
    c := CompiledPlan(validators, bodyValidator, canFailBind, plan.tagged || enums);
  }

  lemma TypesKnown(lib: Lib, plan: RequestPlan)
    requires Compiled(lib, plan)
    ensures E.ClosedTypes(lib.types) && forall i :: 0 <= i < |plan.fields| ==> plan.fields[i].enumTy in lib.types
  {
  }

  /** Binds the parameters; the first that does not convert ends it. */
  method BindParameters(lib: Lib, fields: seq<FieldPlan>, q: Incoming) returns (failed: bool, values: seq<E.Value>)
    ensures failed == SomeFieldFails(lib, fields, q)
    ensures !failed ==> |values| == |fields| && forall i :: 0 <= i < |fields| ==>
            values[i] == FieldValue(lib, fields[i], q)
  {
    hide ValueOf, Set, Lookup, ZeroOf;
    values := [];
    for i := 0 to |fields|
      invariant |values| == i
      invariant forall j :: 0 <= j < i ==> !FieldFails(lib, fields[j], q) && values[j] == FieldValue(lib, fields[j], q)
    {
      var f := fields[i];
      var raw, value := Lookup(f.source, f.name, q), ZeroOf(lib, f.ty);
      if raw.Some? {
        var stored := Assign(lib, f.ty, raw.value);
        if stored.None? {
          assert FieldFails(lib, fields[i], q);
          return true, values;
        }
        value := ValueOf(stored.value);
      }
      values := values + [value];
    }
    failed := false;
  }

  /** Runs the compiled enum checks over what was bound, with one path buffer for all of them. */
  method ValidateEnumValues(lib: Lib, plan: RequestPlan, c: CompiledPlan, q: Incoming, b: BodyInput,
                            values: seq<E.Value>)
    returns (errors: seq<E.ValidationError>)
    requires Compiled(lib, plan) && Validating(lib, plan, c) && !SomeFieldFails(lib, plan.fields, q)
    requires |values| == |plan.fields|
    requires forall i :: 0 <= i < |plan.fields| ==>
             !FieldFails(lib, plan.fields[i], q) && values[i] == FieldValue(lib, plan.fields[i], q)
    ensures errors == ParameterErrors(lib, plan.fields, |plan.fields|, q) + BodyErrors(lib, plan, b)
  {
    hide FieldValue, V.Reports, V.Reported, SomeFieldFails, E.Constructible, FieldFails;
    TypesKnown(lib, plan);
    errors := [];
    var buffer := new E.Segment[8](_ => E.Index(0));
    for i := 0 to |plan.fields|
      invariant errors == ParameterErrors(lib, plan.fields, i, q)
    {
      var f := plan.fields[i];
      var found := V.ValidateField(c.validators[i], lib.types, f.enumTy, f.omitZero, values[i], f.name, buffer);
      errors := errors + found;
    }
    if plan.body.Some? {
      var bp := plan.body.value;
      var found := V.ValidateField(c.bodyValidator, lib.types, bp.ty, bp.omitZero, BodyValue(bp, b), "", buffer);
      errors := errors + found;
    }
  }

  /** Binds a request under its compiled plan. */
  method Bind(lib: Lib, plan: RequestPlan, c: CompiledPlan, r: HttpRequest)
    returns (failure: Option<BindError>, values: seq<E.Value>, body: E.Value, errors: seq<E.ValidationError>)
    requires Compiled(lib, plan) && Validating(lib, plan, c)
    ensures failure == BindOutcome(lib, plan, r) && Outcome(lib, plan, r, EnumErrors(lib, plan, r), failure)
    ensures failure == Some(EnumViolation) ==> errors == EnumErrors(lib, plan, r)
    ensures failure.None? && plan.body.Some? ==>
              && BodyTaken(plan.body.value, r.body)
              && (r.body.present ==> r.body.stream.Bytes? && body == r.body.stream.value)
              && (!r.body.present && !plan.body.value.raw ==> body == E.Nil)
              && (Admissible(lib, plan, r) ==> E.HasType(lib.types, plan.body.value.ty, body))
    ensures failure.None? ==>
              && !SomeFieldFails(lib, plan.fields, r.incoming)
              && |values| == |plan.fields|
              && forall i :: 0 <= i < |plan.fields| ==>
                   !FieldFails(lib, plan.fields[i], r.incoming)
                     && values[i] == FieldValue(lib, plan.fields[i], r.incoming)
  {
    hide FieldValue, Compiled, Validating, ParameterErrors, BodyErrors, FieldFails, BindBody, BodyTaken, Outcome;
    hide Admissible, E.HasType, BodyValue;
    OutcomeIs(lib, plan, r);
    failure, values, body, errors := None, [], E.Nil, [];
    if plan.body.Some? {
      BodyRules(plan.body.value, r.body);
      failure := BindBody(plan.body.value, r.body);
      if failure.Some? {
        return;
      }
      BoundBody(lib, plan, r);
      body := BodyValue(plan.body.value, r.body);
    }
    var failed;
    failed, values := BindParameters(lib, plan.fields, r.incoming);
    if failed {
      return Some(Malformed), values, body, errors;
    }
    if r.tagsFail {
      return Some(TagViolation), values, body, errors;
    }
    errors := ValidateEnumValues(lib, plan, c, r.incoming, r.body, values);
    failure := if errors != [] then Some(EnumViolation) else None;
  }

  // --- Which parameters can violate an enum ----------------------------------

  function LeafTy(types: E.Types, ty: E.Ty, t: Param): E.Ty
    requires Mirrors(types, ty, t)
    decreases t
  {
    match t
    case Pointer(elem) => LeafTy(types, types[ty].elem, elem)
    case Slice(elem) => LeafTy(types, types[ty].elem, elem)
    case _ => ty
  }

  predicate Bare(t: Param) {
    !t.Pointer? && !t.Slice?
  }

  /** The leaf converts the text to a value with a violation, which is not passed over as an omitted zero. */
  predicate LeafOffends(lib: Lib, f: FieldPlan, text: string)
    requires Mirrors(lib.types, f.enumTy, f.ty)
  {
    var stored := Set(lib, Leaf(f.ty), One(text));
    && stored.Some?
    && E.Violates(lib.types, LeafTy(lib.types, f.enumTy, f.ty), ValueOf(stored.value))
    && (Bare(f.ty) && f.omitZero ==> !E.IsZero(ValueOf(stored.value)))
  }

  /** Nothing can be sent: a path does so only where its placeholder admits the empty text. */
  predicate Omissible(admits: Admits, source: Source) {
    source == PathSource ==> admits("")
  }

  /** Some text that reaches the leaf offends, or nothing needs to be sent because the zero value does. */
  ghost predicate FieldViolates(lib: Lib, admits: Admits, f: FieldPlan)
    requires Mirrors(lib.types, f.enumTy, f.ty)
  {
    || (exists text :: ReachesLeaf(admits, f.source, f.ty, text) && LeafOffends(lib, f, text))
    || (&& Omissible(admits, f.source) && Bare(f.ty) && !(f.omitZero && E.IsZero(ZeroOf(lib, f.ty)))
        && E.Violates(lib.types, f.enumTy, ZeroOf(lib, f.ty)))
  }

  /** One text violates as its leaf does, unless it is empty and becomes null. */
  lemma {:induction false} OneViolates(lib: Lib, ty: E.Ty, t: Param, text: string)
    requires Mirrors(lib.types, ty, t) && Set(lib, t, One(text)).Some?
    ensures text == "" && MentionsPointer(t) ==> !E.Violates(lib.types, ty, ValueOf(Set(lib, t, One(text)).value))
    ensures !(text == "" && MentionsPointer(t)) ==>
              && Set(lib, Leaf(t), One(text)).Some?
              && (E.Violates(lib.types, ty, ValueOf(Set(lib, t, One(text)).value)) <==>
                  E.Violates(lib.types, LeafTy(lib.types, ty, t), ValueOf(Set(lib, Leaf(t), One(text)).value)))
    decreases t
  {
    OneConverts(lib, t, text);
    match t
    case Pointer(elem) =>
      if text != "" {
        OneConverts(lib, elem, text);
        OneViolates(lib, lib.types[ty].elem, elem, text);
      }
    case Slice(elem) =>
      SetEachConverts(lib, elem, [text]);
      assert [text][0] == text;
      OneViolates(lib, lib.types[ty].elem, elem, text);
      var v := ValueOf(Set(lib, t, One(text)).value);
      assert |v.items| == 1 && v.items[0] == ValueOf(Set(lib, elem, One(text)).value);
    case _ =>
  }

  /** Repeats violate exactly when one of them does. */
  lemma {:induction false} ManyViolates(lib: Lib, ty: E.Ty, t: Param, texts: seq<string>) returns (elemTy: E.Ty)
    requires Mirrors(lib.types, ty, t) && Set(lib, t, Many(texts)).Some?
    ensures Pointee(t).Slice? && Mirrors(lib.types, elemTy, Pointee(t).elem)
    ensures LeafTy(lib.types, elemTy, Pointee(t).elem) == LeafTy(lib.types, ty, t)
    ensures forall i :: 0 <= i < |texts| ==> Set(lib, Pointee(t).elem, One(texts[i])).Some?
    ensures E.Violates(lib.types, ty, ValueOf(Set(lib, t, Many(texts)).value)) <==>
            exists i :: 0 <= i < |texts|
              && E.Violates(lib.types, elemTy, ValueOf(Set(lib, Pointee(t).elem, One(texts[i])).value))
    decreases t
  {
    ManyConverts(lib, t, texts);
    if t.Pointer? {
      elemTy := ManyViolates(lib, lib.types[ty].elem, t.elem, texts);
    } else {
      elemTy := lib.types[ty].elem;
      SetEachConverts(lib, t.elem, texts);
      var v := ValueOf(Set(lib, t, Many(texts)).value);
      assert |v.items| == |texts| && forall i :: 0 <= i < |texts| ==>
             v.items[i] == ValueOf(Set(lib, t.elem, One(texts[i])).value);
    }
  }

  /** A pointer or slice that was sent something is no zero value, unless it became null. */
  lemma SentIsNotZero(lib: Lib, t: Param, raw: Raw)
    requires !Bare(t) && Set(lib, t, raw).Some?
    ensures E.IsZero(ValueOf(Set(lib, t, raw).value)) ==> t.Pointer? && raw == One("")
  {
  }

  predicate FieldOffends(lib: Lib, f: FieldPlan, q: Incoming) {
    !FieldFails(lib, f, q) && FieldErrors(lib, f, q) != []
  }

  lemma OffendsWhen(lib: Lib, f: FieldPlan, q: Incoming)
    requires !FieldFails(lib, f, q)
    ensures FieldErrors(lib, f, q) != [] <==>
            !(f.omitZero && E.IsZero(FieldValue(lib, f, q))) && E.Violates(lib.types, f.enumTy, FieldValue(lib, f, q))
  {
    hide FieldValue;
    E.WalkFindsViolations(lib.types, f.enumTy, FieldValue(lib, f, q), E.Push([], f.name));
  }

  /** A request whose parameter is reported shows that the parameter can violate. */
  lemma OffenceShows(lib: Lib, admits: Admits, f: FieldPlan, q: Incoming)
    requires Mirrors(lib.types, f.enumTy, f.ty) && Handed(admits, f.source, f.name, q) && FieldOffends(lib, f, q)
    ensures FieldViolates(lib, admits, f)
  {
    hide E.Violates, E.IsZero, Set, V.Reported, LeafTy;
    OffendsWhen(lib, f, q);
    LeafOfPointee(f.ty);
    if Lookup(f.source, f.name, q).None? {
      ZeroShows(lib, admits, f);
    } else {
      var raw := Lookup(f.source, f.name, q).value;
      if raw.One? {
        OneViolates(lib, f.enumTy, f.ty, raw.text);
        BareLeaf(lib, f);
        assert ReachesLeaf(admits, f.source, f.ty, raw.text) && LeafOffends(lib, f, raw.text);
      } else {
        var elemTy := ManyViolates(lib, f.enumTy, f.ty, raw.texts);
        var elem := Pointee(f.ty).elem;
        var i :| 0 <= i < |raw.texts|
          && E.Violates(lib.types, elemTy, ValueOf(Set(lib, elem, One(raw.texts[i])).value));
        OneViolates(lib, elemTy, elem, raw.texts[i]);
        assert ReachesLeaf(admits, f.source, f.ty, raw.texts[i]) && LeafOffends(lib, f, raw.texts[i]);
      }
    }
  }

  lemma BareLeaf(lib: Lib, f: FieldPlan)
    requires Mirrors(lib.types, f.enumTy, f.ty)
    ensures Bare(f.ty) ==> Leaf(f.ty) == f.ty && LeafTy(lib.types, f.enumTy, f.ty) == f.enumTy
  {
  }

  lemma ZeroShows(lib: Lib, admits: Admits, f: FieldPlan)
    requires Mirrors(lib.types, f.enumTy, f.ty) && Omissible(admits, f.source)
    requires !(f.omitZero && E.IsZero(ZeroOf(lib, f.ty))) && E.Violates(lib.types, f.enumTy, ZeroOf(lib, f.ty))
    ensures FieldViolates(lib, admits, f)
  {
  }

  const EMPTY_INCOMING := Incoming(map[], map[], map[], map[])

  /** A request whose parameter is reported, where one can be. */
  lemma OffendingRequest(lib: Lib, admits: Admits, f: FieldPlan) returns (q: Incoming)
    requires Mirrors(lib.types, f.enumTy, f.ty) && FieldViolates(lib, admits, f)
    ensures Handed(admits, f.source, f.name, q) && FieldOffends(lib, f, q) && SendsOnly(q, f.source, f.name)
  {
    hide E.Violates, E.IsZero, Set, V.Reported, LeafTy, SendsOnly;
    LeafOfPointee(f.ty);
    BareLeaf(lib, f);
    if text :| ReachesLeaf(admits, f.source, f.ty, text) && LeafOffends(lib, f, text) {
      q := Sending(f.source, f.name, Carrier(f.ty, text));
      SendingSendsOnly(f.source, f.name, Carrier(f.ty, text));
      CarrierLookup(admits, f.source, f.ty, f.name, text);
      if text == "" && Pointee(f.ty).Slice? {
        RepeatedOffends(lib, f, q);
      } else {
        OneConverts(lib, f.ty, text);
        OneViolates(lib, f.enumTy, f.ty, text);
        if !Bare(f.ty) {
          SentIsNotZero(lib, f.ty, One(text));
        }
        OffendsWhen(lib, f, q);
      }
    } else {
      q := EMPTY_INCOMING;
      NothingSent(f.source, f.name);
      OffendsWhen(lib, f, q);
    }
  }

  lemma NothingSent(source: Source, name: string)
    ensures SendsOnly(EMPTY_INCOMING, source, name) && Lookup(source, name, EMPTY_INCOMING).None?
  {
  }

  lemma RepeatedOffends(lib: Lib, f: FieldPlan, q: Incoming)
    requires Mirrors(lib.types, f.enumTy, f.ty) && Lookup(f.source, f.name, q) == Some(Many(["", ""]))
    requires Pointee(f.ty).Slice? && !MentionsPointer(Pointee(f.ty)) && LeafOffends(lib, f, "")
    ensures FieldOffends(lib, f, q)
  {
    hide E.Violates, E.IsZero, Set, V.Reported, LeafTy, Lookup;
    LeafOfPointee(f.ty);
    var elem, texts := Pointee(f.ty).elem, ["", ""];
    OneConverts(lib, elem, "");
    ManyConverts(lib, f.ty, texts);
    var elemTy := ManyViolates(lib, f.enumTy, f.ty, texts);
    OneViolates(lib, elemTy, elem, "");
    assert E.Violates(lib.types, elemTy, ValueOf(Set(lib, elem, One(texts[0])).value));
    SentIsNotZero(lib, f.ty, Many(texts));
    OffendsWhen(lib, f, q);
  }

  /** A parameter is reported on some request its route can hand on exactly when it can violate. */
  lemma ParameterViolatesIff(lib: Lib, admits: Admits, f: FieldPlan)
    requires Mirrors(lib.types, f.enumTy, f.ty)
    ensures (exists q :: Handed(admits, f.source, f.name, q) && FieldOffends(lib, f, q))
            <==> FieldViolates(lib, admits, f)
  {
    hide FieldOffends, FieldViolates, SendsOnly;
    if FieldViolates(lib, admits, f) {
      var q := OffendingRequest(lib, admits, f);
    }
    if q :| Handed(admits, f.source, f.name, q) && FieldOffends(lib, f, q) {
      OffenceShows(lib, admits, f, q);
    }
  }

  /** For strings that no placeholder constrains, however wrapped, that is exactly what the compiler's flag says. */
  lemma StringsViolateIffTheyCarry(lib: Lib, admits: Admits, f: FieldPlan)
    requires E.ClosedTypes(lib.types) && Mirrors(lib.types, f.enumTy, f.ty) && Leaf(f.ty).Str?
    requires f.source == PathSource ==> forall text :: text != "" ==> admits(text)
    ensures FieldViolates(lib, admits, f) <==> E.Carries(lib.types, f.enumTy)
  {
    hide E.Reaches, E.ClosedTypes, E.IsZero;
    LeafReached(lib.types, f.enumTy, f.ty);
    var ty := LeafTy(lib.types, f.enumTy, f.ty);
    if E.IsEnum(lib.types[ty]) {
      var text := E.Unlisted(lib.types[ty].registered.value);
      assert text !in lib.types[ty].registered.value;
      assert !E.IsZero(E.Text(text)) by { TextIsNotZero(text); }
      assert ReachesLeaf(admits, f.source, f.ty, text) && LeafOffends(lib, f, text);
    }
  }

  lemma TextIsNotZero(text: string)
    requires text != ""
    ensures !E.IsZero(E.Text(text))
  {
  }

  /** Pointers and slices carry what their leaf is. */
  lemma {:induction false} LeafReached(types: E.Types, ty: E.Ty, t: Param)
    requires E.ClosedTypes(types) && Mirrors(types, ty, t) && Leaf(t).Str?
    ensures var leaf := LeafTy(types, ty, t);
            leaf in types && types[leaf].Str? && (E.Carries(types, ty) <==> E.IsEnum(types[leaf]))
    decreases t
  {
    hide E.Reaches, E.ClosedTypes;
    if t.Pointer? || t.Slice? {
      var elem := types[ty].elem;
      LeafReached(types, elem, t.elem);
      if E.Reaches(types, elem, false) {
        E.ReachedByPart(types, ty, elem, false);
      }
      if E.Reaches(types, ty, false) {
        E.ReachedThroughPart(types, ty, false);
      }
    } else {
      if E.IsEnum(types[ty]) {
        E.EnumReached(types, ty, false);
      } else {
        E.NoPartsNoReach(types, ty, false);
      }
    }
  }

  predicate FieldClean(lib: Lib, f: FieldPlan, q: Incoming) {
    !FieldFails(lib, f, q) && FieldErrors(lib, f, q) == []
  }

  // --- The failures of a plan ------------------------------------------------

  /** The texts some routed request has at a placeholder. */
  ghost function Admitted(plan: RequestPlan, name: string): Admits {
    text => exists p :: plan.routes(p) && TextAt(p, name) == text
  }

  /** A request that sends nothing but its path. */
  function OnlyPath(p: PathTexts): Incoming {
    EMPTY_INCOMING.(path := p)
  }

  predicate PathConverts(lib: Lib, fields: seq<FieldPlan>, p: PathTexts) {
    forall i :: 0 <= i < |fields| && fields[i].source == PathSource ==> !FieldFails(lib, fields[i], OnlyPath(p))
  }

  predicate PathOffends(lib: Lib, fields: seq<FieldPlan>, p: PathTexts) {
    exists i :: 0 <= i < |fields| && fields[i].source == PathSource && FieldOffends(lib, fields[i], OnlyPath(p))
  }

  predicate PathClean(lib: Lib, fields: seq<FieldPlan>, p: PathTexts) {
    forall i :: 0 <= i < |fields| && fields[i].source == PathSource ==> FieldClean(lib, fields[i], OnlyPath(p))
  }

  /** The router hands on some request. */
  ghost predicate Routable(plan: RequestPlan) {
    exists p :: plan.routes(p)
  }

  /** It hands on one whose path converts. */
  ghost predicate Convertible(lib: Lib, plan: RequestPlan) {
    exists p :: plan.routes(p) && PathConverts(lib, plan.fields, p)
  }

  /** No routed request fails to bind, although the document may announce it. */
  ghost predicate NeverMalformed(lib: Lib, plan: RequestPlan) {
    || !Routable(plan)
    || (&& plan.body.None?
        && forall i :: 0 <= i < |plan.fields| ==>
             !Fallible(lib, Admitted(plan, plan.fields[i].name), plan.fields[i].source, plan.fields[i].ty))
  }

  /** A body that can hold a value with a violation. */
  ghost predicate BodyViolates(lib: Lib, plan: RequestPlan) {
    plan.body.Some? && !plan.body.value.raw && E.CanViolate(lib.types, plan.body.value.ty)
  }

  /** A parameter outside the path that can violate an enum. */
  ghost predicate SomeFieldViolates(lib: Lib, plan: RequestPlan)
    requires Compiled(lib, plan)
  {
    exists i :: 0 <= i < |plan.fields| && plan.fields[i].source != PathSource
      && FieldViolates(lib, Admitted(plan, plan.fields[i].name), plan.fields[i])
  }

  /** A routed path converts, and it or something beside it violates an enum. */
  ghost predicate EnumsViolate(lib: Lib, plan: RequestPlan)
    requires Compiled(lib, plan)
  {
    exists p :: plan.routes(p) && PathConverts(lib, plan.fields, p)
      && (PathOffends(lib, plan.fields, p) || BodyViolates(lib, plan) || SomeFieldViolates(lib, plan))
  }

  /** The failures a plan can answer with. */
  ghost predicate Announced(lib: Lib, plan: RequestPlan, e: BindError)
    requires Compiled(lib, plan)
  {
    match e
    case Malformed => !NeverMalformed(lib, plan)
    case Oversized => Routable(plan) && plan.body.Some?
    case WrongMedia => Routable(plan) && plan.body.Some?
    case TagViolation => Convertible(lib, plan) && plan.tagged
    case EnumViolation => EnumsViolate(lib, plan)
  }

  /** A parameter's outcome depends on nothing but what its lookup yields. */
  lemma OutcomeByLookup(lib: Lib, f: FieldPlan, p: Incoming, q: Incoming)
    requires Lookup(f.source, f.name, p) == Lookup(f.source, f.name, q)
    ensures FieldFails(lib, f, p) == FieldFails(lib, f, q)
    ensures FieldOffends(lib, f, p) == FieldOffends(lib, f, q) && FieldClean(lib, f, p) == FieldClean(lib, f, q)
  {
  }

  /** The path of a request decides its path parameters, the rest of it the others. */
  lemma PathLookup(q: Incoming, p: PathTexts)
    ensures forall n ::
              Lookup(PathSource, n, q.(path := p)) == Lookup(PathSource, n, OnlyPath(p))
    ensures forall s, n :: s != PathSource ==>
              Lookup(s, n, q.(path := p)) == Lookup(s, n, q) && Lookup(s, n, OnlyPath(p)).None?
  {
  }

  lemma {:induction false} PathOutcome(lib: Lib, fields: seq<FieldPlan>, q: Incoming)
    requires !SomeFieldFails(lib, fields, q)
    ensures PathConverts(lib, fields, q.path)
    ensures PathOffends(lib, fields, q.path) <==>
            exists i :: 0 <= i < |fields| && fields[i].source == PathSource && FieldOffends(lib, fields[i], q)
    ensures PathClean(lib, fields, q.path) <==>
            forall i :: 0 <= i < |fields| && fields[i].source == PathSource ==> FieldClean(lib, fields[i], q)
  {
    hide FieldFails, FieldOffends, FieldClean, Lookup;
    PathLookup(q, q.path);
    assert q.(path := q.path) == q;
    forall i | 0 <= i < |fields| && fields[i].source == PathSource
      ensures FieldFails(lib, fields[i], OnlyPath(q.path)) == FieldFails(lib, fields[i], q)
      ensures FieldOffends(lib, fields[i], OnlyPath(q.path)) == FieldOffends(lib, fields[i], q)
      ensures FieldClean(lib, fields[i], OnlyPath(q.path)) == FieldClean(lib, fields[i], q)
    {
      OutcomeByLookup(lib, fields[i], OnlyPath(q.path), q);
    }
  }

  lemma {:induction false} SomeParameterOffends(lib: Lib, fields: seq<FieldPlan>, n: nat, q: Incoming) returns (i: nat)
    requires n <= |fields| && !SomeFieldFails(lib, fields, q) && ParameterErrors(lib, fields, n, q) != []
    ensures i < n && FieldOffends(lib, fields[i], q)
  {
    hide FieldFails, FieldErrors;
    assert !FieldFails(lib, fields[n - 1], q);
    if FieldErrors(lib, fields[n - 1], q) != [] {
      i := n - 1;
    } else {
      i := SomeParameterOffends(lib, fields, n - 1, q);
    }
  }

  lemma BodyOffenceShows(lib: Lib, plan: RequestPlan, r: HttpRequest)
    requires Compiled(lib, plan) && Admissible(lib, plan, r) && BodyErrors(lib, plan, r.body) != []
    ensures BodyViolates(lib, plan)
  {
    hide E.CanViolate, E.HasType;
    var bp, v := plan.body.value, BodyValue(plan.body.value, r.body);
    E.WalkFindsViolations(lib.types, bp.ty, v, []);
    assert v != E.Nil;
    E.CanViolateIff(lib.types, bp.ty);
  }

  /** Every failure of an admissible request is one the plan can answer with. */
  lemma FailuresAreAnnounced(lib: Lib, plan: RequestPlan, r: HttpRequest)
    requires Compiled(lib, plan) && Admissible(lib, plan, r) && BindOutcome(lib, plan, r).Some?
    ensures Announced(lib, plan, BindOutcome(lib, plan, r).value)
  {
    hide Set, Lookup, Fallible, FieldViolates, E.Constructible, BodyErrors, FieldErrors, E.HasType, Mirrors;
    hide FieldFails, FieldOffends, PathConverts, PathOffends, PathClean;
    var e := BindOutcome(lib, plan, r).value;
    assert Routable(plan);
    if e == Malformed && plan.body.None? {
      var i :| 0 <= i < |plan.fields| && FieldFails(lib, plan.fields[i], r.incoming);
      MalformedShows(lib, plan, r, i);
    } else if e == TagViolation {
      PathOutcome(lib, plan.fields, r.incoming);
    } else if e == EnumViolation {
      ViolationShows(lib, plan, r);
    }
  }

  lemma MalformedShows(lib: Lib, plan: RequestPlan, r: HttpRequest, i: nat)
    requires Admissible(lib, plan, r) && i < |plan.fields| && FieldFails(lib, plan.fields[i], r.incoming)
    ensures !NeverMalformed(lib, plan)
  {
    hide Set, Lookup, Fallible, E.HasType;
    var f := plan.fields[i];
    assert plan.routes(r.incoming.path);
    FailureShows(lib, Admitted(plan, f.name), f.source, f.ty, f.name, r.incoming);
  }

  lemma ViolationShows(lib: Lib, plan: RequestPlan, r: HttpRequest)
    requires Compiled(lib, plan) && Admissible(lib, plan, r) && !SomeFieldFails(lib, plan.fields, r.incoming)
    requires ParameterErrors(lib, plan.fields, |plan.fields|, r.incoming) + BodyErrors(lib, plan, r.body) != []
    ensures EnumsViolate(lib, plan)
  {
    hide Set, Lookup, FieldViolates, E.Constructible, BodyErrors, FieldErrors, E.HasType, Mirrors;
    hide FieldFails, FieldOffends, PathConverts, PathOffends, PathClean;
    var p := r.incoming.path;
    PathOutcome(lib, plan.fields, r.incoming);
    assert plan.routes(p) && PathConverts(lib, plan.fields, p);
    if BodyErrors(lib, plan, r.body) != [] {
      BodyOffenceShows(lib, plan, r);
    } else {
      var i := SomeParameterOffends(lib, plan.fields, |plan.fields|, r.incoming);
      if plan.fields[i].source != PathSource {
        OffenceShows(lib, Admitted(plan, plan.fields[i].name), plan.fields[i], r.incoming);
      }
    }
  }

  // --- Each of them happens --------------------------------------------------

  lemma FineBody(lib: Lib, plan: RequestPlan) returns (b: BodyInput)
    requires Compiled(lib, plan)
    ensures plan.body.Some? ==> BindBody(plan.body.value, b).None?
    ensures plan.body.Some? ==> b.stream.Bytes? && E.HasType(lib.types, plan.body.value.ty, b.stream.value)
    ensures BodyErrors(lib, plan, b) == []
  {
    hide E.ClosedTypes, E.HasType, E.Violates;
    b := BodyInput(true, true, Bytes(2, true, false, E.Nil));
    if plan.body.Some? {
      var rank :| E.Ranked(lib.types, rank);
      var v := E.FineValue(lib.types, rank, plan.body.value.ty);
      b := BodyInput(true, true, Bytes(2, true, false, v));
      E.WalkFindsViolations(lib.types, plan.body.value.ty, v, []);
    }
  }

  predicate FineIn(lib: Lib, f: FieldPlan, v: E.Value) {
    (f.omitZero && E.IsZero(v)) || !E.Violates(lib.types, f.enumTy, v)
  }

  /** The texts that can be sent: from a path those its placeholder admits, and an empty one in a query only. */
  predicate Sendable(admits: Admits, source: Source, text: string) {
    if text == "" then source == QuerySource else source == PathSource ==> admits(text)
  }

  predicate FineText(lib: Lib, f: FieldPlan, text: string) {
    Set(lib, f.ty, One(text)).Some? && FineIn(lib, f, ValueOf(Set(lib, f.ty, One(text)).value))
  }

  /** The parameter can be bound without an error: by sending nothing, or some text. */
  ghost predicate FieldFine(lib: Lib, admits: Admits, f: FieldPlan) {
    || (Omissible(admits, f.source) && FineIn(lib, f, ZeroOf(lib, f.ty)))
    || exists text :: Sendable(admits, f.source, text) && FineText(lib, f, text)
  }

  /** A routed path binds without an error, and so can every parameter beside it. */
  ghost predicate Bindable(lib: Lib, plan: RequestPlan) {
    && (exists p :: plan.routes(p) && PathClean(lib, plan.fields, p))
    && forall i :: 0 <= i < |plan.fields| && plan.fields[i].source != PathSource ==>
         FieldFine(lib, Admitted(plan, plan.fields[i].name), plan.fields[i])
  }

  lemma NullIsFine(lib: Lib, f: FieldPlan)
    requires Mirrors(lib.types, f.enumTy, f.ty) && !Bare(f.ty)
    ensures FineIn(lib, f, ZeroOf(lib, f.ty))
  {
  }

  /** A request that binds a parameter without an error shows that it can be. */
  lemma BoundIsFine(lib: Lib, admits: Admits, f: FieldPlan, q: Incoming)
    requires Mirrors(lib.types, f.enumTy, f.ty) && Handed(admits, f.source, f.name, q) && FieldClean(lib, f, q)
    ensures FieldFine(lib, admits, f)
  {
    hide E.Violates, E.IsZero, V.Reported, Mirrors, Set;
    OffendsWhen(lib, f, q);
    if Lookup(f.source, f.name, q).Some? {
      var raw := Lookup(f.source, f.name, q).value;
      if raw.One? {
        assert Sendable(admits, f.source, raw.text) && FineText(lib, f, raw.text);
      } else {
        ManyConverts(lib, f.ty, raw.texts);
        assert !Bare(f.ty);
        NullIsFine(lib, f);
      }
    }
  }

  function WithText(q: Incoming, source: Source, name: string, text: string): Incoming {
    match source
    case PathSource => q.(path := q.path[name := text])
    case QuerySource => q.(query := q.query[name := [text]])
    case HeaderSource => q.(header := q.header[name := text])
    case CookieSource => q.(cookie := q.cookie[name := text])
  }

  lemma WithTextLookup(q: Incoming, source: Source, name: string, text: string)
    requires text != "" || source == QuerySource
    ensures Lookup(source, name, WithText(q, source, name, text)) == Some(One(text))
    ensures forall s, n :: s != source || n != name ==> Lookup(s, n, WithText(q, source, name, text)) == Lookup(s, n, q)
  {
  }

  lemma SendFine(lib: Lib, admits: Admits, f: FieldPlan, q: Incoming) returns (q': Incoming)
    requires FieldFine(lib, admits, f) && Lookup(f.source, f.name, q).None?
    ensures FieldClean(lib, f, q')
    ensures forall s, n :: s != f.source || n != f.name ==> Lookup(s, n, q') == Lookup(s, n, q)
    ensures f.source != PathSource ==> q'.path == q.path
    ensures q.path == map[] ==> Handed(admits, f.source, f.name, q')
  {
    hide E.Violates, E.IsZero, Set, Lookup, V.Reported;
    if text :| Sendable(admits, f.source, text) && FineText(lib, f, text) {
      q' := WithText(q, f.source, f.name, text);
      WithTextLookup(q, f.source, f.name, text);
    } else {
      q' := q;
    }
    OffendsWhen(lib, f, q');
  }

  /** A parameter is bound without an error on some request its route can hand on exactly when it is fine. */
  lemma ParameterBindsIff(lib: Lib, admits: Admits, f: FieldPlan)
    requires Mirrors(lib.types, f.enumTy, f.ty)
    ensures (exists q :: Handed(admits, f.source, f.name, q) && FieldClean(lib, f, q)) <==> FieldFine(lib, admits, f)
  {
    hide FieldClean, FieldFine, Mirrors, Lookup;
    if FieldFine(lib, admits, f) {
      EmptyLooksUpNothing();
      var q := SendFine(lib, admits, f, EMPTY_INCOMING);
    }
    if q :| Handed(admits, f.source, f.name, q) && FieldClean(lib, f, q) {
      BoundIsFine(lib, admits, f, q);
    }
  }

  /** A request with a given path that binds the first `n` parameters without an error and sends nothing else. */
  lemma {:induction false} FineIncoming(lib: Lib, plan: RequestPlan, p: PathTexts, n: nat) returns (q: Incoming)
    requires Compiled(lib, plan) && Bindable(lib, plan) && PathClean(lib, plan.fields, p) && n <= |plan.fields|
    ensures q.path == p
    ensures forall i :: 0 <= i < |plan.fields| && (i < n || plan.fields[i].source == PathSource) ==>
              FieldClean(lib, plan.fields[i], q)
    ensures forall i :: n <= i < |plan.fields| && plan.fields[i].source != PathSource ==>
              Lookup(plan.fields[i].source, plan.fields[i].name, q).None?
    decreases n
  {
    hide FieldClean, FieldFine, Lookup, E.Constructible, Mirrors;
    if n == 0 {
      q := OnlyPath(p);
      PathLookup(EMPTY_INCOMING, p);
    } else {
      q := FineIncoming(lib, plan, p, n - 1);
      var f := plan.fields[n - 1];
      if f.source != PathSource {
        var q' := SendFine(lib, Admitted(plan, f.name), f, q);
        forall i | 0 <= i < |plan.fields| && i != n - 1 && FieldClean(lib, plan.fields[i], q)
          ensures FieldClean(lib, plan.fields[i], q')
        {
          OutcomeByLookup(lib, plan.fields[i], q, q');
        }
        q := q';
      }
    }
  }

  lemma EmptyLooksUpNothing()
    ensures forall s, n :: Lookup(s, n, EMPTY_INCOMING).None?
  {
  }

  lemma {:induction false} CleanParametersHaveNoErrors(lib: Lib, fields: seq<FieldPlan>, n: nat, q: Incoming)
    requires n <= |fields| && forall i :: 0 <= i < |fields| ==> FieldClean(lib, fields[i], q)
    ensures !SomeFieldFails(lib, fields, q) && ParameterErrors(lib, fields, n, q) == []
    decreases n
  {
    hide FieldErrors, FieldFails;
    if n > 0 {
      CleanParametersHaveNoErrors(lib, fields, n - 1, q);
    }
  }

  /** Some admissible request binds, where every parameter can. */
  lemma SomeRequestBinds(lib: Lib, plan: RequestPlan) returns (r: HttpRequest)
    requires Compiled(lib, plan) && Bindable(lib, plan)
    ensures Admissible(lib, plan, r) && BindOutcome(lib, plan, r).None?
  {
    hide FieldClean, SomeFieldFails, ParameterErrors, BodyErrors, BindBody, E.HasType, Compiled;
    var p :| plan.routes(p) && PathClean(lib, plan.fields, p);
    var q := FineIncoming(lib, plan, p, |plan.fields|);
    CleanParametersHaveNoErrors(lib, plan.fields, |plan.fields|, q);
    var b := FineBody(lib, plan);
    r := HttpRequest(q, b, false, true);
  }

  /** And only there. */
  lemma BindingShowsBindable(lib: Lib, plan: RequestPlan, r: HttpRequest)
    requires Compiled(lib, plan) && Admissible(lib, plan, r) && BindOutcome(lib, plan, r).None?
    ensures Bindable(lib, plan)
  {
    hide FieldErrors, FieldFails, FieldFine, Mirrors, E.Constructible, BodyErrors, FieldClean, PathClean, E.HasType;
    forall i | 0 <= i < |plan.fields|
      ensures FieldClean(lib, plan.fields[i], r.incoming)
    {
      NoErrorsAt(lib, plan.fields, |plan.fields|, r.incoming, i);
    }
    PathOutcome(lib, plan.fields, r.incoming);
    assert plan.routes(r.incoming.path);
    forall i | 0 <= i < |plan.fields| && plan.fields[i].source != PathSource
      ensures FieldFine(lib, Admitted(plan, plan.fields[i].name), plan.fields[i])
    {
      BoundIsFine(lib, Admitted(plan, plan.fields[i].name), plan.fields[i], r.incoming);
    }
  }

  lemma {:induction false} NoErrorsAt(lib: Lib, fields: seq<FieldPlan>, n: nat, q: Incoming, i: nat)
    requires i < n <= |fields| && !SomeFieldFails(lib, fields, q) && ParameterErrors(lib, fields, n, q) == []
    ensures FieldClean(lib, fields[i], q)
    decreases n
  {
    hide FieldErrors, FieldFails;
    if i < n - 1 {
      NoErrorsAt(lib, fields, n - 1, q, i);
    }
  }

  lemma {:induction false} OneOffenderIsEnough(lib: Lib, fields: seq<FieldPlan>, n: nat, q: Incoming, i: nat)
    requires i < n <= |fields| && !SomeFieldFails(lib, fields, q) && FieldOffends(lib, fields[i], q)
    ensures ParameterErrors(lib, fields, n, q) != []
    decreases n
  {
    hide FieldErrors, FieldFails;
    if i < n - 1 {
      OneOffenderIsEnough(lib, fields, n - 1, q, i);
    }
  }

  /** A converting path and a request that sends one parameter beside it, or none. */
  lemma OneBesideThePath(lib: Lib, plan: RequestPlan, p: PathTexts, q: Incoming, i: nat)
    requires Compiled(lib, plan) && PathConverts(lib, plan.fields, p)
    requires i < |plan.fields| ==>
             && plan.fields[i].source != PathSource
             && !FieldFails(lib, plan.fields[i], q) && SendsOnly(q, plan.fields[i].source, plan.fields[i].name)
    requires i >= |plan.fields| ==> q == EMPTY_INCOMING
    ensures !SomeFieldFails(lib, plan.fields, q.(path := p))
    ensures i < |plan.fields| ==> FieldOffends(lib, plan.fields[i], q.(path := p))
                                  == FieldOffends(lib, plan.fields[i], q)
  {
    hide Lookup, Set, Mirrors, E.Constructible, FieldOffends, FieldClean, FieldFails;
    PathLookup(q, p);
    EmptyLooksUpNothing();
    forall j | 0 <= j < |plan.fields|
      ensures !FieldFails(lib, plan.fields[j], q.(path := p))
      ensures j == i ==> FieldOffends(lib, plan.fields[i], q.(path := p)) == FieldOffends(lib, plan.fields[i], q)
    {
      if plan.fields[j].source == PathSource {
        OutcomeByLookup(lib, plan.fields[j], OnlyPath(p), q.(path := p));
      } else if j == i {
        OutcomeByLookup(lib, plan.fields[j], q, q.(path := p));
      } else {
        NothingSentNothingFails(lib, plan.fields[j], q.(path := p));
      }
    }
  }

  lemma NothingSentNothingFails(lib: Lib, f: FieldPlan, q: Incoming)
    requires Lookup(f.source, f.name, q).None?
    ensures !FieldFails(lib, f, q)
  {
  }

  lemma PathOffender(lib: Lib, fields: seq<FieldPlan>, p: PathTexts) returns (i: nat)
    requires PathOffends(lib, fields, p)
    ensures i < |fields| && fields[i].source == PathSource && FieldOffends(lib, fields[i], OnlyPath(p))
  {
    hide FieldOffends;
    var j :| 0 <= j < |fields| && fields[j].source == PathSource && FieldOffends(lib, fields[j], OnlyPath(p));
    i := j;
  }

  /** A request that converts and is reported for one of its parameters. */
  lemma OffendingParameter(lib: Lib, plan: RequestPlan, p: PathTexts) returns (q: Incoming)
    requires Compiled(lib, plan) && PathConverts(lib, plan.fields, p)
    requires PathOffends(lib, plan.fields, p) || SomeFieldViolates(lib, plan)
    ensures q.path == p && !SomeFieldFails(lib, plan.fields, q)
    ensures ParameterErrors(lib, plan.fields, |plan.fields|, q) != []
  {
    hide FieldErrors, FieldViolates, Lookup, Set, Mirrors, E.Constructible, PathConverts, SomeFieldFails;
    if PathOffends(lib, plan.fields, p) {
      q := OnlyPath(p);
      var i := PathOffender(lib, plan.fields, p);
      OneBesideThePath(lib, plan, p, EMPTY_INCOMING, |plan.fields|);
      OneOffenderIsEnough(lib, plan.fields, |plan.fields|, q, i);
    } else {
      var i :| 0 <= i < |plan.fields| && plan.fields[i].source != PathSource
        && FieldViolates(lib, Admitted(plan, plan.fields[i].name), plan.fields[i]);
      var sent := OffendingRequest(lib, Admitted(plan, plan.fields[i].name), plan.fields[i]);
      q := sent.(path := p);
      OneBesideThePath(lib, plan, p, sent, i);
      OneOffenderIsEnough(lib, plan.fields, |plan.fields|, q, i);
    }
  }

  lemma OffendingBody(lib: Lib, plan: RequestPlan) returns (b: BodyInput)
    requires Compiled(lib, plan) && BodyViolates(lib, plan)
    ensures BindBody(plan.body.value, b).None? && BodyErrors(lib, plan, b) != []
    ensures b.stream.Bytes? && E.HasType(lib.types, plan.body.value.ty, b.stream.value)
  {
    hide E.Constructible, E.CanViolate, E.Violates, E.HasType, E.IsZero;
    E.CanViolateIff(lib.types, plan.body.value.ty);
    var v :| E.Offends(lib.types, plan.body.value.ty, v);
    b := BodyInput(true, true, Bytes(2, true, false, v));
    E.WalkFindsViolations(lib.types, plan.body.value.ty, v, []);
  }

  /** Each failure a plan can answer with is the answer to some admissible request. */
  lemma AnnouncedFailuresHappen(lib: Lib, plan: RequestPlan, e: BindError) returns (r: HttpRequest)
    requires Compiled(lib, plan) && Announced(lib, plan, e)
    ensures Admissible(lib, plan, r) && BindOutcome(lib, plan, r) == Some(e) && r.encodes
  {
    hide Compiled, NeverMalformed, EnumsViolate;
    hide SomeFieldFails, ParameterErrors, BodyErrors, E.HasType, PathConverts;
    match e
    case Oversized =>
      var p :| plan.routes(p);
      r := HttpRequest(OnlyPath(p), BodyInput(true, true, TooLarge), false, true);
    case WrongMedia =>
      var p :| plan.routes(p);
      r := HttpRequest(OnlyPath(p), BodyInput(true, false, TooLarge), false, true);
    case TagViolation =>
      var p :| plan.routes(p) && PathConverts(lib, plan.fields, p);
      var fine := FineBody(lib, plan);
      OneBesideThePath(lib, plan, p, EMPTY_INCOMING, |plan.fields|);
      r := HttpRequest(OnlyPath(p), fine, true, true);
    case EnumViolation => r := ViolatingRequest(lib, plan);
    case Malformed => r := MalformedRequest(lib, plan);
  }

  lemma ViolatingRequest(lib: Lib, plan: RequestPlan) returns (r: HttpRequest)
    requires Compiled(lib, plan) && EnumsViolate(lib, plan)
    ensures Admissible(lib, plan, r) && BindOutcome(lib, plan, r) == Some(EnumViolation) && r.encodes
  {
    hide Compiled, SomeFieldFails, ParameterErrors, BodyErrors, E.HasType, PathConverts, PathOffends, BodyViolates;
    hide SomeFieldViolates, BindBody;
    var p :| plan.routes(p) && PathConverts(lib, plan.fields, p)
      && (PathOffends(lib, plan.fields, p) || BodyViolates(lib, plan) || SomeFieldViolates(lib, plan));
    if BodyViolates(lib, plan) {
      var b := OffendingBody(lib, plan);
      OneBesideThePath(lib, plan, p, EMPTY_INCOMING, |plan.fields|);
      r := HttpRequest(OnlyPath(p), b, false, true);
    } else {
      var fine := FineBody(lib, plan);
      var q := OffendingParameter(lib, plan, p);
      r := HttpRequest(q, fine, false, true);
    }
  }

  lemma MalformedRequest(lib: Lib, plan: RequestPlan) returns (r: HttpRequest)
    requires !NeverMalformed(lib, plan)
    ensures Admissible(lib, plan, r) && BindOutcome(lib, plan, r) == Some(Malformed) && r.encodes
  {
    hide Set, Lookup, Fallible, E.HasType, ParameterErrors, BodyErrors;
    var p :| plan.routes(p);
    var b := BodyInput(true, true, Unreadable);
    if plan.body.Some? {
      r := HttpRequest(OnlyPath(p), b, false, true);
    } else {
      var i :| 0 <= i < |plan.fields|
        && Fallible(lib, Admitted(plan, plan.fields[i].name), plan.fields[i].source, plan.fields[i].ty);
      var q := FailingIncoming(lib, plan, i);
      assert FieldFails(lib, plan.fields[i], q);
      r := HttpRequest(q, b, false, true);
    }
  }

  /** A request with a routed path on which a fallible parameter fails. */
  lemma FailingIncoming(lib: Lib, plan: RequestPlan, i: nat) returns (q: Incoming)
    requires Routable(plan) && i < |plan.fields|
    requires Fallible(lib, Admitted(plan, plan.fields[i].name), plan.fields[i].source, plan.fields[i].ty)
    ensures plan.routes(q.path) && FieldFails(lib, plan.fields[i], q)
  {
    hide Set, Fallible, SendsOnly;
    var f := plan.fields[i];
    var sent := FailingRequest(lib, Admitted(plan, f.name), f.source, f.ty, f.name);
    if f.source == PathSource {
      var p :| plan.routes(p) && TextAt(p, f.name) == TextAt(sent.path, f.name);
      q := OnlyPath(p);
    } else {
      var p :| plan.routes(p);
      q := sent.(path := p);
    }
    OutcomeByLookup(lib, f, sent, q);
  }

  /** The flags are sound: what a plan can answer with, it documents. */
  lemma AnnouncedIsFlagged(lib: Lib, plan: RequestPlan, e: BindError)
    requires Compiled(lib, plan) && Announced(lib, plan, e)
    ensures e.Malformed? ==> CanFailBind(plan)
    ensures e.TagViolation? || e.EnumViolation? ==> CanFailValidation(lib, plan)
  {
    hide FieldViolates, Fallible, Mirrors, E.Constructible, E.Reaches, FieldOffends, PathConverts, PathOffends;
    if e.Malformed? && plan.body.None? {
      var i :| 0 <= i < |plan.fields|
        && Fallible(lib, Admitted(plan, plan.fields[i].name), plan.fields[i].source, plan.fields[i].ty);
      var f := plan.fields[i];
      FallibleIsFlagged(lib, Admitted(plan, f.name), f.source, f.ty);
    } else if e.EnumViolation? {
      TypesKnown(lib, plan);
      if BodyViolates(lib, plan) {
        E.LiveIsCarried(lib.types, plan.body.value.ty);
      } else if SomeFieldViolates(lib, plan) {
        var i :| 0 <= i < |plan.fields| && plan.fields[i].source != PathSource
          && FieldViolates(lib, Admitted(plan, plan.fields[i].name), plan.fields[i]);
        var q := OffendingRequest(lib, Admitted(plan, plan.fields[i].name), plan.fields[i]);
        ViolatorCarries(lib, plan.fields[i], q);
      } else {
        var p :| PathOffends(lib, plan.fields, p);
        var i := PathOffender(lib, plan.fields, p);
        ViolatorCarries(lib, plan.fields[i], OnlyPath(p));
      }
    }
  }

  lemma FallibleIsFlagged(lib: Lib, admits: Admits, source: Source, t: Param)
    requires Fallible(lib, admits, source, t)
    ensures CanFailBinding(source, t)
  {
    LeafIsLeaf(t);
  }

  lemma ViolatorCarries(lib: Lib, f: FieldPlan, q: Incoming)
    requires E.ClosedTypes(lib.types) && Mirrors(lib.types, f.enumTy, f.ty) && FieldOffends(lib, f, q)
    ensures E.Carries(lib.types, f.enumTy)
  {
    hide E.Reaches, E.ClosedTypes, V.Reported, FieldValue;
    if !E.Carries(lib.types, f.enumTy) {
      OffendsWhen(lib, f, q);
      E.NothingReachedNothingViolated(lib.types, f.enumTy, FieldValue(lib, f, q), false);
    }
  }
}
