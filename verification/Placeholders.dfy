/**
  Routes whose placeholders are matched each on its own: what a request's plan
  can come to is then decided parameter by parameter.
 */
module Placeholders {
  import opened Wrappers
  import opened Parameters
  import opened Binding
  import E = Enums

  /** Each path parameter's placeholder is matched on its own. */
  ghost predicate Independent(plan: RequestPlan, admits: string -> Admits) {
    forall p :: plan.routes(p) <==> AdmittedPath(plan.fields, admits, p)
  }

  predicate AdmittedPath(fields: seq<FieldPlan>, admits: string -> Admits, p: PathTexts) {
    forall i :: 0 <= i < |fields| && fields[i].source == PathSource ==>
      admits(fields[i].name)(TextAt(p, fields[i].name))
  }

  /** The placeholder admits some text. */
  ghost predicate Satisfiable(admits: Admits) {
    exists text :: admits(text)
  }

  /** Some text the placeholder admits converts. */
  ghost predicate FieldConverts(lib: Lib, admits: Admits, f: FieldPlan) {
    exists text :: admits(text) && Converts(lib, f, text)
  }

  predicate Converts(lib: Lib, f: FieldPlan, text: string) {
    text == "" || Set(lib, f.ty, One(text)).Some?
  }

  /** One good text for each placeholder makes a path of good texts. */
  lemma {:induction false} ChoosePath(fields: seq<FieldPlan>, good: (FieldPlan, string) -> bool, n: nat)
    returns (p: PathTexts)
    requires Distinct(fields) && n <= |fields|
    requires forall i :: 0 <= i < |fields| && fields[i].source == PathSource ==> exists text :: good(fields[i], text)
    ensures forall i :: 0 <= i < n && fields[i].source == PathSource ==> good(fields[i], TextAt(p, fields[i].name))
    decreases n
  {
    p := map[];
    if n > 0 {
      p := ChoosePath(fields, good, n - 1);
      var f := fields[n - 1];
      if f.source == PathSource {
        var text :| good(f, text);
        p := p[f.name := text];
      }
    }
  }

  function TextRequest(f: FieldPlan, text: string): Incoming {
    OnlyPath(map[f.name := text])
  }

  /** A path parameter's outcome depends on nothing but its own text. */
  lemma OutcomeByText(lib: Lib, f: FieldPlan, q: Incoming)
    requires f.source == PathSource
    ensures var alone := TextRequest(f, TextAt(q.path, f.name));
            && FieldFails(lib, f, q) == FieldFails(lib, f, alone) == !Converts(lib, f, TextAt(q.path, f.name))
            && FieldOffends(lib, f, q) == FieldOffends(lib, f, alone)
            && FieldClean(lib, f, q) == FieldClean(lib, f, alone)
  {
    hide FieldOffends, FieldClean;
    OutcomeByLookup(lib, f, q, TextRequest(f, TextAt(q.path, f.name)));
  }

  /** Only a path parameter minds what its placeholder admits. */
  lemma OthersDoNotMind(lib: Lib, a: Admits, b: Admits, f: FieldPlan)
    requires Mirrors(lib.types, f.enumTy, f.ty) && f.source != PathSource
    ensures Fallible(lib, a, f.source, f.ty) == Fallible(lib, b, f.source, f.ty)
    ensures FieldViolates(lib, a, f) == FieldViolates(lib, b, f)
    ensures FieldFine(lib, a, f) == FieldFine(lib, b, f)
  {
    hide FieldOffends, FieldClean, Fails, Fallible, FieldViolates, FieldFine, Mirrors;
    ParameterFailsIff(lib, a, f.source, f.ty, f.name);
    ParameterFailsIff(lib, b, f.source, f.ty, f.name);
    ParameterViolatesIff(lib, a, f);
    ParameterViolatesIff(lib, b, f);
    ParameterBindsIff(lib, a, f);
    ParameterBindsIff(lib, b, f);
    assert forall q :: Handed(a, f.source, f.name, q) && Handed(b, f.source, f.name, q);
  }

  /** Some request is routed exactly when every placeholder admits a text. */
  lemma RoutableIff(lib: Lib, plan: RequestPlan, admits: string -> Admits)
    requires Compiled(lib, plan) && Independent(plan, admits)
    ensures Routable(plan) <==> forall i :: 0 <= i < |plan.fields| && plan.fields[i].source == PathSource ==>
              Satisfiable(admits(plan.fields[i].name))
  {
    hide Mirrors, E.Constructible;
    if forall i :: 0 <= i < |plan.fields| && plan.fields[i].source == PathSource ==>
        Satisfiable(admits(plan.fields[i].name)) {
      var good := (f: FieldPlan, text: string) => admits(f.name)(text);
      forall i | 0 <= i < |plan.fields| && plan.fields[i].source == PathSource
        ensures exists text :: good(plan.fields[i], text)
      {
        var text :| admits(plan.fields[i].name)(text);
        assert good(plan.fields[i], text);
      }
      var p := ChoosePath(plan.fields, good, |plan.fields|);
      assert AdmittedPath(plan.fields, admits, p);
    }
  }

  /** Some routed path converts exactly when every placeholder admits a text that does. */
  lemma ConvertibleIff(lib: Lib, plan: RequestPlan, admits: string -> Admits)
    requires Compiled(lib, plan) && Independent(plan, admits)
    ensures Convertible(lib, plan) <==> forall i :: 0 <= i < |plan.fields| && plan.fields[i].source == PathSource ==>
              FieldConverts(lib, admits(plan.fields[i].name), plan.fields[i])
  {
    hide Mirrors, E.Constructible, FieldFails, Converts;
    forall f: FieldPlan, p | f.source == PathSource
      ensures FieldFails(lib, f, OnlyPath(p)) == !Converts(lib, f, TextAt(p, f.name))
    {
      OutcomeByText(lib, f, OnlyPath(p));
    }
    if forall i :: 0 <= i < |plan.fields| && plan.fields[i].source == PathSource ==>
        FieldConverts(lib, admits(plan.fields[i].name), plan.fields[i]) {
      var good := (f: FieldPlan, text: string) => admits(f.name)(text) && Converts(lib, f, text);
      forall i | 0 <= i < |plan.fields| && plan.fields[i].source == PathSource
        ensures exists text :: good(plan.fields[i], text)
      {
        var text :| admits(plan.fields[i].name)(text) && Converts(lib, plan.fields[i], text);
        assert good(plan.fields[i], text);
      }
      var p := ChoosePath(plan.fields, good, |plan.fields|);
      assert AdmittedPath(plan.fields, admits, p);
    }
  }

  /** A path parameter is fine exactly when its placeholder admits a text that binds without an error. */
  lemma PathFineIff(lib: Lib, admits: Admits, f: FieldPlan)
    requires Mirrors(lib.types, f.enumTy, f.ty) && f.source == PathSource
    ensures FieldFine(lib, admits, f) <==> exists text :: admits(text) && FieldClean(lib, f, TextRequest(f, text))
  {
    hide FieldClean, FieldFine, Mirrors, FieldFails, FieldOffends;
    ParameterBindsIff(lib, admits, f);
    if q :| Handed(admits, f.source, f.name, q) && FieldClean(lib, f, q) {
      OutcomeByText(lib, f, q);
    }
    if text :| admits(text) && FieldClean(lib, f, TextRequest(f, text)) {
      assert Handed(admits, f.source, f.name, TextRequest(f, text));
    }
  }

  /** Some routed request binds exactly when every parameter can be bound without an error. */
  lemma BindableIff(lib: Lib, plan: RequestPlan, admits: string -> Admits)
    requires Compiled(lib, plan) && Independent(plan, admits)
    ensures Bindable(lib, plan) <==> forall i :: 0 <= i < |plan.fields| ==>
              FieldFine(lib, admits(plan.fields[i].name), plan.fields[i])
  {
    hide Mirrors, E.Constructible, FieldFails, FieldClean, FieldFine, FieldOffends;
    forall i | 0 <= i < |plan.fields| && plan.fields[i].source != PathSource
      ensures FieldFine(lib, admits(plan.fields[i].name), plan.fields[i])
              == FieldFine(lib, Admitted(plan, plan.fields[i].name), plan.fields[i])
    {
      OthersDoNotMind(lib, admits(plan.fields[i].name), Admitted(plan, plan.fields[i].name), plan.fields[i]);
    }
    forall f: FieldPlan, p | f.source == PathSource
      ensures FieldClean(lib, f, OnlyPath(p)) == FieldClean(lib, f, TextRequest(f, TextAt(p, f.name)))
    {
      OutcomeByText(lib, f, OnlyPath(p));
    }
    forall i | 0 <= i < |plan.fields| && plan.fields[i].source == PathSource
      ensures FieldFine(lib, admits(plan.fields[i].name), plan.fields[i]) <==>
              exists text :: admits(plan.fields[i].name)(text)
                && FieldClean(lib, plan.fields[i], TextRequest(plan.fields[i], text))
    {
      PathFineIff(lib, admits(plan.fields[i].name), plan.fields[i]);
    }
    if forall i :: 0 <= i < |plan.fields| ==> FieldFine(lib, admits(plan.fields[i].name), plan.fields[i]) {
      var good := (f: FieldPlan, text: string) => admits(f.name)(text) && FieldClean(lib, f, TextRequest(f, text));
      forall i | 0 <= i < |plan.fields| && plan.fields[i].source == PathSource
        ensures exists text :: good(plan.fields[i], text)
      {
        var text :| admits(plan.fields[i].name)(text)
          && FieldClean(lib, plan.fields[i], TextRequest(plan.fields[i], text));
        assert good(plan.fields[i], text);
      }
      var p := ChoosePath(plan.fields, good, |plan.fields|);
      assert AdmittedPath(plan.fields, admits, p);
    }
  }

  /** In a routed path, any placeholder's text can be exchanged for another it admits. */
  lemma Exchanged(lib: Lib, plan: RequestPlan, admits: string -> Admits, p: PathTexts, i: nat, text: string)
    requires Compiled(lib, plan) && Independent(plan, admits) && plan.routes(p)
    requires i < |plan.fields| && plan.fields[i].source == PathSource && admits(plan.fields[i].name)(text)
    ensures plan.routes(p[plan.fields[i].name := text])
  {
    hide Mirrors, E.Constructible;
    var p' := p[plan.fields[i].name := text];
    assert AdmittedPath(plan.fields, admits, p);
    assert AdmittedPath(plan.fields, admits, p');
  }

  /** A parameter fails on some routed request exactly when its own placeholder lets it. */
  lemma FallibleAlone(lib: Lib, plan: RequestPlan, admits: string -> Admits, i: nat)
    requires Compiled(lib, plan) && Independent(plan, admits) && Routable(plan) && i < |plan.fields|
    ensures var f := plan.fields[i];
            Fallible(lib, Admitted(plan, f.name), f.source, f.ty) <==>
            Fallible(lib, admits(f.name), f.source, f.ty)
  {
    hide Mirrors, E.Constructible, Fallible, Set;
    var f := plan.fields[i];
    if f.source != PathSource {
      OthersDoNotMind(lib, Admitted(plan, f.name), admits(f.name), f);
    } else {
      var p :| plan.routes(p);
      forall text
        ensures Admitted(plan, f.name)(text) == admits(f.name)(text)
      {
        if admits(f.name)(text) {
          Exchanged(lib, plan, admits, p, i, text);
          assert TextAt(p[f.name := text], f.name) == text;
        }
      }
      SameTextsSameFailures(lib, Admitted(plan, f.name), admits(f.name), f);
    }
  }

  lemma SameTextsSameFailures(lib: Lib, a: Admits, b: Admits, f: FieldPlan)
    requires forall text :: a(text) == b(text)
    ensures Fallible(lib, a, f.source, f.ty) == Fallible(lib, b, f.source, f.ty)
  {
    hide Fails, Fallible;
    ParameterFailsIff(lib, a, f.source, f.ty, f.name);
    ParameterFailsIff(lib, b, f.source, f.ty, f.name);
    assert forall q :: Handed(a, f.source, f.name, q) == Handed(b, f.source, f.name, q);
  }

  /** No routed request fails to bind exactly when there is no body and no placeholder lets its parameter fail. */
  lemma NeverMalformedIff(lib: Lib, plan: RequestPlan, admits: string -> Admits)
    requires Compiled(lib, plan) && Independent(plan, admits)
    ensures NeverMalformed(lib, plan) <==>
            || !Routable(plan)
            || (&& plan.body.None?
                && forall i :: 0 <= i < |plan.fields| ==>
                     !Fallible(lib, admits(plan.fields[i].name), plan.fields[i].source, plan.fields[i].ty))
  {
    hide Compiled, Independent, Fallible;
    if Routable(plan) {
      forall i | 0 <= i < |plan.fields|
        ensures var f := plan.fields[i];
                Fallible(lib, Admitted(plan, f.name), f.source, f.ty) <==>
                Fallible(lib, admits(f.name), f.source, f.ty)
      {
        FallibleAlone(lib, plan, admits, i);
      }
    }
  }

  ghost predicate SomeParameterViolates(lib: Lib, plan: RequestPlan, admits: string -> Admits)
    requires Compiled(lib, plan)
  {
    exists i :: 0 <= i < |plan.fields| && FieldViolates(lib, admits(plan.fields[i].name), plan.fields[i])
  }

  lemma OffendingPath(lib: Lib, plan: RequestPlan, admits: string -> Admits, p: PathTexts, i: nat)
    returns (p': PathTexts)
    requires Compiled(lib, plan) && Independent(plan, admits)
    requires plan.routes(p) && PathConverts(lib, plan.fields, p)
    requires i < |plan.fields| && plan.fields[i].source == PathSource
    requires FieldViolates(lib, admits(plan.fields[i].name), plan.fields[i])
    ensures plan.routes(p') && PathConverts(lib, plan.fields, p') && PathOffends(lib, plan.fields, p')
  {
    hide Mirrors, E.Constructible, FieldOffends, FieldViolates, FieldClean, SendsOnly, FieldErrors, Converts;
    hide Independent, FieldFails;
    var f := plan.fields[i];
    var q := OffendingRequest(lib, admits(f.name), f);
    var text := TextAt(q.path, f.name);
    p' := p[f.name := text];
    Exchanged(lib, plan, admits, p, i, text);
    assert FieldOffends(lib, f, OnlyPath(p')) && !FieldFails(lib, f, OnlyPath(p')) by {
      OutcomeByText(lib, f, q);
      OutcomeByText(lib, f, OnlyPath(p'));
      OffenderConverts(lib, f, q);
    }
    forall j | 0 <= j < |plan.fields| && plan.fields[j].source == PathSource
      ensures !FieldFails(lib, plan.fields[j], OnlyPath(p'))
    {
      if j != i {
        assert TextAt(p', plan.fields[j].name) == TextAt(p, plan.fields[j].name);
        OutcomeByText(lib, plan.fields[j], OnlyPath(p));
        OutcomeByText(lib, plan.fields[j], OnlyPath(p'));
      }
    }
  }

  lemma OffenderConverts(lib: Lib, f: FieldPlan, q: Incoming)
    requires FieldOffends(lib, f, q)
    ensures !FieldFails(lib, f, q)
  {
  }

  /** Some routed request violates an enum exactly when paths convert and some parameter or the body can violate one. */
  lemma EnumsViolateIff(lib: Lib, plan: RequestPlan, admits: string -> Admits)
    requires Compiled(lib, plan) && Independent(plan, admits)
    ensures EnumsViolate(lib, plan) <==>
            Convertible(lib, plan) && (BodyViolates(lib, plan) || SomeParameterViolates(lib, plan, admits))
  {
    hide Mirrors, E.Constructible, FieldOffends, FieldViolates, PathConverts, PathOffends, BodyViolates, Distinct;
    forall i | 0 <= i < |plan.fields| && plan.fields[i].source != PathSource
      ensures FieldViolates(lib, admits(plan.fields[i].name), plan.fields[i])
              == FieldViolates(lib, Admitted(plan, plan.fields[i].name), plan.fields[i])
    {
      OthersDoNotMind(lib, admits(plan.fields[i].name), Admitted(plan, plan.fields[i].name), plan.fields[i]);
    }
    if EnumsViolate(lib, plan) {
      var p :| plan.routes(p) && PathConverts(lib, plan.fields, p)
        && (PathOffends(lib, plan.fields, p) || BodyViolates(lib, plan) || SomeFieldViolates(lib, plan));
      if PathOffends(lib, plan.fields, p) {
        var i := PathOffender(lib, plan.fields, p);
        assert AdmittedPath(plan.fields, admits, p);
        OffenceShows(lib, admits(plan.fields[i].name), plan.fields[i], OnlyPath(p));
      }
    }
    if Convertible(lib, plan) && SomeParameterViolates(lib, plan, admits) {
      var p :| plan.routes(p) && PathConverts(lib, plan.fields, p);
      var i :| 0 <= i < |plan.fields| && FieldViolates(lib, admits(plan.fields[i].name), plan.fields[i]);
      if plan.fields[i].source == PathSource {
        var p' := OffendingPath(lib, plan, admits, p, i);
      }
    }
  }
}
