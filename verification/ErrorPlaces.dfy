/**
  Where enum errors come from and what they say: the places a value leads to,
  the wire form of a place's path, and the message that lists what is allowed.
 */
module ErrorPlaces {
  import opened Wrappers
  import opened Enums

  // --- Places ----------------------------------------------------------------

  /** A part of a value, with its type and the path that leads to it. */
  datatype Place = Place(ty: Ty, value: Value, path: Path)

  /** A path one name further, unless the name is empty. */
  function Named(path: Path, name: string): Path {
    path + if name == "" then [] else [Name(name)]
  }

  /** The name a field has in the JSON form: its tag, or nothing if it is embedded, or its own. */
  ghost predicate HasName(f: Field, name: string) {
    if f.tag.Some? && f.tag.value != "" then name == f.tag.value
    else name == if f.anonymous then "" else f.name
  }

  /** Part of the JSON form: exported or embedded, and not tagged away. */
  ghost predicate InJSON(f: Field) {
    (f.exported || f.anonymous) && f.tag != Some("-")
  }

  /** One step from a value into its parts. */
  ghost predicate StepsTo(w: Types, a: Place, b: Place) {
    a.ty in w &&
    match w[a.ty]
    case Pointer(elem) => a.value.Ref? && b == Place(elem, a.value.target, a.path)
    case List(elem, _) =>
      a.value.Items? && exists i :: 0 <= i < |a.value.items| && b == Place(elem, a.value.items[i], a.path + [Index(i)])
    case Dict(key, elem) =>
      a.value.Entries? && exists e :: e in a.value.entries && EntryStep(key, elem, e, a, b)
    case Struct(fields) => a.value.Record? && exists i: nat :: FieldStep(fields, i, a, b)
    case _ => false
  }

  /** Into the key or the value of an entry; both go by the key's name. */
  ghost predicate EntryStep(key: Ty, elem: Ty, e: MapEntry, a: Place, b: Place) {
    b == Place(key, e.key, Named(a.path, e.rendered)) || b == Place(elem, e.value, Named(a.path, e.rendered))
  }

  /** Into a member, unless it is a zero value that may be omitted. */
  ghost predicate FieldStep(fields: seq<Field>, i: nat, a: Place, b: Place)
    requires a.value.Record?
  {
    && i < |fields| && i < |a.value.members| && InJSON(fields[i])
    && !(fields[i].omitZero && IsZero(a.value.members[i]))
    && b.ty == fields[i].ty && b.value == a.value.members[i]
    && exists name :: HasName(fields[i], name) && b.path == Named(a.path, name)
  }

  ghost predicate Trail(w: Types, ps: seq<Place>) {
    ps != [] && forall i :: 0 <= i < |ps| - 1 ==> StepsTo(w, ps[i], ps[i + 1])
  }

  /** A text that is not one of those registered for its type. */
  ghost predicate Unlisted(w: Types, p: Place) {
    && p.ty in w && w[p.ty].Str? && w[p.ty].registered.Some? && w[p.ty].registered.value != []
    && p.value.Text? && p.value.text !in w[p.ty].registered.value
  }

  /** The error that belongs to a place: its path's wire form, or "body" where that is empty, and what is allowed. */
  ghost predicate Tells(w: Types, p: Place, err: ValidationError)
    requires Unlisted(w, p)
  {
    && (Render(p.path) != "" ==> err.field == Render(p.path))
    && (Render(p.path) == "" ==> err.field == "body")
    && err.message == err.field + " must be one of: " + Join(w[p.ty].registered.value)
  }

  ghost predicate ToldFrom(w: Types, a: Place, err: ValidationError) {
    exists ps :: Trail(w, ps) && ps[0] == a && Unlisted(w, ps[|ps| - 1]) && Tells(w, ps[|ps| - 1], err)
  }

  lemma ToldByStep(w: Types, a: Place, b: Place, err: ValidationError)
    requires StepsTo(w, a, b) && ToldFrom(w, b, err)
    ensures ToldFrom(w, a, err)
  {
    hide StepsTo, Unlisted, Tells;
    var ps :| Trail(w, ps) && ps[0] == b && Unlisted(w, ps[|ps| - 1]) && Tells(w, ps[|ps| - 1], err);
    var more := [a] + ps;
    assert forall i :: 0 < i < |more| ==> more[i] == ps[i - 1];
    assert Trail(w, more) && more[|more| - 1] == ps[|ps| - 1];
  }

  lemma ToldHere(w: Types, a: Place, err: ValidationError)
    requires Unlisted(w, a) && Tells(w, a, err)
    ensures ToldFrom(w, a, err)
  {
    assert Trail(w, [a]) && [a][|[a]| - 1] == a;
  }

  /** Told here, or one step on. */
  lemma ToldSplits(w: Types, a: Place, err: ValidationError) returns (here: bool, b: Place)
    requires ToldFrom(w, a, err)
    ensures here ==> Unlisted(w, a) && Tells(w, a, err)
    ensures !here ==> StepsTo(w, a, b) && ToldFrom(w, b, err)
  {
    hide StepsTo, Unlisted, Tells;
    var ps :| Trail(w, ps) && ps[0] == a && Unlisted(w, ps[|ps| - 1]) && Tells(w, ps[|ps| - 1], err);
    here, b := |ps| == 1, a;
    if !here {
      b := ps[1];
      var rest := ps[1..];
      assert StepsTo(w, ps[0], ps[0 + 1]);
      assert forall i :: 0 <= i < |rest| ==> rest[i] == ps[i + 1];
      assert Trail(w, rest) && rest[|rest| - 1] == ps[|ps| - 1];
    }
  }

  /**
    The walk reports exactly the errors of the places a value leads to where an
    unregistered text is.
   */
  lemma {:induction false} ErrorsAreTold(w: Types, t: Ty, v: Value, path: Path, err: ValidationError)
    ensures err in Walk(w, t, v, path) <==> ToldFrom(w, Place(t, v, path), err)
    decreases v, 1, 0
  {
    hide Walk, WalkItems, WalkEntries, WalkFields, ToldFrom, StepsTo, Unlisted, Tells;
    var a := Place(t, v, path);
    if err in Walk(w, t, v, path) {
      ReportedIsTold(w, t, v, path, err);
    }
    if ToldFrom(w, a, err) {
      var here, b := ToldSplits(w, a, err);
      if here {
        HereIsReported(w, a, err);
      } else {
        StepIsSmaller(w, a, b);
        ErrorsAreTold(w, b.ty, b.value, b.path, err);
        PartIsReported(w, a, b, err);
      }
    }
  }

  lemma StepIsSmaller(w: Types, a: Place, b: Place)
    requires StepsTo(w, a, b)
    ensures b.value < a.value
  {
  }

  lemma HereIsReported(w: Types, a: Place, err: ValidationError)
    requires Unlisted(w, a) && Tells(w, a, err)
    ensures err in Walk(w, a.ty, a.value, a.path)
  {
    hide Render, Join;
  }

  lemma {:induction false} PartIsReported(w: Types, a: Place, b: Place, err: ValidationError)
    requires StepsTo(w, a, b) && err in Walk(w, b.ty, b.value, b.path)
    ensures err in Walk(w, a.ty, a.value, a.path)
  {
    hide WalkItems, WalkEntries, WalkFields, Ordered;
    match w[a.ty]
    case List(elem, _) =>
      var i :| 0 <= i < |a.value.items| && b == Place(elem, a.value.items[i], a.path + [Index(i)]);
      ItemIsReported(w, elem, a.value, |a.value.items|, a.path, i, err);
    case Dict(key, elem) =>
      var e :| e in a.value.entries && EntryStep(key, elem, e, a, b);
      var es := Ordered(a.value);
      var i :| 0 <= i < |es| && es[i] == e;
      EntryIsReported(w, key, elem, a.value, |a.value.entries|, a.path, i, err);
    case Struct(fields) =>
      var i: nat :| FieldStep(fields, i, a, b);
      FieldIsReported(w, fields, |fields|, a.value, a.path, i, b, err);
    case _ =>
  }

  lemma {:induction false} ItemIsReported(w: Types, elem: Ty, v: Value, n: nat, path: Path, i: nat,
                                          err: ValidationError)
    requires v.Items? && i < n <= |v.items| && err in Walk(w, elem, v.items[i], path + [Index(i)])
    ensures err in WalkItems(w, elem, v, n, path)
    decreases n
  {
    hide Walk;
    if i < n - 1 {
      ItemIsReported(w, elem, v, n - 1, path, i, err);
    }
  }

  lemma {:induction false} EntryIsReported(w: Types, key: Ty, elem: Ty, v: Value, n: nat, path: Path, i: nat,
                                           err: ValidationError)
    requires v.Entries? && i < n <= |v.entries|
    requires var e := Ordered(v)[i];
             || err in Walk(w, key, e.key, Named(path, e.rendered))
             || err in Walk(w, elem, e.value, Named(path, e.rendered))
    ensures err in WalkEntries(w, key, elem, v, n, path)
    decreases n
  {
    hide Walk, Ordered;
    if i < n - 1 {
      EntryIsReported(w, key, elem, v, n - 1, path, i, err);
    } else {
      NamedIsPushed(path, Ordered(v)[i].rendered);
    }
  }

  lemma NamedIsPushed(path: Path, name: string)
    ensures Named(path, name) == Push(path, name)
  {
  }

  lemma NameIsJSON(f: Field, name: string)
    requires InJSON(f) && HasName(f, name)
    ensures Included(f) && JSONName(f) == Some(name)
  {
  }

  lemma {:induction false} FieldIsReported(w: Types, fields: seq<Field>, n: nat, v: Value, path: Path, i: nat,
                                           b: Place, err: ValidationError)
    requires v.Record? && i < n <= |fields| && FieldStep(fields, i, Place(0, v, path), b)
    requires err in Walk(w, b.ty, b.value, b.path)
    ensures err in WalkFields(w, fields, n, v, path)
    decreases n
  {
    hide Walk, IsZero, JSONName, Included, HasName, InJSON;
    if i < n - 1 {
      FieldIsReported(w, fields, n - 1, v, path, i, b, err);
    } else {
      var name :| HasName(fields[i], name) && b.path == Named(path, name);
      NameIsJSON(fields[i], name);
      NamedIsPushed(path, name);
    }
  }

  /** What the walk reports comes from a place. */
  lemma {:induction false} ReportedIsTold(w: Types, t: Ty, v: Value, path: Path, err: ValidationError)
    requires err in Walk(w, t, v, path)
    ensures ToldFrom(w, Place(t, v, path), err)
    decreases v, 0, 0
  {
    hide WalkItems, WalkEntries, WalkFields, ToldFrom, Ordered, Render, Join, IsZero, JSONName, Included;
    var a := Place(t, v, path);
    match w[t]
    case Pointer(elem) =>
      ReportedIsTold(w, elem, v.target, path, err);
      ToldByStep(w, a, Place(elem, v.target, path), err);
    case Str(registered) => ToldHere(w, a, err);
    case List(elem, _) =>
      var i := ReportedItem(w, elem, v, |v.items|, path, err);
      ReportedIsTold(w, elem, v.items[i], path + [Index(i)], err);
      ToldByStep(w, a, Place(elem, v.items[i], path + [Index(i)]), err);
    case Dict(key, elem) =>
      var b := ReportedEntry(w, key, elem, v, |v.entries|, path, err);
      var e :| e in v.entries && EntryStep(key, elem, e, Place(0, v, path), b);
      assert EntryStep(key, elem, e, a, b);
      ReportedIsTold(w, b.ty, b.value, b.path, err);
      ToldByStep(w, a, b, err);
    case Struct(fields) =>
      var b := ReportedField(w, fields, |fields|, v, path, err);
      var i: nat :| FieldStep(fields, i, Place(0, v, path), b);
      assert FieldStep(fields, i, a, b);
      ReportedIsTold(w, b.ty, b.value, b.path, err);
      ToldByStep(w, a, b, err);
  }

  lemma {:induction false} ReportedItem(w: Types, elem: Ty, v: Value, n: nat, path: Path, err: ValidationError)
    returns (i: nat)
    requires v.Items? && n <= |v.items| && err in WalkItems(w, elem, v, n, path)
    ensures i < n && err in Walk(w, elem, v.items[i], path + [Index(i)])
    decreases n
  {
    hide Walk;
    if err in WalkItems(w, elem, v, n - 1, path) {
      i := ReportedItem(w, elem, v, n - 1, path, err);
    } else {
      i := n - 1;
    }
  }

  lemma {:induction false} ReportedEntry(w: Types, key: Ty, elem: Ty, v: Value, n: nat, path: Path,
                                         err: ValidationError)
    returns (b: Place)
    requires v.Entries? && n <= |v.entries| && err in WalkEntries(w, key, elem, v, n, path)
    ensures exists e :: e in v.entries && EntryStep(key, elem, e, Place(0, v, path), b)
    ensures err in Walk(w, b.ty, b.value, b.path) && b.value < v
    decreases n
  {
    hide Walk, Ordered;
    if err in WalkEntries(w, key, elem, v, n - 1, path) {
      b := ReportedEntry(w, key, elem, v, n - 1, path, err);
    } else {
      var e := Ordered(v)[n - 1];
      assert e in v.entries;
      NamedIsPushed(path, e.rendered);
      if err in Walk(w, key, e.key, Push(path, e.rendered)) {
        b := Place(key, e.key, Named(path, e.rendered));
      } else {
        b := Place(elem, e.value, Named(path, e.rendered));
      }
      assert EntryStep(key, elem, e, Place(0, v, path), b);
    }
  }

  lemma {:induction false} ReportedField(w: Types, fields: seq<Field>, n: nat, v: Value, path: Path,
                                         err: ValidationError)
    returns (b: Place)
    requires v.Record? && n <= |fields| && err in WalkFields(w, fields, n, v, path)
    ensures exists i: nat :: FieldStep(fields, i, Place(0, v, path), b)
    ensures err in Walk(w, b.ty, b.value, b.path) && b.value < v
    decreases n
  {
    hide Walk, IsZero, JSONName, Included, HasName, InJSON;
    if err in WalkFields(w, fields, n - 1, v, path) {
      b := ReportedField(w, fields, n - 1, v, path, err);
    } else {
      var f := fields[n - 1];
      JSONIsName(f);
      NamedIsPushed(path, JSONName(f).value);
      b := Place(f.ty, v.members[n - 1], Named(path, JSONName(f).value));
      assert FieldStep(fields, n - 1, Place(0, v, path), b);
    }
  }

  lemma JSONIsName(f: Field)
    requires Included(f)
    ensures InJSON(f) && JSONName(f).Some? && HasName(f, JSONName(f).value)
  {
  }

  // --- The wire form of a path -----------------------------------------------

  predicate Digit(c: char) {
    '0' <= c <= '9'
  }

  /** Decimal digits without a leading zero. */
  predicate Numeral(s: string) {
    s != "" && (forall i :: 0 <= i < |s| ==> Digit(s[i])) && (|s| > 1 ==> s[0] != '0')
  }

  function NumberOf(s: string): nat
    requires forall i :: 0 <= i < |s| ==> Digit(s[i])
  {
    if s == "" then 0
    else
      assert Digit(s[|s| - 1]);
      10 * NumberOf(s[..|s| - 1]) + (s[|s| - 1] - '0') as nat
  }

  /** Where the character occurs last. */
  function LastOf(s: string, c: char): (r: Option<nat>)
    ensures r.Some? ==> r.value < |s| && s[r.value] == c
  {
    if s == "" then None
    else if s[|s| - 1] == c then Some(|s| - 1)
    else LastOf(s[..|s| - 1], c)
  }

  /** Not empty, and free of the characters that separate segments. */
  predicate PlainName(name: string) {
    name != "" && '.' !in name && '[' !in name && ']' !in name
  }

  predicate PlainPath(path: Path) {
    forall i :: 0 <= i < |path| && path[i].Name? ==> PlainName(path[i].name)
  }

  /** Reads a wire form back: an index in brackets, or a name, behind a dot unless it comes first. */
  function ReadPath(text: string): Option<Path>
    decreases |text|
  {
    if text == "" then Some([])
    else if text[|text| - 1] == ']' then
      (match LastOf(text, '[')
       case None => None
       case Some(i) =>
         var digits := text[i + 1..|text| - 1];
         var front := ReadPath(text[..i]);
         if Numeral(digits) && front.Some? then Some(front.value + [Index(NumberOf(digits))]) else None)
    else
      match LastOf(text, '.')
      case None => if PlainName(text) then Some([Name(text)]) else None
      case Some(i) =>
        var front := ReadPath(text[..i]);
        if i > 0 && PlainName(text[i + 1..]) && front.Some? then Some(front.value + [Name(text[i + 1..])]) else None
  }

  lemma {:induction false} LastBehind(front: string, c: char, rest: string)
    requires c !in rest
    ensures LastOf(front + [c] + rest, c) == Some(|front|)
    decreases |rest|
  {
    var whole := front + [c] + rest;
    if rest != "" {
      var n := |rest| - 1;
      assert whole[..|whole| - 1] == front + [c] + rest[..n] && whole[|whole| - 1] == rest[n] && rest[n] in rest;
      LastBehind(front, c, rest[..n]);
    } else {
      assert whole == front + [c];
    }
  }

  lemma {:induction false} LastNowhere(s: string, c: char)
    requires c !in s
    ensures LastOf(s, c).None?
  {
    if s != "" {
      assert s[|s| - 1] in s;
      LastNowhere(s[..|s| - 1], c);
    }
  }

  /** Numbers are written in decimal, and read back. */
  lemma {:induction false} ItoaIsNumeral(n: nat)
    ensures Numeral(Itoa(n)) && NumberOf(Itoa(n)) == n
    ensures n > 0 ==> Itoa(n)[0] != '0'
  {
    var s, last := Itoa(n), (n % 10) as char + '0';
    assert Digit(last) && (last - '0') as nat == n % 10;
    if n >= 10 {
      ItoaIsNumeral(n / 10);
      var front := Itoa(n / 10);
      assert s == front + [last] && s[..|s| - 1] == front && s[0] == front[0];
    } else {
      assert s == [last] && s[..0] == "";
    }
  }

  lemma {:induction false} RenderedIsEmpty(path: Path)
    requires PlainPath(path)
    ensures Render(path) == "" <==> path == []
  {
    if path != [] {
      assert path[|path| - 1] in path;
    }
  }

  lemma ReadIndex(front: string, i: nat)
    requires ReadPath(front).Some?
    ensures ReadPath(front + "[" + Itoa(i) + "]") == Some(ReadPath(front).value + [Index(i)])
  {
    hide Itoa, NumberOf;
    var text, digits := front + "[" + Itoa(i) + "]", Itoa(i);
    ItoaIsNumeral(i);
    NoBracket(digits);
    assert text == front + ['['] + (digits + "]");
    LastBehind(front, '[', digits + "]");
    assert text[..|front|] == front && text[|front| + 1..|text| - 1] == digits;
  }

  lemma NoBracket(digits: string)
    requires Numeral(digits)
    ensures '[' !in digits + "]"
  {
    forall i | 0 <= i < |digits|
      ensures digits[i] != '['
    {
      assert Digit(digits[i]);
    }
  }

  lemma ReadName(front: string, name: string)
    requires front != "" && ReadPath(front).Some? && PlainName(name)
    ensures ReadPath(front + "." + name) == Some(ReadPath(front).value + [Name(name)])
  {
    var text := front + "." + name;
    assert text == front + ['.'] + name;
    LastBehind(front, '.', name);
    assert text[|text| - 1] == name[|name| - 1] && name[|name| - 1] in name;
    assert text[..|front|] == front && text[|front| + 1..] == name;
  }

  lemma ReadFirst(name: string)
    requires PlainName(name)
    ensures ReadPath(name) == Some([Name(name)])
  {
    LastNowhere(name, '.');
    assert name[|name| - 1] in name;
  }

  /** A plain path is read back from its wire form, which is therefore its own. */
  lemma {:induction false} RenderReadsBack(path: Path)
    requires PlainPath(path)
    ensures ReadPath(Render(path)) == Some(path)
    decreases |path|
  {
    hide ReadPath;
    if path == [] {
      ReadNothing();
    } else {
      var n := |path| - 1;
      var front := Render(path[..n]);
      RenderReadsBack(path[..n]);
      RenderedIsEmpty(path[..n]);
      assert path == path[..n] + [path[n]];
      match path[n]
      case Index(i) => ReadIndex(front, i);
      case Name(name) =>
        if front == "" {
          ReadFirst(name);
          assert "" + "" + name == name;
        } else {
          ReadName(front, name);
        }
    }
  }

  lemma ReadNothing()
    ensures ReadPath("") == Some([])
  {
  }

  lemma RenderIsOneToOne(p: Path, q: Path)
    requires PlainPath(p) && PlainPath(q) && Render(p) == Render(q)
    ensures p == q
  {
    RenderReadsBack(p);
    RenderReadsBack(q);
  }

  /** The form that the documentation gives as its example. */
  lemma ExampleOfAPath()
    ensures Render([Name("items"), Index(0), Name("status")]) == "items[0].status"
  {
    hide Render, Itoa;
    RenderNothing();
    RenderNext([], Name("items"));
    RenderNext([Name("items")], Index(0));
    RenderNext([Name("items"), Index(0)], Name("status"));
    assert [] + [Name("items")] == [Name("items")];
    assert [Name("items")] + [Index(0)] == [Name("items"), Index(0)];
    assert [Name("items"), Index(0)] + [Name("status")] == [Name("items"), Index(0), Name("status")];
    assert "items" + "[" + "0" + "]" == "items[0]" && "" + "items" == "items";
    assert "items[0]" + "." + "status" == "items[0].status";
  }

  lemma RenderNothing()
    ensures Render([]) == "" && Itoa(0) == "0"
  {
  }

  /** A name after something is preceded by a dot, an index is bracketed. */
  lemma RenderNext(path: Path, s: Segment)
    ensures Render(path + [s]) == match s
                                  case Index(i) => Render(path) + "[" + Itoa(i) + "]"
                                  case Name(name) => if Render(path) == "" then name else Render(path) + "." + name
  {
    assert (path + [s])[..|path|] == path;
  }

  // --- The message -----------------------------------------------------------

  /** The allowed values are listed one after another, in order, with a comma between. */
  lemma {:induction false} JoinLists(a: seq<string>, b: seq<string>)
    requires a != [] && b != []
    ensures Join(a + b) == Join(a) + ", " + Join(b)
    ensures |a| == 1 ==> Join(a) == a[0]
    decreases |a|
  {
    if |a| == 1 {
      assert (a + b)[1..] == b;
    } else {
      JoinLists(a[1..], b);
      assert (a + b)[1..] == a[1..] + b;
    }
  }

  // --- What is passed over, and in which order keys come ---------------------

  /** A value counts as zero exactly when it is the zero value of its type. */
  lemma {:induction false} OnlyZeroIsZero(w: Types, rank: map<Ty, nat>, t: Ty, v: Value)
    requires ClosedTypes(w) && Ranked(w, rank) && HasType(w, t, v)
    ensures IsZero(v) <==> v == ZeroValue(w, rank, t)
    decreases v
  {
    hide ClosedTypes;
    match w[t]
    case List(elem, length) =>
      if v.Items? {
        ZeroList(w, rank, t);
        forall i | 0 <= i < |v.items|
          ensures IsZero(v.items[i]) <==> v.items[i] == ZeroValue(w, rank, elem)
        {
          ElemKnown(w, t);
          OnlyZeroIsZero(w, rank, elem, v.items[i]);
        }
      }
    case Struct(fields) =>
      ZeroStruct(w, rank, t);
      forall i | 0 <= i < |fields|
        ensures fields[i].ty in w && (IsZero(v.members[i]) <==> v.members[i] == ZeroValue(w, rank, fields[i].ty))
      {
        ZeroMember(w, rank, t, i);
        OnlyZeroIsZero(w, rank, fields[i].ty, v.members[i]);
      }
    case _ =>
  }

  lemma ElemKnown(w: Types, t: Ty)
    requires ClosedTypes(w) && t in w && w[t].List?
    ensures w[t].elem in w
  {
    assert w[t].elem in Parts(w[t], false);
  }

  lemma ZeroList(w: Types, rank: map<Ty, nat>, t: Ty)
    requires ClosedTypes(w) && Ranked(w, rank) && t in w && w[t].List?
    ensures w[t].elem in w
    ensures var zero := ZeroValue(w, rank, t);
            if w[t].length.None? then zero == Nil
            else
              && zero.Items? && zero.fixed && |zero.items| == w[t].length.value
              && forall i :: 0 <= i < |zero.items| ==> zero.items[i] == ZeroValue(w, rank, w[t].elem)
  {
    ElemKnown(w, t);
  }

  lemma ZeroMember(w: Types, rank: map<Ty, nat>, t: Ty, i: nat)
    requires ClosedTypes(w) && Ranked(w, rank) && t in w && w[t].Struct? && i < |w[t].fields|
    ensures w[t].fields[i].ty in w
  {
    assert w[t].fields[i].ty in InPlace(w[t]);
  }

  lemma ZeroStruct(w: Types, rank: map<Ty, nat>, t: Ty)
    requires ClosedTypes(w) && Ranked(w, rank) && t in w && w[t].Struct?
    ensures forall i :: 0 <= i < |w[t].fields| ==> w[t].fields[i].ty in w
    ensures var zero := ZeroValue(w, rank, t);
            && zero.Record? && |zero.members| == |w[t].fields|
            && forall i :: 0 <= i < |zero.members| ==> zero.members[i] == ZeroValue(w, rank, w[t].fields[i].ty)
  {
    forall i | 0 <= i < |w[t].fields|
      ensures w[t].fields[i].ty in w
    {
      ZeroMember(w, rank, t, i);
    }
  }

  /** A prefix comes first, otherwise the first character that differs decides. */
  ghost predicate Lexicographic(a: string, b: string) {
    (|a| < |b| && b[..|a|] == a) || exists k :: DiffersAt(a, b, k)
  }

  ghost predicate DiffersAt(a: string, b: string, k: int) {
    0 <= k < |a| && k < |b| && a[..k] == b[..k] && a[k] < b[k]
  }

  lemma {:induction false} LessIsFound(a: string, b: string)
    requires Less(a, b)
    ensures Lexicographic(a, b)
  {
    if a != [] {
      if a[0] < b[0] {
        assert DiffersAt(a, b, 0);
      } else {
        var c, d := a[1..], b[1..];
        LessIsFound(c, d);
        if k :| DiffersAt(c, d, k) {
          assert a[..k + 1] == [a[0]] + c[..k] && b[..k + 1] == [b[0]] + d[..k];
          assert DiffersAt(a, b, k + 1);
        } else {
          assert b[..|a|] == [b[0]] + d[..|c|] && a == [a[0]] + c;
        }
      }
    }
  }

  lemma {:induction false} FoundIsLess(a: string, b: string)
    requires Lexicographic(a, b)
    ensures Less(a, b)
  {
    if a != [] {
      var c, d := a[1..], b[1..];
      if k :| DiffersAt(a, b, k) {
        if k > 0 {
          assert a[0] == a[..k][0] == b[..k][0] == b[0];
          assert c[..k - 1] == a[..k][1..] && d[..k - 1] == b[..k][1..];
          assert DiffersAt(c, d, k - 1);
          FoundIsLess(c, d);
        }
      } else {
        assert a[0] == b[..|a|][0] && d[..|c|] == b[..|a|][1..];
        FoundIsLess(c, d);
      }
    }
  }

  /** Keys come in the order of a dictionary. */
  lemma LessIsLexicographic(a: string, b: string)
    ensures Less(a, b) <==> Lexicographic(a, b)
  {
    hide Less, Lexicographic;
    if Less(a, b) {
      LessIsFound(a, b);
    }
    if Lexicographic(a, b) {
      FoundIsLess(a, b);
    }
  }
}
