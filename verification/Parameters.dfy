/**
  Request parameters: looked up in the request and converted by setters compiled
  from the field's type, and which of them can fail.
 */
module Parameters {
  import opened Wrappers
  import E = Enums

  // --- Parameter conversion --------------------------------------------------

  datatype Source = PathSource | QuerySource | HeaderSource | CookieSource

  /** Scalars other than strings; their text conversion is the library's. */
  datatype Scalar = Bool | Int(bits: nat) | Uint(bits: nat) | Float | Time | TextDecoded(id: nat) | JSONDecoded(id: nat)

  datatype Param = Pointer(elem: Param) | Slice(elem: Param) | Str | Scalar(scalar: Scalar)

  /** What a lookup yields: one text, or the several of a repeated query parameter. */
  datatype Raw = One(text: string) | Many(texts: seq<string>)

  /** What a setter stores; a converted scalar keeps the text it was made from. */
  datatype Bound =
    | Null
    | Held(target: Bound)
    | Elems(elems: seq<Bound>)
    | Text(text: string)
    | Converted(text: string, value: E.Value)

  /** The known types, what the library makes of a scalar's text, and the scalars' zero values. */
  datatype Lib = Lib(types: E.Types, decode: (Scalar, string) -> Option<E.Value>, zero: Scalar -> E.Value)

  datatype Incoming = Incoming(
    path: map<string, string>, query: map<string, seq<string>>,
    header: map<string, string>, cookie: map<string, string>)

  /** A missing text reads as an empty one. */
  function TextAt(values: map<string, string>, name: string): string {
    if name in values then values[name] else ""
  }

  function NonEmpty(values: map<string, string>, name: string): Option<Raw> {
    if TextAt(values, name) != "" then Some(One(TextAt(values, name))) else None
  }

  function Lookup(source: Source, name: string, q: Incoming): Option<Raw> {
    match source
    case PathSource => NonEmpty(q.path, name)
    case QuerySource =>
      if name !in q.query || q.query[name] == [] then None
      else if |q.query[name]| == 1 then Some(One(q.query[name][0]))
      else Some(Many(q.query[name]))
    case HeaderSource => NonEmpty(q.header, name)
    case CookieSource => NonEmpty(q.cookie, name)
  }

  /** An empty text leaves the zero value, except that a text decoder is asked about it. */
  function SetScalar(lib: Lib, s: Scalar, text: string): Option<Bound> {
    if text == "" && !s.TextDecoded? then Some(Converted(text, lib.zero(s)))
    else
      match lib.decode(s, text)
      case Some(v) => Some(Converted(text, v))
      case None => None
  }

  function Sent(raw: Raw): seq<string> {
    if raw.One? then [raw.text] else raw.texts
  }

  /** What the setter of a type stores for a looked-up value, if it converts. */
  function Set(lib: Lib, t: Param, raw: Raw): Option<Bound>
    decreases t, 1, 0
  {
    match t
    case Pointer(elem) =>
      if raw == One("") then Some(Null)
      else
        (match Set(lib, elem, raw)
         case Some(b) => Some(Held(b))
         case None => None)
    case Slice(elem) =>
      (match SetEach(lib, elem, Sent(raw))
       case Some(bs) => Some(Elems(bs))
       case None => None)
    case Str => if raw.One? then Some(Text(raw.text)) else None
    case Scalar(s) => if raw.One? then SetScalar(lib, s, raw.text) else None
  }

  function SetEach(lib: Lib, elem: Param, texts: seq<string>): Option<seq<Bound>>
    decreases elem, 2, |texts|
  {
    if texts == [] then Some([])
    else
      match SetEach(lib, elem, texts[..|texts| - 1])
      case None => None
      case Some(front) =>
        match Set(lib, elem, One(texts[|texts| - 1]))
        case None => None
        case Some(b) => Some(front + [b])
  }

  /** The setter as it runs: a slice is filled text by text and dropped at the first that does not convert. */
  method Assign(lib: Lib, t: Param, raw: Raw) returns (stored: Option<Bound>)
    ensures stored == Set(lib, t, raw)
    decreases t
  {
    match t
    case Pointer(elem) =>
      if raw == One("") {
        return Some(Null);
      }
      var inner := Assign(lib, elem, raw);
      stored := if inner.Some? then Some(Held(inner.value)) else None;
    case Slice(elem) =>
      var texts := Sent(raw);
      var elems := [];
      for i := 0 to |texts|
        invariant SetEach(lib, elem, texts[..i]) == Some(elems)
      {
        assert texts[..i + 1][..i] == texts[..i];
        var b := Assign(lib, elem, One(texts[i]));
        if b.None? {
          SetEachConverts(lib, elem, texts);
          return None;
        }
        elems := elems + [b.value];
      }
      assert texts[..|texts|] == texts;
      stored := Some(Elems(elems));
    case Str =>
      stored := if raw.One? then Some(Text(raw.text)) else None;
    case Scalar(s) =>
      stored := if raw.One? then SetScalar(lib, s, raw.text) else None;
  }

  /** A slice converts exactly when each text does, to the converted texts in order. */
  lemma {:induction false} SetEachConverts(lib: Lib, elem: Param, texts: seq<string>)
    ensures SetEach(lib, elem, texts).Some? <==> forall i :: 0 <= i < |texts| ==> Set(lib, elem, One(texts[i])).Some?
    ensures SetEach(lib, elem, texts).Some? ==>
              && |SetEach(lib, elem, texts).value| == |texts|
              && forall i :: 0 <= i < |texts| ==>
                 Set(lib, elem, One(texts[i])) == Some(SetEach(lib, elem, texts).value[i])
    decreases |texts|
  {
    hide Set;
    if texts != [] {
      var front := texts[..|texts| - 1];
      SetEachConverts(lib, elem, front);
      assert forall i :: 0 <= i < |front| ==> front[i] == texts[i];
    }
  }

  /** The texts a bound value was made from, in order; a null stands for an empty text. */
  function TextsOf(b: Bound): seq<string>
    decreases b, 1, 0
  {
    match b
    case Null => [""]
    case Text(text) => [text]
    case Converted(text, _) => [text]
    case Held(target) => TextsOf(target)
    case Elems(elems) => TextsOfFirst(b, |elems|)
  }

  function TextsOfFirst(b: Bound, n: nat): seq<string>
    requires b.Elems? && n <= |b.elems|
    decreases b, 0, n
  {
    if n == 0 then [] else TextsOfFirst(b, n - 1) + TextsOf(b.elems[n - 1])
  }

  lemma {:induction false} TextsOfPrefix(b: Bound, c: Bound, n: nat)
    requires b.Elems? && c.Elems? && n <= |b.elems| && n <= |c.elems| && b.elems[..n] == c.elems[..n]
    ensures TextsOfFirst(b, n) == TextsOfFirst(c, n)
    decreases n
  {
    if n > 0 {
      assert b.elems[n - 1] == b.elems[..n][n - 1] == c.elems[n - 1];
      assert b.elems[..n - 1] == b.elems[..n][..n - 1] == c.elems[..n - 1];
      TextsOfPrefix(b, c, n - 1);
    }
  }

  /** A setter that succeeds loses, changes and reorders nothing that was sent. */
  lemma {:induction false} SettersLoseNothing(lib: Lib, t: Param, raw: Raw)
    requires Set(lib, t, raw).Some?
    ensures TextsOf(Set(lib, t, raw).value) == Sent(raw)
    decreases t, 1, 0
  {
    match t
    case Pointer(elem) =>
      if raw != One("") {
        SettersLoseNothing(lib, elem, raw);
      }
    case Slice(elem) => EachLosesNothing(lib, elem, Sent(raw));
    case _ =>
  }

  lemma SetEachLast(lib: Lib, elem: Param, texts: seq<string>)
    requires texts != [] && SetEach(lib, elem, texts).Some?
    ensures var n := |texts| - 1;
            && SetEach(lib, elem, texts[..n]).Some? && Set(lib, elem, One(texts[n])).Some?
            && SetEach(lib, elem, texts).value
               == SetEach(lib, elem, texts[..n]).value + [Set(lib, elem, One(texts[n])).value]
  {
    hide Set;
  }

  lemma {:induction false} EachLosesNothing(lib: Lib, elem: Param, texts: seq<string>)
    requires SetEach(lib, elem, texts).Some?
    ensures TextsOf(Elems(SetEach(lib, elem, texts).value)) == texts
    decreases elem, 2, |texts|
  {
    hide Set;
    if texts != [] {
      SetEachLast(lib, elem, texts);
      var front, all := SetEach(lib, elem, texts[..|texts| - 1]).value, SetEach(lib, elem, texts).value;
      EachLosesNothing(lib, elem, texts[..|texts| - 1]);
      SettersLoseNothing(lib, elem, One(texts[|texts| - 1]));
      assert all[..|front|] == front && |all| == |front| + 1;
      TextsOfPrefix(Elems(front), Elems(all), |front|);
    }
  }

  // --- Which parameters can fail ---------------------------------------------

  function Leaf(t: Param): Param {
    match t
    case Pointer(elem) => Leaf(elem)
    case Slice(elem) => Leaf(elem)
    case _ => t
  }

  predicate CanFailBinding(source: Source, t: Param) {
    (source == QuerySource && !t.Slice?) || !Leaf(t).Str?
  }

  method ParameterTypeCanFailBinding(source: Source, t: Param) returns (canFail: bool)
    ensures canFail == CanFailBinding(source, t)
  {
    if source == QuerySource && !t.Slice? {
      return true;
    }
    var u := t;
    while u.Pointer? || u.Slice?
      invariant Leaf(u) == Leaf(t)
      decreases u
    {
      u := u.elem;
    }
    canFail := !u.Str?;
  }

  function Pointee(t: Param): Param {
    if t.Pointer? then Pointee(t.elem) else t
  }

  predicate MentionsPointer(t: Param) {
    match t
    case Pointer(_) => true
    case Slice(elem) => MentionsPointer(elem)
    case _ => false
  }

  /** The texts a router hands on for a path placeholder; other sources send what they like. */
  type Admits = string -> bool

  predicate Handed(admits: Admits, source: Source, name: string, q: Incoming) {
    source == PathSource ==> admits(TextAt(q.path, name))
  }

  /**
    The texts that get as far as the leaf's conversion: from a path, those its
    placeholder admits. Only a query can send an empty one, and any pointer on the
    way turns it into null; a pointer around a slice is passed by a repeated
    parameter.
   */
  predicate ReachesLeaf(admits: Admits, source: Source, t: Param, text: string) {
    if text != "" then source == PathSource ==> admits(text)
    else source == QuerySource && !MentionsPointer(if Pointee(t).Slice? then Pointee(t) else t)
  }

  /** A parameter that can fail: one that takes no repeats in a query, or a leaf that rejects a text that reaches it. */
  ghost predicate Fallible(lib: Lib, admits: Admits, source: Source, t: Param) {
    || (source == QuerySource && !Pointee(t).Slice?)
    || exists text :: ReachesLeaf(admits, source, t, text) && Set(lib, Leaf(t), One(text)).None?
  }

  /** One text converts as its leaf does, unless it is empty and becomes null. */
  lemma {:induction false} OneConverts(lib: Lib, t: Param, text: string)
    ensures Set(lib, t, One(text)).Some? <==>
            (text == "" && MentionsPointer(t)) || Set(lib, Leaf(t), One(text)).Some?
    decreases t
  {
    match t
    case Pointer(elem) => OneConverts(lib, elem, text);
    case Slice(elem) =>
      OneConverts(lib, elem, text);
      SetEachConverts(lib, elem, [text]);
    case _ =>
  }

  /** Repeats convert exactly where there is a slice to take them and each converts. */
  lemma {:induction false} ManyConverts(lib: Lib, t: Param, texts: seq<string>)
    ensures Set(lib, t, Many(texts)).Some? <==>
            && Pointee(t).Slice?
            && forall i :: 0 <= i < |texts| ==> Set(lib, Pointee(t).elem, One(texts[i])).Some?
    decreases t
  {
    if t.Pointer? {
      ManyConverts(lib, t.elem, texts);
    } else if t.Slice? {
      SetEachConverts(lib, t.elem, texts);
    }
  }

  lemma {:induction false} LeafOfPointee(t: Param)
    ensures Leaf(Pointee(t)) == Leaf(t) && !Pointee(t).Pointer?
    ensures Pointee(t).Slice? ==>
            Leaf(Pointee(t).elem) == Leaf(t) && MentionsPointer(Pointee(t).elem) == MentionsPointer(Pointee(t))
  {
    if t.Pointer? {
      LeafOfPointee(t.elem);
    }
  }

  predicate Fails(lib: Lib, source: Source, t: Param, name: string, q: Incoming) {
    Lookup(source, name, q).Some? && Set(lib, t, Lookup(source, name, q).value).None?
  }

  /** A request that fails to convert shows that the parameter is fallible. */
  lemma FailureShows(lib: Lib, admits: Admits, source: Source, t: Param, name: string, q: Incoming)
    requires Handed(admits, source, name, q) && Fails(lib, source, t, name, q)
    ensures Fallible(lib, admits, source, t)
  {
    LeafOfPointee(t);
    var raw := Lookup(source, name, q).value;
    if raw.One? {
      OneConverts(lib, t, raw.text);
      assert ReachesLeaf(admits, source, t, raw.text);
    } else {
      ManyConverts(lib, t, raw.texts);
      if Pointee(t).Slice? {
        var i :| 0 <= i < |raw.texts| && Set(lib, Pointee(t).elem, One(raw.texts[i])).None?;
        OneConverts(lib, Pointee(t).elem, raw.texts[i]);
        assert ReachesLeaf(admits, source, t, raw.texts[i]);
      }
    }
  }

  /** A request that sends one parameter and nothing else. */
  function Sending(source: Source, name: string, texts: seq<string>): Incoming
    requires texts != []
  {
    var single := map[name := texts[0]];
    match source
    case PathSource => Incoming(single, map[], map[], map[])
    case QuerySource => Incoming(map[], map[name := texts], map[], map[])
    case HeaderSource => Incoming(map[], map[], single, map[])
    case CookieSource => Incoming(map[], map[], map[], single)
  }

  /** Nothing but this parameter is looked up successfully. */
  ghost predicate SendsOnly(q: Incoming, source: Source, name: string) {
    forall s, n :: s != source || n != name ==> Lookup(s, n, q).None?
  }

  lemma SendingSendsOnly(source: Source, name: string, texts: seq<string>)
    requires texts != []
    ensures SendsOnly(Sending(source, name, texts), source, name)
  {
  }

  /** How to send a text so that it reaches the leaf: twice, where a slice takes it behind a pointer. */
  function Carrier(t: Param, text: string): seq<string> {
    if text == "" && Pointee(t).Slice? then ["", ""] else [text]
  }

  lemma CarrierLookup(admits: Admits, source: Source, t: Param, name: string, text: string)
    requires ReachesLeaf(admits, source, t, text)
    ensures Handed(admits, source, name, Sending(source, name, Carrier(t, text)))
    ensures Lookup(source, name, Sending(source, name, Carrier(t, text)))
            == Some(if text == "" && Pointee(t).Slice? then Many(["", ""]) else One(text))
  {
  }

  /** A request on which a fallible parameter fails. */
  lemma FailingRequest(lib: Lib, admits: Admits, source: Source, t: Param, name: string) returns (q: Incoming)
    requires Fallible(lib, admits, source, t)
    ensures Handed(admits, source, name, q) && Fails(lib, source, t, name, q) && SendsOnly(q, source, name)
  {
    LeafOfPointee(t);
    if source == QuerySource && !Pointee(t).Slice? {
      q := Sending(source, name, ["", ""]);
      SendingSendsOnly(source, name, ["", ""]);
      ManyConverts(lib, t, ["", ""]);
    } else {
      var text :| ReachesLeaf(admits, source, t, text) && Set(lib, Leaf(t), One(text)).None?;
      q := Sending(source, name, Carrier(t, text));
      SendingSendsOnly(source, name, Carrier(t, text));
      CarrierLookup(admits, source, t, name, text);
      if text == "" && Pointee(t).Slice? {
        OneConverts(lib, Pointee(t).elem, "");
        assert ["", ""][0] == "";
        ManyConverts(lib, t, ["", ""]);
      } else {
        OneConverts(lib, t, text);
      }
    }
  }

  /** A parameter fails on some request its route can hand on exactly when it is fallible. */
  lemma ParameterFailsIff(lib: Lib, admits: Admits, source: Source, t: Param, name: string)
    ensures (exists q :: Handed(admits, source, name, q) && Fails(lib, source, t, name, q))
            <==> Fallible(lib, admits, source, t)
  {
    hide Fails, Fallible, SendsOnly;
    if Fallible(lib, admits, source, t) {
      var q := FailingRequest(lib, admits, source, t, name);
    }
    if q :| Handed(admits, source, name, q) && Fails(lib, source, t, name, q) {
      FailureShows(lib, admits, source, t, name, q);
    }
  }

  lemma {:induction false} LeafIsLeaf(t: Param)
    ensures Leaf(t).Str? || Leaf(t).Scalar?
    ensures Leaf(Leaf(t)) == Leaf(t)
  {
    if t.Pointer? || t.Slice? {
      LeafIsLeaf(t.elem);
    }
  }

  /** The flag is sound: where it is off, the setter converts whatever any request makes the lookup yield. */
  lemma InfallibleParametersNeverFail(lib: Lib, source: Source, t: Param, name: string, q: Incoming)
    requires !CanFailBinding(source, t)
    ensures !Fails(lib, source, t, name, q)
  {
    hide Fails;
    LeafIsLeaf(t);
    if Fails(lib, source, t, name, q) {
      FailureShows(lib, _ => true, source, t, name, q);
    }
  }

  /**
    The flag overstates, in two ways: a pointer to a slice of strings takes
    repeats like the slice, and a scalar whose decoder accepts every text is no
    string either. Both are flagged, and nothing makes them fail.
   */
  lemma FlagOverstates(lib: Lib, admits: Admits, id: nat)
    requires forall text :: lib.decode(TextDecoded(id), text).Some?
    ensures CanFailBinding(QuerySource, Pointer(Slice(Str)))
    ensures !Fallible(lib, admits, QuerySource, Pointer(Slice(Str)))
    ensures CanFailBinding(PathSource, Scalar(TextDecoded(id)))
    ensures !Fallible(lib, admits, PathSource, Scalar(TextDecoded(id)))
  {
  }
}
