/**
  The optimistic build: a build reads two registries while other goroutines
  register types and enums, compares version counters before and after, and
  retries when either moved. Every lock-protected access is one step.
 */
module OptimisticBuild {
  import opened Wrappers

  type TypeName = string
  type Shape = string

  datatype Registries = Registries(
    known: map<TypeName, Shape>, knownVersion: nat, enums: map<TypeName, seq<string>>, enumVersion: nat)

  /** A batch of known types: all or nothing, and the version moves only when something was added. */
  function RegisterKnown(r: Registries, batch: map<TypeName, Shape>): Registries {
    if exists t :: t in batch && t in r.known && r.known[t] != batch[t] then r
    else if batch.Keys <= r.known.Keys then r
    else r.(known := batch + r.known, knownVersion := r.knownVersion + 1)
  }

  /** A first registration; a repeat is a no-op and a conflict panics without changing anything. */
  function RegisterEnum(r: Registries, t: TypeName, values: seq<string>): Registries {
    if t in r.enums then r
    else r.(enums := r.enums[t := values], enumVersion := r.enumVersion + 1)
  }

  /** What one access of a build attempt saw. */
  datatype Read =
    | KnownSnapshot(content: map<TypeName, Shape>)
    | KnownLookup(typ: TypeName, shape: Option<Shape>)
    | EnumLookup(typ: TypeName, values: Option<seq<string>>)

  function Look<V>(m: map<TypeName, V>, t: TypeName): Option<V> {
    if t in m then Some(m[t]) else None
  }

  /** The read is what registries in state `r` answer. */
  predicate Answers(r: Registries, read: Read) {
    match read
    case KnownSnapshot(content) => content == r.known
    case KnownLookup(t, shape) => shape == Look(r.known, t)
    case EnumLookup(t, values) => values == Look(r.enums, t)
  }

  /** Where the retry loop stands; `start` is the joint state when the second version was read. */
  datatype Phase =
    | Idle
    | KnownVersionRead(known: nat)
    | Attempting(known: nat, enums: nat, start: Registries, log: seq<Read>)
    | KnownVersionKept(known: nat, enums: nat, start: Registries, log: seq<Read>)
    | Accepted(start: Registries, log: seq<Read>)

  datatype Event =
    | WriteKnown(batch: map<TypeName, Shape>)
    | WriteEnum(typ: TypeName, values: seq<string>)
    | TakeKnownVersion
    | TakeEnumVersion
    | ReadSnapshot
    | ReadKnown(typ: TypeName)
    | ReadEnum(typ: TypeName)
    | CheckKnownVersion
    | CheckEnumVersion

  /** The registries, the loop, how many attempts were discarded, and every joint state so far. */
  datatype World = World(reg: Registries, phase: Phase, discarded: nat, past: seq<Registries>)

  function Recorded(w: World, read: Read): World {
    match w.phase
    case Attempting(known, enums, start, log) => w.(phase := Attempting(known, enums, start, log + [read]))
    case _ => w
  }

  function Discard(w: World): World {
    w.(phase := Idle, discarded := w.discarded + 1)
  }

  function Step(w: World, e: Event): World {
    match e
    case WriteKnown(batch) =>
      var r := RegisterKnown(w.reg, batch);
      w.(reg := r, past := w.past + [r])
    case WriteEnum(t, values) =>
      var r := RegisterEnum(w.reg, t, values);
      w.(reg := r, past := w.past + [r])
    case TakeKnownVersion => if w.phase.Idle? then w.(phase := KnownVersionRead(w.reg.knownVersion)) else w
    case TakeEnumVersion =>
      if w.phase.KnownVersionRead? then w.(phase := Attempting(w.phase.known, w.reg.enumVersion, w.reg, [])) else w
    case ReadSnapshot => Recorded(w, KnownSnapshot(w.reg.known))
    case ReadKnown(t) => Recorded(w, KnownLookup(t, Look(w.reg.known, t)))
    case ReadEnum(t) => Recorded(w, EnumLookup(t, Look(w.reg.enums, t)))
    case CheckKnownVersion =>
      if !w.phase.Attempting? then w
      else if w.reg.knownVersion != w.phase.known then Discard(w)
      else w.(phase := KnownVersionKept(w.phase.known, w.phase.enums, w.phase.start, w.phase.log))
    case CheckEnumVersion =>
      if !w.phase.KnownVersionKept? then w
      else if w.reg.enumVersion != w.phase.enums then Discard(w)
      else w.(phase := Accepted(w.phase.start, w.phase.log))
  }

  function Run(w: World, es: seq<Event>): World {
    if es == [] then w else Step(Run(w, es[..|es| - 1]), es[|es| - 1])
  }

  function Started(reg: Registries): World {
    World(reg, Idle, 0, [reg])
  }

  // --- What registering and checking do --------------------------------------

  /**
    A batch that contradicts no registration adds what is new in it and keeps what
    was there; the version moves exactly when something is added. One that does
    contradict changes nothing.
   */
  lemma RegisterKnownSays(r: Registries, batch: map<TypeName, Shape>)
    ensures var r' := RegisterKnown(r, batch);
            if forall t :: t in batch && t in r.known ==> batch[t] == r.known[t] then
              && (forall t :: t in r.known ==> t in r'.known && r'.known[t] == r.known[t])
              && (forall t :: t in batch ==> t in r'.known && r'.known[t] == batch[t])
              && (forall t :: t in r'.known ==> t in r.known || t in batch)
              && (r'.knownVersion == r.knownVersion + if exists t :: t in batch && t !in r.known then 1 else 0)
              && r'.enums == r.enums && r'.enumVersion == r.enumVersion
            else r' == r
  {
    if !exists t :: t in batch && t !in r.known {
      assert batch.Keys <= r.known.Keys;
    }
  }

  /** The first registration of an enum stands. */
  lemma RegisterEnumSays(r: Registries, t: TypeName, values: seq<string>)
    ensures var r' := RegisterEnum(r, t, values);
            && t in r'.enums && r'.enums[t] == (if t in r.enums then r.enums[t] else values)
            && (forall u :: u != t ==> (u in r'.enums <==> u in r.enums))
            && (forall u :: u != t && u in r.enums ==> r'.enums[u] == r.enums[u])
            && (r'.enumVersion == r.enumVersion + if t in r.enums then 0 else 1)
            && r'.known == r.known && r'.knownVersion == r.knownVersion
  {
  }

  /** A lookup answers with what is registered, and with nothing where nothing is. */
  lemma LookupsSay(r: Registries, t: TypeName, shape: Option<Shape>, values: Option<seq<string>>)
    ensures Answers(r, KnownLookup(t, shape)) <==>
            (shape.None? && t !in r.known) || (shape.Some? && t in r.known && r.known[t] == shape.value)
    ensures Answers(r, EnumLookup(t, values)) <==>
            (values.None? && t !in r.enums) || (values.Some? && t in r.enums && r.enums[t] == values.value)
  {
  }

  /** While an attempt runs, each of its reads logs what the registries answer, and nothing else happens. */
  lemma ReadsSay(w: World, t: TypeName)
    requires w.phase.Attempting?
    ensures forall e :: e in {ReadSnapshot, ReadKnown(t), ReadEnum(t)} ==>
              var w' := Step(w, e);
              && w' == w.(phase := w'.phase) && w'.phase.Attempting?
              && w'.phase == Attempting(w.phase.known, w.phase.enums, w.phase.start, w'.phase.log)
              && |w'.phase.log| == |w.phase.log| + 1 && w'.phase.log[..|w.phase.log|] == w.phase.log
              && var read := w'.phase.log[|w.phase.log|];
                 && Answers(w.reg, read)
                 && (e == ReadSnapshot ==> read.KnownSnapshot?)
                 && (e == ReadKnown(t) ==> read.KnownLookup? && read.typ == t)
                 && (e == ReadEnum(t) ==> read.EnumLookup? && read.typ == t)
    ensures Step(w, TakeKnownVersion) == w == Step(w, TakeEnumVersion)
  {
  }

  /** An attempt is discarded at the check that finds its registry moved, and counted; otherwise it goes on. */
  lemma ChecksSay(w: World)
    ensures var w' := Step(w, CheckKnownVersion);
            w.phase.Attempting? ==>
              && w'.discarded == w.discarded + (if w.phase.known == w.reg.knownVersion then 0 else 1)
              && (w'.phase.KnownVersionKept? <==> w.phase.known == w.reg.knownVersion)
              && (w'.phase.Idle? <==> w.phase.known != w.reg.knownVersion)
    ensures var w' := Step(w, CheckEnumVersion);
            w.phase.KnownVersionKept? ==>
              && w'.discarded == w.discarded + (if w.phase.enums == w.reg.enumVersion then 0 else 1)
              && (w'.phase.Accepted? <==> w.phase.enums == w.reg.enumVersion)
              && (w'.phase.Idle? <==> w.phase.enums != w.reg.enumVersion)
  {
  }

  // --- Consistency of an accepted attempt ------------------------------------

  predicate ReadsKnown(read: Read) { !read.EnumLookup? }

  /** Since `start`, the known types either stand still under an equal version or moved past it. */
  predicate KnownSince(r: Registries, start: Registries, version: nat) {
    && version <= start.knownVersion <= r.knownVersion
    && (r.knownVersion == version ==> r.known == start.known)
  }

  predicate EnumsSince(r: Registries, start: Registries, version: nat) {
    && version == start.enumVersion <= r.enumVersion
    && (r.enumVersion == version ==> r.enums == start.enums)
  }

  predicate KnownReadsHold(start: Registries, log: seq<Read>) {
    forall i :: 0 <= i < |log| && ReadsKnown(log[i]) ==> Answers(start, log[i])
  }

  predicate EnumReadsHold(start: Registries, log: seq<Read>) {
    forall i :: 0 <= i < |log| && !ReadsKnown(log[i]) ==> Answers(start, log[i])
  }

  /** While an attempt runs, a read that disagrees with its starting state means a version has moved. */
  predicate Consistent(w: World) {
    match w.phase
    case Idle => true
    case KnownVersionRead(known) => known <= w.reg.knownVersion
    case Attempting(known, enums, start, log) =>
      && start in w.past
      && KnownSince(w.reg, start, known)
      && EnumsSince(w.reg, start, enums)
      && (w.reg.knownVersion == known ==> KnownReadsHold(start, log))
      && (w.reg.enumVersion == enums ==> EnumReadsHold(start, log))
    case KnownVersionKept(known, enums, start, log) =>
      && start in w.past
      && EnumsSince(w.reg, start, enums)
      && KnownReadsHold(start, log)
      && (w.reg.enumVersion == enums ==> EnumReadsHold(start, log))
    case Accepted(start, log) =>
      start in w.past && KnownReadsHold(start, log) && EnumReadsHold(start, log)
  }

  lemma StepConsistent(w: World, e: Event)
    requires Consistent(w) && w.reg in w.past
    ensures Consistent(Step(w, e)) && Step(w, e).reg in Step(w, e).past
  {
  }

  lemma {:induction false} RunConsistent(reg: Registries, es: seq<Event>)
    ensures var w := Run(Started(reg), es); Consistent(w) && w.reg in w.past
  {
    if es != [] {
      RunConsistent(reg, es[..|es| - 1]);
      StepConsistent(Run(Started(reg), es[..|es| - 1]), es[|es| - 1]);
    }
  }

  /**
    For every interleaving, an accepted attempt made all its known-type and enum
    reads against one joint registry state that actually occurred.
   */
  lemma AcceptedAttemptSawOneState(reg: Registries, es: seq<Event>)
    requires Run(Started(reg), es).phase.Accepted?
    ensures var w := Run(Started(reg), es);
            && w.phase.start in w.past
            && forall i :: 0 <= i < |w.phase.log| ==> Answers(w.phase.start, w.phase.log[i])
  {
    RunConsistent(reg, es);
    var w := Run(Started(reg), es);
    forall i | 0 <= i < |w.phase.log|
      ensures Answers(w.phase.start, w.phase.log[i])
    {
      assert ReadsKnown(w.phase.log[i]) || !ReadsKnown(w.phase.log[i]);
    }
  }

  // --- The loop ends ---------------------------------------------------------

  /** The registrations along a run that changed a registry. */
  function Effective(w: World, es: seq<Event>): nat {
    if es == [] then 0
    else
      var before, e := Run(w, es[..|es| - 1]), es[|es| - 1];
      Effective(w, es[..|es| - 1]) + if Step(before, e).reg != before.reg then 1 else 0
  }

  function Versions(r: Registries): nat { r.knownVersion + r.enumVersion }

  lemma {:induction false} EffectiveCountsVersions(w: World, es: seq<Event>)
    ensures Versions(Run(w, es).reg) == Versions(w.reg) + Effective(w, es)
  {
    if es != [] {
      EffectiveCountsVersions(w, es[..|es| - 1]);
      var before, e := Run(w, es[..|es| - 1]), es[|es| - 1];
      if e.WriteKnown? && Step(before, e).reg != before.reg {
        assert Step(before, e).reg.knownVersion == before.reg.knownVersion + 1;
      }
    }
  }

  /** Every discarded attempt is paid for by a version that moved while it ran. */
  predicate Paid(w: World, origin: nat) {
    && w.discarded + origin <= Versions(w.reg)
    && (w.phase.KnownVersionRead? ==>
          w.phase.known <= w.reg.knownVersion && w.discarded + origin <= w.phase.known + w.reg.enumVersion)
    && (w.phase.Attempting? || w.phase.KnownVersionKept? ==>
          && w.phase.known <= w.reg.knownVersion
          && w.phase.enums <= w.reg.enumVersion
          && w.discarded + origin <= w.phase.known + w.phase.enums)
  }

  lemma {:induction false} RunPaid(reg: Registries, es: seq<Event>)
    ensures Paid(Run(Started(reg), es), Versions(reg))
  {
    if es != [] {
      RunPaid(reg, es[..|es| - 1]);
    }
  }

  /** No run discards more attempts than it has effective registrations, so finitely many end the loop. */
  lemma DiscardsAreBounded(reg: Registries, es: seq<Event>)
    ensures Run(Started(reg), es).discarded <= Effective(Started(reg), es)
  {
    RunPaid(reg, es);
    EffectiveCountsVersions(Started(reg), es);
  }

  predicate BuilderReads(es: seq<Event>) {
    forall i :: 0 <= i < |es| ==> es[i].ReadSnapshot? || es[i].ReadKnown? || es[i].ReadEnum?
  }

  lemma {:induction false} ReadsKeepAttempting(w: World, es: seq<Event>)
    requires w.phase.Attempting? && BuilderReads(es)
    ensures var w' := Run(w, es);
            && w'.phase.Attempting? && w'.phase.known == w.phase.known && w'.phase.enums == w.phase.enums
            && w'.reg == w.reg && |w'.phase.log| == |w.phase.log| + |es|
  {
    if es != [] {
      assert BuilderReads(es[..|es| - 1]);
      ReadsKeepAttempting(w, es[..|es| - 1]);
    }
  }

  /** An attempt during which nothing is registered is accepted with all its reads. */
  lemma QuietAttemptIsAccepted(w: World, lookups: seq<Event>)
    requires w.phase.Idle? && BuilderReads(lookups)
    ensures var begun := Step(Step(w, TakeKnownVersion), TakeEnumVersion);
            var done := Step(Step(Run(begun, lookups), CheckKnownVersion), CheckEnumVersion);
            done.phase.Accepted? && |done.phase.log| == |lookups|
  {
    ReadsKeepAttempting(Step(Step(w, TakeKnownVersion), TakeEnumVersion), lookups);
  }
}
