/**
  The fixed-window limiter on top of the cache table. A bucket's history is
  read off an arbitrary run of the table in which other keys are touched,
  rows are purged and the clock advances between the bucket's own hits.
 */
module RateLimit {
  import opened Wrappers
  import opened Cache

  /** One charged attempt: when, its number in the window, and when that window closes. */
  datatype Hit = Hit(at: int, hits: int, end: int)

  /** The run never rewrites the bucket except by charging it, always with the same window. */
  predicate Undisturbed(like: Like, ops: seq<Op>, key: string, window: int) {
    forall i :: 0 <= i < |ops| ==>
      match ops[i]
      case Set(k, _, _) => k != key
      case Increment(k, w) => k == key ==> w == window
      case Delete(ks) => key !in ks
      case DeletePattern(pattern) => !like(key, pattern)
      case _ => true
  }

  /** The bucket's hits along a run, in order. */
  function Hits(like: Like, t: Table, ops: seq<Op>, key: string): seq<Hit>
    decreases ops
  {
    if ops == [] then []
    else
      var (t', r) := Step(like, t, ops[0]);
      (if ops[0].Increment? && ops[0].key == key && r.Window? then [Hit(t.now, r.hits, r.expiresAt)] else [])
      + Hits(like, t', ops[1..], key)
  }

  // --- The shape of a history ------------------------------------------------

  /** A hit inside the open window counts up and leaves its end alone; any other opens a window at one. */
  predicate Follows(prev: Option<Hit>, h: Hit, span: int) {
    && (prev.Some? ==> prev.value.at <= h.at)
    && (if prev.Some? && h.at < prev.value.end then h.hits == prev.value.hits + 1 && h.end == prev.value.end
        else h.hits == 1 && h.end == h.at + span)
  }

  function Before(prev: Option<Hit>, hs: seq<Hit>, i: nat): Option<Hit>
    requires i <= |hs|
  {
    if i == 0 then prev else Some(hs[i - 1])
  }

  predicate History(prev: Option<Hit>, hs: seq<Hit>, span: int) {
    forall i :: 0 <= i < |hs| ==> Follows(Before(prev, hs, i), hs[i], span)
  }

  /** What the table holds for the bucket after its last hit, purged or not. */
  predicate Remembers(t: Table, key: string, last: Option<Hit>) {
    match last
    case None => key !in t.rows
    case Some(h) =>
      && h.at <= t.now
      && (if t.now < h.end then key in t.rows && t.rows[key] == Row(Counter(h.hits), Some(h.end))
          else key in t.rows ==> t.rows[key].expiresAt == Some(h.end))
  }

  lemma RememberStep(like: Like, t: Table, op: Op, key: string, window: int, last: Option<Hit>)
    requires ValidWindow(window) && Undisturbed(like, [op], key, window) && Remembers(t, key, last)
    requires last.Some? ==> 1 <= last.value.hits
    ensures var (t', r) := Step(like, t, op);
            if op.Increment? && op.key == key && r.Window? then
              var h := Hit(t.now, r.hits, r.expiresAt);
              Follows(last, h, window * SECOND) && 1 <= h.hits && Remembers(t', key, Some(h))
            else Remembers(t', key, last)
  {
    assert [op][0] == op;
  }

  /** Every undisturbed run of the table, purges included, produces a history. */
  lemma {:induction false} RunMakesHistory(like: Like, t: Table, ops: seq<Op>, key: string, window: int,
                                           last: Option<Hit>)
    requires ValidWindow(window) && Undisturbed(like, ops, key, window) && Remembers(t, key, last)
    requires last.Some? ==> 1 <= last.value.hits
    ensures History(last, Hits(like, t, ops, key), window * SECOND)
    decreases ops
  {
    if ops != [] {
      assert forall i :: 0 <= i < |ops[1..]| ==> ops[1..][i] == ops[i + 1];
      RememberStep(like, t, ops[0], key, window, last);
      var (t', r) := Step(like, t, ops[0]);
      if ops[0].Increment? && ops[0].key == key && r.Window? {
        var h := Hit(t.now, r.hits, r.expiresAt);
        RunMakesHistory(like, t', ops[1..], key, window, Some(h));
        var rest := Hits(like, t', ops[1..], key);
        assert Hits(like, t, ops, key) == [h] + rest;
        forall i | 0 <= i < |rest| + 1
          ensures Follows(Before(last, [h] + rest, i), ([h] + rest)[i], window * SECOND)
        {
          assert i > 0 ==> Follows(Before(Some(h), rest, i - 1), rest[i - 1], window * SECOND);
        }
      } else {
        RunMakesHistory(like, t', ops[1..], key, window, last);
      }
    }
  }

  /** The bucket's attempts along a run. */
  function Attempts(ops: seq<Op>, key: string): nat {
    if ops == [] then 0 else (if ops[0].Increment? && ops[0].key == key then 1 else 0) + Attempts(ops[1..], key)
  }

  /**
    Every attempt is a hit as long as the counter has room: after `hits` in the
    open window, for as many more attempts as a 32-bit integer can count.
   */
  lemma {:induction false} EveryAttemptIsAHit(like: Like, t: Table, ops: seq<Op>, key: string, window: int,
                                              last: Option<Hit>)
    requires ValidWindow(window) && Undisturbed(like, ops, key, window) && Remembers(t, key, last)
    requires last.Some? ==> 1 <= last.value.hits
    requires (if last.Some? then last.value.hits else 0) + Attempts(ops, key) <= 0x7fff_ffff
    ensures |Hits(like, t, ops, key)| == Attempts(ops, key)
    decreases ops
  {
    hide Step, Remembers;
    if ops != [] {
      assert forall i :: 0 <= i < |ops[1..]| ==> ops[1..][i] == ops[i + 1];
      RememberStep(like, t, ops[0], key, window, last);
      var (t', r) := Step(like, t, ops[0]);
      if ops[0].Increment? && ops[0].key == key {
        AttemptIsAHit(like, t, key, window, last);
        EveryAttemptIsAHit(like, t', ops[1..], key, window, Some(Hit(t.now, r.hits, r.expiresAt)));
      } else {
        EveryAttemptIsAHit(like, t', ops[1..], key, window, last);
      }
    }
  }

  lemma AttemptIsAHit(like: Like, t: Table, key: string, window: int, last: Option<Hit>)
    requires ValidWindow(window) && Remembers(t, key, last)
    requires last.Some? ==> 1 <= last.value.hits < 0x7fff_ffff
    ensures var r := Step(like, t, Increment(key, window)).1;
            r.Window? && r.hits <= (if last.Some? then last.value.hits else 0) + 1
  {
    IncrementSucceedsIff(like, t, key, window);
    if last.Some? && t.now < last.value.end {
      assert t.rows[key].value == Counter(last.value.hits);
    }
  }

  // --- Consequences for any history ------------------------------------------

  lemma {:induction false} HitBounds(hs: seq<Hit>, span: int, i: nat)
    requires History(None, hs, span) && span > 0 && i < |hs|
    ensures hs[i].end - span <= hs[i].at < hs[i].end && 1 <= hs[i].hits
  {
    assert Follows(Before(None, hs, i), hs[i], span);
    if i > 0 {
      HitBounds(hs, span, i - 1);
    }
  }

  /** Later hits close no earlier, and a later window opens only after an earlier one closed. */
  lemma {:induction false} Spacing(hs: seq<Hit>, span: int, i: nat, j: nat)
    requires History(None, hs, span) && span > 0 && i <= j < |hs|
    ensures hs[i].at <= hs[j].at
    ensures hs[j].end == hs[i].end || hs[j].end >= hs[i].end + span
  {
    if i < j {
      Spacing(hs, span, i, j - 1);
      assert Follows(Before(None, hs, j), hs[j], span);
    }
  }

  /** How many hits with window end `e` are allowed under `limit`. */
  function AllowedInWindow(hs: seq<Hit>, limit: int, e: int): nat {
    if hs == [] then 0
    else AllowedInWindow(hs[..|hs| - 1], limit, e)
         + if hs[|hs| - 1].end == e && hs[|hs| - 1].hits <= limit then 1 else 0
  }

  /** How many hits in the half-open interval of one span from `x` are allowed under `limit`. */
  function AllowedFrom(hs: seq<Hit>, limit: int, x: int, span: int): nat {
    if hs == [] then 0
    else AllowedFrom(hs[..|hs| - 1], limit, x, span)
         + if x <= hs[|hs| - 1].at < x + span && hs[|hs| - 1].hits <= limit then 1 else 0
  }

  /** The allowed hits of a window. */
  function WindowHits(hs: seq<Hit>, limit: int, e: int): set<nat> {
    set i: nat | i < |hs| && hs[i].end == e && hs[i].hits <= limit
  }

  /** The allowed hits of the interval. */
  function IntervalHits(hs: seq<Hit>, limit: int, x: int, span: int): set<nat> {
    set i: nat | i < |hs| && x <= hs[i].at < x + span && hs[i].hits <= limit
  }

  lemma {:induction false} WindowHitsAreCounted(hs: seq<Hit>, limit: int, e: int)
    ensures AllowedInWindow(hs, limit, e) == |WindowHits(hs, limit, e)|
    decreases |hs|
  {
    if hs != [] {
      var n: nat := |hs| - 1;
      WindowHitsAreCounted(hs[..n], limit, e);
      var counted := hs[n].end == e && hs[n].hits <= limit;
      assert WindowHits(hs, limit, e) == WindowHits(hs[..n], limit, e) + if counted then {n} else {};
    }
  }

  lemma {:induction false} IntervalHitsAreCounted(hs: seq<Hit>, limit: int, x: int, span: int)
    ensures AllowedFrom(hs, limit, x, span) == |IntervalHits(hs, limit, x, span)|
    decreases |hs|
  {
    if hs != [] {
      var n: nat := |hs| - 1;
      IntervalHitsAreCounted(hs[..n], limit, x, span);
      var counted := x <= hs[n].at < x + span && hs[n].hits <= limit;
      assert IntervalHits(hs, limit, x, span) == IntervalHits(hs[..n], limit, x, span) + if counted then {n} else {};
    }
  }

  lemma HistoryPrefix(hs: seq<Hit>, span: int, n: nat)
    requires History(None, hs, span) && n <= |hs|
    ensures History(None, hs[..n], span)
  {
    forall i | 0 <= i < n
      ensures Follows(Before(None, hs[..n], i), hs[..n][i], span)
    {
      assert Follows(Before(None, hs, i), hs[i], span);
    }
  }

  /** Hits of one window are numbered 1, 2, 3, ..., so the last one's number caps how many were allowed. */
  lemma {:induction false} WindowBudget(hs: seq<Hit>, span: int, limit: nat, e: int)
    requires History(None, hs, span) && span > 0
    ensures AllowedInWindow(hs, limit, e) <= limit
    ensures hs != [] && hs[|hs| - 1].end < e ==> AllowedInWindow(hs, limit, e) == 0
    ensures hs != [] && hs[|hs| - 1].end == e ==>
              AllowedInWindow(hs, limit, e) == if hs[|hs| - 1].hits <= limit then hs[|hs| - 1].hits else limit
    decreases |hs|
  {
    if hs != [] {
      var n := |hs| - 1;
      HistoryPrefix(hs, span, n);
      WindowBudget(hs[..n], span, limit, e);
      HitBounds(hs, span, n);
      assert Follows(Before(None, hs, n), hs[n], span);
      if n > 0 {
        HitBounds(hs, span, n - 1);
        assert hs[..n][n - 1] == hs[n - 1];
      }
    }
  }

  /** An interval one window long touches at most two windows. */
  lemma TwoWindows(hs: seq<Hit>, span: int, x: int, i: nat, m: nat, j: nat)
    requires History(None, hs, span) && span > 0 && i <= m <= j < |hs|
    requires x <= hs[i].at && hs[j].at < x + span
    ensures hs[m].end == hs[i].end || hs[m].end == hs[j].end
  {
    Spacing(hs, span, i, m);
    Spacing(hs, span, m, j);
    HitBounds(hs, span, i);
    HitBounds(hs, span, j);
  }

  lemma {:induction false} IntervalSplits(hs: seq<Hit>, limit: int, x: int, span: int, e1: int, e2: int)
    requires forall i :: 0 <= i < |hs| && x <= hs[i].at < x + span ==> hs[i].end == e1 || hs[i].end == e2
    ensures AllowedFrom(hs, limit, x, span) <= AllowedInWindow(hs, limit, e1) + AllowedInWindow(hs, limit, e2)
    decreases |hs|
  {
    if hs != [] {
      var n := |hs| - 1;
      assert forall i :: 0 <= i < n ==> hs[..n][i] == hs[i];
      IntervalSplits(hs[..n], limit, x, span, e1, e2);
      assert x <= hs[n].at < x + span ==> hs[n].end == e1 || hs[n].end == e2;
    }
  }

  lemma {:induction false} EmptyInterval(hs: seq<Hit>, limit: int, x: int, span: int)
    requires forall i :: 0 <= i < |hs| ==> !(x <= hs[i].at < x + span)
    ensures AllowedFrom(hs, limit, x, span) == 0
    decreases |hs|
  {
    if hs != [] {
      EmptyInterval(hs[..|hs| - 1], limit, x, span);
    }
  }

  /** The first and the last hit of a non-empty interval. */
  lemma IntervalEnds(hs: seq<Hit>, span: int, x: int, k: nat) returns (i: nat, j: nat)
    requires History(None, hs, span) && span > 0 && k < |hs| && x <= hs[k].at < x + span
    ensures i <= j < |hs| && x <= hs[i].at && hs[j].at < x + span
    ensures forall m :: 0 <= m < |hs| && x <= hs[m].at < x + span ==> i <= m <= j
  {
    hide History;
    i, j := k, k;
    while i > 0 && x <= hs[i - 1].at
      invariant i <= k && x <= hs[i].at
    {
      i := i - 1;
    }
    while j + 1 < |hs| && hs[j + 1].at < x + span
      invariant k <= j < |hs| && hs[j].at < x + span
    {
      j := j + 1;
    }
    forall m | 0 <= m < |hs| && x <= hs[m].at < x + span
      ensures i <= m <= j
    {
      if m < i {
        Spacing(hs, span, m, i - 1);
      } else if m > j {
        Spacing(hs, span, j + 1, m);
      }
    }
  }

  lemma IntervalBudget(hs: seq<Hit>, span: int, limit: nat, x: int)
    requires History(None, hs, span) && span > 0
    ensures AllowedFrom(hs, limit, x, span) <= 2 * limit
  {
    if k :| 0 <= k < |hs| && x <= hs[k].at < x + span {
      var i, j := IntervalEnds(hs, span, x, k);
      forall m | 0 <= m < |hs| && x <= hs[m].at < x + span
        ensures hs[m].end == hs[i].end || hs[m].end == hs[j].end
      {
        TwoWindows(hs, span, x, i, m, j);
      }
      IntervalSplits(hs, limit, x, span, hs[i].end, hs[j].end);
      WindowBudget(hs, span, limit, hs[i].end);
      WindowBudget(hs, span, limit, hs[j].end);
    } else {
      EmptyInterval(hs, limit, x, span);
    }
  }

  /**
    Rate-limit safety over whole runs: starting without a row for the bucket,
    whatever else the run does to the table, at most `limit` attempts are
    allowed per window and at most twice that in any interval one window long.
   */
  lemma RateLimitSafety(like: Like, t: Table, ops: seq<Op>, key: string, window: int, limit: nat, x: int, e: int)
    requires ValidWindow(window) && Undisturbed(like, ops, key, window) && key !in t.rows
    ensures History(None, Hits(like, t, ops, key), window * SECOND)
    ensures AllowedInWindow(Hits(like, t, ops, key), limit, e) <= limit
    ensures AllowedFrom(Hits(like, t, ops, key), limit, x, window * SECOND) <= 2 * limit
  {
    RunMakesHistory(like, t, ops, key, window, None);
    WindowBudget(Hits(like, t, ops, key), window * SECOND, limit, e);
    IntervalBudget(Hits(like, t, ops, key), window * SECOND, limit, x);
  }

  // --- The advertised wait ---------------------------------------------------

  /** Time left on a window, rounded up to whole seconds and never below one. */
  function RetryAfter(end: int, now: int): int {
    var remaining := end - now;
    if remaining <= 0 then SECOND
    else if remaining / SECOND * SECOND == remaining then remaining
    else remaining / SECOND * SECOND + SECOND
  }

  /** The Retry-After header of a 429 problem, in seconds. */
  function RetryAfterHeader(retryAfter: int): int
    requires retryAfter > 0
  {
    retryAfter / SECOND + if retryAfter % SECOND != 0 then 1 else 0
  }

  /** Whatever the wait, the header is it in seconds, rounded up. */
  lemma HeaderRoundsUp(retryAfter: int)
    requires retryAfter > 0
    ensures var s := RetryAfterHeader(retryAfter);
            s >= 1 && (s - 1) * SECOND < retryAfter <= s * SECOND
  {
  }

  /** The header is the least positive whole number of seconds after which the window is closed. */
  lemma AdvertisedWaitIsLeast(end: int, now: int)
    ensures RetryAfter(end, now) > 0
    ensures var s := RetryAfterHeader(RetryAfter(end, now));
            && s >= 1
            && now + s * SECOND >= end
            && forall m :: 1 <= m < s ==> now + m * SECOND < end
  {
    var s := RetryAfterHeader(RetryAfter(end, now));
    assert RetryAfter(end, now) == s * SECOND;
  }

  // --- The limiter -----------------------------------------------------------

  datatype Decision = Decision(allowed: bool, hits: int, limit: int, retryAfter: int)

  datatype Verdict = Decided(decision: Decision) | StoreError

  class Limiter {
    const store: Store

    constructor (store: Store)
      ensures this.store == store
    {
      this.store := store;
    }

    /** Charges one attempt, allowed or not; `elapsed` passes before the wait is computed. */
    method Allow(key: string, limit: int, windowSeconds: int, elapsed: nat) returns (v: Verdict)
      modifies store
      ensures store.table
              == Step(store.like, Step(store.like, old(store.table), Increment(key, windowSeconds)).0, Tick(elapsed)).0
      ensures var r := Step(store.like, old(store.table), Increment(key, windowSeconds)).1;
              if r.Window? then
                v == Decided(Decision(r.hits <= limit, r.hits, limit,
                                      if r.hits <= limit then 0 else RetryAfter(r.expiresAt, store.table.now)))
              else v == StoreError
    {
      var r := store.IncrementWindow(key, windowSeconds);
      store.table := store.table.(now := store.table.now + elapsed);
      if !r.Window? {
        return StoreError;
      }
      var decision := Decision(r.hits <= limit, r.hits, limit, 0);
      if !decision.allowed {
        decision := decision.(retryAfter := RetryAfter(r.expiresAt, store.table.now));
      }
      v := Decided(decision);
    }

    /** Resets a bucket early: the next attempt opens a fresh window. */
    method Clear(key: string)
      modifies store
      ensures key !in store.table.rows
      ensures store.table == Step(store.like, old(store.table), Delete({key})).0
    {
      store.Flush({key});
    }
  }

  // --- Waiting ---------------------------------------------------------------

  function After(like: Like, t: Table, ops: seq<Op>): Table
    decreases ops
  {
    if ops == [] then t else After(like, Step(like, t, ops[0]).0, ops[1..])
  }

  /** What the table remembers at the end of a run is the run's last hit. */
  lemma {:induction false} RunRemembers(like: Like, t: Table, ops: seq<Op>, key: string, window: int, last: Option<Hit>)
    requires ValidWindow(window) && Undisturbed(like, ops, key, window) && Remembers(t, key, last)
    requires last.Some? ==> 1 <= last.value.hits
    ensures var hs := Hits(like, t, ops, key);
            Remembers(After(like, t, ops), key, Before(last, hs, |hs|))
    decreases ops
  {
    hide Follows, Remembers;
    if ops != [] {
      assert forall i :: 0 <= i < |ops[1..]| ==> ops[1..][i] == ops[i + 1];
      RememberStep(like, t, ops[0], key, window, last);
      var (t', r) := Step(like, t, ops[0]);
      if ops[0].Increment? && ops[0].key == key && r.Window? {
        RunRemembers(like, t', ops[1..], key, window, Some(Hit(t.now, r.hits, r.expiresAt)));
      } else {
        RunRemembers(like, t', ops[1..], key, window, last);
      }
    }
  }

  /** Later hits count on in the window of an earlier one until it closes, and belong to later windows after that. */
  lemma {:induction false} HitsAfter(last: Hit, hs: seq<Hit>, span: int, i: nat)
    requires History(Some(last), hs, span) && span > 0 && i < |hs|
    ensures if hs[i].at < last.end then hs[i].end == last.end && hs[i].hits > last.hits else hs[i].end > last.end
    decreases i
  {
    assert Follows(Before(Some(last), hs, i), hs[i], span);
    if i > 0 {
      HitsAfter(last, hs, span, i - 1);
    }
  }

  /** The bucket's blocking window, as the last hit would have left it. */
  function Blocking(t: Table, key: string): Hit
    requires key in t.rows && CanCount(t.rows[key].value) && t.rows[key].expiresAt.Some?
  {
    Hit(t.now, t.rows[key].value.n, t.rows[key].expiresAt.value)
  }

  /**
    A blocked caller waits `n` whole seconds, while the run does whatever it does:
    purges, other keys, further attempts on the bucket. An attempt after fewer
    seconds than advertised is still in the blocking window and refused; one
    after the advertised seconds is in a later window, and opens it if no other
    attempt did.
   */
  lemma WaitingIsNecessaryAndSufficient(like: Like, t: Table, ops: seq<Op>, key: string, window: int, limit: nat,
                                        n: nat)
    requires ValidWindow(window) && Undisturbed(like, ops, key, window)
    requires key in t.rows && CanCount(t.rows[key].value) && t.rows[key].expiresAt.Some?
    requires t.now < t.rows[key].expiresAt.value && limit < t.rows[key].value.n
    requires 1 <= n && After(like, t, ops).now == t.now + n * SECOND
    ensures var end := t.rows[key].expiresAt.value;
            var s := RetryAfterHeader(RetryAfter(end, t.now));
            var r := Step(like, After(like, t, ops), Increment(key, window)).1;
            && (n < s && r.Window? ==> r.hits > limit && r.expiresAt == end)
            && (n >= s && r.Window? ==> r.expiresAt > end)
            && (n >= s && Hits(like, t, ops, key) == [] ==> r == Window(1, After(like, t, ops).now + window * SECOND))
  {
    var last, hs, t' := Blocking(t, key), Hits(like, t, ops, key), After(like, t, ops);
    AdvertisedWaitIsLeast(last.end, t.now);
    RunMakesHistory(like, t, ops, key, window, Some(last));
    RunRemembers(like, t, ops, key, window, Some(last));
    if hs != [] {
      HitsAfter(last, hs, window * SECOND, |hs| - 1);
    }
    Attempt(like, t', key, window, last, Before(Some(last), hs, |hs|).value);
  }

  /** An attempt on a bucket whose last hit is `latest`, in the window of `last` or a later one. */
  lemma Attempt(like: Like, t: Table, key: string, window: int, last: Hit, latest: Hit)
    requires ValidWindow(window) && Remembers(t, key, Some(latest)) && 1 <= last.hits
    requires if latest.at < last.end then latest.end == last.end && latest.hits >= last.hits else latest.end > last.end
    ensures var r := Step(like, t, Increment(key, window)).1;
            && (t.now < last.end && r.Window? ==> r.hits > last.hits && r.expiresAt == last.end)
            && (t.now >= last.end && r.Window? ==> r.expiresAt > last.end)
            && (t.now >= last.end && latest == last ==> r == Window(1, t.now + window * SECOND))
  {
  }
}
