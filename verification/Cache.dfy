/**
  The cache table: every SQL statement is one atomic step over rows that may
  have lapsed but not been reaped yet. Lapsed rows are invisible: for every run
  and every schedule of purges the table behaves like one that drops each row
  the instant it expires.
 */
module Cache {
  import opened Wrappers

  const SECOND := 1_000_000_000
  const MAX_TTL_SECONDS := 31 * 24 * 60 * 60
  const MAX_INT32 := 0x7fff_ffff
  const MIN_INT32 := -0x8000_0000

  /** A stored JSON value; only an integer can be read back as a counter. */
  datatype Value = Counter(n: int) | Other(text: string)

  /** The stored text casts to a 32-bit integer whose successor is one too. */
  predicate CanCount(v: Value) {
    v.Counter? && MIN_INT32 <= v.n < MAX_INT32
  }

  datatype Row = Row(value: Value, expiresAt: Option<int>)

  datatype Table = Table(rows: map<string, Row>, now: int)

  datatype Op =
    | Get(key: string)
    | Set(key: string, value: Value, ttlSeconds: int)
    | Increment(key: string, windowSeconds: int)
    | Delete(keys: set<string>)
    | DeletePattern(pattern: string)
    | List(pattern: string)
    | Purge
    | Tick(elapsed: nat)

  datatype Result =
    | Found(value: Option<Value>)
    | Window(hits: int, expiresAt: int)
    | Keys(keys: set<string>)
    | InvalidTTL
    | Failed
    | Done

  /** How SQL LIKE reads a pattern; any reading will do. */
  type Like = (string, string) -> bool

  predicate Live(row: Row, now: int) {
    row.expiresAt.None? || row.expiresAt.value > now
  }

  predicate ValidWindow(windowSeconds: int) {
    0 < windowSeconds <= MAX_TTL_SECONDS
  }

  predicate ValidTTL(ttlSeconds: int) {
    0 <= ttlSeconds <= MAX_TTL_SECONDS
  }

  /** The counter upsert: a missing, lapsed or never-expiring row restarts the window at one. */
  function Bumped(rows: map<string, Row>, key: string, now: int, windowSeconds: int): Option<Row> {
    if key !in rows || rows[key].expiresAt.None? || rows[key].expiresAt.value <= now then
      Some(Row(Counter(1), Some(now + windowSeconds * SECOND)))
    else if CanCount(rows[key].value) then
      Some(Row(Counter(rows[key].value.n + 1), rows[key].expiresAt))
    else None
  }

  /** One statement, as the table executes it. */
  function Step(like: Like, t: Table, op: Op): (Table, Result) {
    match op
    case Get(key) => (t, Found(if key in t.rows && Live(t.rows[key], t.now) then Some(t.rows[key].value) else None))
    case Set(key, value, ttl) =>
      if !ValidTTL(ttl) then (t, InvalidTTL)
      else (t.(rows := t.rows[key := Row(value, if ttl > 0 then Some(t.now + ttl * SECOND) else None)]), Done)
    case Increment(key, window) =>
      if !ValidWindow(window) then (t, InvalidTTL)
      else
        var row := Bumped(t.rows, key, t.now, window);
        if row.None? || row.value.value.Other? || row.value.expiresAt.None? then (t, Failed)
        else (t.(rows := t.rows[key := row.value]), Window(row.value.value.n, row.value.expiresAt.value))
    case Delete(keys) => (t.(rows := t.rows - keys), Done)
    case DeletePattern(pattern) => (t.(rows := map k | k in t.rows && !like(k, pattern) :: t.rows[k]), Done)
    case List(pattern) => (t, Keys(set k | k in t.rows && like(k, pattern) && Live(t.rows[k], t.now)))
    case Purge => (t.(rows := map k | k in t.rows && Live(t.rows[k], t.now) :: t.rows[k]), Done)
    case Tick(elapsed) => (t.(now := t.now + elapsed), Done)
  }

  // --- The eager table -------------------------------------------------------

  /** The rows a reader can see. */
  function Visible(t: Table): Table {
    t.(rows := map k | k in t.rows && Live(t.rows[k], t.now) :: t.rows[k])
  }

  /** The same operations on a table that never holds a lapsed row: presence alone decides. */
  function EagerStep(like: Like, t: Table, op: Op): (Table, Result) {
    match op
    case Get(key) => (t, Found(if key in t.rows then Some(t.rows[key].value) else None))
    case Set(key, value, ttl) =>
      if !ValidTTL(ttl) then (t, InvalidTTL)
      else (t.(rows := t.rows[key := Row(value, if ttl > 0 then Some(t.now + ttl * SECOND) else None)]), Done)
    case Increment(key, window) =>
      if !ValidWindow(window) then (t, InvalidTTL)
      else if key !in t.rows || t.rows[key].expiresAt.None? then
        (t.(rows := t.rows[key := Row(Counter(1), Some(t.now + window * SECOND))]), Window(1, t.now + window * SECOND))
      else if !CanCount(t.rows[key].value) then (t, Failed)
      else
        var row := t.rows[key].(value := Counter(t.rows[key].value.n + 1));
        (t.(rows := t.rows[key := row]), Window(row.value.n, row.expiresAt.value))
    case Delete(keys) => (t.(rows := t.rows - keys), Done)
    case DeletePattern(pattern) => (t.(rows := map k | k in t.rows && !like(k, pattern) :: t.rows[k]), Done)
    case List(pattern) => (t, Keys(set k | k in t.rows && like(k, pattern)))
    case Purge => (t, Done)
    case Tick(elapsed) => (Visible(t.(now := t.now + elapsed)), Done)
  }

  lemma StepRefinesEager(like: Like, t: Table, op: Op)
    ensures EagerStep(like, Visible(t), op).1 == Step(like, t, op).1
    ensures EagerStep(like, Visible(t), op).0 == Visible(Step(like, t, op).0)
  {
    var eager, lazy := EagerStep(like, Visible(t), op).0, Visible(Step(like, t, op).0);
    assert eager.rows == lazy.rows;
  }

  /**
    An increment inside a valid window, of at most 31 days, succeeds, unless the row
    that is in force holds no 32-bit integer or the greatest one; it starts at one
    where no row is in force or the row never expires, and counts one further
    otherwise. One that fails changes nothing.
   */
  lemma IncrementSucceedsIff(like: Like, t: Table, key: string, window: int)
    ensures var (t', r) := Step(like, t, Increment(key, window));
            var open := key in t.rows && t.rows[key].expiresAt.Some? && t.now < t.rows[key].expiresAt.value;
            var counts := open && exists n :: -0x8000_0000 <= n < 0x7fff_ffff && t.rows[key].value == Counter(n);
            if !(1 <= window <= 2_678_400) then r == InvalidTTL && t' == t
            else if !open then r == Window(1, t.now + window * SECOND)
            else if counts then r == Window(t.rows[key].value.n + 1, t.rows[key].expiresAt.value)
            else r == Failed && t' == t
  {
  }

  /** A value that is set for at most 31 days is read back until its time is over, or for ever; any other is refused. */
  lemma SetIsReadBack(like: Like, t: Table, key: string, value: Value, ttl: int, elapsed: nat)
    ensures var (t', r) := Step(like, t, Set(key, value, ttl));
            if !(0 <= ttl <= 2_678_400) then r == InvalidTTL && t' == t
            else
              && r == Done
              && var later := Step(like, t', Tick(elapsed)).0;
                 Step(like, later, Get(key)).1
                 == Found(if ttl == 0 || elapsed < ttl * SECOND then Some(value) else None)
  {
  }

  // --- Runs ------------------------------------------------------------------

  function Observe(like: Like, t: Table, ops: seq<Op>): seq<Result>
    decreases ops
  {
    if ops == [] then []
    else
      var (t', r) := Step(like, t, ops[0]);
      (if ops[0].Purge? then [] else [r]) + Observe(like, t', ops[1..])
  }

  function EagerObserve(like: Like, t: Table, ops: seq<Op>): seq<Result>
    decreases ops
  {
    if ops == [] then []
    else
      var (t', r) := EagerStep(like, t, ops[0]);
      [r] + EagerObserve(like, t', ops[1..])
  }

  function WithoutPurges(ops: seq<Op>): seq<Op> {
    if ops == [] then []
    else (if ops[0].Purge? then [] else [ops[0]]) + WithoutPurges(ops[1..])
  }

  /** Whatever the run and wherever purges fall in it, every result is the eager table's. */
  lemma {:induction false} LazyRefinesEager(like: Like, t: Table, ops: seq<Op>)
    ensures Observe(like, t, ops) == EagerObserve(like, Visible(t), WithoutPurges(ops))
    decreases ops
  {
    if ops != [] {
      var t' := Step(like, t, ops[0]).0;
      StepRefinesEager(like, t, ops[0]);
      LazyRefinesEager(like, t', ops[1..]);
      var rest := WithoutPurges(ops[1..]);
      if ops[0].Purge? {
        assert WithoutPurges(ops) == rest;
      } else {
        assert WithoutPurges(ops)[1..] == rest;
      }
    }
  }

  /** Two runs that differ only in when they purge are indistinguishable. */
  lemma PurgeScheduleIsInvisible(like: Like, t: Table, ops: seq<Op>, ops': seq<Op>)
    requires WithoutPurges(ops) == WithoutPurges(ops')
    ensures Observe(like, t, ops) == Observe(like, t, ops')
  {
    LazyRefinesEager(like, t, ops);
    LazyRefinesEager(like, t, ops');
  }

  // --- The table itself ------------------------------------------------------

  class Store {
    var table: Table
    const like: Like

    constructor (like: Like, now: int)
      ensures table == Table(map[], now) && this.like == like
    {
      this.like := like;
      table := Table(map[], now);
    }

    method GetEntry(key: string) returns (value: Option<Value>)
      ensures Step(like, table, Get(key)) == (table, Found(value))
    {
      value := None;
      if key in table.rows {
        var row := table.rows[key];
        if row.expiresAt.None? || row.expiresAt.value > table.now {
          value := Some(row.value);
        }
      }
    }

    method SetEntry(key: string, value: Value, ttlSeconds: int) returns (result: Result)
      modifies this
      ensures (table, result) == Step(like, old(table), Set(key, value, ttlSeconds))
    {
      if ttlSeconds < 0 || ttlSeconds > MAX_TTL_SECONDS {
        return InvalidTTL;
      }
      var expires := if ttlSeconds > 0 then Some(table.now + ttlSeconds * SECOND) else None;
      table := table.(rows := table.rows[key := Row(value, expires)]);
      result := Done;
    }

    method IncrementWindow(key: string, windowSeconds: int) returns (result: Result)
      modifies this
      ensures (table, result) == Step(like, old(table), Increment(key, windowSeconds))
    {
      if windowSeconds <= 0 || windowSeconds > MAX_TTL_SECONDS {
        return InvalidTTL;
      }
      var next := Row(Counter(1), Some(table.now + windowSeconds * SECOND));
      if key in table.rows {
        var row := table.rows[key];
        if row.expiresAt.Some? && row.expiresAt.value > table.now {
          if !CanCount(row.value) {
            return Failed;
          }
          next := row.(value := Counter(row.value.n + 1));
        }
      }
      table := table.(rows := table.rows[key := next]);
      result := Window(next.value.n, next.expiresAt.value);
    }

    method Flush(keys: set<string>)
      modifies this
      ensures table == Step(like, old(table), Delete(keys)).0
    {
      table := table.(rows := table.rows - keys);
    }

    /** Reaps lapsed rows and reports how many went. */
    method PruneExpired() returns (deleted: nat)
      modifies this
      ensures table == Step(like, old(table), Purge).0
      ensures deleted == |old(table).rows| - |Visible(old(table)).rows|
      ensures Visible(table) == Visible(old(table))
    {
      var kept := table.rows;
      deleted := 0;
      var todo := table.rows.Keys;
      while todo != {}
        invariant todo <= table.rows.Keys && table == old(table)
        invariant kept == map k | k in table.rows && (k in todo || Live(table.rows[k], table.now)) :: table.rows[k]
        invariant deleted == |table.rows| - |kept|
        decreases todo
      {
        var k :| k in todo;
        if table.rows[k].expiresAt.Some? && table.rows[k].expiresAt.value <= table.now {
          assert |kept.Keys - {k}| == |kept.Keys| - 1;
          assert (kept - {k}).Keys == kept.Keys - {k};
          kept := kept - {k};
          deleted := deleted + 1;
        }
        todo := todo - {k};
      }
      table := table.(rows := kept);
      assert Visible(table).rows == Visible(old(table)).rows;
    }
  }
}
