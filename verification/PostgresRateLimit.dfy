/**
 The shared limiter of lib/rate-limit.ts: one atomic upsert per check on a table of rows, whose
 count keeps growing after a refusal, and clean-up deletes that any replica may run at any time.
 */
module PostgresRateLimit {
  import opened Common
  import opened FixedWindow
  import M = MemoryRateLimit

  /** A row of RateLimitBucket; windowStartAt and updatedAt never decide anything. */
  datatype Row = Row(count: int, expiresAt: int)

  type Table = map<string, Row>

  /**
   One statement as the database serialises it. A check is one upsert; a clean-up deletes the rows
   that were over at the time its check captured, and then, on overflow, the keys it picked.
   */
  datatype Statement =
    | Upsert(key: string, now: int)
    | DeleteExpired(now: int)
    | DeleteKeys(keys: set<string>)

  function UpsertRow(c: Config, rows: Table, key: string, now: int): Row {
    if key !in rows || rows[key].expiresAt <= now then Row(1, now + c.windowMs)
    else rows[key].(count := rows[key].count + 1)
  }

  function Execute(c: Config, rows: Table, s: Statement): Table {
    match s
    case Upsert(key, now) => rows[key := UpsertRow(c, rows, key, now)]
    case DeleteExpired(now) => map k | k in rows && rows[k].expiresAt > now :: rows[k]
    case DeleteKeys(keys) => rows - keys
  }

  /** The verdict of a check from the row its upsert returned. */
  function Answer(c: Config, row: Row, now: int): Verdict {
    if row.count > c.limit then Denied(row.expiresAt, now) else ALLOWED
  }

  function CallsOf(ss: seq<Statement>): seq<M.Call> {
    if ss == [] then []
    else (if ss[0].Upsert? then [M.Call(ss[0].key, ss[0].now)] else []) + CallsOf(ss[1..])
  }

  function CheckAll(c: Config, rows: Table, ss: seq<Statement>): (vs: seq<Verdict>)
    ensures |vs| == |CallsOf(ss)|
    decreases |ss|
  {
    if ss == [] then []
    else
      (match ss[0]
       case Upsert(key, now) => [Answer(c, UpsertRow(c, rows, key, now), now)]
       case _ => [])
      + CheckAll(c, Execute(c, rows, ss[0]), ss[1..])
  }

  /** The clock never goes back; a clean-up works with a time captured at or before its statement. */
  predicate ClockFrom(ss: seq<Statement>, t: int) {
    ss == [] ||
    match ss[0]
    case Upsert(_, now) => t <= now && ClockFrom(ss[1..], now)
    case DeleteExpired(now) => now <= t && ClockFrom(ss[1..], t)
    case DeleteKeys(_) => ClockFrom(ss[1..], t)
  }

  /** No overflow clean-up picks a row of this key that is still counting. */
  ghost predicate NeverEvicted(c: Config, rows: Table, ss: seq<Statement>, t: int, key: string)
    decreases |ss|
  {
    if ss == [] then true
    else
      && (ss[0].DeleteKeys? && key in ss[0].keys && key in rows ==> rows[key].expiresAt <= t)
      && NeverEvicted(c, Execute(c, rows, ss[0]), ss[1..], if ss[0].Upsert? then ss[0].now else t, key)
  }

  /** A clean-up leaves exactly the rows that expire after its time; an overflow delete all but the keys it picked. */
  lemma CleanupsDelete(c: Config, rows: Table, now: int, keys: set<string>, key: string)
    ensures key in Execute(c, rows, DeleteExpired(now)) <==> key in rows && now < rows[key].expiresAt
    ensures key in Execute(c, rows, DeleteKeys(keys)) <==> key in rows && key !in keys
    ensures key in rows && now < rows[key].expiresAt ==> Execute(c, rows, DeleteExpired(now))[key] == rows[key]
    ensures key in rows && key !in keys ==> Execute(c, rows, DeleteKeys(keys))[key] == rows[key]
  {
  }

  /** The row counts every call, the bucket stops at the limit; a swept row was over. */
  predicate Tracks(c: Config, rows: Table, key: string, b: Option<Bucket>, t: int) {
    if key in rows && rows[key].expiresAt > t then
      && b.Some?
      && b.value == Bucket(Min(c.limit, rows[key].count), rows[key].expiresAt)
      && 1 <= rows[key].count
    else
      Expired(b, t)
  }

  lemma ExecuteTracks(c: Config, rows: Table, s: Statement, t: int, key: string, b: Option<Bucket>)
    requires 1 <= c.limit && Tracks(c, rows, key, b, t)
    requires s.Upsert? ==> t <= s.now
    requires s.DeleteExpired? ==> s.now <= t
    requires s.DeleteKeys? && key in s.keys && key in rows ==> rows[key].expiresAt <= t
    ensures
      var rows' := Execute(c, rows, s);
      if s.Upsert? && s.key == key then
        && Answer(c, UpsertRow(c, rows, key, s.now), s.now) == Touch(c, b, s.now).1
        && Tracks(c, rows', key, Some(Touch(c, b, s.now).0), s.now)
      else
        Tracks(c, rows', key, b, if s.Upsert? then s.now else t)
  {
  }

  /**
   On every key that no overflow evicts, the shared table answers exactly like a limiter kept for
   that key alone, under any interleaving of checks and clean-ups.
   */
  lemma {:induction false} PostgresRefines(c: Config, rows: Table, t: int, b: Option<Bucket>, ss: seq<Statement>, key: string)
    requires 1 <= c.limit && Tracks(c, rows, key, b, t) && ClockFrom(ss, t)
    requires NeverEvicted(c, rows, ss, t, key)
    ensures M.VerdictsOf(CallsOf(ss), CheckAll(c, rows, ss), key) == Run(c, b, M.TimesOf(CallsOf(ss), key))
    decreases |ss|
  {
    if ss != [] {
      var s := ss[0];
      var rows' := Execute(c, rows, s);
      ExecuteTracks(c, rows, s, t, key, b);
      var b' := if s.Upsert? && s.key == key then Some(Touch(c, b, s.now).0) else b;
      PostgresRefines(c, rows', if s.Upsert? then s.now else t, b', ss[1..], key);
      if s.Upsert? {
        assert CallsOf(ss)[1..] == CallsOf(ss[1..]);
        assert CheckAll(c, rows, ss)[1..] == CheckAll(c, rows', ss[1..]);
        if s.key == key {
          assert M.TimesOf(CallsOf(ss), key)[1..] == M.TimesOf(CallsOf(ss[1..]), key);
        } else {
          assert M.TimesOf(CallsOf(ss), key) == M.TimesOf(CallsOf(ss[1..]), key);
        }
      } else {
        assert CallsOf(ss) == CallsOf(ss[1..]);
        assert CheckAll(c, rows, ss) == CheckAll(c, rows', ss[1..]);
      }
    }
  }

  /**
   The two limiters agree on everything they answer about a key called at the same times, whatever
   their other keys do, whenever the limit is at least one and neither evicts the key on overflow.
   */
  lemma MemoryAndPostgresAgree(c: Config, t: int, calls: seq<M.Call>, ss: seq<Statement>, key: string)
    requires 1 <= c.limit
    requires M.ClockFrom(calls, t) && ClockFrom(ss, t)
    requires M.TimesOf(calls, key) == M.TimesOf(CallsOf(ss), key)
    requires M.NeverEvicted(c, M.EMPTY, calls, key) && NeverEvicted(c, map[], ss, t, key)
    ensures M.VerdictsOf(calls, M.CheckAll(c, M.EMPTY, calls), key)
         == M.VerdictsOf(CallsOf(ss), CheckAll(c, map[], ss), key)
  {
    M.MemoryRefines(c, M.EMPTY, t, None, calls, key);
    PostgresRefines(c, map[], t, None, ss, key);
  }

  const PG_MAX_BUCKETS := 50000

  /** An overflow delete follows a count of more than PG_MAX_BUCKETS rows, taken at some earlier point. */
  predicate CountedFirst(c: Config, rows: Table, ss: seq<Statement>, most: int)
    decreases |ss|
  {
    if ss == [] then true
    else
      var most' := Max(most, |rows|);
      && (ss[0].DeleteKeys? ==> most' > PG_MAX_BUCKETS)
      && CountedFirst(c, Execute(c, rows, ss[0]), ss[1..], most')
  }

  /** Callers that use at most PG_MAX_BUCKETS different keys never have a row evicted. */
  lemma {:induction false} FewKeysNeverEvicted(c: Config, rows: Table, ss: seq<Statement>, t: int, most: int,
                                               keys: set<string>, key: string)
    requires CountedFirst(c, rows, ss, most) && most <= 50_000
    requires rows.Keys <= keys && |keys| <= 50_000
    requires forall i :: 0 <= i < |ss| && ss[i].Upsert? ==> ss[i].key in keys
    ensures NeverEvicted(c, rows, ss, t, key)
    decreases |ss|
  {
    if ss != [] {
      SubsetSize(rows.Keys, keys);
      assert |rows| == |rows.Keys|;
      FewKeysNeverEvicted(c, Execute(c, rows, ss[0]), ss[1..], if ss[0].Upsert? then ss[0].now else t,
                          Max(most, |rows|), keys, key);
    }
  }

  /**
   A limit below one tells them apart: the in-process limiter still admits the call that starts a
   bucket, the shared one refuses it. So they agree on every first call iff the limit is at least one.
   */
  lemma FirstCallAgreesIffLimitPositive(c: Config, key: string, now: int)
    ensures
      var call := [M.Call(key, now)];
      var upsert := [Upsert(key, now)];
      M.CheckAll(c, M.EMPTY, call) == CheckAll(c, map[], upsert) <==> 1 <= c.limit
  {
    var call := [M.Call(key, now)];
    var upsert := [Upsert(key, now)];
    assert M.CheckAll(c, M.EMPTY, call) == [ALLOWED];
    assert CheckAll(c, map[], upsert) == [Answer(c, Row(1, now + c.windowMs), now)];
  }

  /** The shared limiter's guarantee, clean-ups included. */
  lemma PostgresWindowBound(c: Config, ss: seq<Statement>, t: int, key: string, lo: int)
    requires 1 <= c.limit && ClockFrom(ss, t) && NeverEvicted(c, map[], ss, t, key)
    ensures
      var times := M.TimesOf(CallsOf(ss), key);
      var vs := M.VerdictsOf(CallsOf(ss), CheckAll(c, map[], ss), key);
      && |times| == |vs|
      && AllowedIn(times, vs, lo, lo + c.windowMs) <= 2 * c.limit - 1
  {
    PostgresRefines(c, map[], t, None, ss, key);
    CallsClock(ss, t);
    M.TimesNonDecreasing(CallsOf(ss), t, key);
    WindowBound(c, M.TimesOf(CallsOf(ss), key), lo);
  }

  lemma {:induction false} CallsClock(ss: seq<Statement>, t: int)
    requires ClockFrom(ss, t)
    ensures M.ClockFrom(CallsOf(ss), t)
    decreases |ss|
  {
    if ss != [] {
      if ss[0].Upsert? {
        CallsClock(ss[1..], ss[0].now);
        assert CallsOf(ss)[1..] == CallsOf(ss[1..]);
      } else {
        CallsClock(ss[1..], t);
        assert CallsOf(ss) == CallsOf(ss[1..]);
      }
    }
  }
}
