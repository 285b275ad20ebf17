/**
 The in-process limiter of lib/rate-limit.ts: one insertion-ordered map of buckets, swept on
 every call, trimmed to the newest buckets when it overflows.
 */
module MemoryRateLimit {
  import opened Common
  import opened FixedWindow
  import opened JsStrings
  import opened StableSort

  const MAX_BUCKETS := 5000

  /** A JavaScript Map: the keys in insertion order, and what they map to. */
  datatype Store = Store(order: seq<string>, at: map<string, Bucket>)

  const EMPTY := Store([], map[])

  ghost predicate WellFormed(s: Store) {
    && NoDup(s.order)
    && (forall k :: k in s.order <==> k in s.at)
  }

  /** `Map.set`: a key that is present keeps its place, a new one goes last. */
  function Put(s: Store, key: string, b: Bucket): Store {
    Store(if key in s.at then s.order else s.order + [key], s.at[key := b])
  }

  function KeepIn(order: seq<string>, keep: set<string>): seq<string> {
    if order == [] then []
    else KeepIn(order[..|order| - 1], keep)
         + (if order[|order| - 1] in keep then [order[|order| - 1]] else [])
  }

  function Restrict(s: Store, keep: set<string>): Store {
    Store(KeepIn(s.order, keep), map k | k in s.at && k in keep :: s.at[k])
  }

  /** `Map.delete`. */
  function Delete(s: Store, key: string): Store {
    Restrict(s, s.at.Keys - {key})
  }

  function LiveKeys(s: Store, now: int): set<string> {
    set k | k in s.at && s.at[k].resetAt > now
  }

  function DropExpired(s: Store, now: int): Store {
    Restrict(s, LiveKeys(s, now))
  }

  function ResetAt(at: map<string, Bucket>, key: string): int {
    if key in at then at[key].resetAt else 0
  }

  function ResetKey(at: map<string, Bucket>): string -> int {
    key => ResetAt(at, key)
  }

  /** `entries().sort((a, b) => a.resetAt - b.resetAt)`. */
  function SortByReset(order: seq<string>, at: map<string, Bucket>): (r: seq<string>)
    ensures |r| == |order|
  {
    SortMembers(order, ResetKey(at));
    Sort(order, ResetKey(at))
  }

  predicate ResetOrdered(order: seq<string>, at: map<string, Bucket>) {
    forall i, j :: 0 <= i < j < |order| ==> ResetAt(at, order[i]) <= ResetAt(at, order[j])
  }

  function Elements(s: seq<string>): set<string> {
    set k | k in s
  }

  function DropOldest(s: Store, n: nat): Store
    requires n <= |s.order|
  {
    Restrict(s, s.at.Keys - Elements(SortByReset(s.order, s.at)[..n]))
  }

  function Overflow(s: Store): nat {
    if |s.order| <= MAX_BUCKETS then 0 else |s.order| - MAX_BUCKETS
  }

  function Pruned(s: Store, now: int): Store
  {
    var live := DropExpired(s, now);
    if Overflow(live) == 0 then live else DropOldest(live, Overflow(live))
  }

  /** What `check` does to the key's bucket once the map is swept. */
  function Charge(c: Config, s: Store, key: string, now: int): (Store, Verdict) {
    if key !in s.at || s.at[key].resetAt <= now then
      (Put(s, key, Bucket(1, now + c.windowMs)), ALLOWED)
    else if s.at[key].count >= c.limit then
      (s, Denied(s.at[key].resetAt, now))
    else
      (Put(s, key, s.at[key].(count := s.at[key].count + 1)), ALLOWED)
  }

  function Checked(c: Config, s: Store, key: string, now: int): (Store, Verdict)
  {
    Charge(c, Pruned(s, now), key, now)
  }

  // ---- Restriction ----

  lemma {:induction false} KeepInMembers(order: seq<string>, keep: set<string>)
    ensures forall k :: k in KeepIn(order, keep) <==> k in order && k in keep
  {
    if order != [] {
      KeepInMembers(order[..|order| - 1], keep);
      assert order == order[..|order| - 1] + [order[|order| - 1]];
    }
  }

  lemma {:induction false} KeepInNoDup(order: seq<string>, keep: set<string>)
    requires NoDup(order)
    ensures NoDup(KeepIn(order, keep))
  {
    if order != [] {
      var last := order[|order| - 1];
      var front := order[..|order| - 1];
      KeepInNoDup(front, keep);
      KeepInMembers(front, keep);
      assert last !in front;
    }
  }

  lemma {:induction false} KeepInTwice(order: seq<string>, a: set<string>, b: set<string>)
    ensures KeepIn(KeepIn(order, a), b) == KeepIn(order, a * b)
  {
    if order != [] {
      var last := order[|order| - 1];
      var front := order[..|order| - 1];
      KeepInTwice(front, a, b);
      if last in a {
        var kept := KeepIn(front, a);
        assert (kept + [last])[..|kept|] == kept;
      } else {
        assert KeepIn(order, a) == KeepIn(front, a);
      }
    }
  }

  lemma {:induction false} KeepInAll(order: seq<string>, keep: set<string>)
    requires forall k :: k in order ==> k in keep
    ensures KeepIn(order, keep) == order
  {
    if order != [] {
      var front, last := order[..|order| - 1], order[|order| - 1];
      assert order == front + [last];
      assert forall k :: k in front ==> k in order;
      KeepInAll(front, keep);
    }
  }

  lemma RestrictValid(s: Store, keep: set<string>)
    requires WellFormed(s)
    ensures WellFormed(Restrict(s, keep))
  {
    KeepInMembers(s.order, keep);
    KeepInNoDup(s.order, keep);
  }

  lemma RestrictTwice(s: Store, a: set<string>, b: set<string>)
    ensures Restrict(Restrict(s, a), b) == Restrict(s, a * b)
  {
    KeepInTwice(s.order, a, b);
  }

  lemma RestrictAll(s: Store)
    requires WellFormed(s)
    ensures Restrict(s, s.at.Keys) == s
  {
    KeepInAll(s.order, s.at.Keys);
  }

  /** A valid store has one place in its order for every key. */
  lemma {:induction false} NoDupSize(order: seq<string>)
    requires NoDup(order)
    ensures |Elements(order)| == |order|
  {
    if order != [] {
      var last := order[|order| - 1];
      var front := order[..|order| - 1];
      NoDupSize(front);
      assert Elements(order) == Elements(front) + {last};
    }
  }

  lemma {:induction false} KeepInAgrees(order: seq<string>, a: set<string>, b: set<string>)
    requires forall k :: k in order ==> (k in a <==> k in b)
    ensures KeepIn(order, a) == KeepIn(order, b)
  {
    if order != [] {
      KeepInAgrees(order[..|order| - 1], a, b);
    }
  }

  lemma StoreSize(s: Store)
    requires WellFormed(s)
    ensures |s.at| == |s.order|
  {
    NoDupSize(s.order);
    assert Elements(s.order) == s.at.Keys;
  }

  lemma PruneValid(s: Store, now: int)
    requires WellFormed(s)
    ensures WellFormed(DropExpired(s, now)) && WellFormed(Pruned(s, now))
  {
    RestrictValid(s, LiveKeys(s, now));
    var live := DropExpired(s, now);
    RestrictValid(live, live.at.Keys - Elements(SortByReset(live.order, live.at)[..Overflow(live)]));
  }

  /** Every key is on the early side of the cut or on the late side, never on both. */
  lemma CutOrdered(sorted: seq<string>, at: map<string, Bucket>, n: nat, gone: string, kept: string)
    requires ResetOrdered(sorted, at) && n <= |sorted|
    requires gone in sorted[..n] && kept in sorted && kept !in sorted[..n]
    ensures ResetAt(at, gone) <= ResetAt(at, kept)
  {
  }

  lemma DropOldestSize(s: Store, n: nat)
    requires WellFormed(s) && n <= |s.order|
    ensures |DropOldest(s, n).at| == |s.order| - n
  {
    var sorted := SortByReset(s.order, s.at);
    SortNoDup(s.order, ResetKey(s.at));
    SortMembers(s.order, ResetKey(s.at));
    StoreSize(s);
    NoDupSize(sorted[..n]);
    assert Elements(sorted[..n]) <= s.at.Keys;
    assert DropOldest(s, n).at.Keys == s.at.Keys - Elements(sorted[..n]);
  }

  ghost predicate EvictsOldest(s: Store, p: Store) {
    && p.at.Keys <= s.at.Keys
    && forall kept, gone :: kept in p.at && gone in s.at && gone !in p.at
         ==> s.at[gone].resetAt <= s.at[kept].resetAt
  }

  lemma DropOldestKeepsNewest(s: Store, n: nat)
    requires WellFormed(s) && n <= |s.order|
    ensures EvictsOldest(s, DropOldest(s, n))
  {
    var p := DropOldest(s, n);
    SortOrdered(s.order, ResetKey(s.at));
    SortMembers(s.order, ResetKey(s.at));
    forall kept, gone | kept in p.at && gone in s.at && gone !in p.at
      ensures s.at[gone].resetAt <= s.at[kept].resetAt
    {
      CutOrdered(SortByReset(s.order, s.at), s.at, n, gone, kept);
    }
  }

  /** A store is what is left of an earlier one: same buckets, same relative order. */
  ghost predicate Remains(s: Store, p: Store) {
    && p.at.Keys <= s.at.Keys
    && (forall k :: k in p.at ==> p.at[k] == s.at[k])
    && p.order == KeepIn(s.order, p.at.Keys)
  }

  lemma RestrictRemains(s: Store, keep: set<string>)
    requires WellFormed(s)
    ensures Remains(s, Restrict(s, keep))
  {
    KeepInAgrees(s.order, keep, Restrict(s, keep).at.Keys);
  }

  lemma RemainsTransitive(s: Store, m: Store, p: Store)
    requires Remains(s, m) && Remains(m, p)
    ensures Remains(s, p)
  {
    KeepInTwice(s.order, m.at.Keys, p.at.Keys);
    assert m.at.Keys * p.at.Keys == p.at.Keys;
  }

  /**
   What one sweep does: every bucket whose window is over goes, every other stays while at most
   MAX_BUCKETS remain; beyond that exactly MAX_BUCKETS stay, none of which resets before any
   that was evicted. What stays is unchanged and in its place.
   */
  lemma PruneKeepsNewest(s: Store, now: int)
    requires WellFormed(s)
    ensures Remains(s, Pruned(s, now))
    ensures DropExpired(s, now).at.Keys == LiveKeys(s, now)
    ensures EvictsOldest(DropExpired(s, now), Pruned(s, now))
    ensures |Pruned(s, now).at| == Min(|LiveKeys(s, now)|, 5_000)
  {
    var live := DropExpired(s, now);
    PruneValid(s, now);
    StoreSize(live);
    RestrictRemains(s, LiveKeys(s, now));
    assert live.at.Keys == LiveKeys(s, now);
    if Overflow(live) != 0 {
      DropOldestSize(live, Overflow(live));
      DropOldestKeepsNewest(live, Overflow(live));
      RestrictRemains(live, live.at.Keys - Elements(SortByReset(live.order, live.at)[..Overflow(live)]));
      RemainsTransitive(s, live, DropOldest(live, Overflow(live)));
    }
  }

  // ---- Every run from an empty store ----

  datatype Call = Call(key: string, now: int)

  predicate ClockFrom(calls: seq<Call>, t: int) {
    calls == [] || (t <= calls[0].now && ClockFrom(calls[1..], calls[0].now))
  }

  function LastTime(calls: seq<Call>, t: int): int {
    if calls == [] then t else calls[|calls| - 1].now
  }

  /** The store after a run of checks. */
  function After(c: Config, s: Store, calls: seq<Call>): Store
    decreases |calls|
  {
    if calls == [] then s else After(c, Checked(c, s, calls[0].key, calls[0].now).0, calls[1..])
  }

  lemma CheckValid(c: Config, s: Store, key: string, now: int)
    requires WellFormed(s)
    ensures WellFormed(Checked(c, s, key, now).0)
  {
    PruneValid(s, now);
  }

  /**
   What holds between two checks of a run whose clock never goes back: the buckets were inserted
   in the order of their reset times, none resets later than a window from now, and at most one
   more than MAX_BUCKETS are held.
   */
  ghost predicate Settled(c: Config, s: Store, t: int) {
    && WellFormed(s)
    && ResetOrdered(s.order, s.at)
    && (forall k :: k in s.at ==> s.at[k].resetAt <= t + c.windowMs)
    && |s.at| <= MAX_BUCKETS + 1
  }

  lemma {:induction false} KeepInOrdered(order: seq<string>, at: map<string, Bucket>, keep: set<string>)
    requires ResetOrdered(order, at)
    ensures ResetOrdered(KeepIn(order, keep), at)
  {
    if order != [] {
      var front := order[..|order| - 1];
      KeepInOrdered(front, at, keep);
      KeepInMembers(front, keep);
      var kept := KeepIn(front, keep);
      forall i | 0 <= i < |kept|
        ensures ResetAt(at, kept[i]) <= ResetAt(at, order[|order| - 1])
      {
        assert kept[i] in kept && kept[i] in front;
      }
    }
  }

  lemma RemainsOrdered(s: Store, p: Store)
    requires WellFormed(s) && Remains(s, p)
    requires ResetOrdered(s.order, s.at)
    ensures ResetOrdered(p.order, p.at)
  {
    KeepInOrdered(s.order, s.at, p.at.Keys);
    KeepInMembers(s.order, p.at.Keys);
    assert forall k :: k in p.order ==> ResetAt(p.at, k) == ResetAt(s.at, k);
    assert forall i :: 0 <= i < |p.order| ==> p.order[i] in p.order;
  }

  lemma PutSize(p: Store, key: string, b: Bucket)
    ensures |Put(p, key, b).at| == |p.at| + (if key in p.at then 0 else 1)
  {
  }

  lemma ReplaceOrdered(p: Store, key: string, b: Bucket)
    requires WellFormed(p) && ResetOrdered(p.order, p.at)
    requires key in p.at && b.resetAt == p.at[key].resetAt
    ensures WellFormed(Put(p, key, b)) && ResetOrdered(Put(p, key, b).order, Put(p, key, b).at)
  {
  }

  lemma AppendOrdered(p: Store, key: string, b: Bucket)
    requires WellFormed(p) && ResetOrdered(p.order, p.at)
    requires key !in p.at && forall k :: k in p.at ==> p.at[k].resetAt <= b.resetAt
    ensures WellFormed(Put(p, key, b)) && ResetOrdered(Put(p, key, b).order, Put(p, key, b).at)
  {
  }

  lemma ChargeSettles(c: Config, p: Store, t: int, key: string, now: int)
    requires WellFormed(p) && ResetOrdered(p.order, p.at) && t <= now
    requires forall k :: k in p.at ==> now < p.at[k].resetAt <= t + c.windowMs
    requires |p.at| <= MAX_BUCKETS
    ensures Settled(c, Charge(c, p, key, now).0, now)
  {
    hide WellFormed, ResetOrdered;
    if key !in p.at {
      AppendOrdered(p, key, Bucket(1, now + c.windowMs));
      PutSize(p, key, Bucket(1, now + c.windowMs));
    } else if p.at[key].count < c.limit {
      ReplaceOrdered(p, key, p.at[key].(count := p.at[key].count + 1));
      PutSize(p, key, p.at[key].(count := p.at[key].count + 1));
    }
  }

  lemma SweepSettles(c: Config, s: Store, t: int, now: int)
    requires Settled(c, s, t)
    ensures
      var p := Pruned(s, now);
      && WellFormed(p) && ResetOrdered(p.order, p.at)
      && (forall k :: k in p.at ==> now < p.at[k].resetAt <= t + c.windowMs)
      && |p.at| <= MAX_BUCKETS
  {
    PruneValid(s, now);
    PruneKeepsNewest(s, now);
    RemainsOrdered(s, Pruned(s, now));
  }

  /** A check leaves the store settled; in particular it never holds more than MAX_BUCKETS + 1. */
  lemma CheckSettles(c: Config, s: Store, t: int, key: string, now: int)
    requires Settled(c, s, t) && t <= now
    ensures Settled(c, Checked(c, s, key, now).0, now)
  {
    SweepSettles(c, s, t, now);
    ChargeSettles(c, Pruned(s, now), t, key, now);
  }

  lemma {:induction false} RunSettles(c: Config, s: Store, t: int, calls: seq<Call>)
    requires Settled(c, s, t) && ClockFrom(calls, t)
    ensures Settled(c, After(c, s, calls), LastTime(calls, t))
    decreases |calls|
  {
    hide Checked;
    if calls != [] {
      CheckSettles(c, s, t, calls[0].key, calls[0].now);
      RunSettles(c, Checked(c, s, calls[0].key, calls[0].now).0, calls[0].now, calls[1..]);
    }
  }

  lemma {:induction false} KeepInSplit(a: seq<string>, b: seq<string>, keep: set<string>)
    ensures KeepIn(a + b, keep) == KeepIn(a, keep) + KeepIn(b, keep)
  {
    if b == [] {
      assert a + b == a;
    } else {
      assert (a + b)[..|a + b| - 1] == a + b[..|b| - 1];
      KeepInSplit(a, b[..|b| - 1], keep);
    }
  }

  lemma {:induction false} KeepInNone(order: seq<string>, keep: set<string>)
    requires forall k :: k in order ==> k !in keep
    ensures KeepIn(order, keep) == []
  {
    if order != [] {
      KeepInNone(order[..|order| - 1], keep);
    }
  }

  lemma KeepInSuffix(order: seq<string>, keep: set<string>, j: nat)
    requires j <= |order|
    requires forall i :: 0 <= i < |order| ==> (order[i] in keep <==> j <= i)
    ensures KeepIn(order, keep) == order[j..]
  {
    assert order == order[..j] + order[j..];
    KeepInSplit(order[..j], order[j..], keep);
    KeepInNone(order[..j], keep);
    KeepInAll(order[j..], keep);
  }

  lemma {:induction false} LivePrefix(order: seq<string>, at: map<string, Bucket>, now: int) returns (j: nat)
    requires ResetOrdered(order, at)
    ensures j <= |order| && forall i :: 0 <= i < |order| ==> (ResetAt(at, order[i]) > now <==> j <= i)
  {
    if order == [] {
      j := 0;
    } else {
      var front := order[..|order| - 1];
      j := LivePrefix(front, at, now);
      if j == |front| && ResetAt(at, order[|order| - 1]) <= now {
        j := |order|;
      }
      assert forall i :: 0 <= i < |front| ==> front[i] == order[i];
      assert j < |front| ==> ResetAt(at, front[j]) <= ResetAt(at, order[|order| - 1]);
    }
  }

  lemma OldestIsPrefix(s: Store, n: nat)
    requires WellFormed(s) && n <= |s.order| && ResetOrdered(s.order, s.at)
    ensures DropOldest(s, n).order == s.order[n..]
  {
    SortKeepsOrdered(s.order, ResetKey(s.at));
    KeepInSuffix(s.order, s.at.Keys - Elements(s.order[..n]), n);
  }

  lemma ExpiredIsPrefix(s: Store, now: int)
    requires WellFormed(s) && ResetOrdered(s.order, s.at)
    ensures
      var live := DropExpired(s, now);
      && WellFormed(live) && ResetOrdered(live.order, live.at)
      && |live.order| <= |s.order| && live.order == s.order[|s.order| - |live.order|..]
  {
    hide ResetOrdered, Remains;
    RestrictValid(s, LiveKeys(s, now));
    RestrictRemains(s, LiveKeys(s, now));
    RemainsOrdered(s, DropExpired(s, now));
    LiveIsSuffix(s, now);
  }

  lemma LiveIsSuffix(s: Store, now: int)
    requires WellFormed(s) && ResetOrdered(s.order, s.at)
    ensures
      var live := KeepIn(s.order, LiveKeys(s, now));
      |live| <= |s.order| && live == s.order[|s.order| - |live|..]
  {
    hide ResetOrdered, NoDup;
    var j := LivePrefix(s.order, s.at, now);
    forall i | 0 <= i < |s.order|
      ensures s.order[i] in LiveKeys(s, now) <==> j <= i
    {
      assert s.order[i] in s.order;
    }
    KeepInSuffix(s.order, LiveKeys(s, now), j);
  }

  lemma PruneIsPrefix(s: Store, now: int)
    requires WellFormed(s) && ResetOrdered(s.order, s.at)
    ensures
      var p := Pruned(s, now);
      |p.order| <= |s.order| && p.order == s.order[|s.order| - |p.order|..]
  {
    hide DropExpired, DropOldest;
    ExpiredIsPrefix(s, now);
    var live := DropExpired(s, now);
    if Overflow(live) != 0 {
      OldestIsPrefix(live, Overflow(live));
    }
  }

  /** What is left of a sequence when a prefix of it is dropped. */
  predicate IsRest(rest: seq<string>, order: seq<string>) {
    |rest| <= |order| && rest == order[|order| - |rest|..]
  }

  /**
   In every run the sort of the overflow path is only ever handed keys already in order: a sweep
   drops a prefix of the insertion order, and evicts at most one bucket that is still counting.
   */
  lemma RunPrunesOldestFirst(c: Config, calls: seq<Call>, t: int, now: int)
    requires ClockFrom(calls, t) && LastTime(calls, t) <= now
    ensures
      var s := After(c, EMPTY, calls);
      var p := Pruned(s, now);
      && IsRest(p.order, s.order) && |s.order| <= 5_001
      && |LiveKeys(s, now)| - |p.at| <= 1
  {
    RunSettles(c, EMPTY, t, calls);
    hide *;
    SettledPrune(c, After(c, EMPTY, calls), LastTime(calls, t), now);
  }

  lemma SettledPrune(c: Config, s: Store, t: int, now: int)
    requires Settled(c, s, t)
    ensures
      var p := Pruned(s, now);
      && IsRest(p.order, s.order) && |s.order| <= 5_001
      && |LiveKeys(s, now)| - |p.at| <= 1
  {
    PruneIsPrefix(s, now);
    PruneKeepsNewest(s, now);
    StoreSize(s);
    assert LiveKeys(s, now) <= s.at.Keys;
    assert |s.at.Keys| == |s.at|;
    hide Pruned, WellFormed, ResetOrdered, EvictsOldest, Remains, DropExpired, LiveKeys;
    SubsetSize(LiveKeys(s, now), s.at.Keys);
  }

  // ---- One key of the store against the one-key limiter ----

  function CheckAll(c: Config, s: Store, calls: seq<Call>): (vs: seq<Verdict>)
    ensures |vs| == |calls|
    decreases |calls|
  {
    if calls == [] then []
    else
      var (s', v) := Checked(c, s, calls[0].key, calls[0].now);
      [v] + CheckAll(c, s', calls[1..])
  }

  function TimesOf(calls: seq<Call>, key: string): seq<int> {
    if calls == [] then []
    else (if calls[0].key == key then [calls[0].now] else []) + TimesOf(calls[1..], key)
  }

  function VerdictsOf(calls: seq<Call>, vs: seq<Verdict>, key: string): seq<Verdict>
    requires |calls| == |vs|
  {
    if calls == [] then []
    else (if calls[0].key == key then [vs[0]] else []) + VerdictsOf(calls[1..], vs[1..], key)
  }

  /** No sweep of the run evicts a bucket of this key that is still counting. */
  predicate NeverEvicted(c: Config, s: Store, calls: seq<Call>, key: string)
    decreases |calls|
  {
    if calls == [] then true
    else
      && (key in LiveKeys(s, calls[0].now) ==> key in Pruned(s, calls[0].now).at)
      && NeverEvicted(c, Checked(c, s, calls[0].key, calls[0].now).0, calls[1..], key)
  }

  /** The store holds the key's bucket, or has swept it after its window was over. */
  predicate Tracks(s: Store, key: string, b: Option<Bucket>, t: int) {
    if key in s.at then b == Some(s.at[key]) else Expired(b, t)
  }

  lemma ChargeTracks(c: Config, p: Store, key: string, b: Option<Bucket>, call: Call)
    requires Tracks(p, key, b, call.now)
    ensures
      var (p', v) := Charge(c, p, call.key, call.now);
      if call.key == key then
        v == Touch(c, b, call.now).1 && Tracks(p', key, Some(Touch(c, b, call.now).0), call.now)
      else
        Tracks(p', key, b, call.now)
  {
  }

  lemma SweepTracks(s: Store, key: string, b: Option<Bucket>, t: int, now: int)
    requires WellFormed(s) && Tracks(s, key, b, t) && t <= now
    requires key in LiveKeys(s, now) ==> key in Pruned(s, now).at
    ensures Tracks(Pruned(s, now), key, b, now)
  {
  }

  /**
   On every key that no overflow evicts, the shared map of buckets answers exactly like a
   limiter kept for that key alone, whatever the other keys do.
   */
  lemma {:induction false} MemoryRefines(c: Config, s: Store, t: int, b: Option<Bucket>, calls: seq<Call>, key: string)
    requires WellFormed(s) && Tracks(s, key, b, t) && ClockFrom(calls, t)
    requires NeverEvicted(c, s, calls, key)
    ensures VerdictsOf(calls, CheckAll(c, s, calls), key) == Run(c, b, TimesOf(calls, key))
    decreases |calls|
  {
    hide Pruned, Charge, Tracks;
    if calls != [] {
      var call := calls[0];
      SweepTracks(s, key, b, t, call.now);
      ChargeTracks(c, Pruned(s, call.now), key, b, call);
      CheckValid(c, s, call.key, call.now);
      var s' := Checked(c, s, call.key, call.now).0;
      var b' := if call.key == key then Some(Touch(c, b, call.now).0) else b;
      assert CheckAll(c, s, calls)[1..] == CheckAll(c, s', calls[1..]);
      MemoryRefines(c, s', call.now, b', calls[1..], key);
      if call.key == key {
        assert TimesOf(calls, key)[1..] == TimesOf(calls[1..], key);
      } else {
        assert TimesOf(calls, key) == TimesOf(calls[1..], key);
      }
    }
  }

  lemma {:induction false} TimesNonDecreasing(calls: seq<Call>, t: int, key: string)
    requires ClockFrom(calls, t)
    ensures NonDecreasing(TimesOf(calls, key))
    ensures forall i :: 0 <= i < |TimesOf(calls, key)| ==> t <= TimesOf(calls, key)[i]
  {
    if calls != [] {
      TimesNonDecreasing(calls[1..], calls[0].now, key);
    }
  }

  /**
   The guarantee of the in-process limiter: over any run, a key that is not evicted is admitted
   at most twice the capacity less one in any interval of the window's length.
   */
  lemma MemoryWindowBound(c: Config, calls: seq<Call>, t: int, key: string, lo: int)
    requires ClockFrom(calls, t) && NeverEvicted(c, EMPTY, calls, key)
    ensures
      var times := TimesOf(calls, key);
      var vs := VerdictsOf(calls, CheckAll(c, EMPTY, calls), key);
      && |times| == |vs|
      && AllowedIn(times, vs, lo, lo + c.windowMs) <= 2 * Capacity(c) - 1
  {
    MemoryRefines(c, EMPTY, t, None, calls, key);
    TimesNonDecreasing(calls, t, key);
    WindowBound(c, TimesOf(calls, key), lo);
  }

  // ---- When a key is evicted ----

  lemma NoOverflowKeepsLive(s: Store, now: int)
    requires WellFormed(s) && |LiveKeys(s, now)| <= MAX_BUCKETS
    ensures Pruned(s, now) == DropExpired(s, now) && Pruned(s, now).at.Keys == LiveKeys(s, now)
  {
    PruneValid(s, now);
    StoreSize(DropExpired(s, now));
    assert DropExpired(s, now).at.Keys == LiveKeys(s, now);
  }

  /** A caller that uses at most MAX_BUCKETS different keys never has one evicted. */
  lemma {:induction false} FewKeysNeverEvicted(c: Config, s: Store, calls: seq<Call>, keys: set<string>, key: string)
    requires WellFormed(s) && s.at.Keys <= keys && |keys| <= 5_000
    requires forall i :: 0 <= i < |calls| ==> calls[i].key in keys
    ensures NeverEvicted(c, s, calls, key)
    decreases |calls|
  {
    if calls != [] {
      var call := calls[0];
      SubsetSize(LiveKeys(s, call.now), keys);
      NoOverflowKeepsLive(s, call.now);
      CheckValid(c, s, call.key, call.now);
      CheckedKeys(c, s, call.key, call.now);
      hide Pruned, Checked, WellFormed;
      FewKeysNeverEvicted(c, Checked(c, s, call.key, call.now).0, calls[1..], keys, key);
    }
  }

  lemma CheckedKeys(c: Config, s: Store, key: string, now: int)
    requires WellFormed(s)
    ensures Checked(c, s, key, now).0.at.Keys <= s.at.Keys + {key}
  {
    PruneKeepsNewest(s, now);
    hide Pruned;
  }

  /** So for such callers the window bound holds without looking inside the limiter. */
  lemma FewKeysWindowBound(c: Config, calls: seq<Call>, t: int, keys: set<string>, key: string, lo: int)
    requires ClockFrom(calls, t) && |keys| <= 5_000
    requires forall i :: 0 <= i < |calls| ==> calls[i].key in keys
    ensures
      var times := TimesOf(calls, key);
      var vs := VerdictsOf(calls, CheckAll(c, EMPTY, calls), key);
      && |times| == |vs|
      && AllowedIn(times, vs, lo, lo + c.windowMs) <= 2 * Capacity(c) - 1
  {
    FewKeysNeverEvicted(c, EMPTY, calls, keys, key);
    MemoryWindowBound(c, calls, t, key, lo);
  }

  lemma SweepOfFull(s: Store, now: int)
    requires WellFormed(s) && ResetOrdered(s.order, s.at)
    requires |s.at| == MAX_BUCKETS + 1 && LiveKeys(s, now) == s.at.Keys
    ensures |s.order| == MAX_BUCKETS + 1 && Pruned(s, now).order == s.order[1..]
    ensures forall key :: key in s.at ==> (key !in Pruned(s, now).at <==> key == s.order[0])
  {
    PruneKeepsNewest(s, now);
    PruneValid(s, now);
    PruneIsPrefix(s, now);
    StoreSize(s);
    StoreSize(Pruned(s, now));
    hide Pruned, LiveKeys, DropExpired, ResetOrdered, Remains, EvictsOldest;
    assert |Pruned(s, now).order| == MAX_BUCKETS;
    OnlyFirstMissing(s, Pruned(s, now));
  }

  lemma OnlyFirstMissing(s: Store, p: Store)
    requires WellFormed(s) && WellFormed(p) && s.order != [] && p.order == s.order[1..]
    ensures forall key :: key in s.at ==> (key !in p.at <==> key == s.order[0])
  {
    forall key | key in s.at
      ensures key !in p.at <==> key == s.order[0]
    {
      assert key in s.order && (key in p.at <==> key in s.order[1..]);
      assert s.order == [s.order[0]] + s.order[1..];
    }
  }

  /**
   In every run a sweep evicts a bucket that is still counting exactly if one more than MAX_BUCKETS are
   counting and no other was inserted earlier.
   */
  lemma EvictedIff(c: Config, calls: seq<Call>, t: int, now: int, key: string)
    requires ClockFrom(calls, t) && LastTime(calls, t) <= now
    requires key in LiveKeys(After(c, EMPTY, calls), now)
    ensures
      var s := After(c, EMPTY, calls);
      key !in Pruned(s, now).at <==> |LiveKeys(s, now)| == 5_001 && s.order != [] && key == s.order[0]
  {
    var s := After(c, EMPTY, calls);
    RunSettles(c, EMPTY, t, calls);
    hide After, Pruned, WellFormed, ResetOrdered;
    SubsetSize(LiveKeys(s, now), s.at.Keys);
    if |LiveKeys(s, now)| <= MAX_BUCKETS {
      NoOverflowKeepsLive(s, now);
    } else {
      SameSize(LiveKeys(s, now), s.at.Keys);
      SweepOfFull(s, now);
    }
  }

  lemma SameSize(a: set<string>, b: set<string>)
    requires a <= b && |a| >= |b|
    ensures a == b
  {
    if a != b {
      var x :| x in b && x !in a;
      SubsetSize(a, b - {x});
    }
  }

  /** One call for each of the first n decimal keys, all at once. */
  function Crowd(n: nat): seq<Call> {
    if n == 0 then [] else Crowd(n - 1) + [Call(Decimal(n - 1), 0)]
  }

  lemma {:induction false} AfterAppend(c: Config, s: Store, calls: seq<Call>, call: Call)
    ensures After(c, s, calls + [call]) == Checked(c, After(c, s, calls), call.key, call.now).0
    decreases |calls|
  {
    hide Checked;
    if calls == [] {
      assert (calls + [call])[1..] == [];
    } else {
      assert (calls + [call])[1..] == calls[1..] + [call];
      AfterAppend(c, Checked(c, s, calls[0].key, calls[0].now).0, calls[1..], call);
    }
  }

  ghost predicate Crowded(c: Config, s: Store, n: nat) {
    && WellFormed(s) && |s.order| == n
    && (forall i :: 0 <= i < n ==> s.order[i] == Decimal(i))
    && (forall key :: key in s.at ==> s.at[key] == Bucket(1, c.windowMs))
  }

  lemma CrowdGrows(c: Config, s: Store, n: nat)
    requires Crowded(c, s, n) && 0 < c.windowMs && n <= MAX_BUCKETS
    ensures Crowded(c, Checked(c, s, Decimal(n), 0).0, n + 1)
  {
    hide Decimal;
    CheckValid(c, s, Decimal(n), 0);
    CrowdIsKept(c, s, n);
    NewcomerIsNew(c, s, n);
    hide Pruned, WellFormed, Crowded, Put;
    assert Checked(c, s, Decimal(n), 0).0 == Put(s, Decimal(n), Bucket(1, c.windowMs));
    CrowdTakes(c, s, Decimal(n), n);
  }

  lemma CrowdTakes(c: Config, s: Store, key: string, n: nat)
    requires Crowded(c, s, n) && key == Decimal(n) && key !in s.at
    requires WellFormed(Put(s, key, Bucket(1, c.windowMs)))
    ensures Crowded(c, Put(s, key, Bucket(1, c.windowMs)), n + 1)
  {
    hide Decimal, WellFormed;
  }

  lemma CrowdIsKept(c: Config, s: Store, n: nat)
    requires Crowded(c, s, n) && 0 < c.windowMs && n <= MAX_BUCKETS
    ensures Pruned(s, 0) == s
  {
    hide Decimal;
    StoreSize(s);
    assert LiveKeys(s, 0) == s.at.Keys;
    hide Pruned, Restrict;
    NoOverflowKeepsLive(s, 0);
    RestrictAll(s);
  }

  lemma NewcomerIsNew(c: Config, s: Store, n: nat)
    requires Crowded(c, s, n)
    ensures Decimal(n) !in s.at
  {
    hide Decimal;
    forall i | 0 <= i < n
      ensures s.order[i] != Decimal(n)
    {
      if Decimal(i) == Decimal(n) { DecimalInjective(i, n); }
    }
    MembersAreKeys(s, Decimal(n));
  }

  lemma MembersAreKeys(s: Store, key: string)
    requires WellFormed(s)
    ensures key in s.at <==> exists i :: 0 <= i < |s.order| && s.order[i] == key
  {
    assert key in s.order <==> key in s.at;
  }

  lemma {:induction false} CrowdStored(c: Config, n: nat)
    requires 0 < c.windowMs && n <= MAX_BUCKETS + 1
    ensures Crowded(c, After(c, EMPTY, Crowd(n)), n)
  {
    if n > 0 {
      CrowdStored(c, n - 1);
      hide Crowded, After, Checked, Decimal;
      AfterAppend(c, EMPTY, Crowd(n - 1), Call(Decimal(n - 1), 0));
      CrowdGrows(c, After(c, EMPTY, Crowd(n - 1)), n - 1);
    }
  }

  /**
   An eviction gives a key a fresh count: with a limit of one, the first of 5,001 keys is admitted again
   while its bucket, used up, would still be counting.
   */
  lemma EvictionRestartsTheCount(windowMs: int)
    requires 0 < windowMs
    ensures
      var c, key := Config(1, windowMs), Decimal(0);
      var s := After(c, EMPTY, Crowd(MAX_BUCKETS + 1));
      && key in s.at && s.at[key].count >= c.limit && s.at[key].resetAt > 0
      && Checked(c, s, key, 0).1 == ALLOWED
  {
    var c, key := Config(1, windowMs), Decimal(0);
    var s := After(c, EMPTY, Crowd(MAX_BUCKETS + 1));
    CrowdStored(c, MAX_BUCKETS + 1);
    hide After, Crowd, Decimal;
    CrowdIsSwept(c, s);
  }

  lemma CrowdIsSwept(c: Config, s: Store)
    requires 0 < c.windowMs && Crowded(c, s, MAX_BUCKETS + 1)
    ensures Decimal(0) in s.at && Decimal(0) !in Pruned(s, 0).at
  {
    hide Decimal, Pruned;
    assert s.order[0] == Decimal(0) && Decimal(0) in s.order;
    StoreSize(s);
    assert LiveKeys(s, 0) == s.at.Keys;
    CrowdIsOrdered(c, s);
    hide WellFormed;
    SweepOfFull(s, 0);
  }

  lemma CrowdIsOrdered(c: Config, s: Store)
    requires Crowded(c, s, MAX_BUCKETS + 1)
    ensures ResetOrdered(s.order, s.at)
  {
    hide Decimal;
    assert forall i :: 0 <= i < |s.order| ==> s.order[i] in s.order && s.order[i] in s.at;
  }

  // ---- The class ----

  class MemoryRateLimiter {
    const config: Config
    var order: seq<string>
    var buckets: map<string, Bucket>

    ghost function Contents(): Store
      reads this
    {
      Store(order, buckets)
    }

    ghost predicate Valid()
      reads this
    {
      WellFormed(Contents())
    }

    constructor (limit: int, windowMs: int)
      ensures Valid() && Contents() == EMPTY && config == Config(limit, windowMs)
    {
      config := Config(limit, windowMs);
      order, buckets := [], map[];
    }

    method Check(key: string, now: int) returns (result: Verdict)
      requires Valid()
      modifies this
      ensures Valid()
      ensures (Contents(), result) == Checked(config, old(Contents()), key, now)
    {
      CheckValid(config, Contents(), key, now);
      Prune(now);
      if key !in buckets || buckets[key].resetAt <= now {
        Set(key, Bucket(1, now + config.windowMs));
        return ALLOWED;
      }
      var existing := buckets[key];
      if existing.count >= config.limit {
        return Verdict(false, Max(1, CeilDiv(existing.resetAt - now, 1000)));
      }
      Set(key, existing.(count := existing.count + 1));
      return ALLOWED;
    }

    method Size() returns (n: nat)
      requires Valid()
      ensures n == |buckets|
    {
      StoreSize(Contents());
      n := |order|;
    }

    method Reset()
      modifies this
      ensures Valid() && Contents() == EMPTY
    {
      order, buckets := [], map[];
    }

    method Set(key: string, b: Bucket)
      modifies this
      ensures Contents() == Put(old(Contents()), key, b)
    {
      if key !in buckets {
        order := order + [key];
      }
      buckets := buckets[key := b];
    }

    method Remove(key: string)
      modifies this
      ensures Contents() == Delete(old(Contents()), key)
    {
      order := KeepIn(order, buckets.Keys - {key});
      buckets := buckets - {key};
    }

    /** Two passes: delete what is over, then delete the buckets that reset first until the map fits. */
    method Prune(now: int)
      requires Valid()
      modifies this
      ensures Valid() && Contents() == Pruned(old(Contents()), now)
    {
      ghost var start := Contents();
      PruneValid(start, now);
      SweepExpired(now);
      ghost var live := Contents();
      if |order| <= MAX_BUCKETS {
        return;
      }
      var overflow := |order| - MAX_BUCKETS;
      var sorted := SortByReset(order, buckets);
      RestrictAll(live);
      assert live.at.Keys - Elements(sorted[..0]) == live.at.Keys;
      hide DropExpired, Delete, Restrict, SortByReset, WellFormed, Elements;
      for i := 0 to overflow
        invariant Contents() == Restrict(live, live.at.Keys - Elements(sorted[..i]))
      {
        Remove(sorted[i]);
        EvictNarrows(live, sorted, i);
      }
    }

    method SweepExpired(now: int)
      requires Valid()
      modifies this
      ensures Contents() == DropExpired(old(Contents()), now)
    {
      ghost var start := Contents();
      var keys := order;
      RestrictAll(start);
      assert Unswept(start, 0, now) == start.at.Keys;
      for i := 0 to |keys|
        invariant Contents() == Restrict(start, Unswept(start, i, now))
      {
        UnsweptStep(start, i, now);
        if buckets[keys[i]].resetAt <= now {
          Remove(keys[i]);
          DeleteNarrows(start, Unswept(start, i, now), keys[i]);
        }
      }
      assert Unswept(start, |keys|, now) == LiveKeys(start, now);
    }
  }

  /** The keys left once the pass has visited the first n of them. */
  ghost function Unswept(s: Store, n: nat, now: int): set<string>
    requires n <= |s.order|
  {
    set k | k in s.at && (k in s.order[..n] ==> s.at[k].resetAt > now)
  }

  lemma UnsweptStep(s: Store, n: nat, now: int)
    requires WellFormed(s) && n < |s.order|
    ensures s.order[n] in Unswept(s, n, now)
    ensures Unswept(s, n + 1, now)
         == if s.at[s.order[n]].resetAt <= now then Unswept(s, n, now) - {s.order[n]} else Unswept(s, n, now)
  {
  }

  lemma EvictNarrows(s: Store, sorted: seq<string>, i: nat)
    requires i < |sorted|
    ensures Delete(Restrict(s, s.at.Keys - Elements(sorted[..i])), sorted[i])
         == Restrict(s, s.at.Keys - Elements(sorted[..i + 1]))
  {
    var rest := s.at.Keys - Elements(sorted[..i]);
    assert sorted[..i + 1] == sorted[..i] + [sorted[i]];
    assert Elements(sorted[..i + 1]) == Elements(sorted[..i]) + {sorted[i]};
    assert rest - {sorted[i]} == s.at.Keys - Elements(sorted[..i + 1]);
    hide Delete, Restrict, Elements;
    DeleteNarrows(s, rest, sorted[i]);
  }

  lemma DeleteNarrows(s: Store, keep: set<string>, key: string)
    requires keep <= s.at.Keys
    ensures Delete(Restrict(s, keep), key) == Restrict(s, keep - {key})
  {
    var r := Restrict(s, keep);
    assert r.at.Keys == keep;
    RestrictTwice(s, keep, keep - {key});
    assert keep * (keep - {key}) == keep - {key};
  }
}
