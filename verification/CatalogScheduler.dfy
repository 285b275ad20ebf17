/** The catalogue scheduler's interval and its sliced sleep, scripts/catalog-sync-scheduler-entry.ts. */
module CatalogScheduler {
  import opened Common

  const SLICE_MS := 1000

  /** The setting as parsed, if it is a number; zero counts as unset. */
  function IntervalMs(parsed: Option<int>): (ms: int)
    ensures 60000 <= ms
  {
    Max(if parsed.Some? && parsed.value != 0 then parsed.value else 300000, 60000)
  }

  /** A setting of at least a minute is used as it is, a smaller one counts as a minute, none or zero as five. */
  lemma IntervalIs(parsed: Option<int>)
    ensures IntervalMs(parsed) ==
      match parsed
      case None => 300_000
      case Some(ms) => if ms == 0 then 300_000 else if ms >= 60_000 then ms else 60_000
  {
  }

  function Sum(s: seq<int>): int {
    if s == [] then 0 else Sum(s[..|s| - 1]) + s[|s| - 1]
  }

  /** How many slices a sleep takes when nothing stops it. */
  function Slices(remaining: int): (n: nat)
    ensures 1000 * (n - 1) < remaining || n == 0
    ensures remaining <= 1000 * n
  {
    CeilDiv(Max(0, remaining), SLICE_MS)
  }

  /**
   The sleep between two cycles. `stopping(i)` is what the loop finds at its i-th test: the sleep ends at
   the first test that finds the flag up, or with exactly the time asked for.
   */
  method SlicedSleep(remaining: int, stopping: nat -> bool) returns (slices: seq<int>)
    ensures forall i :: 0 <= i < |slices| ==> 1 <= slices[i] <= 1000 && !stopping(i)
    ensures |slices| <= Slices(remaining) && (|slices| < Slices(remaining) ==> stopping(|slices|))
    ensures Sum(slices) == if |slices| == Slices(remaining) then Max(0, remaining) else 1000 * |slices|
  {
    slices := [];
    var waited := 0;
    while waited < remaining && !stopping(|slices|)
      invariant waited == SLICE_MS * |slices| && |slices| <= Slices(remaining)
      invariant forall i :: 0 <= i < |slices| ==> 1 <= slices[i] <= SLICE_MS && !stopping(i)
      invariant Sum(slices) == Min(waited, Max(0, remaining))
      decreases remaining - waited
    {
      var slice := Min(SLICE_MS, remaining - waited);
      assert (slices + [slice])[..|slices|] == slices;
      slices := slices + [slice];
      waited := waited + SLICE_MS;
    }
  }

  /** What the world does in one round: how long the cycle takes, and when its sleep finds the flag up. */
  datatype Round = Round(duration: nat, stopping: nat -> bool)

  /** A signal, once seen, stays. */
  ghost predicate SignalStays(stopping: nat -> bool) {
    forall i: nat, j: nat :: i <= j && stopping(i) ==> stopping(j)
  }

  /** The flag is up by the last test of the round's sleep, which is also what the outer loop then finds. */
  predicate Stopped(intervalMs: int, r: Round) {
    r.stopping(Slices(Max(intervalMs - r.duration, SLICE_MS)))
  }

  /**
   The outer loop with sleeps that last exactly as long as asked. Cycles start exactly the longer of the
   interval and the last cycle's duration plus one second apart; they go on up to the first round that is
   stopped and no further.
   */
  method RunScheduler(parsed: Option<int>, startAt: int, rounds: seq<Round>) returns (starts: seq<int>)
    requires forall i :: 0 <= i < |rounds| ==> SignalStays(rounds[i].stopping)
    ensures |starts| <= |rounds|
    ensures rounds != [] ==> starts != [] && starts[0] == startAt
    ensures forall i :: 0 <= i < |starts| - 1 ==>
      starts[i + 1] - starts[i] == Max(IntervalMs(parsed), rounds[i].duration + 1000)
    ensures forall i :: 0 <= i < |starts| - 1 ==> !Stopped(IntervalMs(parsed), rounds[i])
    ensures |starts| < |rounds| ==> Stopped(IntervalMs(parsed), rounds[|starts| - 1])
  {
    hide Slices, Sum;
    var intervalMs := IntervalMs(parsed);
    hide IntervalMs;
    starts := [];
    var now := startAt;
    var stopping := false;
    var k := 0;
    while !stopping && k < |rounds|
      invariant 0 <= k <= |rounds| && k == |starts|
      invariant k == 0 ==> now == startAt && !stopping
      invariant k > 0 ==> starts[0] == startAt && (stopping <==> Stopped(intervalMs, rounds[k - 1]))
      invariant forall i :: 0 <= i < k - 1 ==>
        starts[i + 1] - starts[i] == Max(intervalMs, rounds[i].duration + SLICE_MS)
      invariant k > 0 && !stopping ==> now - starts[k - 1] == Max(intervalMs, rounds[k - 1].duration + SLICE_MS)
      invariant forall i :: 0 <= i < k - 1 ==> !Stopped(intervalMs, rounds[i])
      decreases |rounds| - k
    {
      var startedAt := now;
      starts := starts + [startedAt];
      now := now + rounds[k].duration;
      var remaining := Max(intervalMs - (now - startedAt), SLICE_MS);
      var slices := SlicedSleep(remaining, rounds[k].stopping);
      now := now + Sum(slices);
      stopping := rounds[k].stopping(|slices|);
      k := k + 1;
    }
  }

  /**
   Starts are never closer than the interval, and exactly that far apart when the cycle leaves at
   least a second of it.
   */
  lemma GapIsIntervalIff(intervalMs: int, duration: nat)
    ensures intervalMs <= Max(intervalMs, duration + 1000)
    ensures Max(intervalMs, duration + 1000) == intervalMs <==> duration <= intervalMs - 1000
  {
  }
}
