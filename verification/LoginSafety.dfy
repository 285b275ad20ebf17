/** What the login protocol guarantees over every run. */
module LoginSafety {
  import opened Common
  import opened OtpRules
  import opened LoginProtocol

  lemma Reachable(now: int, steps: seq<Step>)
    ensures Inv(Run(Init(now), steps))
  {
    RunKeepsInv(Init(now), steps);
  }

  // ---- One live challenge, and verification reads it ----

  /**
   In every reachable state a mobile has at most one unconsumed challenge, it is the last one issued
   for the mobile, and no challenge of the mobile was created after it.
   */
  lemma AtMostOneUnconsumed(now: int, steps: seq<Step>, mobile: string, id: nat)
    requires Unconsumed(Run(Init(now), steps), mobile, id)
    ensures
      var s := Run(Init(now), steps);
      && (forall other :: Unconsumed(s, mobile, other) ==> other == id)
      && IsLatest(s, id)
      && (forall j :: 0 <= j < |s.issued| && s.issued[j].mobile == mobile
            ==> s.issued[j].createdAt <= s.issued[id].createdAt)
      && IsNewest(s, mobile, id)
  {
    var s := Run(Init(now), steps);
    Reachable(now, steps);
    LiveIsLatest(s, mobile, id);
  }

  lemma LiveIsLatest(s: State, mobile: string, id: nat)
    requires RowsAreIssued(s) && IssuedInOrder(s) && OnlyLatestUnconsumed(s) && Unconsumed(s, mobile, id)
    ensures forall other :: Unconsumed(s, mobile, other) ==> other == id
    ensures IsLatest(s, id)
    ensures forall j :: 0 <= j < |s.issued| && s.issued[j].mobile == mobile
              ==> s.issued[j].createdAt <= s.issued[id].createdAt
    ensures IsNewest(s, mobile, id)
  {
  }

  /** The only other row a verify call may be handed is a consumed one created in the same millisecond. */
  lemma OtherReadIsConsumedTwin(now: int, steps: seq<Step>, mobile: string, id: nat, read: nat)
    requires Unconsumed(Run(Init(now), steps), mobile, id)
    requires IsNewest(Run(Init(now), steps), mobile, read) && read != id
    ensures
      var s := Run(Init(now), steps);
      s.challenges[read].consumedAt.Some? && s.challenges[read].createdAt == s.challenges[id].createdAt
  {
    AtMostOneUnconsumed(now, steps, mobile, id);
    assert !Unconsumed(Run(Init(now), steps), mobile, read);
  }

  lemma {:induction false} RunConcat(s: State, a: seq<Step>, b: seq<Step>)
    ensures Run(s, a + b) == Run(Run(s, a), b)
    decreases |a|
  {
    hide Next;
    if a == [] {
      assert a + b == b;
    } else {
      assert (a + b)[1..] == a[1..] + b;
      RunConcat(Next(s, a[0]), a[1..], b);
    }
  }

  lemma RunTwo(s: State, a: Step, b: Step)
    ensures Run(s, [a, b]) == Next(Next(s, a), b)
  {
    hide Next;
    assert [a, b][1..] == [b] && [b][1..] == [];
    assert Run(Next(s, a), [b]) == Run(Next(Next(s, a), b), []);
  }

  function FirstOf(mobile: string): Challenge {
    Challenge(mobile, "first", 0, 1, 0, None)
  }

  function IssueFirst(mobile: string): seq<Step> {
    [IssueRead(mobile, "first", 1), IssueCommit(mobile, 0)]
  }

  function PassFirst(mobile: string): seq<Step> {
    [VerifyRead(0, mobile, "first", 0), VerifyGate(0)]
  }

  function ConsumeFirst(): seq<Step> {
    [Consume(0), Delivered(0)]
  }

  function IssueSecond(mobile: string): seq<Step> {
    [IssueRead(mobile, "second", 1), IssueCommit(mobile, 0)]
  }

  /** A challenge issued, delivered and consumed, and the next one issued, all in one millisecond. */
  function TwinRun(mobile: string): seq<Step> {
    IssueFirst(mobile) + (PassFirst(mobile) + (ConsumeFirst() + IssueSecond(mobile)))
  }

  function FirstIssued(mobile: string): State {
    Init(0).(challenges := map[0 := FirstOf(mobile)], deliveries := {0}, issued := [FirstOf(mobile)])
  }

  function FirstPassed(mobile: string): State {
    FirstIssued(mobile).(verifiers := map[0 := Verifier(mobile, "first", 0, FirstOf(mobile), Right(0))])
  }

  lemma FirstIsIssued(mobile: string)
    ensures Run(Init(0), IssueFirst(mobile)) == FirstIssued(mobile)
  {
    RunTwo(Init(0), IssueFirst(mobile)[0], IssueFirst(mobile)[1]);
  }

  lemma FirstPasses(mobile: string)
    ensures Run(FirstIssued(mobile), PassFirst(mobile)) == FirstPassed(mobile)
  {
    var s := FirstIssued(mobile);
    var read := Next(s, PassFirst(mobile)[0]);
    assert IsNewest(s, mobile, 0);
    assert read == s.(verifiers := map[0 := Verifier(mobile, "first", 0, FirstOf(mobile), Reading)]);
    RunTwo(s, PassFirst(mobile)[0], PassFirst(mobile)[1]);
  }

  lemma FirstIsConsumed(mobile: string)
    ensures var s := Run(FirstPassed(mobile), ConsumeFirst());
      && s.now == 0 && s.locks == map[] && s.issued == [FirstOf(mobile)]
      && s.challenges == map[0 := FirstOf(mobile).(consumedAt := Some(0))]
  {
    RunTwo(FirstPassed(mobile), ConsumeFirst()[0], ConsumeFirst()[1]);
  }

  lemma SecondIsIssued(s: State, mobile: string)
    requires s.now == 0 && s.locks == map[] && s.issued == [FirstOf(mobile)]
    requires s.challenges == map[0 := FirstOf(mobile).(consumedAt := Some(0))]
    ensures var s' := Run(s, IssueSecond(mobile));
      && s'.now == 0 && s'.challenges.Keys == {0, 1}
      && s'.challenges[0] == FirstOf(mobile).(consumedAt := Some(0))
      && s'.challenges[1] == Challenge(mobile, "second", 0, 1, 0, None)
  {
    var read := Next(s, IssueSecond(mobile)[0]);
    assert read == s.(locks := map[mobile := Issue("second", 1, 0)]);
    RunTwo(s, IssueSecond(mobile)[0], IssueSecond(mobile)[1]);
  }

  /** Such a tie is reached: a verify call may then be handed the consumed row and refuse the live code. */
  lemma ConsumedTwinIsReachable(mobile: string)
    ensures
      var s := Run(Init(0), TwinRun(mobile));
      && Unconsumed(s, mobile, 1)
      && IsNewest(s, mobile, 0) && CanAttemptOtp(s.challenges[0], s.now) == Some(Consumed)
  {
    hide Run, Next, Init, IssueFirst, PassFirst, ConsumeFirst, IssueSecond, FirstIssued, FirstPassed;
    RunConcat(Init(0), IssueFirst(mobile), PassFirst(mobile) + (ConsumeFirst() + IssueSecond(mobile)));
    RunConcat(FirstIssued(mobile), PassFirst(mobile), ConsumeFirst() + IssueSecond(mobile));
    RunConcat(FirstPassed(mobile), ConsumeFirst(), IssueSecond(mobile));
    FirstIsIssued(mobile);
    FirstPasses(mobile);
    FirstIsConsumed(mobile);
    SecondIsIssued(Run(FirstPassed(mobile), ConsumeFirst()), mobile);
  }

  /** Every consumed challenge of the mobile was created strictly before the time given to a new one. */
  ghost predicate AfterConsumed(s: State, mobile: string, createdAt: int) {
    forall other :: other in s.challenges && s.challenges[other].mobile == mobile && s.challenges[other].consumedAt.Some?
      ==> s.challenges[other].createdAt < createdAt
  }

  /** Challenges are only added at the end; a row that is gone does not come back. */
  lemma {:induction false} RowsOnlyLeave(s: State, steps: seq<Step>)
    ensures s.issued <= Run(s, steps).issued
    ensures forall id :: id in Run(s, steps).challenges && id < |s.issued| ==> id in s.challenges
    decreases |steps|
  {
    hide Next;
    if steps != [] {
      StepOnlyAdds(s, steps[0]);
      RowsOnlyLeave(Next(s, steps[0]), steps[1..]);
    }
  }

  lemma StepOnlyAdds(s: State, step: Step)
    ensures s.issued <= Next(s, step).issued
    ensures forall id :: id in Next(s, step).challenges && id < |s.issued| ==> id in s.challenges
  {
    hide IsNewest, CooledDown, Gate, Open;
  }

  /** Whatever happens later, while the challenge is unconsumed a verify call for its mobile reads no other row. */
  ghost predicate AlwaysRead(s: State, mobile: string, id: nat) {
    forall more: seq<Step>, read :: Unconsumed(Run(s, more), mobile, id) && IsNewest(Run(s, more), mobile, read)
      ==> read == id
  }

  /**
   A challenge issued in any run is the one every later verify call reads while it is unconsumed, whatever
   happens in between, exactly if at its commit its creation time came strictly after that of every consumed
   challenge of its mobile.
   */
  lemma VerifyReadsTheLiveChallenge(now: int, steps: seq<Step>, mobile: string, createdAt: int)
    requires Enabled(Run(Init(now), steps), IssueCommit(mobile, createdAt))
    ensures
      var s := Run(Init(now), steps);
      AlwaysRead(Next(s, IssueCommit(mobile, createdAt)), mobile, |s.issued|) <==> AfterConsumed(s, mobile, createdAt)
  {
    var s := Run(Init(now), steps);
    Reachable(now, steps);
    hide *;
    if AfterConsumed(s, mobile, createdAt) {
      AlwaysReadAfterCommit(s, mobile, createdAt);
    } else {
      TiedAtCommit(s, mobile, createdAt);
    }
  }

  lemma AlwaysReadAfterCommit(s: State, mobile: string, createdAt: int)
    requires Inv(s) && Enabled(s, IssueCommit(mobile, createdAt)) && AfterConsumed(s, mobile, createdAt)
    ensures AlwaysRead(Next(s, IssueCommit(mobile, createdAt)), mobile, |s.issued|)
  {
    hide Run, Next, Enabled, Inv, IsNewest, Unconsumed, AfterConsumed;
    var s', id := Next(s, IssueCommit(mobile, createdAt)), |s.issued|;
    forall more: seq<Step>, read | Unconsumed(Run(s', more), mobile, id) && IsNewest(Run(s', more), mobile, read)
      ensures read == id
    {
      ReadAfterCommit(s, mobile, createdAt, more, read);
    }
  }

  /** What a commit leaves of the table: the new row, and of its mobile only consumed ones. */
  lemma CommitLeaves(s: State, mobile: string, createdAt: int)
    requires Enabled(s, IssueCommit(mobile, createdAt)) && RowsAreIssued(s)
    ensures
      var s', id := Next(s, IssueCommit(mobile, createdAt)), |s.issued|;
      && Unconsumed(s', mobile, id) && s'.challenges[id].createdAt == createdAt && |s'.issued| == id + 1
      && (forall other :: other in s'.challenges && other != id ==>
            other in s.challenges && s'.challenges[other] == s.challenges[other]
            && (s.challenges[other].mobile == mobile ==> s.challenges[other].consumedAt.Some?))
      && (forall other :: other in s.challenges && s.challenges[other].consumedAt.Some? ==>
            other in s'.challenges && s'.challenges[other] == s.challenges[other])
  {
  }

  /** While the new challenge is unconsumed, every other row of its mobile was there at its commit. */
  lemma OthersWereThere(s': State, more: seq<Step>, mobile: string, id: nat, other: nat)
    requires Inv(s') && |s'.issued| == id + 1 && Unconsumed(s', mobile, id) && Unconsumed(Run(s', more), mobile, id)
    requires
      var t := Run(s', more);
      other in t.challenges && t.challenges[other].mobile == mobile && other != id
    ensures
      var t := Run(s', more);
      && other in s'.challenges && s'.challenges[other].mobile == mobile
      && t.challenges[other].createdAt == s'.challenges[other].createdAt
      && t.challenges[id].createdAt == s'.challenges[id].createdAt
  {
    var t := Run(s', more);
    RunKeepsInv(s', more);
    RowsOnlyLeave(s', more);
    hide Run, OneClaim, SessionsEarned, VerifiersSound, IssuesSpaced, LatestAccounted, IssuedInOrder;
    assert IsLatest(t, id);
    assert other < id;
    assert t.issued[other] == s'.issued[other] && t.issued[id] == s'.issued[id];
  }

  lemma ReadAfterCommit(s: State, mobile: string, createdAt: int, more: seq<Step>, read: nat)
    requires Inv(s) && Enabled(s, IssueCommit(mobile, createdAt)) && AfterConsumed(s, mobile, createdAt)
    requires
      var t := Run(Next(s, IssueCommit(mobile, createdAt)), more);
      Unconsumed(t, mobile, |s.issued|) && IsNewest(t, mobile, read)
    ensures read == |s.issued|
  {
    var s', id := Next(s, IssueCommit(mobile, createdAt)), |s.issued|;
    NextKeepsInv(s, IssueCommit(mobile, createdAt));
    CommitLeaves(s, mobile, createdAt);
    hide Run, Next, Enabled, OneClaim, SessionsEarned, VerifiersSound, IssuesSpaced, LatestAccounted, IssuedInOrder;
    if read != id {
      OthersWereThere(s', more, mobile, id, read);
    }
  }

  lemma TiedAtCommit(s: State, mobile: string, createdAt: int)
    requires Inv(s) && Enabled(s, IssueCommit(mobile, createdAt)) && !AfterConsumed(s, mobile, createdAt)
    ensures !AlwaysRead(Next(s, IssueCommit(mobile, createdAt)), mobile, |s.issued|)
  {
    var s', id := Next(s, IssueCommit(mobile, createdAt)), |s.issued|;
    NextKeepsInv(s, IssueCommit(mobile, createdAt));
    CommitLeaves(s, mobile, createdAt);
    assert Run(s', []) == s';
    LiveIsLatest(s', mobile, id);
    hide Run, Next, Enabled, OneClaim, SessionsEarned, VerifiersSound, IssuesSpaced, LatestAccounted, IssuedInOrder,
         OnlyLatestUnconsumed;
    var other :| other in s.challenges && s.challenges[other].mobile == mobile && s.challenges[other].consumedAt.Some?
                 && s.challenges[other].createdAt >= createdAt;
    assert other != id;
    assert IsNewest(Run(s', []), mobile, other);
  }

  // ---- One session per challenge, for the mobile and the code it was issued for ----

  /**
   Every session of every run comes from one consumed challenge that was issued to the session's
   mobile, with the code that challenge was issued with, presented before it expired; and no two
   sessions come from the same challenge.
   */
  lemma SessionsAreEarned(now: int, steps: seq<Step>, token: string)
    requires token in Run(Init(now), steps).sessions
    ensures
      var s := Run(Init(now), steps);
      var id := s.sessions[token].challenge;
      && id in s.wins && id < |s.issued|
      && s.sessions[token].mobile == s.issued[id].mobile
      && s.wins[id].codeHash == s.issued[id].codeHash
      && s.wins[id].gateAt < s.issued[id].expiresAt
      && (forall other :: other in s.sessions && s.sessions[other].challenge == id ==> other == token)
  {
    Reachable(now, steps);
  }

  /** Of all the verify calls that pass the gate with the right code, the first to consume the row goes on. */
  lemma FirstConsumeWins(now: int, steps: seq<Step>, pid: nat)
    requires Enabled(Run(Init(now), steps), Consume(pid))
    ensures
      var s := Run(Init(now), steps);
      InPhase(Next(s, Consume(pid)), pid, Won) <==> s.verifiers[pid].id in s.challenges && s.verifiers[pid].id !in s.wins
  {
    Reachable(now, steps);
  }

  /** The step is a verify call consuming this challenge. */
  predicate Consumes(s: State, step: Step, id: nat) {
    && step.Consume? && Enabled(s, step) && s.verifiers[step.pid].id == id
    && InPhase(Next(s, step), step.pid, Won)
  }

  /** How many steps of a run consume this challenge. */
  function Consumptions(s: State, steps: seq<Step>, id: nat): nat
    decreases |steps|
  {
    if steps == [] then 0
    else (if Consumes(s, steps[0], id) then 1 else 0) + Consumptions(Next(s, steps[0]), steps[1..], id)
  }

  function Wins(s: State, id: nat): nat {
    if id in s.wins then 1 else 0
  }

  lemma ConsumeIsRecorded(s: State, step: Step, id: nat)
    requires RowsAreIssued(s)
    ensures (if Consumes(s, step, id) then 1 else 0) + Wins(s, id) == Wins(Next(s, step), id)
  {
    hide IsNewest, CooledDown, Gate, Commit, Open;
  }

  lemma {:induction false} ConsumptionsCounted(s: State, steps: seq<Step>, id: nat)
    requires Inv(s)
    ensures Consumptions(s, steps, id) + Wins(s, id) == Wins(Run(s, steps), id)
    decreases |steps|
  {
    hide Next, Consumes, RowsAreIssued;
    if steps != [] {
      NextKeepsInv(s, steps[0]);
      ConsumeIsRecorded(s, steps[0], id);
      ConsumptionsCounted(Next(s, steps[0]), steps[1..], id);
    }
  }

  /** Over any run a challenge is consumed at most once, and never again once it was. */
  lemma ConsumedAtMostOnce(now: int, steps: seq<Step>, more: seq<Step>, id: nat)
    ensures Consumptions(Init(now), steps, id) <= 1
    ensures Consumptions(Init(now), steps, id) == 1 ==> Consumptions(Run(Init(now), steps), more, id) == 0
  {
    ConsumptionsCounted(Init(now), steps, id);
    Reachable(now, steps);
    ConsumptionsCounted(Run(Init(now), steps), more, id);
  }

  /** Deleted before it was consumed. */
  predicate Dead(s: State, id: nat) {
    id < |s.issued| && id !in s.challenges && id !in s.wins
  }

  lemma NextKeepsDead(s: State, step: Step, id: nat)
    requires Dead(s, id)
    ensures Dead(Next(s, step), id)
  {
  }

  /**
   A challenge that a newer issue or a failed delivery deleted before it was consumed never yields a
   session, even to a verify call that had already read it.
   */
  lemma {:induction false} DeletedNeverYields(s: State, steps: seq<Step>, id: nat, token: string)
    requires Inv(s) && Dead(s, id)
    ensures Dead(Run(s, steps), id)
    ensures token in Run(s, steps).sessions ==> Run(s, steps).sessions[token].challenge != id
    decreases |steps|
  {
    RunKeepsInv(s, steps);
    hide Next;
    if steps != [] {
      NextKeepsInv(s, steps[0]);
      NextKeepsDead(s, steps[0], id);
      DeletedNeverYields(Next(s, steps[0]), steps[1..], id, token);
    }
  }

  // ---- Attempts ----

  /** Verify calls that may still add a failed attempt to the challenge. */
  function Guessing(s: State, id: nat): set<nat> {
    set pid | pid in s.verifiers && s.verifiers[pid].id == id
              && (s.verifiers[pid].phase.Wrong?
                  || (s.verifiers[pid].phase.Reading? && CanAttempt(s.verifiers[pid].row)))
  }

  predicate CanAttempt(row: Challenge) {
    row.attempts < OTP_MAX_ATTEMPTS
  }

  /** In every state the run passes through, at most k calls are guessing at the challenge. */
  ghost predicate GuessersAtMost(s: State, steps: seq<Step>, id: nat, k: nat)
    decreases |steps|
  {
    |Guessing(s, id)| <= k && (steps != [] ==> GuessersAtMost(Next(s, steps[0]), steps[1..], id, k))
  }

  ghost predicate AttemptsBound(s: State, id: nat, k: nat) {
    id in s.challenges ==> s.challenges[id].attempts + |Guessing(s, id)| <= OTP_MAX_ATTEMPTS - 1 + k
  }

  /** A step that adds no guesser and no attempt keeps the bound. */
  lemma FewerGuessers(s: State, s': State, id: nat, k: nat)
    requires AttemptsBound(s, id, k) && Guessing(s', id) <= Guessing(s, id)
    requires id in s'.challenges ==> id in s.challenges && s'.challenges[id].attempts == s.challenges[id].attempts
    ensures AttemptsBound(s', id, k)
  {
    SubsetSize(Guessing(s', id), Guessing(s, id));
  }

  lemma FailureKeepsBound(s: State, pid: nat, id: nat, k: nat)
    requires AttemptsBound(s, id, k) && InPhase(s, pid, Wrong)
    ensures AttemptsBound(CountFailure(s, pid), id, k)
  {
    var s' := CountFailure(s, pid);
    if s.verifiers[pid].id == id {
      assert Guessing(s', id) == Guessing(s, id) - {pid};
      assert pid in Guessing(s, id);
    } else {
      assert Guessing(s', id) == Guessing(s, id);
    }
  }

  lemma ReadKeepsBound(s: State, step: Step, id: nat, k: nat)
    requires AttemptsBound(s, id, k) && step.VerifyRead? && Enabled(s, step)
    requires |Guessing(Next(s, step), id)| <= k
    ensures AttemptsBound(Next(s, step), id, k)
  {
    var s' := Next(s, step);
    if step.id == id && CanAttempt(s.challenges[id]) {
    } else {
      assert Guessing(s', id) == Guessing(s, id);
    }
  }

  lemma CommitKeepsBound(s: State, step: Step, id: nat, k: nat)
    requires Inv(s) && AttemptsBound(s, id, k) && step.IssueCommit? && Enabled(s, step)
    ensures AttemptsBound(Next(s, step), id, k)
  {
  }

  lemma GateKeepsBound(s: State, pid: nat, id: nat, k: nat)
    requires AttemptsBound(s, id, k) && InPhase(s, pid, Reading)
    ensures AttemptsBound(Gate(s, pid), id, k)
  {
    hide AttemptsBound;
    FewerGuessers(s, Gate(s, pid), id, k);
  }

  lemma NextKeepsBound(s: State, step: Step, id: nat, k: nat)
    requires Inv(s) && AttemptsBound(s, id, k) && |Guessing(Next(s, step), id)| <= k
    ensures AttemptsBound(Next(s, step), id, k)
  {
    hide Inv, AttemptsBound, Commit, CountFailure, Gate, IsNewest, CooledDown;
    if Enabled(s, step) {
      if step.IssueCommit? {
        CommitKeepsBound(s, step, id, k);
      } else if step.VerifyRead? {
        ReadKeepsBound(s, step, id, k);
      } else if step.RecordFailure? {
        FailureKeepsBound(s, step.pid, id, k);
      } else if step.VerifyGate? {
        GateKeepsBound(s, step.pid, id, k);
      } else {
        FewerGuessers(s, Next(s, step), id, k);
      }
    }
  }

  lemma {:induction false} RunKeepsBound(s: State, steps: seq<Step>, id: nat, k: nat)
    requires Inv(s) && AttemptsBound(s, id, k) && GuessersAtMost(s, steps, id, k)
    ensures AttemptsBound(Run(s, steps), id, k)
    decreases |steps|
  {
    hide Inv, AttemptsBound, Next, Guessing;
    if steps != [] {
      assert |Guessing(Next(s, steps[0]), id)| <= k;
      NextKeepsInv(s, steps[0]);
      NextKeepsBound(s, steps[0], id, k);
      RunKeepsBound(Next(s, steps[0]), steps[1..], id, k);
    }
  }

  /**
   The gate reads a copy, so parallel calls can pass it together: with at most k calls guessing at a
   challenge at any time its attempts never exceed k more than one below the limit.
   */
  lemma AttemptsNeverExceed(now: int, steps: seq<Step>, id: nat, k: nat)
    requires GuessersAtMost(Init(now), steps, id, k)
    requires id in Run(Init(now), steps).challenges
    ensures Run(Init(now), steps).challenges[id].attempts <= 4 + k
  {
    RunKeepsBound(Init(now), steps, id, k);
  }

  // ---- The attempts bound is reached ----

  lemma {:induction false} RunAppend(s: State, a: seq<Step>, b: seq<Step>, id: nat, k: nat)
    requires GuessersAtMost(s, a, id, k) && GuessersAtMost(Run(s, a), b, id, k)
    ensures Run(s, a + b) == Run(Run(s, a), b) && GuessersAtMost(s, a + b, id, k)
    decreases |a|
  {
    hide Next, Guessing;
    if a == [] {
      assert a + b == b;
    } else {
      assert (a + b)[1..] == a[1..] + b;
      RunAppend(Next(s, a[0]), a[1..], b, id, k);
    }
  }

  lemma NoSteps(s: State, id: nat, k: nat)
    requires |Guessing(s, id)| <= k
    ensures Run(s, []) == s && GuessersAtMost(s, [], id, k)
  {
  }

  lemma FirstStep(s: State, a: Step, rest: seq<Step>, id: nat, k: nat)
    requires |Guessing(s, id)| <= k && GuessersAtMost(Next(s, a), rest, id, k)
    ensures Run(s, [a] + rest) == Run(Next(s, a), rest) && GuessersAtMost(s, [a] + rest, id, k)
  {
    hide Next, Guessing;
    assert ([a] + rest)[1..] == rest;
  }

  lemma TwoSteps(s: State, a: Step, b: Step, id: nat, k: nat)
    requires |Guessing(s, id)| <= k && |Guessing(Next(s, a), id)| <= k && |Guessing(Next(Next(s, a), b), id)| <= k
    ensures Run(s, [a, b]) == Next(Next(s, a), b)
    ensures GuessersAtMost(s, [a, b], id, k)
  {
    hide Next, Guessing, Run, GuessersAtMost;
    assert [a] + [b] == [a, b] && [b] + [] == [b];
    NoSteps(Next(Next(s, a), b), id, k);
    FirstStep(Next(s, a), b, [], id, k);
    FirstStep(s, a, [b], id, k);
  }

  const WRONG_CODE := "wrong"

  /** A challenge that a verify call now reads, and lets past the gate. */
  predicate Guessable(s: State, id: nat) {
    && id in s.challenges && IsNewest(s, s.challenges[id].mobile, id)
    && CanAttemptOtp(s.challenges[id], s.now).None?
    && s.challenges[id].codeHash != WRONG_CODE
  }

  /** The calls 0 to n - 1. */
  function Pids(n: nat): (pids: set<nat>)
    ensures forall pid: nat :: pid in pids <==> pid < n
    ensures |pids| == n
  {
    if n == 0 then {} else Pids(n - 1) + {n - 1}
  }

  function Guessers(row: Challenge, id: nat, n: nat): map<nat, Verifier> {
    map pid | pid in Pids(n) :: Verifier(row.mobile, WRONG_CODE, id, row, Wrong)
  }

  /** The state with n calls under way, all past the gate with a wrong code. */
  function Volley(s: State, id: nat, n: nat): State
    requires id in s.challenges
  {
    s.(verifiers := Guessers(s.challenges[id], id, n))
  }

  lemma VolleyGuessers(s: State, row: Challenge, id: nat, n: nat)
    requires s.verifiers == Guessers(row, id, n)
    ensures Guessing(s, id) == Pids(n)
  {
  }

  /** One more call reads the challenge and passes the gate. */
  lemma JoinVolley(s: State, id: nat, n: nat, k: nat) returns (steps: seq<Step>)
    requires Guessable(s, id) && n < k
    ensures Run(Volley(s, id, n), steps) == Volley(s, id, n + 1)
    ensures GuessersAtMost(Volley(s, id, n), steps, id, k)
  {
    var v := Volley(s, id, n);
    var read, gate := VerifyRead(n, s.challenges[id].mobile, WRONG_CODE, id), VerifyGate(n);
    JoinReads(s, id, n);
    JoinerGuesses(s, id, n);
    JoinPasses(s, id, n);
    VolleyGuessers(v, s.challenges[id], id, n);
    VolleyGuessers(Volley(s, id, n + 1), s.challenges[id], id, n + 1);
    steps := [read, gate];
    TwoSteps(v, read, gate, id, k);
  }

  function Joining(s: State, id: nat, n: nat): State
    requires id in s.challenges
  {
    var v := Volley(s, id, n);
    v.(verifiers := v.verifiers[n := Verifier(s.challenges[id].mobile, WRONG_CODE, id, s.challenges[id], Reading)])
  }

  lemma JoinReads(s: State, id: nat, n: nat)
    requires Guessable(s, id)
    ensures Next(Volley(s, id, n), VerifyRead(n, s.challenges[id].mobile, WRONG_CODE, id)) == Joining(s, id, n)
  {
    assert IsNewest(Volley(s, id, n), s.challenges[id].mobile, id);
  }

  lemma JoinerGuesses(s: State, id: nat, n: nat)
    requires Guessable(s, id)
    ensures |Guessing(Joining(s, id, n), id)| == n + 1
  {
    VolleyGuessers(Volley(s, id, n), s.challenges[id], id, n);
    assert Guessing(Joining(s, id, n), id) == Guessing(Volley(s, id, n), id) + {n};
  }

  lemma JoinPasses(s: State, id: nat, n: nat)
    requires Guessable(s, id)
    ensures Next(Joining(s, id, n), VerifyGate(n)) == Volley(s, id, n + 1)
  {
  }

  lemma {:induction false} GatherVolley(s: State, id: nat, n: nat, k: nat) returns (steps: seq<Step>)
    requires Guessable(s, id) && n <= k
    ensures Run(Volley(s, id, 0), steps) == Volley(s, id, n)
    ensures GuessersAtMost(Volley(s, id, 0), steps, id, k)
  {
    if n == 0 {
      VolleyGuessers(Volley(s, id, 0), s.challenges[id], id, 0);
      steps := [];
    } else {
      var before := GatherVolley(s, id, n - 1, k);
      var join := JoinVolley(s, id, n - 1, k);
      RunAppend(Volley(s, id, 0), before, join, id, k);
      steps := before + join;
    }
  }

  function Failed(s: State, id: nat, n: nat): State
    requires id in s.challenges
  {
    s.(challenges := s.challenges[id := s.challenges[id].(attempts := s.challenges[id].attempts + n)])
  }

  lemma FireOne(s: State, row: Challenge, id: nat, n: nat)
    requires id in s.challenges && 0 < n && s.verifiers == Guessers(row, id, n)
    ensures Next(s, RecordFailure(n - 1)) == Failed(s, id, 1).(verifiers := Guessers(row, id, n - 1))
    ensures id in Next(s, RecordFailure(n - 1)).challenges
  {
    assert s.verifiers - {n - 1} == Guessers(row, id, n - 1);
  }

  lemma FireNone(s: State, row: Challenge, id: nat)
    requires id in s.challenges && s.verifiers == Guessers(row, id, 0)
    ensures s == Failed(s, id, 0).(verifiers := map[])
  {
  }

  lemma FireAdds(s: State, id: nat, n: nat, vs: map<nat, Verifier>)
    requires id in s.challenges && 0 < n
    ensures Failed(Failed(s, id, 1).(verifiers := vs), id, n - 1).(verifiers := map[])
         == Failed(s, id, n).(verifiers := map[])
  {
  }

  /** All calls of the volley record their failure, one after the other. */
  lemma {:induction false} FireVolley(s: State, row: Challenge, id: nat, n: nat, k: nat) returns (steps: seq<Step>)
    requires id in s.challenges && n <= k
    requires s.verifiers == Guessers(row, id, n)
    ensures Run(s, steps) == Failed(s, id, n).(verifiers := map[])
    ensures GuessersAtMost(s, steps, id, k)
    decreases n
  {
    VolleyGuessers(s, row, id, n);
    hide Next, Guessing, Guessers, Run, GuessersAtMost, Failed;
    if n == 0 {
      FireNone(s, row, id);
      NoSteps(s, id, k);
      steps := [];
    } else {
      FireOne(s, row, id, n);
      var s' := Next(s, RecordFailure(n - 1));
      var rest := FireVolley(s', row, id, n - 1, k);
      FireAdds(s, id, n, s'.verifiers);
      FirstStep(s, RecordFailure(n - 1), rest, id, k);
      steps := [RecordFailure(n - 1)] + rest;
    }
  }

  lemma EmptyVolley(s: State, id: nat)
    requires id in s.challenges && s.verifiers == map[]
    ensures Volley(s, id, 0) == s
  {
  }

  lemma VolleyOf(s: State, id: nat, n: nat)
    requires id in s.challenges
    ensures Volley(s, id, n).challenges == s.challenges && Volley(s, id, n).verifiers == Guessers(s.challenges[id], id, n)
  {
  }

  lemma SpentVolley(s: State, id: nat, n: nat)
    requires id in s.challenges && s.verifiers == map[]
    ensures Failed(Volley(s, id, n), id, n).(verifiers := map[]) == Failed(s, id, n)
  {
  }

  /** n calls pass the gate together, then all fail: the challenge has n more attempts. */
  lemma VolleyAdds(s: State, id: nat, n: nat, k: nat) returns (steps: seq<Step>)
    requires Guessable(s, id) && s.verifiers == map[] && n <= k
    ensures Run(s, steps) == Failed(s, id, n)
    ensures GuessersAtMost(s, steps, id, k)
  {
    EmptyVolley(s, id);
    SpentVolley(s, id, n);
    VolleyOf(s, id, n);
    hide Next, Run, GuessersAtMost, Guessing, Guessers, Guessable, Volley, Failed;
    var gather := GatherVolley(s, id, n, k);
    var fire := FireVolley(Volley(s, id, n), s.challenges[id], id, n, k);
    RunAppend(s, gather, fire, id, k);
    steps := gather + fire;
  }

  lemma {:induction false} SingleFailures(s: State, id: nat, n: nat, k: nat) returns (steps: seq<Step>)
    requires Guessable(s, id) && s.verifiers == map[] && 1 <= k
    requires s.challenges[id].attempts + n <= OTP_MAX_ATTEMPTS
    ensures Run(s, steps) == Failed(s, id, n)
    ensures GuessersAtMost(s, steps, id, k)
    decreases n
  {
    if n == 0 {
      steps := VolleyAdds(s, id, 0, k);
    } else {
      var one := VolleyAdds(s, id, 1, k);
      var s' := Failed(s, id, 1);
      if n == 1 {
        steps := one;
      } else {
        var rest := SingleFailures(s', id, n - 1, k);
        assert Failed(s', id, n - 1) == Failed(s, id, n);
        RunAppend(s, one, rest, id, k);
        steps := one + rest;
      }
    }
  }

  /**
   The bound is exact: for every k there is a run in which no more than k calls are ever guessing and
   a challenge ends with k more attempts than one below the limit. One call at a time, that is the
   limit itself; two already exceed it.
   */
  lemma AttemptsBoundIsTight(k: nat) returns (steps: seq<Step>)
    requires 1 <= k
    ensures GuessersAtMost(Init(0), steps, 0, k)
    ensures 0 in Run(Init(0), steps).challenges
    ensures Run(Init(0), steps).challenges[0].attempts == 4 + k
  {
    var read, commit := IssueRead("mobile", "right", 1), IssueCommit("mobile", 0);
    var issue := [read, commit];
    var s := Next(Next(Init(0), read), commit);
    assert Guessing(Init(0), 0) == Guessing(Next(Init(0), read), 0) == Guessing(s, 0) == {};
    TwoSteps(Init(0), read, commit, 0, k);
    var alone := SingleFailures(s, 0, OTP_MAX_ATTEMPTS - 1, k);
    var s' := Failed(s, 0, OTP_MAX_ATTEMPTS - 1);
    var together := VolleyAdds(s', 0, k, k);
    RunAppend(s, alone, together, 0, k);
    RunAppend(Init(0), issue, alone + together, 0, k);
    steps := issue + (alone + together);
  }

  // ---- Spacing of codes ----

  /** How many challenges were created for the mobile in [lo, hi]. */
  function CountIssued(issued: seq<Challenge>, mobile: string, lo: int, hi: int): nat {
    if issued == [] then 0
    else
      var last := issued[|issued| - 1];
      CountIssued(issued[..|issued| - 1], mobile, lo, hi)
      + if last.mobile == mobile && lo <= last.createdAt <= hi then 1 else 0
  }

  ghost predicate PairwiseSpaced(issued: seq<Challenge>, mobile: string, lo: int, hi: int) {
    forall i, j :: 0 <= i < j < |issued| && issued[i].mobile == mobile == issued[j].mobile
      && lo <= issued[i].createdAt <= hi && lo <= issued[j].createdAt <= hi
      ==> Spaced(issued[i], issued[j].createdAt)
  }

  lemma {:induction false} SpacedCount(issued: seq<Challenge>, mobile: string, lo: int, hi: int) returns (last: int)
    requires PairwiseSpaced(issued, mobile, lo, hi)
    ensures var n := CountIssued(issued, mobile, lo, hi);
      n > 0 ==>
        && 0 <= last < |issued| && issued[last].mobile == mobile && lo <= issued[last].createdAt <= hi
        && issued[last].createdAt >= lo + (n - 1) * OTP_RESEND_COOLDOWN_MS
  {
    if issued == [] {
      last := 0;
    } else {
      var front := issued[..|issued| - 1];
      assert forall i :: 0 <= i < |front| ==> front[i] == issued[i];
      last := SpacedCount(front, mobile, lo, hi);
      var c := issued[|issued| - 1];
      if c.mobile == mobile && lo <= c.createdAt <= hi {
        if CountIssued(front, mobile, lo, hi) > 0 {
          assert Spaced(issued[last], c.createdAt);
        }
        last := |issued| - 1;
      }
    }
  }

  /** None of the mobile's codes created in [lo, hi] was consumed and none failed to be delivered. */
  ghost predicate NoneUsedUp(s: State, mobile: string, lo: int, hi: int) {
    forall i :: 0 <= i < |s.issued| && s.issued[i].mobile == mobile && lo <= s.issued[i].createdAt <= hi
      ==> !UsedUp(s, i)
  }

  lemma UnusedAreSpaced(s: State, mobile: string, lo: int, hi: int)
    requires IssuesSpaced(s) && NoneUsedUp(s, mobile, lo, hi)
    ensures PairwiseSpaced(s.issued, mobile, lo, hi)
  {
  }

  lemma SpacedRate(issued: seq<Challenge>, mobile: string, lo: int, hi: int)
    requires lo <= hi && PairwiseSpaced(issued, mobile, lo, hi)
    ensures CountIssued(issued, mobile, lo, hi) <= (hi - lo) / OTP_RESEND_COOLDOWN_MS + 1
  {
    hide PairwiseSpaced;
    var last := SpacedCount(issued, mobile, lo, hi);
    var n := CountIssued(issued, mobile, lo, hi);
    if n > 0 {
      assert (n - 1) * OTP_RESEND_COOLDOWN_MS <= hi - lo;
    }
  }

  /**
   However many requests run in parallel, the codes created for a mobile in any period are at most one
   per cooldown and one more, provided none of those codes was consumed and none failed to be delivered.
   */
  lemma IssueRate(now: int, steps: seq<Step>, mobile: string, lo: int, hi: int)
    requires lo <= hi
    requires NoneUsedUp(Run(Init(now), steps), mobile, lo, hi)
    ensures CountIssued(Run(Init(now), steps).issued, mobile, lo, hi) <= (hi - lo) / 60_000 + 1
  {
    Reachable(now, steps);
    UnusedAreSpaced(Run(Init(now), steps), mobile, lo, hi);
    SpacedRate(Run(Init(now), steps).issued, mobile, lo, hi);
  }

  /** Two codes of one mobile closer than the cooldown: the earlier one was consumed or not delivered. */
  lemma CloseIssuesWereUsedUp(now: int, steps: seq<Step>, i: nat, j: nat)
    requires
      var s := Run(Init(now), steps);
      && i < j < |s.issued| && s.issued[i].mobile == s.issued[j].mobile
      && s.issued[j].createdAt - s.issued[i].createdAt < 60_000
    ensures UsedUp(Run(Init(now), steps), i)
  {
    Reachable(now, steps);
  }

  /**
   A refused request is told the least whole number of seconds after which, nothing else happening,
   the same request passes.
   */
  lemma RefusalNamesLeastWait(now: int, steps: seq<Step>, mobile: string, id: nat, seconds: nat)
    requires Unconsumed(Run(Init(now), steps), mobile, id)
    ensures
      var s := Run(Init(now), steps);
      var wait := SecondsUntilResend(s.challenges[id].createdAt, s.now);
      && (CooledDown(s, mobile) <==> wait == 0)
      && (CooledDown(Next(s, Tick(1000 * seconds)), mobile) <==> wait <= seconds)
  {
    var s := Run(Init(now), steps);
    var s' := Next(s, Tick(1000 * seconds));
    AtMostOneUnconsumed(now, steps, mobile, id);
    ResendWaitIsLeast(s.challenges[id].createdAt, s.now, seconds);
    assert Unconsumed(s', mobile, id);
    assert forall other :: Unconsumed(s', mobile, other) <==> Unconsumed(s, mobile, other);
  }

  // ---- Sessions ----

  /** `findValidSession`: the row must be valid now and its user not blocked. */
  function FindValidSession(s: State, token: string): Option<Session> {
    var found := if token in s.sessions then Some(s.sessions[token]) else None;
    if !IsSessionRecordValid(found, s.now) then None
    else if found.value.mobile in s.blocked then None
    else found
  }

  lemma NextKeepsInvalid(s: State, step: Step, token: string)
    requires token in s.sessions && !IsSessionRecordValid(Some(s.sessions[token]), s.now)
    ensures
      var s' := Next(s, step);
      token in s'.sessions && !IsSessionRecordValid(Some(s'.sessions[token]), s'.now)
  {
  }

  /** A session that was revoked or ran out is never valid again, whatever happens later. */
  lemma {:induction false} InvalidForever(s: State, steps: seq<Step>, token: string)
    requires token in s.sessions && !IsSessionRecordValid(Some(s.sessions[token]), s.now)
    ensures FindValidSession(Run(s, steps), token) == None
    decreases |steps|
  {
    hide Next;
    if steps != [] {
      NextKeepsInvalid(s, steps[0], token);
      InvalidForever(Next(s, steps[0]), steps[1..], token);
    }
  }

  /** Once revoked, a token finds no session in any later state. */
  lemma RevokedForever(s: State, token: string, steps: seq<Step>)
    requires token in s.sessions
    ensures FindValidSession(Run(Next(s, Revoke(token)), steps), token) == None
  {
    InvalidForever(Next(s, Revoke(token)), steps, token);
  }

  // ---- Blocked users ----

  predicate NeverUnblocked(steps: seq<Step>, mobile: string) {
    forall i :: 0 <= i < |steps| ==> steps[i] != Unblock(mobile)
  }

  /** Blocked, and no verify call for the mobile has passed the check of the account. */
  predicate ShutOut(s: State, mobile: string) {
    && mobile in s.blocked
    && forall pid :: pid in s.verifiers && s.verifiers[pid].phase.Admitted? ==> s.verifiers[pid].mobile != mobile
  }

  lemma NextKeepsBlocked(s: State, step: Step, mobile: string)
    requires mobile in s.blocked && step != Unblock(mobile)
    ensures mobile in Next(s, step).blocked
  {
  }

  lemma NextKeepsShutOut(s: State, step: Step, mobile: string, token: string)
    requires ShutOut(s, mobile) && step != Unblock(mobile)
    ensures ShutOut(Next(s, step), mobile)
    ensures token in Next(s, step).sessions && Next(s, step).sessions[token].mobile == mobile ==> token in s.sessions
  {
    hide IsNewest, CooledDown, CanAttemptOtp;
  }

  lemma {:induction false} StaysShutOut(s: State, steps: seq<Step>, mobile: string, token: string)
    requires ShutOut(s, mobile) && NeverUnblocked(steps, mobile)
    ensures
      var s' := Run(s, steps);
      token in s'.sessions && s'.sessions[token].mobile == mobile ==>
        token in s.sessions && s.sessions[token].mobile == mobile
    decreases |steps|
  {
    hide Next, ShutOut;
    if steps != [] {
      NextKeepsShutOut(s, steps[0], mobile, token);
      if token in s.sessions {
        SessionKeepsMobile(s, steps[0], token);
      }
      StaysShutOut(Next(s, steps[0]), steps[1..], mobile, token);
    }
  }

  lemma SessionKeepsMobile(s: State, step: Step, token: string)
    requires token in s.sessions
    ensures token in Next(s, step).sessions && Next(s, step).sessions[token].mobile == s.sessions[token].mobile
  {
    hide IsNewest, CooledDown, Gate, Commit;
  }

  lemma {:induction false} StaysBlocked(s: State, steps: seq<Step>, mobile: string)
    requires mobile in s.blocked && NeverUnblocked(steps, mobile)
    ensures mobile in Run(s, steps).blocked
    decreases |steps|
  {
    hide Next;
    if steps != [] {
      NextKeepsBlocked(s, steps[0], mobile);
      StaysBlocked(Next(s, steps[0]), steps[1..], mobile);
    }
  }

  /**
   From the moment a user is blocked until unblocked no session of theirs is found, old or new; and if no
   login had passed the account check by then, none opens a session at all.
   */
  lemma BlockedUsersAreOut(s: State, mobile: string, steps: seq<Step>, token: string)
    requires NeverUnblocked(steps, mobile)
    ensures
      var s' := Run(Next(s, Block(mobile)), steps);
      && (FindValidSession(s', token).Some? ==> s'.sessions[token].mobile != mobile)
      && (ShutOut(Next(s, Block(mobile)), mobile) && token in s'.sessions && s'.sessions[token].mobile == mobile ==>
            token in s.sessions && s.sessions[token].mobile == mobile)
  {
    var blocked := Next(s, Block(mobile));
    StaysBlocked(blocked, steps, mobile);
    if ShutOut(blocked, mobile) {
      StaysShutOut(blocked, steps, mobile, token);
    }
  }

  /** Unblocking brings back the sessions that are still valid, and blocking or unblocking one user nobody else's. */
  lemma UnblockRestores(s: State, mobile: string, token: string)
    ensures FindValidSession(Next(s, Unblock(mobile)), token).Some? <==>
      && token in s.sessions && s.sessions[token].revokedAt == None && s.now < s.sessions[token].expiresAt
      && (s.sessions[token].mobile == mobile || s.sessions[token].mobile !in s.blocked)
    ensures token in s.sessions && s.sessions[token].mobile != mobile ==>
      FindValidSession(Next(s, Block(mobile)), token) == FindValidSession(s, token)
  {
  }

  // ---- Deliveries ----

  lemma NextKeepsSettled(s: State, step: Step, id: nat)
    requires RowsAreIssued(s) && id < |s.issued| && id !in s.deliveries
    ensures id < |Next(s, step).issued| && id !in Next(s, step).deliveries
    ensures id in Next(s, step).failed <==> id in s.failed
  {
    hide IsNewest, CooledDown, Gate;
  }

  lemma {:induction false} StaysSettled(s: State, steps: seq<Step>, id: nat)
    requires Inv(s) && id < |s.issued| && id !in s.deliveries
    ensures id in Run(s, steps).failed <==> id in s.failed
    decreases |steps|
  {
    hide Next, RowsAreIssued;
    if steps != [] {
      NextKeepsInv(s, steps[0]);
      NextKeepsSettled(s, steps[0], id);
      StaysSettled(Next(s, steps[0]), steps[1..], id);
    }
  }

  lemma DeliverySteps(s: State, id: nat)
    requires RowsAreIssued(s) && id in s.deliveries
    ensures
      var sent, lost, kept := Next(s, Delivered(id)), Next(s, DeliveryFailed(id, true)), Next(s, DeliveryFailed(id, false));
      && sent.challenges == kept.challenges == s.challenges && id !in lost.challenges
      && id < |sent.issued| && id !in sent.deliveries && sent.failed == s.failed
      && id < |lost.issued| && id !in lost.deliveries && id in lost.failed
  {
  }

  /**
   A delivery is settled once: a code reported delivered is never taken back as failed; one that failed stays
   so, and its row goes exactly with the compensating delete.
   */
  lemma DeliverySettlesOnce(now: int, steps: seq<Step>, id: nat, more: seq<Step>)
    requires id in Run(Init(now), steps).deliveries
    ensures
      var s := Run(Init(now), steps);
      && (id in Run(Next(s, Delivered(id)), more).failed <==> id in s.failed)
      && id in Run(Next(s, DeliveryFailed(id, true)), more).failed
      && Next(s, Delivered(id)).challenges == Next(s, DeliveryFailed(id, false)).challenges == s.challenges
      && id !in Next(s, DeliveryFailed(id, true)).challenges
  {
    var s := Run(Init(now), steps);
    Reachable(now, steps);
    DeliverySteps(s, id);
    hide *;
    NextKeepsInv(s, Delivered(id));
    NextKeepsInv(s, DeliveryFailed(id, true));
    StaysSettled(Next(s, Delivered(id)), more, id);
    StaysSettled(Next(s, DeliveryFailed(id, true)), more, id);
  }

  // ---- One issue at a time ----

  /** No step of the run ends the mobile's issue transaction. */
  predicate NeverSettled(steps: seq<Step>, mobile: string) {
    forall i :: 0 <= i < |steps| ==>
      steps[i] != IssueAbort(mobile) && !(steps[i].IssueCommit? && steps[i].mobile == mobile)
  }

  lemma NextHoldsLock(s: State, step: Step, mobile: string)
    requires mobile in s.locks && step != IssueAbort(mobile) && !(step.IssueCommit? && step.mobile == mobile)
    ensures mobile in Next(s, step).locks && Next(s, step).locks[mobile] == s.locks[mobile]
  {
    hide IsNewest, CooledDown, Gate, Open;
  }

  /** Once an issue has read under the lock of its mobile, no other gets in between before it commits or aborts. */
  lemma {:induction false} LockIsHeld(s: State, steps: seq<Step>, mobile: string)
    requires mobile in s.locks && NeverSettled(steps, mobile)
    ensures mobile in Run(s, steps).locks && Run(s, steps).locks[mobile] == s.locks[mobile]
    decreases |steps|
  {
    hide Next;
    if steps != [] {
      NextHoldsLock(s, steps[0], mobile);
      LockIsHeld(Next(s, steps[0]), steps[1..], mobile);
    }
  }

  /** Commit and abort free the lock; an abort leaves the rows alone, so the next request passes as before. */
  lemma LockIsFreed(s: State, mobile: string, createdAt: int, codeHash: string, expiresAt: int)
    requires mobile in s.locks
    ensures
      var aborted := Next(s, IssueAbort(mobile));
      && aborted == s.(locks := aborted.locks) && aborted.locks.Keys == s.locks.Keys - {mobile}
      && (Enabled(aborted, IssueRead(mobile, codeHash, expiresAt)) <==> CooledDown(s, mobile))
    ensures s.locks[mobile].readAt <= createdAt <= s.now ==> mobile !in Next(s, IssueCommit(mobile, createdAt)).locks
  {
    assert CooledDown(Next(s, IssueAbort(mobile)), mobile) <==> CooledDown(s, mobile);
  }
}
