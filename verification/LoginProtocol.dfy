/**
 The one-time-code login of lib/auth-service.ts and lib/session-store.ts as interleaved steps on
 shared rows. Every SQL statement is one step; an issue transaction is two, the read under the
 advisory lock of its mobile, and either the commit that makes the new challenge visible, deletes the
 other unconsumed ones and frees the lock, or an abort that only frees the lock. Any number of issue,
 delivery, verify, revoke and block calls may be under way at once, and any of them may stop at any point.
 */
module LoginProtocol {
  import opened Common
  import opened OtpRules

  /** An issue transaction that has passed the cooldown check and holds its mobile's lock. */
  datatype Issue = Issue(codeHash: string, expiresAt: int, readAt: int)

  datatype Phase = Reading | Wrong | Right(gateAt: int) | Won | Admitted

  /** A verify call under way: what it was given, and the challenge row as it read it. */
  datatype Verifier = Verifier(mobile: string, codeHash: string, id: nat, row: Challenge, phase: Phase)

  /** History of a consumed challenge: the code presented for it, and when its verifier passed the gate. */
  datatype Win = Win(codeHash: string, gateAt: int)

  datatype State = State(
    now: int,
    challenges: map<nat, Challenge>,
    locks: map<string, Issue>,
    deliveries: set<nat>,
    verifiers: map<nat, Verifier>,
    blocked: set<string>,
    sessions: map<string, Session>,
    // history
    issued: seq<Challenge>,
    wins: map<nat, Win>,
    failed: set<nat>)

  function Init(now: int): State {
    State(now, map[], map[], {}, map[], {}, map[], [], map[], {})
  }

  datatype Step =
    | Tick(ms: nat)
    | IssueRead(mobile: string, codeHash: string, expiresAt: int)
    | IssueCommit(mobile: string, createdAt: int)
    | IssueAbort(mobile: string)
    | Delivered(id: nat)
    | DeliveryFailed(id: nat, deleted: bool)
    | VerifyRead(pid: nat, mobile: string, codeHash: string, id: nat)
    | VerifyGate(pid: nat)
    | RecordFailure(pid: nat)
    | Consume(pid: nat)
    | Admit(pid: nat)
    | OpenSession(pid: nat, token: string, expiresAt: int)
    | Abandon(pid: nat)
    | Revoke(token: string)
    | Block(mobile: string)
    | Unblock(mobile: string)

  predicate Unconsumed(s: State, mobile: string, id: nat) {
    id in s.challenges && s.challenges[id].mobile == mobile && s.challenges[id].consumedAt.None?
  }

  /** `findFirst` over the unconsumed challenges, newest first; none of them lets the cooldown pass. */
  predicate CooledDown(s: State, mobile: string) {
    forall id :: id in s.challenges && Unconsumed(s, mobile, id) ==> SecondsUntilResend(s.challenges[id].createdAt, s.now) == 0
  }

  /** `findFirst` over all challenges of the mobile, newest first, may return this one. */
  predicate IsNewest(s: State, mobile: string, id: nat) {
    && id in s.challenges && s.challenges[id].mobile == mobile
    && forall other :: other in s.challenges && s.challenges[other].mobile == mobile
         ==> s.challenges[other].createdAt <= s.challenges[id].createdAt
  }

  predicate InPhase(s: State, pid: nat, phase: Phase) {
    pid in s.verifiers && s.verifiers[pid].phase == phase
  }

  predicate Enabled(s: State, step: Step) {
    match step
    case Tick(_) => true
    case IssueRead(mobile, _, _) => mobile !in s.locks && CooledDown(s, mobile)
    case IssueCommit(mobile, createdAt) => mobile in s.locks && s.locks[mobile].readAt <= createdAt <= s.now
    case IssueAbort(mobile) => mobile in s.locks
    case Delivered(id) => id in s.deliveries
    case DeliveryFailed(id, _) => id in s.deliveries
    case VerifyRead(pid, mobile, _, id) => pid !in s.verifiers && IsNewest(s, mobile, id)
    case VerifyGate(pid) => InPhase(s, pid, Reading)
    case RecordFailure(pid) => InPhase(s, pid, Wrong)
    case Consume(pid) => pid in s.verifiers && s.verifiers[pid].phase.Right?
    case Admit(pid) => InPhase(s, pid, Won)
    case OpenSession(pid, token, _) => InPhase(s, pid, Admitted) && token !in s.sessions
    case Abandon(pid) => pid in s.verifiers
    case Revoke(token) => token in s.sessions
    case Block(_) => true
    case Unblock(_) => true
  }

  function Leave(s: State, pid: nat): (s': State)
    ensures s' == s.(verifiers := s'.verifiers)
  {
    s.(verifiers := s.verifiers - {pid})
  }

  function Enter(s: State, pid: nat, phase: Phase): (s': State)
    requires pid in s.verifiers
    ensures s' == s.(verifiers := s'.verifiers)
  {
    s.(verifiers := s.verifiers[pid := s.verifiers[pid].(phase := phase)])
  }

  function Commit(s: State, mobile: string, createdAt: int): (s': State)
    requires mobile in s.locks
    ensures s' == s.(challenges := s'.challenges, locks := s'.locks, deliveries := s'.deliveries, issued := s'.issued)
  {
    var c := Challenge(mobile, s.locks[mobile].codeHash, createdAt, s.locks[mobile].expiresAt, 0, None);
    var kept := map id | id in s.challenges && !Unconsumed(s, mobile, id) :: s.challenges[id];
    s.(challenges := kept[|s.issued| := c],
       locks := s.locks - {mobile},
       deliveries := s.deliveries + {|s.issued|},
       issued := s.issued + [c])
  }

  function Gate(s: State, pid: nat): (s': State)
    requires pid in s.verifiers
    ensures s' == s.(verifiers := s'.verifiers)
  {
    var v := s.verifiers[pid];
    if CanAttemptOtp(v.row, s.now).Some? then Leave(s, pid)
    else Enter(s, pid, if v.codeHash == v.row.codeHash then Right(s.now) else Wrong)
  }

  /** `attempts: { increment: 1 }` on the row as it is now; a row that is gone makes the call fail. */
  function CountFailure(s: State, pid: nat): (s': State)
    requires pid in s.verifiers
    ensures s' == s.(verifiers := s'.verifiers, challenges := s'.challenges)
  {
    var id := s.verifiers[pid].id;
    var s' := Leave(s, pid);
    if id in s.challenges then
      s'.(challenges := s.challenges[id := s.challenges[id].(attempts := s.challenges[id].attempts + 1)])
    else s'
  }

  /** `updateMany where consumedAt is null`: only the call that changes the row goes on. */
  function TryConsume(s: State, pid: nat): (s': State)
    requires pid in s.verifiers && s.verifiers[pid].phase.Right?
    ensures s' == s.(verifiers := s'.verifiers, challenges := s'.challenges, wins := s'.wins)
  {
    var v := s.verifiers[pid];
    if v.id in s.challenges && s.challenges[v.id].consumedAt.None? then
      Enter(s, pid, Won).(
        challenges := s.challenges[v.id := s.challenges[v.id].(consumedAt := Some(s.now))],
        wins := s.wins[v.id := Win(v.codeHash, v.phase.gateAt)])
    else Leave(s, pid)
  }

  function Open(s: State, pid: nat, token: string, expiresAt: int): (s': State)
    requires pid in s.verifiers
    ensures s' == s.(verifiers := s'.verifiers, sessions := s'.sessions)
  {
    var v := s.verifiers[pid];
    Leave(s, pid).(sessions := s.sessions[token := Session(v.mobile, expiresAt, None, v.id)])
  }

  /** A step that is not enabled leaves the state alone, so that every list of steps is a run. */
  function Next(s: State, step: Step): State {
    if !Enabled(s, step) then s
    else
      match step
      case Tick(ms) => s.(now := s.now + ms)
      case IssueRead(mobile, codeHash, expiresAt) => s.(locks := s.locks[mobile := Issue(codeHash, expiresAt, s.now)])
      case IssueCommit(mobile, createdAt) => Commit(s, mobile, createdAt)
      case IssueAbort(mobile) => s.(locks := s.locks - {mobile})
      case Delivered(id) => s.(deliveries := s.deliveries - {id})
      case DeliveryFailed(id, deleted) =>
        s.(deliveries := s.deliveries - {id},
           failed := s.failed + {id},
           challenges := if deleted then s.challenges - {id} else s.challenges)
      case VerifyRead(pid, mobile, codeHash, id) =>
        s.(verifiers := s.verifiers[pid := Verifier(mobile, codeHash, id, s.challenges[id], Reading)])
      case VerifyGate(pid) => Gate(s, pid)
      case RecordFailure(pid) => CountFailure(s, pid)
      case Consume(pid) => TryConsume(s, pid)
      case Admit(pid) => if s.verifiers[pid].mobile in s.blocked then Leave(s, pid) else Enter(s, pid, Admitted)
      case OpenSession(pid, token, expiresAt) => Open(s, pid, token, expiresAt)
      case Abandon(pid) => Leave(s, pid)
      case Revoke(token) =>
        if s.sessions[token].revokedAt.None? then
          s.(sessions := s.sessions[token := s.sessions[token].(revokedAt := Some(s.now))])
        else s
      case Block(mobile) => s.(blocked := s.blocked + {mobile})
      case Unblock(mobile) => s.(blocked := s.blocked - {mobile})
  }

  function Run(s: State, steps: seq<Step>): State
    decreases |steps|
  {
    if steps == [] then s else Run(Next(s, steps[0]), steps[1..])
  }

  // ---- What every reachable state satisfies ----

  /** A live row, and a verifier's copy of one, carry what was issued under their id. */
  predicate SameIssue(a: Challenge, b: Challenge) {
    a.mobile == b.mobile && a.codeHash == b.codeHash && a.createdAt == b.createdAt && a.expiresAt == b.expiresAt
  }

  /** Rows are issued challenges; a row is marked consumed exactly when its challenge was won. */
  ghost predicate RowsAreIssued(s: State) {
    && (forall id :: id in s.challenges ==>
          && id < |s.issued|
          && SameIssue(s.challenges[id], s.issued[id])
          && (s.challenges[id].consumedAt.Some? <==> id in s.wins))
    && (forall id :: id in s.deliveries ==> id < |s.issued|)
    && (forall id :: id in s.wins ==> id < |s.issued|)
  }

  /** Challenges of one mobile are issued in the order of their creation times. */
  ghost predicate IssuedInOrder(s: State) {
    && (forall i :: 0 <= i < |s.issued| ==> s.issued[i].createdAt <= s.now)
    && (forall i, j :: 0 <= i < j < |s.issued| && s.issued[i].mobile == s.issued[j].mobile
          ==> s.issued[i].createdAt <= s.issued[j].createdAt)
    && (forall m :: m in s.locks ==> s.locks[m].readAt <= s.now)
    && (forall i :: 0 <= i < |s.issued| && s.issued[i].mobile in s.locks
          ==> s.issued[i].createdAt <= s.locks[s.issued[i].mobile].readAt)
  }

  ghost predicate IsLatest(s: State, id: nat) {
    id < |s.issued| && forall j :: id < j < |s.issued| ==> s.issued[j].mobile != s.issued[id].mobile
  }

  /** Only the last challenge issued for a mobile can be unconsumed. */
  ghost predicate OnlyLatestUnconsumed(s: State) {
    forall id :: id in s.challenges && s.challenges[id].consumedAt.None? ==> IsLatest(s, id)
  }

  /** Consumed, or its delivery failed. */
  predicate UsedUp(s: State, id: nat) {
    id in s.wins || id in s.failed
  }

  /** Nothing else takes the latest challenge of a mobile away. */
  ghost predicate LatestAccounted(s: State) {
    forall id :: IsLatest(s, id) ==> id in s.challenges || UsedUp(s, id)
  }

  predicate Spaced(earlier: Challenge, laterAt: int) {
    laterAt - earlier.createdAt >= OTP_RESEND_COOLDOWN_MS
  }

  /** A later challenge of the mobile waited out the cooldown, unless the earlier one was used up. */
  ghost predicate IssuesSpaced(s: State) {
    && (forall i, j :: 0 <= i < j < |s.issued| && s.issued[i].mobile == s.issued[j].mobile
          ==> Spaced(s.issued[i], s.issued[j].createdAt) || UsedUp(s, i))
    && (forall i :: 0 <= i < |s.issued| && s.issued[i].mobile in s.locks
          ==> Spaced(s.issued[i], s.locks[s.issued[i].mobile].readAt) || UsedUp(s, i))
  }

  predicate Holds(v: Verifier) {
    v.phase.Won? || v.phase.Admitted?
  }

  /** What a verify call has established by the phase it is in. */
  predicate VerifierSound(s: State, v: Verifier) {
    && v.id < |s.issued|
    && SameIssue(v.row, s.issued[v.id])
    && v.mobile == v.row.mobile
    && (v.phase.Right? ==> v.codeHash == v.row.codeHash && v.phase.gateAt < v.row.expiresAt)
    && (Holds(v) ==> v.id in s.wins)
  }

  ghost predicate VerifiersSound(s: State) {
    && (forall pid :: pid in s.verifiers ==> VerifierSound(s, s.verifiers[pid]))
    && (forall id :: id in s.wins && id < |s.issued| ==>
          s.wins[id].codeHash == s.issued[id].codeHash && s.wins[id].gateAt < s.issued[id].expiresAt)
  }

  /** One won challenge, one call that may open a session for it or one session opened for it. */
  ghost predicate OneClaim(s: State) {
    && (forall p, q :: p in s.verifiers && q in s.verifiers && Holds(s.verifiers[p]) && Holds(s.verifiers[q]) && p != q
          ==> s.verifiers[p].id != s.verifiers[q].id)
    && (forall p, t :: p in s.verifiers && t in s.sessions && Holds(s.verifiers[p])
          ==> s.verifiers[p].id != s.sessions[t].challenge)
    && (forall t, u :: t in s.sessions && u in s.sessions && s.sessions[t].challenge == s.sessions[u].challenge
          ==> t == u)
  }

  ghost predicate SessionsEarned(s: State) {
    forall t :: t in s.sessions ==>
      && s.sessions[t].challenge in s.wins
      && s.sessions[t].challenge < |s.issued|
      && s.sessions[t].mobile == s.issued[s.sessions[t].challenge].mobile
  }

  ghost predicate Inv(s: State) {
    && RowsAreIssued(s)
    && IssuedInOrder(s)
    && OnlyLatestUnconsumed(s)
    && LatestAccounted(s)
    && IssuesSpaced(s)
    && VerifiersSound(s)
    && OneClaim(s)
    && SessionsEarned(s)
  }

  lemma CommitKeepsOrder(s: State, mobile: string, createdAt: int)
    requires IssuedInOrder(s) && Enabled(s, IssueCommit(mobile, createdAt))
    ensures IssuedInOrder(Commit(s, mobile, createdAt))
  {
  }

  lemma NextKeepsOrder(s: State, step: Step)
    requires IssuedInOrder(s)
    ensures IssuedInOrder(Next(s, step))
  {
    hide Commit, Gate, CountFailure, TryConsume, Open, Leave, Enter, IsNewest, CooledDown;
    if step.IssueCommit? && Enabled(s, step) {
      CommitKeepsOrder(s, step.mobile, step.createdAt);
    }
  }

  lemma CommitKeepsRows(s: State, mobile: string, createdAt: int)
    requires RowsAreIssued(s) && mobile in s.locks
    ensures RowsAreIssued(Commit(s, mobile, createdAt))
  {
  }

  lemma FailureKeepsRows(s: State, pid: nat)
    requires RowsAreIssued(s) && pid in s.verifiers
    ensures RowsAreIssued(CountFailure(s, pid))
  {
  }

  lemma ConsumeKeepsRows(s: State, pid: nat)
    requires RowsAreIssued(s) && pid in s.verifiers && s.verifiers[pid].phase.Right?
    ensures RowsAreIssued(TryConsume(s, pid))
  {
  }

  lemma NextKeepsRows(s: State, step: Step)
    requires RowsAreIssued(s)
    ensures RowsAreIssued(Next(s, step))
  {
    hide Commit, Gate, CountFailure, TryConsume, Open, Leave, Enter, SameIssue, IsNewest, CooledDown;
    if step.IssueCommit? && Enabled(s, step) {
      CommitKeepsRows(s, step.mobile, step.createdAt);
    } else if step.RecordFailure? && Enabled(s, step) {
      FailureKeepsRows(s, step.pid);
    } else if step.Consume? && Enabled(s, step) {
      ConsumeKeepsRows(s, step.pid);
    }
  }

  lemma CommitKeepsLatest(s: State, mobile: string, createdAt: int)
    requires RowsAreIssued(s) && OnlyLatestUnconsumed(s) && mobile in s.locks
    ensures OnlyLatestUnconsumed(Commit(s, mobile, createdAt))
  {
  }

  /** No challenge becomes unconsumed again, and without an issue none stops being the latest. */
  lemma LatestFrame(s: State, s': State)
    requires OnlyLatestUnconsumed(s) && s'.issued == s.issued
    requires forall id :: id in s'.challenges && s'.challenges[id].consumedAt.None?
               ==> id in s.challenges && s.challenges[id].consumedAt.None?
    ensures OnlyLatestUnconsumed(s')
  {
  }

  lemma NextKeepsLatest(s: State, step: Step)
    requires RowsAreIssued(s) && OnlyLatestUnconsumed(s)
    ensures OnlyLatestUnconsumed(Next(s, step))
  {
    hide Commit, Gate, Open, RowsAreIssued, OnlyLatestUnconsumed, IsNewest, CooledDown;
    if step.IssueCommit? && Enabled(s, step) {
      CommitKeepsLatest(s, step.mobile, step.createdAt);
    } else {
      LatestFrame(s, Next(s, step));
    }
  }

  lemma CommitAccounts(s: State, mobile: string, createdAt: int)
    requires RowsAreIssued(s) && LatestAccounted(s) && mobile in s.locks
    ensures LatestAccounted(Commit(s, mobile, createdAt))
  {
    var s' := Commit(s, mobile, createdAt);
    forall id: nat | IsLatest(s', id)
      ensures id in s'.challenges || UsedUp(s', id)
    {
      if id < |s.issued| {
        assert s'.issued[|s.issued|].mobile == mobile != s'.issued[id].mobile == s.issued[id].mobile;
        assert forall j :: id < j < |s.issued| ==> s'.issued[j] == s.issued[j];
        assert IsLatest(s, id);
      }
    }
  }

  /** Without an issue, only a challenge that is used up may go. */
  lemma AccountsFrame(s: State, s': State)
    requires LatestAccounted(s) && s'.issued == s.issued
    requires s.wins.Keys <= s'.wins.Keys && s.failed <= s'.failed
    requires forall id :: id in s.challenges && id !in s'.challenges ==> id in s'.failed
    ensures LatestAccounted(s')
  {
    forall id | IsLatest(s', id)
      ensures id in s'.challenges || UsedUp(s', id)
    {
      assert IsLatest(s, id);
    }
  }

  lemma NextAccounts(s: State, step: Step)
    requires RowsAreIssued(s) && LatestAccounted(s)
    ensures LatestAccounted(Next(s, step))
  {
    hide Commit, Gate, Open, Leave, Enter, RowsAreIssued, LatestAccounted, IsNewest, CooledDown;
    if step.IssueCommit? && Enabled(s, step) {
      CommitAccounts(s, step.mobile, step.createdAt);
    } else {
      AccountsFrame(s, Next(s, step));
    }
  }

  lemma CommitKeepsSpacing(s: State, mobile: string, createdAt: int)
    requires IssuesSpaced(s) && Enabled(s, IssueCommit(mobile, createdAt))
    ensures IssuesSpaced(Commit(s, mobile, createdAt))
  {
  }

  /** The cooldown check lets an issue pass only when the mobile's latest challenge is old enough or used up. */
  lemma CooldownCovers(s: State, mobile: string, i: nat)
    requires RowsAreIssued(s) && IssuedInOrder(s) && LatestAccounted(s) && IssuesSpaced(s)
    requires CooledDown(s, mobile) && i < |s.issued| && s.issued[i].mobile == mobile
    ensures Spaced(s.issued[i], s.now) || UsedUp(s, i)
  {
  }

  lemma ReadKeepsSpacing(s: State, mobile: string, issue: Issue)
    requires RowsAreIssued(s) && IssuedInOrder(s) && LatestAccounted(s) && IssuesSpaced(s)
    requires CooledDown(s, mobile) && issue.readAt == s.now
    ensures IssuesSpaced(s.(locks := s.locks[mobile := issue]))
  {
    hide RowsAreIssued, IssuedInOrder, LatestAccounted, CooledDown, Spaced;
    forall i | 0 <= i < |s.issued| && s.issued[i].mobile == mobile
      ensures Spaced(s.issued[i], s.now) || UsedUp(s, i)
    {
      CooldownCovers(s, mobile, i);
    }
  }

  lemma SpacingMonotone(s: State, s': State)
    requires IssuesSpaced(s) && s'.issued == s.issued
    requires forall m :: m in s'.locks ==> m in s.locks && s'.locks[m] == s.locks[m]
    requires s.wins.Keys <= s'.wins.Keys && s.failed <= s'.failed
    ensures IssuesSpaced(s')
  {
  }

  lemma NextKeepsSpacing(s: State, step: Step)
    requires RowsAreIssued(s) && IssuedInOrder(s) && LatestAccounted(s) && IssuesSpaced(s)
    ensures IssuesSpaced(Next(s, step))
  {
    hide Commit, Gate, Open, Leave, Enter, CountFailure, CooledDown,
         RowsAreIssued, IssuedInOrder, LatestAccounted, IssuesSpaced;
    if step.IssueCommit? && Enabled(s, step) {
      CommitKeepsSpacing(s, step.mobile, step.createdAt);
    } else if step.IssueRead? && Enabled(s, step) {
      ReadKeepsSpacing(s, step.mobile, Issue(step.codeHash, step.expiresAt, s.now));
    } else {
      SpacingMonotone(s, Next(s, step));
    }
  }

  lemma CommitKeepsVerifiers(s: State, mobile: string, createdAt: int)
    requires RowsAreIssued(s) && VerifiersSound(s) && mobile in s.locks
    ensures VerifiersSound(Commit(s, mobile, createdAt))
  {
  }

  lemma ConsumeKeepsVerifiers(s: State, pid: nat)
    requires VerifiersSound(s) && pid in s.verifiers && s.verifiers[pid].phase.Right?
    ensures VerifiersSound(TryConsume(s, pid))
  {
  }

  lemma GateKeepsVerifiers(s: State, pid: nat)
    requires VerifiersSound(s) && pid in s.verifiers
    ensures VerifiersSound(Gate(s, pid))
  {
  }

  /** A step that moves one verifier only has to look at that one. */
  lemma VerifiersFrame(s: State, s': State, pid: nat)
    requires VerifiersSound(s) && s'.issued == s.issued && s'.wins == s.wins
    requires forall q :: q in s'.verifiers && q != pid ==> q in s.verifiers && s'.verifiers[q] == s.verifiers[q]
    requires pid in s'.verifiers ==> VerifierSound(s, s'.verifiers[pid])
    ensures VerifiersSound(s')
  {
  }

  lemma ReadIsSound(s: State, mobile: string, codeHash: string, id: nat)
    requires RowsAreIssued(s) && IsNewest(s, mobile, id)
    ensures VerifierSound(s, Verifier(mobile, codeHash, id, s.challenges[id], Reading))
  {
  }

  lemma AdmitIsSound(s: State, pid: nat)
    requires VerifiersSound(s) && InPhase(s, pid, Won)
    ensures VerifierSound(s, s.verifiers[pid].(phase := Admitted))
  {
  }

  lemma NextKeepsVerifiers(s: State, step: Step)
    requires RowsAreIssued(s) && VerifiersSound(s)
    ensures VerifiersSound(Next(s, step))
  {
    hide Commit, TryConsume, Gate, RowsAreIssued, VerifiersSound, VerifierSound, IsNewest;
    if Enabled(s, step) {
      match step
      case IssueCommit(mobile, createdAt) => CommitKeepsVerifiers(s, mobile, createdAt);
      case Consume(pid) => ConsumeKeepsVerifiers(s, pid);
      case VerifyGate(pid) => GateKeepsVerifiers(s, pid);
      case VerifyRead(pid, mobile, codeHash, id) =>
        ReadIsSound(s, mobile, codeHash, id);
        VerifiersFrame(s, Next(s, step), pid);
      case Admit(pid) =>
        AdmitIsSound(s, pid);
        VerifiersFrame(s, Next(s, step), pid);
      case RecordFailure(pid) => VerifiersFrame(s, Next(s, step), pid);
      case OpenSession(pid, _, _) => VerifiersFrame(s, Next(s, step), pid);
      case Abandon(pid) => VerifiersFrame(s, Next(s, step), pid);
      case _ => VerifiersUntouched(s, Next(s, step));
    }
  }

  lemma VerifiersUntouched(s: State, s': State)
    requires VerifiersSound(s) && s'.issued == s.issued && s'.wins == s.wins && s'.verifiers == s.verifiers
    ensures VerifiersSound(s')
  {
  }

  lemma ConsumeKeepsClaims(s: State, pid: nat)
    requires RowsAreIssued(s) && VerifiersSound(s) && OneClaim(s) && SessionsEarned(s)
    requires pid in s.verifiers && s.verifiers[pid].phase.Right?
    ensures OneClaim(TryConsume(s, pid))
  {
    var id := s.verifiers[pid].id;
    if id in s.challenges && s.challenges[id].consumedAt.None? {
      Unclaimed(s, id);
    }
    hide RowsAreIssued, VerifiersSound, SessionsEarned;
  }

  /** Nobody holds, and no session comes from, a challenge that is not consumed. */
  lemma Unclaimed(s: State, id: nat)
    requires RowsAreIssued(s) && VerifiersSound(s) && SessionsEarned(s)
    requires id in s.challenges && s.challenges[id].consumedAt.None?
    ensures forall p :: p in s.verifiers && Holds(s.verifiers[p]) ==> s.verifiers[p].id != id
    ensures forall t :: t in s.sessions ==> s.sessions[t].challenge != id
  {
    assert id !in s.wins;
    assert forall p :: p in s.verifiers ==> VerifierSound(s, s.verifiers[p]);
  }

  lemma OpenKeepsClaims(s: State, pid: nat, token: string, expiresAt: int)
    requires OneClaim(s) && InPhase(s, pid, Admitted) && token !in s.sessions
    ensures OneClaim(Open(s, pid, token, expiresAt))
  {
  }

  lemma GateKeepsClaims(s: State, pid: nat)
    requires OneClaim(s) && pid in s.verifiers
    ensures OneClaim(Gate(s, pid))
  {
    hide OneClaim;
    ClaimsFrame(s, Gate(s, pid));
  }

  /** A call that holds no won challenge, or held it already, changes no claim. */
  lemma ClaimsFrame(s: State, s': State)
    requires OneClaim(s)
    requires forall p :: p in s'.verifiers && Holds(s'.verifiers[p]) ==>
      p in s.verifiers && Holds(s.verifiers[p]) && s.verifiers[p].id == s'.verifiers[p].id
    requires s'.sessions.Keys == s.sessions.Keys
    requires forall t :: t in s.sessions ==> s'.sessions[t].challenge == s.sessions[t].challenge
    ensures OneClaim(s')
  {
  }

  lemma NextKeepsClaims(s: State, step: Step)
    requires RowsAreIssued(s) && VerifiersSound(s) && OneClaim(s) && SessionsEarned(s)
    ensures OneClaim(Next(s, step))
  {
    hide Commit, TryConsume, Gate, Open, RowsAreIssued, VerifiersSound, OneClaim, SessionsEarned;
    if Enabled(s, step) {
      if step.Consume? {
        ConsumeKeepsClaims(s, step.pid);
      } else if step.VerifyGate? {
        GateKeepsClaims(s, step.pid);
      } else if step.OpenSession? {
        OpenKeepsClaims(s, step.pid, step.token, step.expiresAt);
      } else {
        ClaimsFrame(s, Next(s, step));
      }
    }
  }

  lemma SessionsFrame(s: State, s': State)
    requires SessionsEarned(s) && s.issued <= s'.issued && s.wins.Keys <= s'.wins.Keys
    requires s'.sessions.Keys == s.sessions.Keys
    requires forall t :: t in s.sessions ==> s'.sessions[t].(revokedAt := None) == s.sessions[t].(revokedAt := None)
    ensures SessionsEarned(s')
  {
  }

  lemma OpenKeepsSessions(s: State, pid: nat, token: string, expiresAt: int)
    requires VerifiersSound(s) && SessionsEarned(s) && InPhase(s, pid, Admitted)
    ensures SessionsEarned(Open(s, pid, token, expiresAt))
  {
  }

  lemma NextKeepsSessions(s: State, step: Step)
    requires VerifiersSound(s) && SessionsEarned(s)
    ensures SessionsEarned(Next(s, step))
  {
    hide Gate, Open, VerifiersSound, SessionsEarned, IsNewest, CooledDown;
    if step.OpenSession? && Enabled(s, step) {
      OpenKeepsSessions(s, step.pid, step.token, step.expiresAt);
    } else {
      SessionsFrame(s, Next(s, step));
    }
  }

  lemma NextKeepsInv(s: State, step: Step)
    requires Inv(s)
    ensures Inv(Next(s, step))
  {
    hide Next, RowsAreIssued, IssuedInOrder, OnlyLatestUnconsumed, LatestAccounted, IssuesSpaced,
         VerifiersSound, OneClaim, SessionsEarned;
    NextKeepsRows(s, step);
    NextKeepsOrder(s, step);
    NextKeepsLatest(s, step);
    NextAccounts(s, step);
    NextKeepsSpacing(s, step);
    NextKeepsVerifiers(s, step);
    NextKeepsClaims(s, step);
    NextKeepsSessions(s, step);
  }

  lemma {:induction false} RunKeepsInv(s: State, steps: seq<Step>)
    requires Inv(s)
    ensures Inv(Run(s, steps))
    decreases |steps|
  {
    hide Inv, Next;
    if steps != [] {
      NextKeepsInv(s, steps[0]);
      RunKeepsInv(Next(s, steps[0]), steps[1..]);
    }
  }
}
