/**
 The procedures of lib/auth-service.ts and lib/session-store.ts as they run when nothing interleaves:
 the source's statements in the source's order, on the tables they update. Their effect is stated on
 the tables, and that effect is proved to be what the protocol's steps do one after the other.
 */
module AuthService {
  import opened Common
  import opened OtpRules
  import opened LoginProtocol
  import LoginSafety

  datatype Tables = Tables(
    now: int,
    challenges: map<nat, Challenge>,
    blocked: set<string>,
    sessions: map<string, Session>,
    nextId: nat)

  function TablesOf(s: State): Tables {
    Tables(s.now, s.challenges, s.blocked, s.sessions, |s.issued|)
  }

  datatype RequestResult = Sent | UserBlocked | Wait(seconds: int) | DeliveryError

  datatype VerifyResult = LoggedIn | Malformed | NoChallenge | Refused(why: OtpFailure) | InvalidCode | AccountBlocked

  predicate IsSixDigits(code: string) {
    |code| == 6 && forall i :: 0 <= i < 6 ==> '0' <= code[i] <= '9'
  }

  lemma SixDigitsIff(code: string)
    ensures IsSixDigits(code) <==> |code| == 6 && forall c :: c in code ==> c in "0123456789"
  {
    forall c: char
      ensures '0' <= c <= '9' <==> c in "0123456789"
    {
      if '0' <= c <= '9' { assert "0123456789"[c as int - '0' as int] == c; }
    }
    if |code| == 6 {
      assert forall i :: 0 <= i < 6 ==> code[i] in code;
    }
  }

  /** The rows a `findFirst` ranges over. */
  function RowsOf(challenges: map<nat, Challenge>, mobile: string, onlyUnconsumed: bool): (ids: set<nat>)
    ensures ids <= challenges.Keys
  {
    set id | id in challenges && challenges[id].mobile == mobile
             && (onlyUnconsumed ==> challenges[id].consumedAt.None?)
  }

  /** Newest first: one of the rows created last. */
  predicate IsNewestOf(challenges: map<nat, Challenge>, ids: set<nat>, id: nat)
    requires ids <= challenges.Keys
  {
    id in ids && forall other :: other in ids ==> challenges[other].createdAt <= challenges[id].createdAt
  }

  lemma {:induction false} NewestExists(challenges: map<nat, Challenge>, ids: set<nat>)
    requires ids <= challenges.Keys && ids != {}
    ensures exists id :: id in ids && IsNewestOf(challenges, ids, id)
  {
    var some :| some in ids;
    var rest := ids - {some};
    if rest == {} {
      assert ids == {some};
      assert IsNewestOf(challenges, ids, some);
    } else {
      NewestExists(challenges, rest);
      var id :| id in rest && IsNewestOf(challenges, rest, id);
      assert IsNewestOf(challenges, ids, if challenges[some].createdAt > challenges[id].createdAt then some else id);
    }
  }

  /** The new challenge, and no other unconsumed one of its mobile. */
  function AfterReserve(t: Tables, mobile: string, codeHash: string, expiresAt: int): Tables {
    t.(challenges := (t.challenges - RowsOf(t.challenges, mobile, true))
                     [t.nextId := Challenge(mobile, codeHash, t.now, expiresAt, 0, None)],
       nextId := t.nextId + 1)
  }

  /** A verify call on the row it reads. */
  function AfterVerify(t: Tables, id: nat, mobile: string, codeHash: string, token: string, expiresAt: int)
    : (Tables, VerifyResult)
    requires id in t.challenges
  {
    var row := t.challenges[id];
    match CanAttemptOtp(row, t.now)
    case Some(why) => (t, Refused(why))
    case None =>
      if codeHash != row.codeHash then
        (t.(challenges := t.challenges[id := row.(attempts := row.attempts + 1)]),
         if row.attempts + 1 >= OTP_MAX_ATTEMPTS then Refused(MaxAttempts) else InvalidCode)
      else
        var consumed := t.(challenges := t.challenges[id := row.(consumedAt := Some(t.now))]);
        if mobile in t.blocked then (consumed, AccountBlocked)
        else (consumed.(sessions := t.sessions[token := Session(mobile, expiresAt, None, id)]), LoggedIn)
  }

  /** Alone, an issue transaction of the protocol does to the tables what the procedure does. */
  lemma ReserveIsProtocol(s: State, mobile: string, codeHash: string, expiresAt: int)
    requires mobile !in s.locks && CooledDown(s, mobile)
    ensures
      var reserved := Next(Next(s, IssueRead(mobile, codeHash, expiresAt)), IssueCommit(mobile, s.now));
      TablesOf(reserved) == AfterReserve(TablesOf(s), mobile, codeHash, expiresAt)
  {
  }

  /** So does the settling of its delivery: only a failed one that is cleaned up takes the new challenge back. */
  lemma DeliveryIsProtocol(s: State, mobile: string, codeHash: string, expiresAt: int)
    requires mobile !in s.locks && CooledDown(s, mobile)
    ensures
      var sent := Next(Next(s, IssueRead(mobile, codeHash, expiresAt)), IssueCommit(mobile, s.now));
      var t := AfterReserve(TablesOf(s), mobile, codeHash, expiresAt);
      && TablesOf(Next(sent, Delivered(|s.issued|))) == t
      && TablesOf(Next(sent, DeliveryFailed(|s.issued|, false))) == t
      && TablesOf(Next(sent, DeliveryFailed(|s.issued|, true))) == t.(challenges := t.challenges - {|s.issued|})
  {
    ReserveIsProtocol(s, mobile, codeHash, expiresAt);
    hide AfterReserve;
    assert |s.issued| in Next(Next(s, IssueRead(mobile, codeHash, expiresAt)), IssueCommit(mobile, s.now)).deliveries;
  }

  /** A failed delivery that is cleaned up leaves the mobile nothing to log in with. */
  lemma FailedDeliveryLeavesNothing(t: Tables, mobile: string, codeHash: string, expiresAt: int)
    requires ValidTables(t)
    ensures
      var left := AfterReserve(t, mobile, codeHash, expiresAt).challenges - {t.nextId};
      forall id :: id in left && left[id].mobile == mobile ==> left[id].consumedAt.Some?
  {
  }

  /** Everything a verify call does after it compared the code; what does not apply finds the call gone. */
  function Finish(s: State, pid: nat, token: string, expiresAt: int): State {
    var settled := Next(Next(s, RecordFailure(pid)), Consume(pid));
    Next(Next(settled, Admit(pid)), OpenSession(pid, token, expiresAt))
  }

  function Verifying(s: State, pid: nat, mobile: string, codeHash: string, id: nat, phase: Phase): State
    requires id in s.challenges
  {
    s.(verifiers := s.verifiers[pid := Verifier(mobile, codeHash, id, s.challenges[id], phase)])
  }

  lemma ReadThenCompare(s: State, pid: nat, mobile: string, codeHash: string, id: nat)
    requires pid !in s.verifiers && IsNewest(s, mobile, id)
    ensures Next(Next(s, VerifyRead(pid, mobile, codeHash, id)), VerifyGate(pid))
         == if CanAttemptOtp(s.challenges[id], s.now).Some? then s
            else Verifying(s, pid, mobile, codeHash, id,
                           if codeHash == s.challenges[id].codeHash then Right(s.now) else Wrong)
  {
  }

  lemma FinishGone(s: State, pid: nat, token: string, expiresAt: int)
    requires pid !in s.verifiers
    ensures Finish(s, pid, token, expiresAt) == s
  {
  }

  lemma FinishWrong(s: State, pid: nat, mobile: string, codeHash: string, id: nat, token: string, expiresAt: int)
    requires id in s.challenges
    ensures TablesOf(Finish(Verifying(s, pid, mobile, codeHash, id, Wrong), pid, token, expiresAt))
         == var row := s.challenges[id];
            TablesOf(s).(challenges := s.challenges[id := row.(attempts := row.attempts + 1)])
  {
    var counted := Next(Verifying(s, pid, mobile, codeHash, id, Wrong), RecordFailure(pid));
    FinishGone(counted, pid, token, expiresAt);
    assert Next(counted, RecordFailure(pid)) == counted;
  }

  lemma FinishRight(s: State, pid: nat, mobile: string, codeHash: string, id: nat, token: string, expiresAt: int,
                    gateAt: int)
    requires id in s.challenges && s.challenges[id].consumedAt.None? && token !in s.sessions
    ensures
      var consumed := TablesOf(s).(challenges := s.challenges[id := s.challenges[id].(consumedAt := Some(s.now))]);
      TablesOf(Finish(Verifying(s, pid, mobile, codeHash, id, Right(gateAt)), pid, token, expiresAt))
        == if mobile in s.blocked then consumed
           else consumed.(sessions := s.sessions[token := Session(mobile, expiresAt, None, id)])
  {
    var right := Verifying(s, pid, mobile, codeHash, id, Right(gateAt));
    var settled := Next(Next(right, RecordFailure(pid)), Consume(pid));
    RightConsumes(right, pid);
    hide Verifying;
    WonOpens(settled, pid, token, expiresAt);
  }

  lemma RightConsumes(s: State, pid: nat)
    requires pid in s.verifiers && s.verifiers[pid].phase.Right?
    requires s.verifiers[pid].id in s.challenges && s.challenges[s.verifiers[pid].id].consumedAt.None?
    ensures
      var v := s.verifiers[pid];
      var settled := Next(Next(s, RecordFailure(pid)), Consume(pid));
      && TablesOf(settled)
           == TablesOf(s).(challenges := s.challenges[v.id := s.challenges[v.id].(consumedAt := Some(s.now))])
      && InPhase(settled, pid, Won)
      && settled.verifiers[pid] == v.(phase := Won)
  {
    assert Next(s, RecordFailure(pid)) == s;
  }

  lemma WonOpens(s: State, pid: nat, token: string, expiresAt: int)
    requires InPhase(s, pid, Won) && token !in s.sessions
    ensures
      var v := s.verifiers[pid];
      TablesOf(Next(Next(s, Admit(pid)), OpenSession(pid, token, expiresAt)))
        == if v.mobile in s.blocked then TablesOf(s)
           else TablesOf(s).(sessions := s.sessions[token := Session(v.mobile, expiresAt, None, v.id)])
  {
    var admitted := Next(s, Admit(pid));
    if s.verifiers[pid].mobile in s.blocked {
      assert Next(admitted, OpenSession(pid, token, expiresAt)) == admitted;
    } else {
      assert InPhase(admitted, pid, Admitted);
    }
  }

  /**
   Alone, the steps of one verify call, from its read to its session, do to the tables what the
   procedure does.
   */
  lemma VerifyIsProtocol(s: State, pid: nat, mobile: string, codeHash: string, id: nat, token: string, expiresAt: int)
    requires pid !in s.verifiers && IsNewest(s, mobile, id) && token !in s.sessions
    ensures
      var compared := Next(Next(s, VerifyRead(pid, mobile, codeHash, id)), VerifyGate(pid));
      TablesOf(Finish(compared, pid, token, expiresAt))
        == AfterVerify(TablesOf(s), id, mobile, codeHash, token, expiresAt).0
  {
    hide Next, Finish, Verifying;
    ReadThenCompare(s, pid, mobile, codeHash, id);
    if CanAttemptOtp(s.challenges[id], s.now).Some? {
      FinishGone(s, pid, token, expiresAt);
    } else if codeHash != s.challenges[id].codeHash {
      FinishWrong(s, pid, mobile, codeHash, id, token, expiresAt);
    } else {
      FinishRight(s, pid, mobile, codeHash, id, token, expiresAt, s.now);
    }
  }

  /** What the answer of a verify call run alone says about the protocol's state after it. */
  lemma AnswerIsProtocol(s: State, pid: nat, mobile: string, codeHash: string, id: nat, token: string, expiresAt: int)
    requires pid !in s.verifiers && IsNewest(s, mobile, id) && token !in s.sessions
    ensures
      var compared := Next(Next(s, VerifyRead(pid, mobile, codeHash, id)), VerifyGate(pid));
      var s' := Finish(compared, pid, token, expiresAt);
      var answer := AfterVerify(TablesOf(s), id, mobile, codeHash, token, expiresAt).1;
      && id in s'.challenges
      && (answer.LoggedIn? <==> token in s'.sessions)
      && (answer.LoggedIn? || answer.AccountBlocked? <==>
            s.challenges[id].consumedAt.None? && s'.challenges[id].consumedAt.Some?)
      && (answer == InvalidCode <==>
            s'.challenges[id].attempts == s.challenges[id].attempts + 1 < OTP_MAX_ATTEMPTS)
      && (answer.Refused? <==>
            && s'.challenges[id].consumedAt == s.challenges[id].consumedAt
            && (s'.challenges[id].attempts == s.challenges[id].attempts || s'.challenges[id].attempts >= OTP_MAX_ATTEMPTS))
  {
    VerifyIsProtocol(s, pid, mobile, codeHash, id, token, expiresAt);
    hide Finish, Next, IsNewest;
    var compared := Next(Next(s, VerifyRead(pid, mobile, codeHash, id)), VerifyGate(pid));
    var s' := Finish(compared, pid, token, expiresAt);
    assert TablesOf(s').challenges == s'.challenges && TablesOf(s').sessions == s'.sessions;
  }

  // ---- What a caller gets ----

  /** Ids are used once, rows are not from the future, and every session has its consumed challenge. */
  ghost predicate ValidTables(t: Tables) {
    && (forall id :: id in t.challenges ==> id < t.nextId && t.challenges[id].createdAt <= t.now)
    && (forall token :: token in t.sessions ==>
          t.sessions[token].challenge in t.challenges && t.challenges[t.sessions[token].challenge].consumedAt.Some?)
  }

  /** Reserving touches no other mobile's row and no consumed row. */
  lemma ReserveKeeps(t: Tables, mobile: string, codeHash: string, expiresAt: int)
    requires ValidTables(t)
    ensures
      var t' := AfterReserve(t, mobile, codeHash, expiresAt);
      && ValidTables(t')
      && (forall id :: id in t.challenges && (t.challenges[id].mobile != mobile || t.challenges[id].consumedAt.Some?)
            ==> id in t'.challenges && t'.challenges[id] == t.challenges[id])
      && (forall id :: id in t'.challenges && t'.challenges[id].mobile == mobile && t'.challenges[id].consumedAt.None?
            ==> id == t.nextId)
  {
  }

  lemma VerifyKeeps(t: Tables, id: nat, mobile: string, codeHash: string, token: string, expiresAt: int)
    requires ValidTables(t) && id in t.challenges
    ensures ValidTables(AfterVerify(t, id, mobile, codeHash, token, expiresAt).0)
  {
  }

  predicate SessionFound(t: Tables, token: string) {
    && token in t.sessions && IsSessionRecordValid(Some(t.sessions[token]), t.now)
    && t.sessions[token].mobile !in t.blocked
  }

  /** The session a login opens is found from then on, exactly until it runs out, while nothing else happens to it. */
  lemma LoginOpensSession(t: Tables, id: nat, mobile: string, codeHash: string, token: string, expiresAt: int,
                          later: int)
    requires id in t.challenges
    requires AfterVerify(t, id, mobile, codeHash, token, expiresAt).1 == LoggedIn
    ensures SessionFound(AfterVerify(t, id, mobile, codeHash, token, expiresAt).0.(now := later), token)
       <==> later < expiresAt
  {
  }

  /** One verify call: when it runs, the hash of its code, and the session it would open. */
  datatype Try = Try(at: int, codeHash: string, token: string, expiresAt: int)

  function Tried(t: Tables, id: nat, mobile: string, try: Try): (Tables, VerifyResult)
    requires id in t.challenges
  {
    AfterVerify(t.(now := try.at), id, mobile, try.codeHash, try.token, try.expiresAt)
  }

  /** Answers that verify calls for a mobile may give, one after the other, whichever newest row each of them reads. */
  ghost predicate Answered(t: Tables, mobile: string, tries: seq<Try>, answers: seq<VerifyResult>)
    decreases |tries|
  {
    && |answers| == |tries|
    && (tries != [] ==>
          exists id :: id in t.challenges && IsNewestOf(t.challenges, RowsOf(t.challenges, mobile, false), id)
            && Tried(t, id, mobile, tries[0]).1 == answers[0]
            && Answered(Tried(t, id, mobile, tries[0]).0, mobile, tries[1..], answers[1..]))
  }

  /** Every other row of the mobile was created strictly earlier. */
  ghost predicate OnlyNewest(t: Tables, mobile: string, id: nat) {
    && id in t.challenges && t.challenges[id].mobile == mobile
    && forall other :: other in t.challenges && other != id && t.challenges[other].mobile == mobile
         ==> t.challenges[other].createdAt < t.challenges[id].createdAt
  }

  ghost predicate InTime(tries: seq<Try>, from: int) {
    && (forall i :: 0 <= i < |tries| ==> from <= tries[i].at)
    && (forall i, j :: 0 <= i < j < |tries| ==> tries[i].at <= tries[j].at)
  }

  /** The first try with the right code, made before the code expires, with attempts left. */
  ghost predicate IsWinner(row: Challenge, tries: seq<Try>, i: int) {
    && 0 <= i < |tries|
    && tries[i].codeHash == row.codeHash && tries[i].at < row.expiresAt
    && row.attempts + i < OTP_MAX_ATTEMPTS
    && forall j :: 0 <= j < i ==> tries[j].codeHash != row.codeHash
  }

  lemma TriedStays(t: Tables, id: nat, mobile: string, try: Try)
    requires OnlyNewest(t, mobile, id)
    ensures OnlyNewest(Tried(t, id, mobile, try).0, mobile, id)
    ensures Tried(t, id, mobile, try).0.blocked == t.blocked
    ensures forall read :: IsNewestOf(t.challenges, RowsOf(t.challenges, mobile, false), read) ==> read == id
  {
    forall read | IsNewestOf(t.challenges, RowsOf(t.challenges, mobile, false), read)
      ensures read == id
    {
      assert id in RowsOf(t.challenges, mobile, false);
    }
  }

  /** The first of several answers is given by the only newest row; the rest follow from the tables it leaves. */
  lemma FirstAnswer(t: Tables, id: nat, mobile: string, tries: seq<Try>, answers: seq<VerifyResult>)
    requires OnlyNewest(t, mobile, id) && tries != [] && Answered(t, mobile, tries, answers)
    ensures |answers| == |tries| && answers[0] == Tried(t, id, mobile, tries[0]).1
    ensures OnlyNewest(Tried(t, id, mobile, tries[0]).0, mobile, id)
    ensures Answered(Tried(t, id, mobile, tries[0]).0, mobile, tries[1..], answers[1..])
  {
    TriedStays(t, id, mobile, tries[0]);
    hide AfterVerify, OnlyNewest;
  }

  lemma {:induction false} ConsumedRefuses(t: Tables, id: nat, mobile: string, tries: seq<Try>,
                                           answers: seq<VerifyResult>)
    requires OnlyNewest(t, mobile, id) && t.challenges[id].consumedAt.Some? && Answered(t, mobile, tries, answers)
    ensures forall i :: 0 <= i < |tries| ==> answers[i] == Refused(Consumed)
    decreases |tries|
  {
    if tries != [] {
      FirstAnswer(t, id, mobile, tries, answers);
      assert Tried(t, id, mobile, tries[0]) == (t.(now := tries[0].at), Refused(Consumed));
      hide *;
      var t' := Tried(t, id, mobile, tries[0]).0;
      ConsumedRefuses(t', id, mobile, tries[1..], answers[1..]);
      Shifted(answers);
    }
  }

  /** There always are such answers. */
  lemma {:induction false} TriesAreAnswered(t: Tables, id: nat, mobile: string,
                                            tries: seq<Try>) returns (answers: seq<VerifyResult>)
    requires OnlyNewest(t, mobile, id)
    ensures Answered(t, mobile, tries, answers)
    decreases |tries|
  {
    if tries == [] {
      answers := [];
    } else {
      var (t', answer) := Tried(t, id, mobile, tries[0]);
      TriedStays(t, id, mobile, tries[0]);
      var rest := TriesAreAnswered(t', id, mobile, tries[1..]);
      answers := [answer] + rest;
      assert answers[1..] == rest;
      assert IsNewestOf(t.challenges, RowsOf(t.challenges, mobile, false), id);
    }
  }

  lemma Shifted(answers: seq<VerifyResult>)
    requires answers != []
    ensures forall i :: 0 < i < |answers| ==> answers[i] == answers[1..][i - 1]
  {
  }

  /** A row that refuses a try refuses every later one. */
  lemma {:induction false} RefusalStays(t: Tables, id: nat, mobile: string, tries: seq<Try>,
                                        answers: seq<VerifyResult>, from: int)
    requires OnlyNewest(t, mobile, id) && InTime(tries, from) && Answered(t, mobile, tries, answers)
    requires t.challenges[id].consumedAt.None?
    requires t.challenges[id].expiresAt <= from || t.challenges[id].attempts >= OTP_MAX_ATTEMPTS
    ensures forall i :: 0 <= i < |tries| ==> answers[i].Refused?
    decreases |tries|
  {
    if tries != [] {
      FirstAnswer(t, id, mobile, tries, answers);
      var t' := Tried(t, id, mobile, tries[0]).0;
      assert t' == t.(now := tries[0].at) && answers[0].Refused?;
      assert InTime(tries[1..], from);
      hide Answered, OnlyNewest, InTime, Tried;
      RefusalStays(t', id, mobile, tries[1..], answers[1..], from);
      Shifted(answers);
    }
  }

  lemma WinnerShifts(row: Challenge, tries: seq<Try>)
    requires tries != [] && tries[0].codeHash != row.codeHash
    ensures !IsWinner(row, tries, 0)
    ensures forall i :: 0 < i < |tries| ==>
      (IsWinner(row, tries, i) <==> IsWinner(row.(attempts := row.attempts + 1), tries[1..], i - 1))
  {
    forall i | 0 < i < |tries|
      ensures IsWinner(row, tries, i) <==> IsWinner(row.(attempts := row.attempts + 1), tries[1..], i - 1)
    {
      assert tries[i] == tries[1..][i - 1];
      assert (forall j :: 0 <= j < i ==> tries[j].codeHash != row.codeHash)
        <==> (forall j :: 0 <= j < i - 1 ==> tries[1..][j].codeHash != row.codeHash) by {
        assert forall j :: 0 < j < i ==> tries[j] == tries[1..][j - 1];
      }
    }
  }

  lemma NoWinnerAfterRefusal(row: Challenge, tries: seq<Try>, from: int)
    requires InTime(tries, from) && (row.expiresAt <= from || row.attempts >= OTP_MAX_ATTEMPTS)
    ensures forall i :: 0 <= i < |tries| ==> !IsWinner(row, tries, i)
  {
  }

  lemma TriesAfter(tries: seq<Try>, from: int)
    requires InTime(tries, from) && tries != []
    ensures InTime(tries, tries[0].at) && InTime(tries[1..], tries[0].at) && from <= tries[0].at
  {
  }

  /** The gate is past and the code is compared. */
  predicate Passes(row: Challenge, try: Try) {
    CanAttemptOtp(row, try.at).None?
  }

  lemma PassesIff(row: Challenge, try: Try)
    requires row.consumedAt.None?
    ensures Passes(row, try) <==> row.attempts < OTP_MAX_ATTEMPTS && try.at < row.expiresAt
  {
  }

  /** What a try does to the row it reads, and what it is told. */
  lemma TriedDoes(t: Tables, id: nat, mobile: string, try: Try)
    requires OnlyNewest(t, mobile, id) && t.challenges[id].consumedAt.None?
    ensures
      var row, (t', answer) := t.challenges[id], Tried(t, id, mobile, try);
      && id in t'.challenges
      && (!Passes(row, try) ==> answer.Refused? && t' == t.(now := try.at))
      && (Passes(row, try) && try.codeHash != row.codeHash ==>
            t'.challenges[id] == row.(attempts := row.attempts + 1) && !answer.LoggedIn?)
      && (Passes(row, try) && try.codeHash == row.codeHash ==>
            t'.challenges[id].consumedAt.Some? && (answer == LoggedIn <==> mobile !in t.blocked))
  {
  }

  /**
   Of any number of tries on an unconsumed challenge of an unblocked user, exactly the first with the right
   code logs in, if it is made before the code expires and with attempts left; after it every try is told
   that the code is consumed.
   */
  lemma {:induction false} WinnerLogsIn(t: Tables, id: nat, mobile: string, tries: seq<Try>,
                                        answers: seq<VerifyResult>, from: int)
    requires OnlyNewest(t, mobile, id) && InTime(tries, from) && Answered(t, mobile, tries, answers)
    requires t.challenges[id].consumedAt.None? && mobile !in t.blocked
    ensures |answers| == |tries|
    ensures forall i :: 0 <= i < |tries| ==> (answers[i] == LoggedIn <==> IsWinner(t.challenges[id], tries, i))
    ensures forall i, j :: 0 <= j < i < |tries| && answers[j] == LoggedIn ==> answers[i] == Refused(Consumed)
    decreases |tries|
  {
    if tries != [] {
      var row, try := t.challenges[id], tries[0];
      FirstAnswer(t, id, mobile, tries, answers);
      TriedDoes(t, id, mobile, try);
      TriedStays(t, id, mobile, try);
      TriesAfter(tries, from);
      var t' := Tried(t, id, mobile, try).0;
      PassesIff(row, try);
      hide Answered, OnlyNewest, InTime, Tried, IsWinner, Passes, CanAttemptOtp;
      if !Passes(row, try) {
        RefusalStays(t, id, mobile, tries, answers, try.at);
        NoWinnerAfterRefusal(row, tries, try.at);
      } else if try.codeHash != row.codeHash {
        WinnerLogsIn(t', id, mobile, tries[1..], answers[1..], try.at);
        WinnerShifts(row, tries);
        Shifted(answers);
      } else {
        ConsumedRefuses(t', id, mobile, tries[1..], answers[1..]);
        FirstTryWins(row, tries);
        Shifted(answers);
      }
    }
  }

  lemma FirstTryWins(row: Challenge, tries: seq<Try>)
    requires tries != [] && tries[0].codeHash == row.codeHash && tries[0].at < row.expiresAt
    requires row.attempts < OTP_MAX_ATTEMPTS
    ensures forall i :: 0 <= i < |tries| ==> (IsWinner(row, tries, i) <==> i == 0)
  {
  }

  /** Once as many tries as were left have been made, right or wrong, every further one is refused. */
  lemma {:induction false} TriesRunOut(t: Tables, id: nat, mobile: string, tries: seq<Try>,
                                       answers: seq<VerifyResult>, from: int)
    requires OnlyNewest(t, mobile, id) && InTime(tries, from) && Answered(t, mobile, tries, answers)
    requires t.challenges[id].consumedAt.None?
    ensures |answers| == |tries|
    ensures forall i :: 0 <= i < |tries| && t.challenges[id].attempts + i >= OTP_MAX_ATTEMPTS ==> answers[i].Refused?
    decreases |tries|
  {
    if tries != [] {
      var row, try := t.challenges[id], tries[0];
      FirstAnswer(t, id, mobile, tries, answers);
      TriedDoes(t, id, mobile, try);
      TriesAfter(tries, from);
      var t' := Tried(t, id, mobile, try).0;
      PassesIff(row, try);
      hide Answered, OnlyNewest, InTime, Tried, Passes, CanAttemptOtp;
      if !Passes(row, try) {
        RefusalStays(t, id, mobile, tries, answers, try.at);
      } else {
        if try.codeHash != row.codeHash {
          TriesRunOut(t', id, mobile, tries[1..], answers[1..], try.at);
        } else {
          ConsumedRefuses(t', id, mobile, tries[1..], answers[1..]);
        }
        Shifted(answers);
      }
    }
  }

  /** What try i is told while none before it was right, in the source's own numbers. */
  ghost predicate ToldInTurn(row: Challenge, tries: seq<Try>, answers: seq<VerifyResult>, i: int)
    requires 0 <= i < |tries| == |answers|
  {
    var inTime, wrong := tries[i].at < row.expiresAt, tries[i].codeHash != row.codeHash;
    && (answers[i] == Refused(Expired) <==> !inTime)
    && (answers[i] == Refused(MaxAttempts) <==> inTime && (row.attempts + i >= 5 || (row.attempts + i == 4 && wrong)))
    && (answers[i] == InvalidCode <==> inTime && wrong && row.attempts + i < 4)
  }

  /** No earlier try had the right code while the code was good for it. */
  ghost predicate NoneRight(row: Challenge, tries: seq<Try>, i: int)
    requires 0 <= i <= |tries|
  {
    forall j :: 0 <= j < i && tries[j].at < row.expiresAt && row.attempts + j < 5 ==> tries[j].codeHash != row.codeHash
  }

  /** The answer a row gives depends on no more of it than whether time and attempts are left. */
  lemma OneAnswer(t: Tables, id: nat, mobile: string, try: Try)
    requires OnlyNewest(t, mobile, id) && t.challenges[id].consumedAt.None?
    ensures
      var row, (t', answer) := t.challenges[id], Tried(t, id, mobile, try);
      var inTime, wrong := try.at < row.expiresAt, try.codeHash != row.codeHash;
      && (answer == Refused(Expired) <==> !inTime)
      && (answer == Refused(MaxAttempts) <==> inTime && (row.attempts >= 5 || (row.attempts == 4 && wrong)))
      && (answer == InvalidCode <==> inTime && wrong && row.attempts < 4)
      && (!inTime || row.attempts >= 5 ==> t' == t.(now := try.at))
      && (inTime && row.attempts < 5 && wrong ==> t'.challenges[id] == row.(attempts := row.attempts + 1))
  {
  }

  lemma ToldShifts(row: Challenge, row': Challenge, tries: seq<Try>, answers: seq<VerifyResult>, i: int)
    requires 0 < i < |tries| == |answers| && NoneRight(row, tries, i) && InTime(tries, tries[0].at)
    requires tries[0].at < row.expiresAt && row.attempts < 5 ==> row' == row.(attempts := row.attempts + 1)
    requires tries[0].at >= row.expiresAt || row.attempts >= 5 ==> row' == row
    requires NoneRight(row', tries[1..], i - 1) ==> ToldInTurn(row', tries[1..], answers[1..], i - 1)
    ensures ToldInTurn(row, tries, answers, i)
  {
    assert tries[1..][i - 1] == tries[i] && answers[1..][i - 1] == answers[i];
    assert tries[0].at <= tries[i].at;
    assert NoneRight(row', tries[1..], i - 1) by {
      forall j | 0 <= j < i - 1 && tries[1..][j].at < row'.expiresAt && row'.attempts + j < 5
        ensures tries[1..][j].codeHash != row'.codeHash
      {
        assert tries[1..][j] == tries[j + 1] && tries[0].at <= tries[j + 1].at;
      }
    }
  }

  /**
   Every answer on an unconsumed challenge while no try was right: expired exactly from the expiry on; too
   many attempts exactly in time and after the fifth, or at the fifth if it is wrong; a wrong code exactly
   in time and before that.
   */
  lemma {:induction false} AnswersInTurn(t: Tables, id: nat, mobile: string, tries: seq<Try>,
                                         answers: seq<VerifyResult>, from: int)
    requires OnlyNewest(t, mobile, id) && InTime(tries, from) && Answered(t, mobile, tries, answers)
    requires t.challenges[id].consumedAt.None?
    ensures |answers| == |tries|
    ensures forall i :: 0 <= i < |tries| && NoneRight(t.challenges[id], tries, i)
              ==> ToldInTurn(t.challenges[id], tries, answers, i)
    decreases |tries|
  {
    if tries != [] {
      var row, try := t.challenges[id], tries[0];
      FirstAnswer(t, id, mobile, tries, answers);
      OneAnswer(t, id, mobile, try);
      TriesAfter(tries, from);
      var t' := Tried(t, id, mobile, try).0;
      hide Answered, OnlyNewest, InTime, Tried;
      if try.at < row.expiresAt && row.attempts < 5 && try.codeHash == row.codeHash {
        assert forall i :: 0 < i < |tries| ==> !NoneRight(row, tries, i);
      } else {
        AnswersInTurn(t', id, mobile, tries[1..], answers[1..], try.at);
        hide NoneRight, ToldInTurn;
        forall i | 0 < i < |tries| && NoneRight(row, tries, i)
          ensures ToldInTurn(row, tries, answers, i)
        {
          ToldShifts(row, t'.challenges[id], tries, answers, i);
        }
      }
    }
  }

  /** No row of the mobile was created in this millisecond. */
  predicate NoTwin(t: Tables, mobile: string) {
    forall id :: id in t.challenges && t.challenges[id].mobile == mobile ==> t.challenges[id].createdAt != t.now
  }

  ghost predicate NoLoginBefore(answers: seq<VerifyResult>, i: int)
    requires i <= |answers|
  {
    forall j :: 0 <= j < i ==> answers[j] != LoggedIn
  }

  lemma {:induction false} NoneRightIfNoWinner(row: Challenge, tries: seq<Try>, i: nat, from: int)
    requires InTime(tries, from) && i <= |tries| && forall j :: 0 <= j < i ==> !IsWinner(row, tries, j)
    ensures NoneRight(row, tries, i)
  {
    if i > 0 {
      NoneRightIfNoWinner(row, tries, i - 1, from);
      assert !IsWinner(row, tries, i - 1);
      assert forall j :: 0 <= j < i - 1 ==> tries[j].at <= tries[i - 1].at;
    }
  }

  lemma SentIsOnlyNewest(t: Tables, mobile: string, codeHash: string, expiresAt: int)
    requires ValidTables(t) && NoTwin(t, mobile)
    ensures OnlyNewest(AfterReserve(t, mobile, codeHash, expiresAt), mobile, t.nextId)
  {
  }

  /**
   What a sent code is good for. However the user tries, one try at a time and with no newer code sent, the
   first try with the code logs in exactly if it is among the first five and made before the code expires;
   no other try ever does. Until then a try is told expired, too many attempts or wrong code exactly as its
   time and its place in the row say; after a login every try is told the code is consumed, and from the
   sixth on every try is refused.
   */
  lemma {:induction false} SentCodeWorksIff(t: Tables, mobile: string, codeHash: string, expiresAt: int,
                                            tries: seq<Try>, answers: seq<VerifyResult>)
    requires ValidTables(t) && NoTwin(t, mobile) && mobile !in t.blocked && InTime(tries, t.now)
    requires Answered(AfterReserve(t, mobile, codeHash, expiresAt), mobile, tries, answers)
    ensures |answers| == |tries|
    ensures forall i :: 0 <= i < |tries| ==>
      (answers[i] == LoggedIn <==>
         && i < 5 && tries[i].codeHash == codeHash && tries[i].at < expiresAt
         && forall j :: 0 <= j < i ==> tries[j].codeHash != codeHash)
    ensures forall i :: 0 <= i < |tries| && NoLoginBefore(answers, i) ==>
      && (answers[i] == Refused(Expired) <==> expiresAt <= tries[i].at)
      && (answers[i] == Refused(MaxAttempts) <==>
            tries[i].at < expiresAt && (i >= 5 || (i == 4 && tries[i].codeHash != codeHash)))
      && (answers[i] == InvalidCode <==> tries[i].at < expiresAt && tries[i].codeHash != codeHash && i < 4)
    ensures forall i, j :: 0 <= j < i < |tries| && answers[j] == LoggedIn ==> answers[i] == Refused(Consumed)
    ensures forall i :: 5 <= i < |tries| ==> answers[i].Refused?
  {
    var sent := AfterReserve(t, mobile, codeHash, expiresAt);
    SentIsOnlyNewest(t, mobile, codeHash, expiresAt);
    assert sent.challenges[t.nextId] == Challenge(mobile, codeHash, t.now, expiresAt, 0, None);
    assert sent.blocked == t.blocked;
    hide AfterReserve, Answered, OnlyNewest, InTime;
    WinnerLogsIn(sent, t.nextId, mobile, tries, answers, t.now);
    TriesRunOut(sent, t.nextId, mobile, tries, answers, t.now);
    AnswersInTurn(sent, t.nextId, mobile, tries, answers, t.now);
    forall i | 0 <= i < |tries| && NoLoginBefore(answers, i)
      ensures ToldInTurn(sent.challenges[t.nextId], tries, answers, i)
    {
      NoneRightIfNoWinner(sent.challenges[t.nextId], tries, i, t.now);
    }
  }

  function SessionExpiry(now: int, ttlDays: int): int {
    now + ttlDays * 24 * 60 * 60 * 1000
  }

  class LoginTables {
    var now: int
    var challenges: map<nat, Challenge>
    var blocked: set<string>
    var sessions: map<string, Session>
    var nextId: nat

    ghost function Contents(): Tables
      reads this
    {
      Tables(now, challenges, blocked, sessions, nextId)
    }

    ghost predicate Valid()
      reads this
    {
      ValidTables(Contents())
    }

    constructor (now: int)
      ensures Valid() && Contents() == Tables(now, map[], {}, map[], 0)
    {
      this.now, challenges, blocked, sessions, nextId := now, map[], {}, map[], 0;
    }

    method FindNewest(mobile: string, onlyUnconsumed: bool) returns (found: Option<nat>)
      ensures found.None? ==> RowsOf(challenges, mobile, onlyUnconsumed) == {}
      ensures found.Some? ==> IsNewestOf(challenges, RowsOf(challenges, mobile, onlyUnconsumed), found.value)
    {
      var ids := RowsOf(challenges, mobile, onlyUnconsumed);
      if ids == {} {
        return None;
      }
      NewestExists(challenges, ids);
      var id :| id in ids && IsNewestOf(challenges, ids, id);
      return Some(id);
    }

    /**
     `requestLoginOtp`. Whether the message is delivered is an input, and so is whether the
     compensating delete goes through when it is not.
     */
    method RequestLoginOtp(mobile: string, codeHash: string, ttlSeconds: int, delivered: bool, cleanedUp: bool)
      returns (result: RequestResult)
      requires Valid()
      modifies this
      ensures Valid()
      ensures forall id :: id in old(challenges)
                && (old(challenges)[id].mobile != mobile || old(challenges)[id].consumedAt.Some?)
                ==> id in challenges && challenges[id] == old(challenges)[id]
      ensures result == UserBlocked <==> mobile in old(blocked)
      ensures result.UserBlocked? || result.Wait? ==> Contents() == old(Contents())
      ensures result.Wait? ==> exists id :: IsNewestOf(challenges, RowsOf(challenges, mobile, true), id)
                                         && result.seconds == SecondsUntilResend(challenges[id].createdAt, now)
                                         && result.seconds > 0
      ensures result.Sent? || result.DeliveryError? ==>
                var reserved := AfterReserve(old(Contents()), mobile, codeHash, old(now) + ttlSeconds * 1000);
                && (forall id :: id in old(RowsOf(challenges, mobile, true))
                      ==> SecondsUntilResend(old(challenges)[id].createdAt, old(now)) == 0)
                && result == (if delivered then Sent else DeliveryError)
                && Contents() == (if delivered || !cleanedUp then reserved
                                  else reserved.(challenges := reserved.challenges - {old(nextId)}))
    {
      if mobile in blocked {
        return UserBlocked;
      }
      var expiresAt := now + ttlSeconds * 1000;
      ReserveKeeps(Contents(), mobile, codeHash, expiresAt);
      var recent := FindNewest(mobile, true);
      if recent.Some? {
        var wait := SecondsUntilResend(challenges[recent.value].createdAt, now);
        if wait > 0 {
          return Wait(wait);
        }
      }
      var id := nextId;
      var unconsumed := RowsOf(challenges, mobile, true);
      challenges := (challenges - unconsumed)[id := Challenge(mobile, codeHash, now, expiresAt, 0, None)];
      nextId := nextId + 1;
      if delivered {
        return Sent;
      }
      if cleanedUp {
        challenges := challenges - {id};
      }
      return DeliveryError;
    }

    /** `verifyLoginOtp`, with the hash of the code and the token of the session it would open. */
    method VerifyLoginOtp(mobile: string, code: string, codeHash: string, token: string, sessionTtlDays: int)
      returns (result: VerifyResult, ghost read: Option<nat>)
      requires Valid() && token !in sessions
      modifies this
      ensures Valid()
      ensures result == Malformed <==> !(|code| == 6 && forall c :: c in code ==> c in "0123456789")
      ensures result == NoChallenge <==> result != Malformed && old(RowsOf(challenges, mobile, false)) == {}
      ensures result.Malformed? || result.NoChallenge? ==> Contents() == old(Contents())
      ensures !result.Malformed? && !result.NoChallenge? ==>
                && read.Some?
                && IsNewestOf(old(challenges), old(RowsOf(challenges, mobile, false)), read.value)
                && (Contents(), result) == AfterVerify(old(Contents()), read.value, mobile, codeHash, token,
                                                       SessionExpiry(old(now), sessionTtlDays))
    {
      read := None;
      SixDigitsIff(code);
      if !IsSixDigits(code) {
        return Malformed, None;
      }
      var challenge := FindNewest(mobile, false);
      read := challenge;
      if challenge.None? {
        return NoChallenge, read;
      }
      var id := challenge.value;
      VerifyKeeps(Contents(), id, mobile, codeHash, token, SessionExpiry(now, sessionTtlDays));
      var row := challenges[id];
      var refusal := CanAttemptOtp(row, now);
      if refusal.Some? {
        return Refused(refusal.value), read;
      }
      if codeHash != row.codeHash {
        var attempts := row.attempts + 1;
        challenges := challenges[id := row.(attempts := attempts)];
        return if attempts >= OTP_MAX_ATTEMPTS then Refused(MaxAttempts) else InvalidCode, read;
      }
      challenges := challenges[id := row.(consumedAt := Some(now))];
      if mobile in blocked {
        return AccountBlocked, read;
      }
      CreateUserSession(mobile, id, token, sessionTtlDays);
      return LoggedIn, read;
    }

    method CreateUserSession(mobile: string, challenge: nat, token: string, sessionTtlDays: int)
      requires Valid() && token !in sessions
      requires challenge in challenges && challenges[challenge].consumedAt.Some?
      modifies this`sessions
      ensures Valid()
      ensures sessions == old(sessions)[token := Session(mobile, SessionExpiry(now, sessionTtlDays), None, challenge)]
      ensures sessions[token].expiresAt == now + 86_400_000 * sessionTtlDays
      ensures mobile !in blocked ==> (SessionFound(Contents(), token) <==> sessionTtlDays > 0)
    {
      var expiresAt := SessionExpiry(now, sessionTtlDays);
      sessions := sessions[token := Session(mobile, expiresAt, None, challenge)];
    }

    /** `revokeSessionByToken`: a token that is unknown or already revoked is left alone. */
    method RevokeSessionByToken(token: string)
      requires Valid()
      modifies this`sessions
      ensures Valid() && !SessionFound(Contents(), token)
      ensures forall s: State :: TablesOf(s) == old(Contents()) ==> Contents() == TablesOf(Next(s, Revoke(token)))
      ensures sessions.Keys == old(sessions).Keys
      ensures forall other :: other in sessions && other != token ==> sessions[other] == old(sessions)[other]
      ensures token in sessions ==>
                sessions[token] == if old(sessions)[token].revokedAt.Some? then old(sessions)[token]
                                   else old(sessions)[token].(revokedAt := Some(now))
    {
      if token in sessions && sessions[token].revokedAt.None? {
        sessions := sessions[token := sessions[token].(revokedAt := Some(now))];
      }
    }

    method FindValidSession(token: string) returns (found: Option<Session>)
      ensures forall s: State :: TablesOf(s) == Contents() ==> found == LoginSafety.FindValidSession(s, token)
      ensures found.Some? <==> SessionFound(Contents(), token)
      ensures found.Some? ==> found.value == sessions[token]
    {
      found := if token in sessions then Some(sessions[token]) else None;
      if !IsSessionRecordValid(found, now) {
        return None;
      }
      if found.value.mobile in blocked {
        return None;
      }
    }
  }
}
