/** The rows and the gates of the login protocol: lib/otp-rules.ts and lib/session-rules.ts. */
module OtpRules {
  import opened Common

  const OTP_MAX_ATTEMPTS := 5
  const OTP_RESEND_COOLDOWN_MS := 60 * 1000

  datatype Challenge = Challenge(
    mobile: string,
    codeHash: string,
    createdAt: int,
    expiresAt: int,
    attempts: nat,
    consumedAt: Option<int>)

  datatype OtpFailure = Expired | Consumed | MaxAttempts

  function CanAttemptOtp(c: Challenge, now: int): Option<OtpFailure> {
    if c.consumedAt.Some? then Some(Consumed)
    else if c.expiresAt <= now then Some(Expired)
    else if c.attempts >= OTP_MAX_ATTEMPTS then Some(MaxAttempts)
    else None
  }

  function SecondsUntilResend(lastCreatedAt: int, now: int): int {
    var remainingMs := OTP_RESEND_COOLDOWN_MS - (now - lastCreatedAt);
    if remainingMs > 0 then CeilDiv(remainingMs, 1000) else 0
  }

  /** The wait is the least whole number of seconds after which there is nothing left to wait for. */
  lemma ResendWaitIsLeast(lastCreatedAt: int, now: int, seconds: nat)
    ensures SecondsUntilResend(lastCreatedAt, now + 1000 * seconds) == 0
       <==> SecondsUntilResend(lastCreatedAt, now) <= seconds
    ensures SecondsUntilResend(lastCreatedAt, now) == 0
       <==> now - lastCreatedAt >= 60_000
  {
  }

  datatype Session = Session(mobile: string, expiresAt: int, revokedAt: Option<int>, challenge: nat)

  predicate IsSessionRecordValid(s: Option<Session>, now: int) {
    s.Some? && s.value.revokedAt.None? && s.value.expiresAt > now
  }
}
