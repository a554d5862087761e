/**
 Verification codes: one row per (identifier, purpose), guessed at by OTP or by
 token. Hashes stand for the secrets, which an injective hash makes equivalent;
 fresh ids and secrets are parameters.
 */
module Verification {
  import opened Wrappers

  datatype Row = Row(
    identifier: string, purpose: string, tokenHash: string, otpHash: Option<string>, expiresAt: int,
    consumedAt: Option<int>, updatedAt: int, attempts: int, maxAttempts: int)

  type Table = map<string, Row>

  /** A createVerification call with what it draws. */
  datatype Create = Create(
    userId: string, purpose: string, recordId: string, tokenHash: string, tokenExpiresAt: int,
    otp: Option<(string, int)>, now: int)

  datatype Outcome =
    | Valid(id: string, row: Row)
    | Unknown
    | AlreadyUsed
    | Expired
    | AttemptsExceeded
    | NoOtp
    | WrongCode

  // ----- what each operation leaves and answers

  function Cleared(rows: Table, userId: string, purpose: string): Table {
    map id | id in rows && !(rows[id].identifier == userId && rows[id].purpose == purpose) :: rows[id]
  }

  function Min(a: int, b: int): int { if a < b then a else b }

  function NewRow(c: Create, maxAttempts: int): Row {
    Row(c.userId, c.purpose, c.tokenHash, if c.otp.Some? then Some(c.otp.value.0) else None,
        if c.otp.Some? then Min(c.tokenExpiresAt, c.otp.value.1) else c.tokenExpiresAt,
        None, c.now, 0, maxAttempts)
  }

  function CreatedTable(rows: Table, c: Create, maxAttempts: int): Table {
    Cleared(rows, c.userId, c.purpose)[c.recordId := NewRow(c, maxAttempts)]
  }

  /** assertRecord: the error, or None when the row may be used. */
  function Refusal(row: Row, now: int): Option<Outcome> {
    if row.consumedAt.Some? then Some(AlreadyUsed)
    else if row.expiresAt < now then Some(Expired)
    else if row.attempts >= row.maxAttempts then Some(AttemptsExceeded)
    else None
  }

  /** The answer to an OTP guess at a given row. */
  function OtpOutcome(id: string, row: Row, otpHash: string, now: int): Outcome {
    match Refusal(row, now)
    case Some(refusal) => refusal
    case None =>
      if row.otpHash.None? || row.otpHash.value == "" then NoOtp
      else if otpHash != row.otpHash.value then WrongCode
      else Valid(id, row)
  }

  function TokenOutcome(id: string, row: Row, now: int): Outcome {
    match Refusal(row, now)
    case Some(refusal) => refusal
    case None => Valid(id, row)
  }

  predicate IsFor(rows: Table, id: string, userId: string, purpose: string) {
    id in rows && rows[id].identifier == userId && rows[id].purpose == purpose
  }

  predicate HasToken(rows: Table, id: string, purpose: string, tokenHash: string) {
    id in rows && rows[id].purpose == purpose && rows[id].tokenHash == tokenHash
  }

  function AfterGuess(rows: Table, id: string, outcome: Outcome, now: int): Table
    requires id in rows
  {
    if outcome.WrongCode? then rows[id := rows[id].(attempts := rows[id].attempts + 1, updatedAt := now)] else rows
  }

  function ConsumedTable(rows: Table, id: string, now: int): Table {
    if id in rows then rows[id := rows[id].(consumedAt := Some(now), updatedAt := now)] else rows
  }

  // ----- the service

  class VerificationTokenService {
    const maxAttempts: int
    var rows: Table

    constructor (maxAttempts: int)
      ensures this.maxAttempts == maxAttempts && rows == map[]
    {
      this.maxAttempts, rows := maxAttempts, map[];
    }

    method ClearExisting(userId: string, purpose: string)
      modifies this`rows
      ensures rows == Cleared(old(rows), userId, purpose)
    {
      rows := map id | id in rows && !(rows[id].identifier == userId && rows[id].purpose == purpose) :: rows[id];
    }

    method CreateVerification(c: Create) returns (expiresAt: int)
      modifies this`rows
      ensures rows == CreatedTable(old(rows), c, maxAttempts)
      ensures expiresAt == rows[c.recordId].expiresAt
    {
      ClearExisting(c.userId, c.purpose);
      expiresAt := c.tokenExpiresAt;
      var otpHash := None;
      if c.otp.Some? {
        otpHash := Some(c.otp.value.0);
        expiresAt := Min(c.tokenExpiresAt, c.otp.value.1);
      }
      rows := rows[c.recordId := Row(
        c.userId, c.purpose, c.tokenHash, otpHash, expiresAt, None, c.now, 0, maxAttempts)];
    }

    /** limit(1) picks some matching row. */
    method ConsumeByOtp(purpose: string, userId: string, otpHash: string, now: int)
      returns (outcome: Outcome, ghost picked: Option<string>)
      modifies this`rows
      ensures picked.None? <==> forall id :: !IsFor(old(rows), id, userId, purpose)
      ensures picked.None? ==> outcome == Unknown && rows == old(rows)
      ensures picked.Some? ==>
        && IsFor(old(rows), picked.value, userId, purpose)
        && outcome == OtpOutcome(picked.value, old(rows)[picked.value], otpHash, now)
        && rows == AfterGuess(old(rows), picked.value, outcome, now)
    {
      picked := None;
      if id :| id in rows && IsFor(rows, id, userId, purpose) {
        picked := Some(id);
        var record := rows[id];
        var refusal := Refusal(record, now);
        if refusal.Some? {
          return refusal.value, picked;
        }
        if record.otpHash.None? || record.otpHash.value == "" {
          return NoOtp, picked;
        }
        if otpHash != record.otpHash.value {
          IncrementAttempts(id, record.attempts + 1, now);
          return WrongCode, picked;
        }
        return Valid(id, record), picked;
      }
      return Unknown, picked;
    }

    method ConsumeByToken(purpose: string, tokenHash: string, now: int) returns (outcome: Outcome)
      ensures outcome.Unknown? <==> forall id :: !HasToken(rows, id, purpose, tokenHash)
      ensures !outcome.Unknown? ==>
        exists id :: HasToken(rows, id, purpose, tokenHash) && outcome == TokenOutcome(id, rows[id], now)
    {
      if id :| id in rows && HasToken(rows, id, purpose, tokenHash) {
        var refusal := Refusal(rows[id], now);
        if refusal.Some? {
          return refusal.value;
        }
        return Valid(id, rows[id]);
      }
      return Unknown;
    }

    method IncrementAttempts(id: string, attempts: int, now: int)
      modifies this`rows
      ensures rows == if id in old(rows)
        then old(rows)[id := old(rows)[id].(attempts := attempts, updatedAt := now)] else old(rows)
    {
      if id in rows {
        rows := rows[id := rows[id].(attempts := attempts, updatedAt := now)];
      }
    }

    method MarkConsumed(id: string, now: int)
      modifies this`rows
      ensures rows == ConsumedTable(old(rows), id, now)
    {
      if id in rows {
        rows := rows[id := rows[id].(consumedAt := Some(now), updatedAt := now)];
      }
    }
  }
}
