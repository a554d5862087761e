/**
 Which OTP and which token is accepted, stated on the log of calls alone: the codes
 issued, their expiries, the wrong guesses and what was consumed.
 */
module VerificationAnswers {
  import opened Wrappers
  import opened Verification
  import opened VerificationRuns

  // ----- what the log tells about a code

  /** Marked as consumed since it was issued. */
  function ConsumedSince(log: seq<Event>, id: string): bool {
    if log == [] then false
    else
      match log[|log| - 1]
      case Consumed(used, _) => used == id || ConsumedSince(log[..|log| - 1], id)
      case Created(c) => c.recordId != id && ConsumedSince(log[..|log| - 1], id)
      case _ => ConsumedSince(log[..|log| - 1], id)
  }

  /** Not past the expiry of the token, nor that of the OTP where there is one. */
  predicate InTime(c: Create, now: int) {
    now <= c.tokenExpiresAt && (c.otp.Some? ==> now <= c.otp.value.1)
  }

  /** The code may still be used. */
  predicate Usable(log: seq<Event>, c: Create, now: int, maxAttempts: int) {
    !ConsumedSince(log, c.recordId) && InTime(c, now) && WrongGuesses(log, c.recordId) < maxAttempts
  }

  lemma ConsumedAppend(log: seq<Event>, e: Event, id: string)
    ensures ConsumedSince(log + [e], id) <==>
      (e.Consumed? && e.id == id) || (!(e.Created? && e.create.recordId == id) && ConsumedSince(log, id))
  {
    assert (log + [e])[..|log + [e]| - 1] == log;
  }

  // ----- the table holds what the log tells

  /** The row of an issued code. */
  ghost predicate RowOf(w: World, c: Create, maxAttempts: int) {
    && c.recordId in w.rows
    && var row := w.rows[c.recordId];
      && row.identifier == c.userId && row.purpose == c.purpose && row.tokenHash == c.tokenHash
      && row.otpHash == (if c.otp.Some? then Some(c.otp.value.0) else None)
      && (forall now: int :: row.expiresAt < now <==> !InTime(c, now))
      && (row.consumedAt.Some? <==> ConsumedSince(w.log, c.recordId))
      && row.attempts == WrongGuesses(w.log, c.recordId) && row.maxAttempts == maxAttempts
  }

  /** Every latest code has its row, and every row is one of a latest code. */
  ghost predicate Complete(w: World, maxAttempts: int) {
    && (forall u, p :: Latest(w.log, u, p).Some? ==> RowOf(w, Latest(w.log, u, p).value, maxAttempts))
    && (forall id :: id in w.rows ==> IsLatest(w, id))
  }

  ghost predicate IsLatest(w: World, id: string)
    requires id in w.rows
  {
    var latest := Latest(w.log, w.rows[id].identifier, w.rows[id].purpose);
    latest.Some? && latest.value.recordId == id
  }

  /** An id that was not issued yet is in no latest code. */
  lemma LatestIsNotFresh(log: seq<Event>, c: Create, u: string, p: string)
    requires FreshIn(log, c) && Latest(log, u, p).Some?
    ensures Latest(log, u, p).value.recordId != c.recordId
  {
    var i := LatestWasCreated(log, u, p);
  }

  lemma NewRowInTime(c: Create, maxAttempts: int, now: int)
    ensures NewRow(c, maxAttempts).expiresAt < now <==> !InTime(c, now)
  {
  }

  lemma CreatedRow(w: World, c: Create, maxAttempts: int)
    requires WrongGuesses(w.log, c.recordId) == 0
    ensures RowOf(After(w, Created(c), maxAttempts), c, maxAttempts)
  {
    var t := After(w, Created(c), maxAttempts);
    WrongGuessesAppend(w.log, Created(c), c.recordId);
    ConsumedAppend(w.log, Created(c), c.recordId);
    assert c.recordId in t.rows && t.rows[c.recordId] == NewRow(c, maxAttempts);
    forall now: int ensures t.rows[c.recordId].expiresAt < now <==> !InTime(c, now) {
      NewRowInTime(c, maxAttempts, now);
    }
  }

  lemma CreateKeepsOthers(w: World, c: Create, maxAttempts: int, u: string, p: string)
    requires FreshIn(w.log, c) && Latest(w.log, u, p).Some? && (u != c.userId || p != c.purpose)
    requires RowOf(w, Latest(w.log, u, p).value, maxAttempts)
    ensures Latest(After(w, Created(c), maxAttempts).log, u, p) == Latest(w.log, u, p)
    ensures RowOf(After(w, Created(c), maxAttempts), Latest(w.log, u, p).value, maxAttempts)
  {
    var other := Latest(w.log, u, p).value;
    LatestIsNotFresh(w.log, c, u, p);
    LatestIsFor(w.log, u, p);
    LatestAppend(w.log, Created(c), u, p);
    WrongGuessesAppend(w.log, Created(c), other.recordId);
    ConsumedAppend(w.log, Created(c), other.recordId);
  }

  lemma CreateKeepsComplete(w: World, c: Create, maxAttempts: int)
    requires Complete(w, maxAttempts) && FreshIn(w.log, c) && WrongGuesses(w.log, c.recordId) == 0
    ensures Complete(After(w, Created(c), maxAttempts), maxAttempts)
  {
    var t := After(w, Created(c), maxAttempts);
    forall u, p | Latest(t.log, u, p).Some? ensures RowOf(t, Latest(t.log, u, p).value, maxAttempts) {
      LatestAppend(w.log, Created(c), u, p);
      if u == c.userId && p == c.purpose {
        CreatedRow(w, c, maxAttempts);
      } else {
        CreateKeepsOthers(w, c, maxAttempts, u, p);
      }
    }
    forall id | id in t.rows ensures IsLatest(t, id) {
      LatestAppend(w.log, Created(c), t.rows[id].identifier, t.rows[id].purpose);
      assert id != c.recordId ==> IsLatest(w, id);
    }
  }

  /** A call that issues nothing keeps what a row says of its code. */
  lemma OtherKeepsCode(w: World, e: Event, id: string, maxAttempts: int)
    requires id in w.rows && Enabled(w, e) && !e.Created?
    ensures var t := After(w, e, maxAttempts);
      && id in t.rows
      && t.rows[id] == w.rows[id].(
        consumedAt := t.rows[id].consumedAt, attempts := t.rows[id].attempts, updatedAt := t.rows[id].updatedAt)
      && (t.rows[id].consumedAt.Some? <==> w.rows[id].consumedAt.Some? || (e.Consumed? && e.id == id))
      && t.rows[id].attempts == w.rows[id].attempts
        + if e.OtpTried? && e.picked == Some(id) && e.outcome.WrongCode? then 1 else 0
  {
  }

  lemma OtherKeepsRow(w: World, e: Event, c: Create, maxAttempts: int)
    requires RowOf(w, c, maxAttempts) && Enabled(w, e) && !e.Created?
    ensures RowOf(After(w, e, maxAttempts), c, maxAttempts)
  {
    OtherKeepsCode(w, e, c.recordId, maxAttempts);
    WrongGuessesAppend(w.log, e, c.recordId);
    ConsumedAppend(w.log, e, c.recordId);
  }

  lemma OtherKeepsComplete(w: World, e: Event, maxAttempts: int)
    requires Complete(w, maxAttempts) && Enabled(w, e) && !e.Created?
    ensures Complete(After(w, e, maxAttempts), maxAttempts)
  {
    var t := After(w, e, maxAttempts);
    forall u, p | Latest(t.log, u, p).Some? ensures RowOf(t, Latest(t.log, u, p).value, maxAttempts) {
      LatestAppend(w.log, e, u, p);
      OtherKeepsRow(w, e, Latest(w.log, u, p).value, maxAttempts);
    }
    forall id | id in t.rows ensures IsLatest(t, id) {
      LatestAppend(w.log, e, t.rows[id].identifier, t.rows[id].purpose);
      assert IsLatest(w, id);
    }
  }

  lemma {:induction false} RunIsComplete(run: seq<World>, maxAttempts: int, i: nat)
    requires IsRun(run, maxAttempts) && i < |run|
    ensures Complete(run[i], maxAttempts)
  {
    if i == 0 {
    } else {
      RunIsComplete(run, maxAttempts, i - 1);
      assert Step(run[i - 1], run[i], maxAttempts);
      var e :| Enabled(run[i - 1], e) && run[i] == After(run[i - 1], e, maxAttempts);
      if e.Created? {
        UnusedIdHasNoGuesses(run, maxAttempts, i - 1, e.create.recordId);
        CreateKeepsComplete(run[i - 1], e.create, maxAttempts);
      } else {
        OtherKeepsComplete(run[i - 1], e, maxAttempts);
      }
    }
  }

  // ----- what is accepted, and what is answered otherwise

  /** The answer of a code that cannot be used, in the order of the checks. */
  ghost predicate Refuses(outcome: Outcome, log: seq<Event>, c: Create, now: int, maxAttempts: int) {
    if ConsumedSince(log, c.recordId) then outcome == AlreadyUsed
    else if !InTime(c, now) then outcome == Outcome.Expired
    else WrongGuesses(log, c.recordId) >= maxAttempts && outcome == AttemptsExceeded
  }

  /** In every run an OTP is accepted exactly when it is the non-empty one of the
      latest code for the user and purpose, in time, not consumed since, with fewer
      wrong guesses than the maximum; every other answer is given by the log too. */
  lemma OtpAcceptedExactlyWhen(run: seq<World>, maxAttempts: int, i: nat, e: Event)
    requires IsRun(run, maxAttempts) && i < |run| && e.OtpTried? && Enabled(run[i], e)
    ensures var log := run[i].log; var latest := Latest(log, e.userId, e.purpose);
      && (e.outcome.Valid? <==>
            && latest.Some? && latest.value.otp.Some?
            && latest.value.otp.value.0 == e.otpHash != "" && Usable(log, latest.value, e.now, maxAttempts))
      && (e.outcome.Unknown? <==> latest.None?)
      && (latest.Some? && !Usable(log, latest.value, e.now, maxAttempts) ==>
            Refuses(e.outcome, log, latest.value, e.now, maxAttempts))
      && (latest.Some? && Usable(log, latest.value, e.now, maxAttempts) && !e.outcome.Valid? ==>
            e.outcome == if latest.value.otp.None? || latest.value.otp.value.0 == "" then NoOtp else WrongCode)
  {
    RunIsComplete(run, maxAttempts, i);
    OtpAnswers(run[i], maxAttempts, e);
  }

  /** The row that a look-up by user and purpose meets is that of the latest code. */
  lemma PickedIsLatest(w: World, maxAttempts: int, id: string, u: string, p: string)
    requires Complete(w, maxAttempts) && IsFor(w.rows, id, u, p)
    ensures Latest(w.log, u, p).Some? && Latest(w.log, u, p).value.recordId == id
    ensures RowOf(w, Latest(w.log, u, p).value, maxAttempts)
  {
    assert IsLatest(w, id);
  }

  lemma OtpAnswers(w: World, maxAttempts: int, e: Event)
    requires Complete(w, maxAttempts) && e.OtpTried? && Enabled(w, e)
    ensures var log := w.log; var latest := Latest(log, e.userId, e.purpose);
      && (e.outcome.Valid? <==>
            && latest.Some? && latest.value.otp.Some?
            && latest.value.otp.value.0 == e.otpHash != "" && Usable(log, latest.value, e.now, maxAttempts))
      && (e.outcome.Unknown? <==> latest.None?)
      && (latest.Some? && !Usable(log, latest.value, e.now, maxAttempts) ==>
            Refuses(e.outcome, log, latest.value, e.now, maxAttempts))
      && (latest.Some? && Usable(log, latest.value, e.now, maxAttempts) && !e.outcome.Valid? ==>
            e.outcome == if latest.value.otp.None? || latest.value.otp.value.0 == "" then NoOtp else WrongCode)
  {
    var latest := Latest(w.log, e.userId, e.purpose);
    LatestIsFor(w.log, e.userId, e.purpose);
    if e.picked.Some? {
      PickedIsLatest(w, maxAttempts, e.picked.value, e.userId, e.purpose);
      var row := w.rows[e.picked.value];
      assert row.expiresAt < e.now <==> !InTime(latest.value, e.now);
    } else if latest.Some? {
      assert RowOf(w, latest.value, maxAttempts);
      assert IsFor(w.rows, latest.value.recordId, e.userId, e.purpose);
    }
  }

  /** A code issued for the purpose with this token, and the latest of its user. */
  ghost predicate IsToken(log: seq<Event>, c: Create, purpose: string, tokenHash: string) {
    c.purpose == purpose && c.tokenHash == tokenHash && Latest(log, c.userId, purpose) == Some(c)
  }

  /** In every run a token is accepted exactly when it is the one of the latest code
      of some user for the purpose, in time, not consumed since, with fewer wrong
      guesses than the maximum. */
  lemma TokenAcceptedExactlyWhen(run: seq<World>, maxAttempts: int, i: nat, e: Event)
    requires IsRun(run, maxAttempts) && i < |run| && e.TokenTried? && Enabled(run[i], e)
    ensures var log := run[i].log;
      && (e.outcome.Valid? <==>
            exists c :: IsToken(log, c, e.purpose, e.tokenHash) && Usable(log, c, e.now, maxAttempts))
      && (e.outcome.Unknown? <==> forall c :: !IsToken(log, c, e.purpose, e.tokenHash))
      && (forall c :: IsToken(log, c, e.purpose, e.tokenHash) && !Usable(log, c, e.now, maxAttempts) ==>
            Refuses(e.outcome, log, c, e.now, maxAttempts))
  {
    RunKeepsLedger(run, maxAttempts, i);
    RunIsComplete(run, maxAttempts, i);
    var w := run[i];
    forall c | IsToken(w.log, c, e.purpose, e.tokenHash) ensures e.picked == Some(c.recordId) {
      TokenIsPicked(w, maxAttempts, e, c);
    }
    if e.picked.Some? {
      var row := w.rows[e.picked.value];
      PickedIsLatest(w, maxAttempts, e.picked.value, row.identifier, row.purpose);
      LatestIsFor(w.log, row.identifier, row.purpose);
      var c := Latest(w.log, row.identifier, row.purpose).value;
      assert IsToken(w.log, c, e.purpose, e.tokenHash);
      TokenAnswer(w, maxAttempts, e, c);
      forall d | IsToken(w.log, d, e.purpose, e.tokenHash) ensures d == c {
        SameToken(w.log, c, d, e.purpose, e.tokenHash);
      }
    }
  }

  lemma SameToken(log: seq<Event>, c: Create, d: Create, purpose: string, tokenHash: string)
    requires TokensDiffer(log) && IsToken(log, c, purpose, tokenHash) && IsToken(log, d, purpose, tokenHash)
    ensures c == d
  {
    var i := LatestWasCreated(log, c.userId, purpose);
    var j := LatestWasCreated(log, d.userId, purpose);
    assert i == j;
  }

  /** Tokens differ, so the look-up by token has one answer. */
  lemma TokenIsPicked(w: World, maxAttempts: int, e: Event, c: Create)
    requires Complete(w, maxAttempts) && TokensDiffer(w.log) && e.TokenTried? && Enabled(w, e)
    requires IsToken(w.log, c, e.purpose, e.tokenHash)
    ensures e.picked == Some(c.recordId)
  {
    assert RowOf(w, c, maxAttempts);
    assert HasToken(w.rows, c.recordId, e.purpose, e.tokenHash);
    var row := w.rows[e.picked.value];
    PickedIsLatest(w, maxAttempts, e.picked.value, row.identifier, row.purpose);
    LatestIsFor(w.log, row.identifier, row.purpose);
    SameToken(w.log, c, Latest(w.log, row.identifier, row.purpose).value, e.purpose, e.tokenHash);
  }

  lemma TokenAnswer(w: World, maxAttempts: int, e: Event, c: Create)
    requires Complete(w, maxAttempts) && e.TokenTried? && Enabled(w, e) && e.picked == Some(c.recordId)
    requires IsToken(w.log, c, e.purpose, e.tokenHash)
    ensures e.outcome.Valid? <==> Usable(w.log, c, e.now, maxAttempts)
    ensures !Usable(w.log, c, e.now, maxAttempts) ==> Refuses(e.outcome, w.log, c, e.now, maxAttempts)
    ensures !e.outcome.Unknown?
  {
    assert RowOf(w, c, maxAttempts);
    assert w.rows[c.recordId].expiresAt < e.now <==> !InTime(c, e.now);
  }
}
