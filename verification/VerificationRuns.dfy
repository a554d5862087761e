/**
 Sequential runs of the verification service: which row a guess meets, which code
 can match, and what the attempts counter counts.
 */
module VerificationRuns {
  import opened Wrappers
  import opened Verification

  datatype Event =
    | Created(create: Create)
    | OtpTried(userId: string, purpose: string, otpHash: string, now: int, picked: Option<string>, outcome: Outcome)
    | TokenTried(purpose: string, tokenHash: string, now: int, picked: Option<string>, outcome: Outcome)
    | Consumed(id: string, now: int)

  datatype World = World(rows: Table, log: seq<Event>)

  const START := World(map[], [])

  /** One call of the service; ids and token secrets are fresh, limit(1) may pick any match. */
  ghost predicate Enabled(w: World, e: Event) {
    match e
    case Created(c) => FreshIn(w.log, c)
    case OtpTried(userId, purpose, otpHash, now, picked, outcome) =>
      (match picked
       case None => outcome == Unknown && forall id :: !IsFor(w.rows, id, userId, purpose)
       case Some(id) => IsFor(w.rows, id, userId, purpose) && outcome == OtpOutcome(id, w.rows[id], otpHash, now))
    case TokenTried(purpose, tokenHash, now, picked, outcome) =>
      (match picked
       case None => outcome == Unknown && forall id :: !HasToken(w.rows, id, purpose, tokenHash)
       case Some(id) => HasToken(w.rows, id, purpose, tokenHash) && outcome == TokenOutcome(id, w.rows[id], now))
    case Consumed(_, _) => true
  }

  ghost predicate FreshIn(log: seq<Event>, c: Create) {
    forall i :: 0 <= i < |log| && log[i].Created? ==>
      log[i].create.recordId != c.recordId && log[i].create.tokenHash != c.tokenHash
  }

  function After(w: World, e: Event, maxAttempts: int): World {
    World(
      match e {
        case Created(c) => CreatedTable(w.rows, c, maxAttempts)
        case OtpTried(_, _, _, now, Some(id), outcome) =>
          if id in w.rows then AfterGuess(w.rows, id, outcome, now) else w.rows
        case Consumed(id, now) => ConsumedTable(w.rows, id, now)
        case _ => w.rows
      },
      w.log + [e])
  }

  ghost predicate IsRun(run: seq<World>, maxAttempts: int) {
    && |run| > 0 && run[0] == START
    && forall i :: 0 < i < |run| ==> Step(run[i - 1], run[i], maxAttempts)
  }

  ghost predicate Step(w: World, t: World, maxAttempts: int) {
    exists e :: Enabled(w, e) && t == After(w, e, maxAttempts)
  }

  // ----- the history of a row

  /** Wrong OTP guesses made against a row. */
  function WrongGuesses(log: seq<Event>, id: string): nat {
    if log == [] then 0
    else
      var e := log[|log| - 1];
      WrongGuesses(log[..|log| - 1], id) +
      if e.OtpTried? && e.picked == Some(id) && e.outcome.WrongCode? then 1 else 0
  }

  /** The last code issued for an identifier and purpose. */
  function Latest(log: seq<Event>, userId: string, purpose: string): Option<Create> {
    if log == [] then None
    else
      var e := log[|log| - 1];
      if e.Created? && e.create.userId == userId && e.create.purpose == purpose then Some(e.create)
      else Latest(log[..|log| - 1], userId, purpose)
  }

  lemma WrongGuessesAppend(log: seq<Event>, e: Event, id: string)
    ensures WrongGuesses(log + [e], id) ==
      WrongGuesses(log, id) + if e.OtpTried? && e.picked == Some(id) && e.outcome.WrongCode? then 1 else 0
  {
    assert (log + [e])[..|log|] == log;
  }

  lemma LatestAppend(log: seq<Event>, e: Event, userId: string, purpose: string)
    ensures Latest(log + [e], userId, purpose) ==
      if e.Created? && e.create.userId == userId && e.create.purpose == purpose then Some(e.create)
      else Latest(log, userId, purpose)
  {
    assert (log + [e])[..|log|] == log;
  }

  lemma {:induction false} UnusedIdHasNoGuesses(run: seq<World>, maxAttempts: int, i: nat, id: string)
    requires IsRun(run, maxAttempts) && i < |run|
    requires forall k :: 0 <= k < |run[i].log| && run[i].log[k].Created? ==> run[i].log[k].create.recordId != id
    ensures WrongGuesses(run[i].log, id) == 0 && id !in run[i].rows
  {
    if i == 0 {
    } else {
      assert Step(run[i - 1], run[i], maxAttempts);
      var e :| Enabled(run[i - 1], e) && run[i] == After(run[i - 1], e, maxAttempts);
      var before, log := run[i - 1].log, run[i].log;
      forall k | 0 <= k < |before| && before[k].Created? ensures before[k].create.recordId != id {
        assert log[k] == before[k];
      }
      assert log[|before|] == e;
      UnusedIdHasNoGuesses(run, maxAttempts, i - 1, id);
      WrongGuessesAppend(run[i - 1].log, e, id);
    }
  }

  // ----- the ledger invariant

  /** A row is the latest code for its identifier and purpose, and counts its wrong guesses. */
  ghost predicate Accounted(w: World, id: string, maxAttempts: int)
    requires id in w.rows
  {
    var row := w.rows[id];
    var latest := Latest(w.log, row.identifier, row.purpose);
    && latest.Some?
    && latest.value.recordId == id
    && row.tokenHash == latest.value.tokenHash
    && row.otpHash == (if latest.value.otp.Some? then Some(latest.value.otp.value.0) else None)
    && row.maxAttempts == maxAttempts
    && row.attempts == WrongGuesses(w.log, id)
    && (row.attempts <= maxAttempts || row.attempts == 0)
  }

  ghost predicate Ledger(w: World, maxAttempts: int) {
    forall id :: id in w.rows ==> Accounted(w, id, maxAttempts)
  }

  /** Tokens of different rows differ, as those ever issued do. */
  ghost predicate TokensDiffer(log: seq<Event>) {
    forall i, j :: 0 <= i < j < |log| && log[i].Created? && log[j].Created? ==>
      log[i].create.tokenHash != log[j].create.tokenHash && log[i].create.recordId != log[j].create.recordId
  }

  lemma CreateKeepsLedger(w: World, c: Create, maxAttempts: int)
    requires Ledger(w, maxAttempts) && WrongGuesses(w.log, c.recordId) == 0
    ensures Ledger(After(w, Created(c), maxAttempts), maxAttempts)
  {
    var t := After(w, Created(c), maxAttempts);
    forall id | id in t.rows ensures Accounted(t, id, maxAttempts) {
      WrongGuessesAppend(w.log, Created(c), id);
      LatestAppend(w.log, Created(c), t.rows[id].identifier, t.rows[id].purpose);
      assert id != c.recordId ==> Accounted(w, id, maxAttempts);
    }
  }

  lemma OtherKeepsLedger(w: World, e: Event, maxAttempts: int)
    requires Ledger(w, maxAttempts) && Enabled(w, e) && !e.Created?
    ensures Ledger(After(w, e, maxAttempts), maxAttempts)
  {
    var t := After(w, e, maxAttempts);
    forall id | id in t.rows ensures Accounted(t, id, maxAttempts) {
      WrongGuessesAppend(w.log, e, id);
      LatestAppend(w.log, e, t.rows[id].identifier, t.rows[id].purpose);
      assert Accounted(w, id, maxAttempts);
    }
  }

  lemma {:induction false} RunKeepsLedger(run: seq<World>, maxAttempts: int, i: nat)
    requires IsRun(run, maxAttempts) && i < |run|
    ensures Ledger(run[i], maxAttempts) && TokensDiffer(run[i].log)
  {
    if i == 0 {
    } else {
      RunKeepsLedger(run, maxAttempts, i - 1);
      assert Step(run[i - 1], run[i], maxAttempts);
      var e :| Enabled(run[i - 1], e) && run[i] == After(run[i - 1], e, maxAttempts);
      if e.Created? {
        UnusedIdHasNoGuesses(run, maxAttempts, i - 1, e.create.recordId);
        CreateKeepsLedger(run[i - 1], e.create, maxAttempts);
      } else {
        OtherKeepsLedger(run[i - 1], e, maxAttempts);
      }
    }
  }

  // ----- what it means for callers

  /** At most one row per identifier and purpose, so limit(1) has no choice. */
  lemma OneRowPerPurpose(run: seq<World>, maxAttempts: int, i: nat, a: string, b: string)
    requires IsRun(run, maxAttempts) && i < |run| && a in run[i].rows && b in run[i].rows
    requires run[i].rows[a].identifier == run[i].rows[b].identifier && run[i].rows[a].purpose == run[i].rows[b].purpose
    ensures a == b
  {
    RunKeepsLedger(run, maxAttempts, i);
    assert Accounted(run[i], a, maxAttempts) && Accounted(run[i], b, maxAttempts);
  }

  /** Only the latest code issued for the identifier and purpose is accepted. */
  lemma OnlyTheLatestOtp(run: seq<World>, maxAttempts: int, i: nat, e: Event)
    requires IsRun(run, maxAttempts) && i < |run| && e.OtpTried? && Enabled(run[i], e) && e.outcome.Valid?
    ensures var latest := Latest(run[i].log, e.userId, e.purpose);
      && latest.Some? && latest.value.otp.Some? && latest.value.otp.value.0 == e.otpHash
      && e.outcome.id == latest.value.recordId
  {
    RunKeepsLedger(run, maxAttempts, i);
    assert Accounted(run[i], e.picked.value, maxAttempts);
  }

  /** A token is accepted only while it is the latest of its identifier and purpose. */
  lemma OnlyTheLatestToken(run: seq<World>, maxAttempts: int, i: nat, e: Event)
    requires IsRun(run, maxAttempts) && i < |run| && e.TokenTried? && Enabled(run[i], e) && e.outcome.Valid?
    ensures var latest := Latest(run[i].log, e.outcome.row.identifier, e.purpose);
      latest.Some? && latest.value.tokenHash == e.tokenHash && e.outcome.id == latest.value.recordId
  {
    RunKeepsLedger(run, maxAttempts, i);
    assert Accounted(run[i], e.picked.value, maxAttempts);
  }

  lemma {:induction false} LatestWasCreated(log: seq<Event>, userId: string, purpose: string) returns (i: nat)
    requires Latest(log, userId, purpose).Some?
    ensures i < |log| && log[i] == Created(Latest(log, userId, purpose).value)
  {
    i := |log| - 1;
    var e := log[i];
    if !(e.Created? && e.create.userId == userId && e.create.purpose == purpose) {
      i := LatestWasCreated(log[..i], userId, purpose);
    }
  }

  /** A token whose code was replaced by a later one finds no row at all. */
  lemma SupersededTokenIsUnknown(run: seq<World>, maxAttempts: int, i: nat, k: nat, e: Event)
    requires IsRun(run, maxAttempts) && i < |run| && k < |run[i].log| && run[i].log[k].Created?
    requires var c := run[i].log[k].create; Latest(run[i].log, c.userId, c.purpose) != Some(c)
    requires e.TokenTried? && Enabled(run[i], e) && e.tokenHash == run[i].log[k].create.tokenHash
    ensures e.outcome.Unknown?
  {
    RunKeepsLedger(run, maxAttempts, i);
    var w := run[i];
    if e.picked.Some? {
      var row := w.rows[e.picked.value];
      assert Accounted(w, e.picked.value, maxAttempts);
      var m := LatestWasCreated(w.log, row.identifier, row.purpose);
      LatestIsFor(w.log, row.identifier, row.purpose);
    }
  }

  lemma {:induction false} LatestIsFor(log: seq<Event>, userId: string, purpose: string)
    ensures var latest := Latest(log, userId, purpose);
      latest.Some? ==> latest.value.userId == userId && latest.value.purpose == purpose
  {
    if log == [] {
    } else {
      LatestIsFor(log[..|log| - 1], userId, purpose);
    }
  }

  /** The counter is the number of wrong guesses and stays within the maximum; at
      the maximum neither OTP nor token is accepted. */
  lemma AttemptsAreWrongGuesses(run: seq<World>, maxAttempts: int, i: nat, id: string, otpHash: string, now: int)
    requires IsRun(run, maxAttempts) && i < |run| && id in run[i].rows && maxAttempts >= 0
    ensures run[i].rows[id].attempts == WrongGuesses(run[i].log, id) <= maxAttempts
    ensures WrongGuesses(run[i].log, id) == maxAttempts ==>
      !OtpOutcome(id, run[i].rows[id], otpHash, now).Valid? && !TokenOutcome(id, run[i].rows[id], now).Valid?
  {
    RunKeepsLedger(run, maxAttempts, i);
    assert Accounted(run[i], id, maxAttempts);
  }

  // ----- single use

  /** The id was issued, and its row, if it is still there, is consumed. */
  ghost predicate UsedUp(w: World, id: string) {
    && (exists k :: 0 <= k < |w.log| && w.log[k].Created? && w.log[k].create.recordId == id)
    && (id in w.rows ==> w.rows[id].consumedAt.Some?)
  }

  lemma StaysUsedUp(w: World, e: Event, id: string, maxAttempts: int)
    requires UsedUp(w, id) && Enabled(w, e)
    ensures UsedUp(After(w, e, maxAttempts), id)
  {
    var t := After(w, e, maxAttempts);
    var k :| 0 <= k < |w.log| && w.log[k].Created? && w.log[k].create.recordId == id;
    assert t.log[k] == w.log[k];
    assert e.Created? ==> e.create.recordId != id;
  }

  /** A code is used once: after its row was consumed, no OTP or token is accepted at it. */
  lemma {:induction false} ConsumedIsUsedUp(run: seq<World>, maxAttempts: int, i: nat, j: nat, id: string)
    requires IsRun(run, maxAttempts) && i <= j < |run| && id in run[i].rows && run[i].rows[id].consumedAt.Some?
    ensures UsedUp(run[j], id)
    ensures forall e: Event :: Enabled(run[j], e) && (e.OtpTried? || e.TokenTried?) && e.picked == Some(id) ==>
      !e.outcome.Valid?
  {
    if i == j {
      RunKeepsLedger(run, maxAttempts, i);
      assert Accounted(run[i], id, maxAttempts);
      var row := run[i].rows[id];
      var k := LatestWasCreated(run[i].log, row.identifier, row.purpose);
    } else {
      ConsumedIsUsedUp(run, maxAttempts, i, j - 1, id);
      assert Step(run[j - 1], run[j], maxAttempts);
      var e :| Enabled(run[j - 1], e) && run[j] == After(run[j - 1], e, maxAttempts);
      StaysUsedUp(run[j - 1], e, id, maxAttempts);
    }
  }
}
