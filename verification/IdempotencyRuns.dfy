/**
 What runs of the idempotency protocol guarantee: replays in every run, exclusion
 and retries in timely ones, and exactly how slow a request may be.
 */
module IdempotencyRuns {
  import opened Wrappers
  import opened Redis
  import opened Idempotency
  import opened IdempotencyProtocol
  import opened Runs

  /** At most one request per key is between NEW and its last store write. */
  lemma OneHolderPerKey(run: seq<State>, i: nat, p: nat, q: nat)
    requires TimelyRun(run) && i < |run|
    requires p in run[i].procs && Holding(run[i].procs[p].phase)
    requires q in run[i].procs && Holding(run[i].procs[q].phase)
    requires run[i].procs[p].request.key == run[i].procs[q].request.key
    ensures p == q
  {
    RunKeepsInv(run, i);
  }

  /** Whatever a begin replays was returned by a handler under that key and
      hash, then stored, less than COMMITTED_TTL ago, and not overwritten since,
      however slow or faulty the requests of the run are. */
  lemma ReplayRepeatsTheHandler(run: seq<State>, i: nat, j: nat) returns (returned: nat, stored: nat)
    requires IsRun(run) && i < |run|
    requires j < |run[i].log| && run[i].log[j].Replayed?
    ensures var log := run[i].log;
      && returned < stored < j
      && log[returned] == Returned(log[j].key, log[j].hash, log[returned].at, log[j].outcome)
      && log[stored] == Stored(log[j].key, log[j].hash, log[stored].at, log[j].outcome)
      && log[stored].at <= log[j].at < log[stored].at + COMMITTED_TTL
      && forall k :: stored < k < j && log[k].Stored? ==> log[k].key != log[j].key
  {
    RunKeepsHonest(run, i);
    var log := run[i].log;
    stored := ReplayedWasStored(log, j);
    returned := StoredWasReturned(log, stored);
  }

  /** Whatever a client is sent was returned by a handler of a request with its key
      and hash, be it its own or one it repeats. */
  lemma RepliesWereReturned(run: seq<State>, i: nat, p: nat)
    requires IsRun(run) && i < |run| && p in run[i].procs && SentOutcome(run[i].procs[p].phase).Some?
    ensures var Proc(request, phase) := run[i].procs[p];
      WasReturned(run[i].log, request.key, request.hash, SentOutcome(phase).value)
  {
    RunKeepsHonest(run, i);
    var Proc(request, phase) := run[i].procs[p];
    var log := run[i].log;
    assert Carries(log, run[i].procs[p]);
    if phase.Answered? {
      var j :| 0 <= j < |log| && log[j].Replayed? && log[j].key == request.key && log[j].hash == request.hash
        && log[j].outcome == phase.result.outcome;
      var returned, stored := ReplayRepeatsTheHandler(run, i, j);
    }
  }

  function SentOutcome(phase: Phase): Option<Outcome> {
    match phase
    case Answered(Replay(outcome)) => Some(outcome)
    case Finished(outcome) => Some(outcome)
    case _ => None
  }

  lemma ReplayedWasStored(log: seq<Event>, j: nat) returns (stored: nat)
    requires Faithful(log) && j < |log| && log[j].Replayed?
    ensures stored < j && log[stored] == Stored(log[j].key, log[j].hash, log[stored].at, log[j].outcome)
    ensures log[stored].at <= log[j].at < log[stored].at + COMMITTED_TTL
    ensures forall k :: stored < k < j && log[k].Stored? ==> log[k].key != log[j].key
  {
    assert Justified(log[..j], log[j]);
    stored := LastStoredIndex(log[..j], log[j].key);
    assert forall k :: 0 <= k < j ==> log[..j][k] == log[k];
  }

  lemma StoredWasReturned(log: seq<Event>, j: nat) returns (returned: nat)
    requires Faithful(log) && j < |log| && log[j].Stored?
    ensures returned < j && log[returned] == Returned(log[j].key, log[j].hash, log[returned].at, log[j].outcome)
  {
    var past := log[..j];
    assert Justified(past, log[j]);
    returned :| 0 <= returned < |past| && past[returned].Returned?
      && past[returned].key == log[j].key && past[returned].hash == log[j].hash
      && past[returned].outcome == log[j].outcome;
  }

  lemma {:induction false} LastStoredIndex(log: seq<Event>, key: string) returns (i: nat)
    requires LastStored(log, key).Some?
    ensures i < |log| && LastStored(log, key) == Some(log[i])
    ensures forall k :: i < k < |log| && log[k].Stored? ==> log[k].key != key
  {
    i := |log| - 1;
    if !(log[i].Stored? && log[i].key == key) {
      i := LastStoredIndex(log[..|log| - 1], key);
    }
  }

  lemma {:induction false} LastStoredExists(log: seq<Event>, key: string, c: nat)
    requires c < |log| && log[c].Stored? && log[c].key == key
    ensures LastStored(log, key).Some?
  {
    if c < |log| - 1 {
      LastStoredExists(log[..|log| - 1], key, c);
    }
  }

  /** No handler begins under a key while an outcome stored under it lives. */
  lemma NoHandlerWhileOutcomeLives(run: seq<State>, i: nat, c: nat, j: nat)
    requires TimelyRun(run) && i < |run| && c < j < |run[i].log|
    requires run[i].log[c].Stored? && run[i].log[j].Begun? && run[i].log[c].key == run[i].log[j].key
    ensures run[i].log[j].at >= run[i].log[c].at + COMMITTED_TTL
  {
    RunKeepsInv(run, i);
    BeginsAfterExpiry(run[i].log, c, j);
  }

  lemma BeginsAfterExpiry(log: seq<Event>, c: nat, j: nat)
    requires Faithful(log) && LateBegins(log)
    requires c < j < |log| && log[c].Stored? && log[j].Begun? && log[c].key == log[j].key
    ensures log[j].at >= log[c].at + COMMITTED_TTL
  {
    assert BeginsLate(log[..j], log[j]);
    LastStoredExists(log[..j], log[j].key, c);
    var last := LastStoredIndex(log[..j], log[j].key);
    assert c <= last;
  }

  /** Whatever became of its request, crashed included, a pending record blocks its
      key for less than PENDING_TTL. */
  lemma PendingRecordsLapse(run: seq<State>, i: nat, key: string)
    requires IsRun(run) && i < |run|
    ensures match GetRecord(run[i].store, run[i].now, key) {
      case Some(Pending(_, createdAt)) => run[i].now < createdAt + PENDING_TTL
      case _ => true
    }
  {
    RunKeepsHonest(run, i);
    assert key in run[i].store ==> Recorded(run[i].log, key, run[i].store[key]);
  }

  /** A request whose handler threw, and which meets no store error, deletes its
      own record: its GET always leads to the DEL, and the DEL frees the key. */
  lemma FailureFreesTheKey(run: seq<State>, i: nat, p: nat)
    requires TimelyRun(run) && i < |run| && p in run[i].procs
    ensures var s := run[i]; var Proc(request, phase) := s.procs[p];
      && (phase.Aborting? && !phase.stored ==>
            Command(s, p).procs[p].phase == Freeing(phase.since))
      && (phase.Freeing? ==>
            && GetRecord(s.store, s.now, request.key) == Some(Pending(request.hash, phase.since))
            && Get(Command(s, p).store, s.now, request.key).None?)
  {
    RunKeepsInv(run, i);
    OwnerFrees(run[i], p);
  }

  ghost predicate DeletesItsOwn(s: State, proc: Proc)
    requires proc.phase.Freeing?
  {
    GetRecord(s.store, s.now, proc.request.key) == Some(Pending(proc.request.hash, proc.phase.since))
  }

  lemma OwnRecordIsPending(s: State, p: nat)
    requires Inv(s) && Timely(s) && p in s.procs
    requires var phase := s.procs[p].phase; (phase.Aborting? && !phase.stored) || phase.Freeing?
    ensures var Proc(request, phase) := s.procs[p];
      GetRecord(s.store, s.now, request.key) == Some(Pending(request.hash, phase.since))
  {
    assert Owns(s, s.procs[p]);
  }

  lemma OwnerFrees(s: State, p: nat)
    requires Inv(s) && Timely(s) && p in s.procs
    ensures var Proc(request, phase) := s.procs[p];
      && (phase.Aborting? && !phase.stored ==> Command(s, p) == Move(s, p, Freeing(phase.since)))
      && (phase.Freeing? ==>
            && GetRecord(s.store, s.now, request.key) == Some(Pending(request.hash, phase.since))
            && Command(s, p) == Move(s, p, Failed).(store := Del(s.store, request.key)))
  {
    var phase := s.procs[p].phase;
    if (phase.Aborting? && !phase.stored) || phase.Freeing? {
      OwnRecordIsPending(s, p);
    }
  }

  /** Begin left alone answers by what the key holds, and NEW on a free key. */
  lemma UndisturbedBegin(s: State, p: nat)
    requires p in s.procs && s.procs[p].phase.Reading?
    ensures var Proc(request, _) := s.procs[p];
      var t := Command(Command(Command(s, p), p), p);
      match Get<Raw>(s.store, s.now, request.key) {
        case None =>
          && t.procs[p].phase == Handling(s.now)
          && t.store == s.store[request.key := Timed(Readable(Pending(request.hash, s.now)), s.now + PENDING_TTL)]
        case Some(Unreadable) => t.procs[p].phase == Answered(InProgress) && t.store == s.store
        case Some(Readable(record)) =>
          && t.store == s.store
          && t.procs[p].phase == Answered(
            if record.requestHash != request.hash then Conflict
            else if record.Committed? then Replay(record.outcome) else InProgress)
      }
  {
  }

  // ----- after a failure

  lemma CommandKeepsOthers(s: State, pid: nat, p: nat)
    requires pid in s.procs && p in s.procs && p != pid
    ensures p in Command(s, pid).procs && Command(s, pid).procs[p] == s.procs[p]
  {
  }

  lemma FailureKeepsOthers(s: State, pid: nat, p: nat, applied: bool)
    requires pid in s.procs && p in s.procs && p != pid
    ensures p in Failure(s, pid, applied).procs && Failure(s, pid, applied).procs[p] == s.procs[p]
  {
  }

  lemma OthersKeepTheirPlace(s: State, a: Action, p: nat)
    requires Enabled(s, a) && p in s.procs && (a.Pass? || a.pid != p)
    ensures p in Next(s, a).procs && Next(s, a).procs[p] == s.procs[p]
  {
    match a
    case Act(pid) => CommandKeepsOthers(s, pid, p);
    case Fault(pid, applied) => FailureKeepsOthers(s, pid, p, applied);
    case _ =>
  }

  lemma SettledStep(s: State, t: State, p: nat)
    requires Step(s, t) && p in s.procs && Settled(s.procs[p].phase)
    ensures p in t.procs && t.procs[p] == s.procs[p]
  {
    var a :| Enabled(s, a) && t == Next(s, a);
    if a.Pass? || a.pid != p {
      OthersKeepTheirPlace(s, a, p);
    }
  }

  lemma {:induction false} SettledStays(run: seq<State>, i: nat, j: nat, p: nat)
    requires IsPath(Step, run) && i <= j < |run| && p in run[i].procs && Settled(run[i].procs[p].phase)
    ensures p in run[j].procs && run[j].procs[p] == run[i].procs[p]
  {
    if i == j {
    } else {
      SettledStays(run, i, j - 1, p);
      StepAt(Step, run, j - 1);
      SettledStep(run[j - 1], run[j], p);
    }
  }

  predicate Landed(phase: Phase) {
    phase.Aborting? && phase.stored
  }

  /** What may leave the record in place: the outcome was stored although its SETEX
      reported an error, or a command of commitFailure itself throws. */
  ghost predicate Excused(s: State, t: State, p: nat) {
    && p in s.procs
    && (Landed(s.procs[p].phase)
        || ((s.procs[p].phase.Aborting? || s.procs[p].phase.Freeing?)
            && t != s && t != Command(s, p) && exists applied :: t == Failure(s, p, applied)))
  }

  ghost predicate Unexcused(run: seq<State>, i: nat, j: nat, p: nat)
    requires j < |run|
  {
    forall l :: i <= l < j ==> !Excused(run[l], run[l + 1], p)
  }

  /** No record and no holder under a key. */
  ghost predicate Vacant(s: State, key: string) {
    key !in s.store && forall p :: p in s.procs && Holding(s.procs[p].phase) ==> s.procs[p].request.key != key
  }

  lemma OwnDeleteVacates(s: State, p: nat)
    requires Inv(s) && Timely(s) && p in s.procs && s.procs[p].phase.Freeing?
    ensures Vacant(Command(s, p), s.procs[p].request.key)
  {
  }

  /** The request deletes its own pending record, and the key is then vacant. */
  ghost predicate Vacates(s: State, t: State, p: nat) {
    && p in s.procs && s.procs[p].phase.Freeing? && DeletesItsOwn(s, s.procs[p])
    && Vacant(t, s.procs[p].request.key)
  }

  /** Where a step of its own leads a holder. */
  lemma OwnStep(s: State, a: Action, p: nat)
    requires Inv(s) && Timely(s) && Enabled(s, a) && (a.Act? || a.Fault?) && a.pid == p
    requires p in s.procs && Holding(s.procs[p].phase) && !Excused(s, Next(s, a), p)
    ensures var t := Next(s, a);
      && p in t.procs && t.procs[p].request == s.procs[p].request
      && (t.procs[p].phase.Failed? ==> s.procs[p].phase.Freeing? && t == Command(s, p))
      && (Holding(t.procs[p].phase) || Settled(t.procs[p].phase))
  {
    if a.Act? {
      OwnCommand(s, p);
    } else {
      OwnFault(s, p, a.applied);
    }
  }

  lemma OwnCommand(s: State, p: nat)
    requires Inv(s) && Timely(s) && p in s.procs && Holding(s.procs[p].phase) && !Landed(s.procs[p].phase)
    ensures var t := Command(s, p);
      && p in t.procs && t.procs[p].request == s.procs[p].request
      && (t.procs[p].phase.Failed? ==> s.procs[p].phase.Freeing?)
      && (Holding(t.procs[p].phase) || Settled(t.procs[p].phase))
  {
    OwnRecordLives(s, p);
    match s.procs[p].phase
    case Committing(since, outcome) => assert Command(s, p) == Move(s, p, Storing(since, outcome, since));
    case Aborting(since, _) => assert Command(s, p) == Move(s, p, Freeing(since));
    case _ =>
  }

  lemma OwnFault(s: State, p: nat, applied: bool)
    requires Inv(s) && Timely(s) && p in s.procs && Holding(s.procs[p].phase)
    requires !Excused(s, Failure(s, p, applied), p)
    ensures var t := Failure(s, p, applied);
      && p in t.procs && t.procs[p].request == s.procs[p].request
      && (t.procs[p].phase.Failed? ==> s.procs[p].phase.Freeing? && t == Command(s, p))
      && (Holding(t.procs[p].phase) || Settled(t.procs[p].phase))
  {
    OwnerFrees(s, p);
  }

  /** Where one step leads a holder. */
  lemma HolderStep(s: State, t: State, p: nat)
    requires Inv(s) && Timely(s) && Step(s, t)
    requires p in s.procs && Holding(s.procs[p].phase) && !Excused(s, t, p)
    ensures p in t.procs && t.procs[p].request == s.procs[p].request
    ensures t.procs[p].phase.Failed? ==> Vacates(s, t, p)
    ensures Holding(t.procs[p].phase) || Settled(t.procs[p].phase)
  {
    var a :| Enabled(s, a) && t == Next(s, a);
    if a.Pass? || a.pid != p {
      OthersKeepTheirPlace(s, a, p);
    } else if a.Act? || a.Fault? {
      OwnStep(s, a, p);
      if t.procs[p].phase.Failed? {
        OwnRecordIsPending(s, p);
        OwnDeleteVacates(s, p);
      }
    }
  }

  lemma HolderStepAt(run: seq<State>, i: nat, p: nat)
    requires TimelyRun(run) && i + 1 < |run| && !Excused(run[i], run[i + 1], p)
    requires p in run[i].procs && Holding(run[i].procs[p].phase)
    ensures p in run[i + 1].procs && run[i + 1].procs[p].request == run[i].procs[p].request
    ensures run[i + 1].procs[p].phase.Failed? ==> Vacates(run[i], run[i + 1], p)
    ensures Holding(run[i + 1].procs[p].phase) || Settled(run[i + 1].procs[p].phase)
  {
    RunKeepsInv(run, i);
    StepAt(Step, run, i);
    HolderStep(run[i], run[i + 1], p);
  }

  lemma UnexcusedVacates(run: seq<State>, i: nat, j: nat, p: nat) returns (k: nat)
    requires TimelyRun(run) && i <= j < |run|
    requires p in run[i].procs && Holding(run[i].procs[p].phase)
    requires p in run[j].procs && run[j].procs[p].phase.Failed?
    requires Unexcused(run, i, j, p)
    ensures i <= k < j && p in run[k].procs && run[k].procs[p].request == run[i].procs[p].request
    ensures Vacates(run[k], run[k + 1], p)
  {
    var request := run[i].procs[p].request;
    k := FirstExit(run, i, j, (s: State) => p in s.procs && s.procs[p].request == request && Holding(s.procs[p].phase));
    HolderStepAt(run, k, p);
    SettledStays(run, k + 1, j, p);
  }

  /** Past the turn to an excuse a request deletes nothing any more. */
  predicate PastDeleting(phase: Phase) {
    Landed(phase) || Settled(phase)
  }

  lemma PastDeletingStep(s: State, t: State, p: nat)
    requires Inv(s) && Timely(s) && Step(s, t) && p in s.procs && PastDeleting(s.procs[p].phase)
    ensures p in t.procs && PastDeleting(t.procs[p].phase)
  {
    if Settled(s.procs[p].phase) {
      SettledStep(s, t, p);
    } else {
      var a :| Enabled(s, a) && t == Next(s, a);
      if a.Pass? || a.pid != p {
        OthersKeepTheirPlace(s, a, p);
      } else {
        LandedStep(s, a, p);
      }
    }
  }

  lemma LandedStep(s: State, a: Action, p: nat)
    requires Inv(s) && Timely(s) && p in s.procs && Landed(s.procs[p].phase)
    requires Enabled(s, a) && !a.Pass? && a.pid == p
    ensures p in Next(s, a).procs && Settled(Next(s, a).procs[p].phase)
  {
    OwnRecordLives(s, p);
    assert a.Act? ==> Next(s, a) == Move(s, p, Failed);
  }

  lemma PastDeletingStepAt(run: seq<State>, i: nat, p: nat)
    requires TimelyRun(run) && i + 1 < |run| && p in run[i].procs && PastDeleting(run[i].procs[p].phase)
    ensures p in run[i + 1].procs && PastDeleting(run[i + 1].procs[p].phase)
  {
    RunKeepsInv(run, i);
    StepAt(Step, run, i);
    PastDeletingStep(run[i], run[i + 1], p);
  }

  lemma {:induction false} PastDeletingStays(run: seq<State>, i: nat, j: nat, p: nat)
    requires TimelyRun(run) && i <= j < |run| && p in run[i].procs && PastDeleting(run[i].procs[p].phase)
    ensures p in run[j].procs && PastDeleting(run[j].procs[p].phase)
  {
    if i == j {
    } else {
      PastDeletingStays(run, i, j - 1, p);
      PastDeletingStepAt(run, j - 1, p);
    }
  }

  /** A fault of commitFailure ends it. */
  lemma ExcuseEnds(s: State, t: State, p: nat)
    requires Excused(s, t, p) && !Landed(s.procs[p].phase)
    ensures p in t.procs && Settled(t.procs[p].phase)
    ensures s.procs[p].phase.Freeing? ==> t.store == s.store
  {
  }

  /** The step that vacates the key is itself no excuse, and settles the request. */
  lemma VacatingSettles(s: State, t: State, p: nat)
    requires Inv(s) && Step(s, t) && Vacates(s, t, p)
    ensures !Excused(s, t, p) && p in t.procs && Settled(t.procs[p].phase)
  {
    assert Owns(s, s.procs[p]);
    if Excused(s, t, p) {
      ExcuseEnds(s, t, p);
    }
    var a :| Enabled(s, a) && t == Next(s, a);
    if a.Pass? || a.pid != p {
      OthersKeepTheirPlace(s, a, p);
    }
  }

  lemma VacatingSettlesAt(run: seq<State>, k: nat, p: nat)
    requires TimelyRun(run) && k + 1 < |run| && Vacates(run[k], run[k + 1], p)
    ensures !Excused(run[k], run[k + 1], p) && !PastDeleting(run[k].procs[p].phase)
    ensures p in run[k + 1].procs && Settled(run[k + 1].procs[p].phase)
  {
    RunKeepsInv(run, k);
    StepAt(Step, run, k);
    VacatingSettles(run[k], run[k + 1], p);
  }

  lemma SettledIsNotExcused(s: State, t: State, p: nat)
    requires p in s.procs && Settled(s.procs[p].phase)
    ensures !Excused(s, t, p)
  {
  }

  lemma ExcuseIsPastDeleting(run: seq<State>, l: nat, k: nat, p: nat)
    requires TimelyRun(run) && l < k < |run| && Excused(run[l], run[l + 1], p)
    ensures p in run[k].procs && PastDeleting(run[k].procs[p].phase)
  {
    if Landed(run[l].procs[p].phase) {
      PastDeletingStays(run, l, k, p);
    } else {
      ExcuseEnds(run[l], run[l + 1], p);
      PastDeletingStays(run, l + 1, k, p);
    }
  }

  lemma VacatedIsUnexcused(run: seq<State>, i: nat, j: nat, p: nat, k: nat, l: nat)
    requires TimelyRun(run) && i <= k < j < |run| && i <= l < j
    requires Vacates(run[k], run[k + 1], p)
    ensures !Excused(run[l], run[l + 1], p)
  {
    VacatingSettlesAt(run, k, p);
    if l > k {
      SettledStays(run, k + 1, l, p);
      SettledIsNotExcused(run[l], run[l + 1], p);
    } else if l < k && Excused(run[l], run[l + 1], p) {
      ExcuseIsPastDeleting(run, l, k, p);
    }
  }

  ghost predicate Vacated(run: seq<State>, i: nat, j: nat, p: nat)
    requires j < |run|
  {
    exists k :: i <= k < j && Vacates(run[k], run[k + 1], p)
  }

  lemma VacatedRunIsUnexcused(run: seq<State>, i: nat, j: nat, p: nat)
    requires TimelyRun(run) && i <= j < |run| && Vacated(run, i, j, p)
    ensures Unexcused(run, i, j, p)
  {
    var k :| i <= k < j && Vacates(run[k], run[k + 1], p);
    forall l | i <= l < j ensures !Excused(run[l], run[l + 1], p) {
      VacatedIsUnexcused(run, i, j, p, k, l);
    }
  }

  /** A request that held the key and ends in an error has deleted its own pending
      record on the way exactly when it was not excused. */
  lemma FailedRequestFreedTheKey(run: seq<State>, i: nat, j: nat, p: nat)
    requires TimelyRun(run) && i <= j < |run|
    requires p in run[i].procs && Holding(run[i].procs[p].phase)
    requires p in run[j].procs && run[j].procs[p].phase.Failed?
    ensures Vacated(run, i, j, p) <==> Unexcused(run, i, j, p)
  {
    if Unexcused(run, i, j, p) {
      var k := UnexcusedVacates(run, i, j, p);
    }
    if Vacated(run, i, j, p) {
      VacatedRunIsUnexcused(run, i, j, p);
    }
  }

  /** The SET NX of some request takes a vacant key, even if it reports an error. */
  ghost predicate Taken(s: State, t: State, key: string) {
    && Vacant(s, key) && key in t.store
    && exists q :: q in s.procs && s.procs[q].phase.Claiming? && s.procs[q].request.key == key
                   && (t == Command(s, q) || t == Failure(s, q, true))
  }

  lemma NoNewHolder(s: State, a: Action, p: nat)
    requires Enabled(s, a) && p in Next(s, a).procs && Holding(Next(s, a).procs[p].phase)
    ensures p in s.procs && Next(s, a).procs[p].request == s.procs[p].request
    ensures Holding(s.procs[p].phase) || s.procs[p].request.key in Next(s, a).store
  {
    if a.Pass? || a.pid != p {
      if p in s.procs {
        OthersKeepTheirPlace(s, a, p);
      }
    }
  }

  lemma VacantStep(s: State, t: State, key: string)
    requires Step(s, t) && Vacant(s, key)
    ensures Vacant(t, key) || Taken(s, t, key)
  {
    var a :| Enabled(s, a) && t == Next(s, a);
    if key in t.store {
      assert (a.Act? || a.Fault?) && s.procs[a.pid].phase.Claiming? && s.procs[a.pid].request.key == key;
      assert a.Fault? ==> t == Failure(s, a.pid, true);
    } else {
      forall p | p in t.procs && Holding(t.procs[p].phase) ensures t.procs[p].request.key != key {
        NoNewHolder(s, a, p);
      }
    }
  }

  lemma VacantUntilTaken(run: seq<State>, i: nat, j: nat, key: string) returns (l: nat)
    requires IsPath(Step, run) && i <= j < |run| && Vacant(run[i], key)
    ensures Vacant(run[j], key) || (i <= l < j && Taken(run[l], run[l + 1], key))
  {
    l := i;
    if !Vacant(run[j], key) {
      l := FirstExit(run, i, j, (s: State) => Vacant(s, key));
      StepAt(Step, run, l);
      VacantStep(run[l], run[l + 1], key);
    }
  }

  /** After a request failed, whatever the others do, the next begin on its key is
      NEW unless another request took the key in between. */
  lemma RetryAfterFailure(run: seq<State>, i: nat, j: nat, p: nat, q: nat) returns (l: nat)
    requires TimelyRun(run) && i <= j < |run|
    requires p in run[i].procs && Holding(run[i].procs[p].phase)
    requires p in run[j].procs && run[j].procs[p].phase.Failed?
    requires Unexcused(run, i, j, p)
    requires q in run[j].procs && run[j].procs[q].request.key == run[i].procs[p].request.key
    ensures var s, key := run[j], run[i].procs[p].request.key;
      || (i <= l < j && Taken(run[l], run[l + 1], key))
      || (&& (s.procs[q].phase.Reading? ==> Command(Command(s, q), q).procs[q].phase == Handling(s.now))
          && (s.procs[q].phase.Claiming? ==> Command(s, q).procs[q].phase == Handling(s.now)))
  {
    var k := UnexcusedVacates(run, i, j, p);
    l := VacantUntilTaken(run, k + 1, j, run[i].procs[p].request.key);
  }

  ghost predicate HeldUnderAnotherHash(s: State, request: Request) {
    var record := GetRecord(s.store, s.now, request.key);
    record.Some? && record.value.requestHash != request.hash
  }

  /** A request that meets only live records of another hash gets CONFLICT, unless
      an error or a crash of its own stops it. */
  lemma {:induction false} AnotherHashGivesConflict(run: seq<State>, p: nat, request: Request, i: nat)
    requires IsPath(Step, run) && p in run[0].procs && run[0].procs[p] == Proc(request, Reading)
    requires forall k :: 0 <= k < |run| ==> HeldUnderAnotherHash(run[k], request)
    requires i < |run|
    ensures p in run[i].procs && Refused(run[i].procs[p], request)
  {
    if i == 0 {
    } else {
      AnotherHashGivesConflict(run, p, request, i - 1);
      StepAt(Step, run, i - 1);
      var a :| Enabled(run[i - 1], a) && run[i] == Next(run[i - 1], a);
      assert HeldUnderAnotherHash(run[i - 1], request);
      ConflictStep(run[i - 1], p, request, a);
    }
  }

  predicate Refused(proc: Proc, request: Request) {
    proc.request == request && proc.phase in {Reading, Answered(Conflict), Failed, Crashed}
  }

  lemma ConflictStep(s: State, p: nat, request: Request, a: Action)
    requires Enabled(s, a) && HeldUnderAnotherHash(s, request)
    requires p in s.procs && Refused(s.procs[p], request)
    ensures p in Next(s, a).procs && Refused(Next(s, a).procs[p], request)
  {
    if a == Act(p) && s.procs[p].phase.Reading? {
      assert Command(s, p).procs[p] == Proc(request, Answered(Conflict));
    }
  }

  // ----- how slow a request may be

  ghost predicate Exclusive(run: seq<State>) {
    forall i :: 0 <= i < |run| ==> Exclusion(run[i])
  }

  /** No handler begins under a key while an outcome stored under it lives. */
  ghost predicate NoSecondHandler(run: seq<State>) {
    forall i :: 0 <= i < |run| ==> LateBegins(run[i].log)
  }

  /** Whoever is about to delete a record finds its own pending one. */
  ghost predicate OwnDeletes(run: seq<State>) {
    forall i, p :: 0 <= i < |run| && p in run[i].procs && run[i].procs[p].phase.Freeing? ==>
      DeletesItsOwn(run[i], run[i].procs[p])
  }

  lemma Extend(run: seq<State>, a: Action, bound: nat) returns (longer: seq<State>)
    requires RunWithin(run, bound)
    requires Enabled(run[|run| - 1], a) && Within(Next(run[|run| - 1], a), bound)
    ensures longer == run + [Next(run[|run| - 1], a)] && RunWithin(longer, bound)
  {
    longer := run + [Next(run[|run| - 1], a)];
    assert Step(run[|run| - 1], Next(run[|run| - 1], a));
    ExtendPath(Step, run, Next(run[|run| - 1], a));
  }

  function PendingStore(request: Request, at: nat): Store<Raw> {
    map[request.key := Timed(Readable(Pending(request.hash, at)), at + PENDING_TTL)]
  }

  /** A new request finds its key free and takes it. */
  lemma Enter(run: seq<State>, pid: nat, request: Request, bound: nat) returns (longer: seq<State>)
    requires RunWithin(run, bound) && bound > 0
    requires var s := run[|run| - 1]; pid !in s.procs && Get(s.store, s.now, request.key).None?
    ensures RunWithin(longer, bound)
    ensures var s := run[|run| - 1];
      longer[|longer| - 1] == State(
        s.now, s.store + PendingStore(request, s.now), s.procs[pid := Proc(request, Handling(s.now))],
        s.log + [Begun(request.key, request.hash, s.now)])
  {
    var s := run[|run| - 1];
    longer := Extend(run, Arrive(pid, request), bound);
    longer := Extend(longer, Act(pid), bound);
    assert longer[|longer| - 1] == s.(procs := s.procs[pid := Proc(request, Claiming)]);
    longer := Extend(longer, Act(pid), bound);
    assert longer[|longer| - 1].store == s.store + PendingStore(request, s.now);
  }

  /** A handler that outlives PENDING_TTL lets a second one in. */
  lemma SlowHandlerIsNotAlone(request: Request, bound: nat) returns (run: seq<State>)
    requires bound > PENDING_TTL
    ensures RunWithin(run, bound)
    ensures run[|run| - 1] == State(
      PENDING_TTL, PendingStore(request, PENDING_TTL),
      map[0 := Proc(request, Handling(0)), 1 := Proc(request, Handling(PENDING_TTL))],
      [Begun(request.key, request.hash, 0), Begun(request.key, request.hash, PENDING_TTL)])
  {
    run := Enter([INITIAL], 0, request, bound);
    assert run[|run| - 1].store == PendingStore(request, 0);
    run := Extend(run, Pass(PENDING_TTL), bound);
    run := Enter(run, 1, request, bound);
  }

  /** When it then throws, it is about to delete the record of the second. */
  lemma SlowHandlerDeletesAnothers(request: Request, bound: nat) returns (run: seq<State>)
    requires bound > PENDING_TTL
    ensures RunWithin(run, bound) && !OwnDeletes(run)
    ensures run[|run| - 1] == State(
      PENDING_TTL, PendingStore(request, PENDING_TTL),
      map[0 := Proc(request, Freeing(0)), 1 := Proc(request, Handling(PENDING_TTL))],
      [Begun(request.key, request.hash, 0), Begun(request.key, request.hash, PENDING_TTL)])
  {
    run := SlowHandlerIsNotAlone(request, bound);
    run := Extend(run, HandlerThrows(0), bound);
    run := Extend(run, Act(0), bound);
    assert !DeletesItsOwn(run[|run| - 1], run[|run| - 1].procs[0]);
  }

  /** The second stores its outcome, */
  lemma SecondHandlerStores(request: Request, bound: nat) returns (run: seq<State>)
    requires bound > PENDING_TTL
    ensures RunWithin(run, bound)
    ensures var s := run[|run| - 1]; var outcome := Outcome(201, None);
      && s.now == PENDING_TTL && s.store.Keys == {request.key} && |s.log| > 0
      && s.procs == map[0 := Proc(request, Freeing(0)), 1 := Proc(request, Finished(outcome))]
      && s.log[|s.log| - 1] == Stored(request.key, request.hash, PENDING_TTL, outcome)
  {
    run := SlowHandlerDeletesAnothers(request, bound);
    run := Extend(run, HandlerReturns(1, None, None), bound);
    assert run[|run| - 1].store == PendingStore(request, PENDING_TTL);
    run := Extend(run, Act(1), bound);
    assert run[|run| - 1].procs[1].phase == Storing(PENDING_TTL, Outcome(201, None), PENDING_TTL);
    run := Extend(run, Act(1), bound);
  }

  /** and the DEL of the first removes it. */
  lemma SlowHandlerLosesAnOutcome(request: Request, bound: nat) returns (run: seq<State>)
    requires bound > PENDING_TTL
    ensures RunWithin(run, bound)
    ensures var s := run[|run| - 1];
      && s.now == PENDING_TTL && s.store == map[] && s.procs.Keys == {0, 1} && |s.log| > 0
      && s.log[|s.log| - 1] == Stored(request.key, request.hash, PENDING_TTL, Outcome(201, None))
  {
    run := SecondHandlerStores(request, bound);
    run := Extend(run, Act(0), bound);
  }

  /** A third handler then begins beside the outcome that was to be replayed. */
  lemma SlowHandlerLetsAnotherIn(request: Request, bound: nat) returns (run: seq<State>)
    requires bound > PENDING_TTL
    ensures RunWithin(run, bound) && !NoSecondHandler(run)
  {
    run := SlowHandlerLosesAnOutcome(request, bound);
    var past := run[|run| - 1].log;
    run := Enter(run, 2, request, bound);
    var log := run[|run| - 1].log;
    assert log[..|past|] == past && LastStored(past, request.key) == Some(past[|past| - 1]);
    assert !BeginsLate(log[..|past|], log[|past|]);
  }

  /** Exclusion of handlers, deletion of one's own record only, and no handler
      beside a living outcome each hold in all runs whose requests finish within
      a bound, exactly when that bound is at most PENDING_TTL. */
  lemma PendingTtlIsTheBound(bound: nat)
    ensures (forall run :: RunWithin(run, bound) ==> Exclusive(run)) <==> bound <= PENDING_TTL
    ensures (forall run :: RunWithin(run, bound) ==> OwnDeletes(run)) <==> bound <= PENDING_TTL
    ensures (forall run :: RunWithin(run, bound) ==> NoSecondHandler(run)) <==> bound <= PENDING_TTL
  {
    if bound <= PENDING_TTL {
      forall run: seq<State> | RunWithin(run, bound) ensures Exclusive(run) && OwnDeletes(run) && NoSecondHandler(run) {
        TimelyRunIsSafe(run);
      }
    } else {
      var request := Request("key", "hash");
      var run1 := SlowHandlerIsNotAlone(request, bound);
      assert !Exclusion(run1[|run1| - 1]) by {
        var s := run1[|run1| - 1];
        assert Holding(s.procs[0].phase) && Holding(s.procs[1].phase);
        assert s.procs[0].request.key == s.procs[1].request.key;
      }
      var run2 := SlowHandlerDeletesAnothers(request, bound);
      var run3 := SlowHandlerLetsAnotherIn(request, bound);
      assert !Exclusive(run1) && !OwnDeletes(run2) && !NoSecondHandler(run3);
    }
  }

  lemma TimelyRunIsSafe(run: seq<State>)
    requires TimelyRun(run)
    ensures Exclusive(run) && OwnDeletes(run) && NoSecondHandler(run)
  {
    forall i | 0 <= i < |run| ensures Inv(run[i]) {
      RunKeepsInv(run, i);
    }
    forall i, p | 0 <= i < |run| && p in run[i].procs && run[i].procs[p].phase.Freeing?
      ensures DeletesItsOwn(run[i], run[i].procs[p])
    {
      OwnRecordIsPending(run[i], p);
    }
  }
}
