/**
 The idempotency protocol as a state machine. Every Redis command of begin,
 commitSuccess and commitFailure is one step, so the steps of different
 requests interleave in any way the clock allows; any command may throw, with or
 without effect, and any process may crash. The interceptor fixes the order:
 begin, then the handler if begin answered NEW, then one of the commits.
 */
module IdempotencyProtocol {
  import opened Wrappers
  import opened Redis
  import opened Idempotency
  import opened Runs

  datatype Request = Request(key: string, hash: string)

  /** Where one request stands; `since` is the instant its SET NX succeeded. */
  datatype Phase =
    | Reading                                                   // GET of begin is next
    | Claiming                                                  // SET NX is next
    | Rereading                                                 // SET NX lost, GET is next
    | Answered(result: BeginResult)                             // begin answered, not NEW
    | Handling(since: nat)                                      // begin answered NEW, the handler runs
    | Committing(since: nat, outcome: Outcome)                  // GET of commitSuccess is next
    | Storing(since: nat, outcome: Outcome, createdAt: nat)     // SETEX is next
    | Aborting(since: nat, stored: bool)                        // GET of commitFailure is next; did the SETEX land?
    | Freeing(since: nat)                                       // DEL is next
    | Finished(outcome: Outcome)                                // the handler's reply was sent
    | Failed                                                    // an error was sent
    | Crashed                                                   // the process died, nothing is sent

  /** Between NEW and the last store write of the request. */
  predicate Holding(phase: Phase) {
    phase.Handling? || phase.Committing? || phase.Storing? || phase.Aborting? || phase.Freeing?
  }

  /** The client has its answer, or never will. */
  predicate Settled(phase: Phase) {
    phase.Answered? || phase.Finished? || phase.Failed? || phase.Crashed?
  }

  datatype Proc = Proc(request: Request, phase: Phase)

  /** History of the run; `at` is the instant of the store command. */
  datatype Event =
    | Begun(key: string, hash: string, at: nat)
    | Returned(key: string, hash: string, at: nat, outcome: Outcome)
    | Stored(key: string, hash: string, at: nat, outcome: Outcome)
    | Replayed(key: string, hash: string, at: nat, outcome: Outcome)

  datatype State = State(now: nat, store: Store<Raw>, procs: map<nat, Proc>, log: seq<Event>)

  datatype Action =
    | Arrive(pid: nat, request: Request)
    | Pass(elapsed: nat)
    | Act(pid: nat)                                             // the next Redis command of pid
    | HandlerReturns(pid: nat, status: Option<nat>, response: Option<string>)
    | HandlerThrows(pid: nat)
    | Fault(pid: nat, applied: bool)                            // the next command throws, with or without effect
    | Crash(pid: nat)

  const INITIAL := State(0, map[], map[], [])

  // ----- steps

  function Move(s: State, pid: nat, phase: Phase): State
    requires pid in s.procs
  {
    s.(procs := s.procs[pid := s.procs[pid].(phase := phase)])
  }

  /** The answer begin draws from a record it has read. */
  function Answer(s: State, pid: nat, record: Record): State
    requires pid in s.procs
  {
    var request := s.procs[pid].request;
    var result := ToBeginResult(record, request.hash);
    var t := Move(s, pid, Answered(result));
    match result
    case Replay(outcome) => t.(log := t.log + [Replayed(request.key, request.hash, s.now, outcome)])
    case _ => t
  }

  function StoreOutcome(s: State, pid: nat, outcome: Outcome, createdAt: nat): State
    requires pid in s.procs
  {
    var request := s.procs[pid].request;
    var record := Committed(request.hash, createdAt, outcome);
    s.(store := SetEx(s.store, s.now, request.key, COMMITTED_TTL, Readable(record)),
       log := s.log + [Stored(request.key, request.hash, s.now, outcome)])
  }

  function Command(s: State, pid: nat): State
    requires pid in s.procs
  {
    var Proc(request, phase) := s.procs[pid];
    match phase
    case Reading =>
      (match GetRecord(s.store, s.now, request.key)
       case Some(record) => Answer(s, pid, record)
       case None => Move(s, pid, Claiming))
    case Claiming =>
      var (store, claimed) := SetNx(s.store, s.now, request.key, PENDING_TTL, Readable(Pending(request.hash, s.now)));
      if claimed
      then Move(s, pid, Handling(s.now)).(store := store, log := s.log + [Begun(request.key, request.hash, s.now)])
      else Move(s, pid, Rereading)
    case Rereading =>
      (match GetRecord(s.store, s.now, request.key)
       case Some(record) => Answer(s, pid, record)
       case None => Move(s, pid, Answered(InProgress)))
    case Committing(since, outcome) =>
      (match GetRecord(s.store, s.now, request.key)
       case Some(record) =>
         if record.requestHash != request.hash then Move(s, pid, Finished(outcome))
         else Move(s, pid, Storing(since, outcome, record.createdAt))
       case None => Move(s, pid, Storing(since, outcome, s.now)))
    case Storing(since, outcome, createdAt) =>
      Move(StoreOutcome(s, pid, outcome, createdAt), pid, Finished(outcome))
    case Aborting(since, _) =>
      (match GetRecord(s.store, s.now, request.key)
       case Some(record) =>
         if record.Pending? && record.requestHash == request.hash then Move(s, pid, Freeing(since))
         else Move(s, pid, Failed)
       case None => Move(s, pid, Failed))
    case Freeing(_) => Move(s, pid, Failed).(store := Del(s.store, request.key))
    case _ => s
  }

  /** An error in begin goes to the client; one in commitSuccess leads to
      commitFailure; one in commitFailure is swallowed. */
  function Failure(s: State, pid: nat, applied: bool): State
    requires pid in s.procs
  {
    var Proc(request, phase) := s.procs[pid];
    match phase
    case Reading => Move(s, pid, Failed)
    case Claiming =>
      var (store, _) := SetNx(s.store, s.now, request.key, PENDING_TTL, Readable(Pending(request.hash, s.now)));
      Move(s, pid, Failed).(store := if applied then store else s.store)
    case Rereading => Move(s, pid, Failed)
    case Committing(since, _) => Move(s, pid, Aborting(since, false))
    case Storing(since, outcome, createdAt) =>
      Move(if applied then StoreOutcome(s, pid, outcome, createdAt) else s, pid, Aborting(since, applied))
    case Aborting(_, _) => Move(s, pid, Failed)
    case Freeing(_) =>
      Move(s, pid, Failed).(store := if applied then Del(s.store, request.key) else s.store)
    case _ => s
  }

  function HandlerDone(s: State, pid: nat, outcome: Outcome): State
    requires pid in s.procs && s.procs[pid].phase.Handling?
  {
    var Proc(request, phase) := s.procs[pid];
    Move(s, pid, Committing(phase.since, outcome))
      .(log := s.log + [Returned(request.key, request.hash, s.now, outcome)])
  }

  predicate Enabled(s: State, a: Action) {
    match a
    case Arrive(pid, _) => pid !in s.procs
    case Pass(_) => true
    case Act(pid) => pid in s.procs
    case HandlerReturns(pid, _, _) => pid in s.procs && s.procs[pid].phase.Handling?
    case HandlerThrows(pid) => pid in s.procs && s.procs[pid].phase.Handling?
    case Fault(pid, _) => pid in s.procs
    case Crash(pid) => pid in s.procs && !Settled(s.procs[pid].phase)
  }

  function Next(s: State, a: Action): State
    requires Enabled(s, a)
  {
    match a
    case Arrive(pid, request) => s.(procs := s.procs[pid := Proc(request, Reading)])
    case Pass(elapsed) => s.(now := s.now + elapsed)
    case Act(pid) => Command(s, pid)
    case HandlerReturns(pid, status, response) =>
      HandlerDone(s, pid, Outcome(status.GetOr(201), response))
    case HandlerThrows(pid) => Move(s, pid, Aborting(s.procs[pid].phase.since, false))
    case Fault(pid, applied) => Failure(s, pid, applied)
    case Crash(pid) => Move(s, pid, Crashed)
  }

  ghost predicate Step(s: State, t: State) {
    exists a :: Enabled(s, a) && t == Next(s, a)
  }

  ghost predicate IsRun(run: seq<State>) {
    IsPath(Step, run) && run[0] == INITIAL
  }

  /** Every holder made its claim less than `bound` ago. */
  ghost predicate Within(s: State, bound: nat) {
    forall p :: p in s.procs && Holding(s.procs[p].phase) ==> s.now < s.procs[p].phase.since + bound
  }

  ghost predicate RunWithin(run: seq<State>, bound: nat) {
    IsRun(run) && forall i :: 0 <= i < |run| ==> Within(run[i], bound)
  }

  /** No request is still writing when its pending record lapses. */
  ghost predicate Timely(s: State) {
    Within(s, PENDING_TTL)
  }

  ghost predicate TimelyRun(run: seq<State>) {
    RunWithin(run, PENDING_TTL)
  }

  // ----- what the log says

  /** The last outcome stored under a key. */
  function LastStored(log: seq<Event>, key: string): (last: Option<Event>)
    ensures last.Some? ==> last.value.Stored? && last.value.key == key && last.value in log
  {
    if log == [] then None
    else
      var last := log[|log| - 1];
      if last.Stored? && last.key == key then Some(last) else LastStored(log[..|log| - 1], key)
  }

  /** A handler of a request with this key and hash returned this outcome. */
  ghost predicate WasReturned(log: seq<Event>, key: string, hash: string, outcome: Outcome) {
    exists i :: 0 <= i < |log| && log[i].Returned?
      && log[i].key == key && log[i].hash == hash && log[i].outcome == outcome
  }

  /** A replay repeats the outcome then committed under its key and hash; what is
      stored was returned by a handler. */
  ghost predicate Justified(past: seq<Event>, e: Event) {
    match e
    case Replayed(key, hash, at, outcome) =>
      var last := LastStored(past, key);
      last.Some? && last.value.hash == hash && last.value.outcome == outcome && at < last.value.at + COMMITTED_TTL
    case Stored(key, hash, _, outcome) => WasReturned(past, key, hash, outcome)
    case _ => true
  }

  ghost predicate Faithful(log: seq<Event>) {
    && (forall i :: 0 <= i < |log| ==> Justified(log[..i], log[i]))
    && (forall i, j :: 0 <= i < j < |log| ==> log[i].at <= log[j].at)
  }

  lemma FaithfulAppend(log: seq<Event>, e: Event)
    requires Faithful(log) && Justified(log, e) && forall i :: 0 <= i < |log| ==> log[i].at <= e.at
    ensures Faithful(log + [e])
  {
    forall i | 0 <= i < |log + [e]| ensures Justified((log + [e])[..i], (log + [e])[i]) {
      assert (log + [e])[..i] == log[..i];
      assert i == |log| ==> log[..i] == log;
    }
  }

  lemma LastStoredAppend(log: seq<Event>, e: Event, key: string)
    ensures LastStored(log + [e], key) == if e.Stored? && e.key == key then Some(e) else LastStored(log, key)
  {
    assert (log + [e])[..|log + [e]| - 1] == log;
  }

  lemma WasReturnedGrows(log: seq<Event>, e: Event)
    ensures forall k, h, o :: WasReturned(log, k, h, o) ==> WasReturned(log + [e], k, h, o)
  {
    forall k, h, o | WasReturned(log, k, h, o) ensures WasReturned(log + [e], k, h, o) {
      var i :| 0 <= i < |log| && log[i].Returned? && log[i].key == k && log[i].hash == h && log[i].outcome == o;
      assert (log + [e])[i] == log[i];
    }
  }

  // ----- the invariant of all runs

  /** A begin of a request with this key and hash replayed this outcome. */
  ghost predicate WasReplayed(log: seq<Event>, key: string, hash: string, outcome: Outcome) {
    exists i :: 0 <= i < |log| && log[i].Replayed?
      && log[i].key == key && log[i].hash == hash && log[i].outcome == outcome
  }

  lemma WasReplayedGrows(log: seq<Event>, e: Event)
    ensures forall k, h, o :: WasReplayed(log, k, h, o) ==> WasReplayed(log + [e], k, h, o)
  {
    forall k, h, o | WasReplayed(log, k, h, o) ensures WasReplayed(log + [e], k, h, o) {
      var i :| 0 <= i < |log| && log[i].Replayed? && log[i].key == k && log[i].hash == h && log[i].outcome == o;
      assert (log + [e])[i] == log[i];
    }
  }

  /** An outcome on its way to the store or to the client was returned by the
      request's handler, or replayed to it. */
  ghost predicate Carries(log: seq<Event>, proc: Proc) {
    var Proc(request, phase) := proc;
    && (phase.Committing? || phase.Storing? || phase.Finished? ==>
          WasReturned(log, request.key, request.hash, phase.outcome))
    && (phase.Answered? && phase.result.Replay? ==>
          WasReplayed(log, request.key, request.hash, phase.result.outcome))
  }

  /** A pending record lapses PENDING_TTL after its creation; a committed one is
      the outcome last stored under its key. */
  ghost predicate Recorded(log: seq<Event>, key: string, entry: Timed<Raw>) {
    && entry.value.Readable?
    && (entry.value.record.Pending? ==> entry.deadline == entry.value.record.createdAt + PENDING_TTL)
    && (entry.value.record.Committed? ==>
          var last := LastStored(log, key);
          && last.Some?
          && last.value.hash == entry.value.record.requestHash
          && last.value.outcome == entry.value.record.outcome
          && last.value.at + COMMITTED_TTL == entry.deadline)
  }

  ghost predicate Honest(s: State) {
    && (forall p :: p in s.procs ==> Carries(s.log, s.procs[p]))
    && (forall k :: k in s.store ==> Recorded(s.log, k, s.store[k]))
    && Faithful(s.log)
    && (forall i :: 0 <= i < |s.log| ==> s.log[i].at <= s.now)
  }

  lemma MoveKeepsHonest(s: State, pid: nat, phase: Phase)
    requires Honest(s) && pid in s.procs && Carries(s.log, Proc(s.procs[pid].request, phase))
    ensures Honest(Move(s, pid, phase))
  {
  }

  lemma NoteKeepsHonest(s: State, e: Event)
    requires Honest(s) && !e.Stored? && Justified(s.log, e) && e.at == s.now
    ensures Honest(s.(log := s.log + [e]))
  {
    FaithfulAppend(s.log, e);
    WasReturnedGrows(s.log, e);
    WasReplayedGrows(s.log, e);
    forall k ensures LastStored(s.log + [e], k) == LastStored(s.log, k) {
      LastStoredAppend(s.log, e, k);
    }
  }

  lemma ReplayIsJustified(s: State, key: string, record: Record)
    requires Honest(s) && GetRecord(s.store, s.now, key) == Some(record) && record.Committed?
    ensures Justified(s.log, Replayed(key, record.requestHash, s.now, record.outcome))
  {
    assert Recorded(s.log, key, s.store[key]);
  }

  lemma ReplayKeepsHonest(s: State, pid: nat, outcome: Outcome)
    requires Honest(s) && pid in s.procs
    requires var request := s.procs[pid].request; Justified(s.log, Replayed(request.key, request.hash, s.now, outcome))
    ensures var request := s.procs[pid].request;
      Honest(Move(s, pid, Answered(Replay(outcome)))
             .(log := s.log + [Replayed(request.key, request.hash, s.now, outcome)]))
  {
    var request := s.procs[pid].request;
    var e := Replayed(request.key, request.hash, s.now, outcome);
    var t := s.(log := s.log + [e]);
    NoteKeepsHonest(s, e);
    assert WasReplayed(t.log, request.key, request.hash, outcome) by {
      assert t.log[|s.log|] == e;
    }
    MoveKeepsHonest(t, pid, Answered(Replay(outcome)));
  }

  lemma AnswerKeepsHonest(s: State, pid: nat, record: Record)
    requires Honest(s) && pid in s.procs
    requires GetRecord(s.store, s.now, s.procs[pid].request.key) == Some(record)
    ensures Honest(Answer(s, pid, record))
  {
    var request := s.procs[pid].request;
    var result := ToBeginResult(record, request.hash);
    if result.Replay? {
      ReplayIsJustified(s, request.key, record);
      ReplayKeepsHonest(s, pid, result.outcome);
    } else {
      MoveKeepsHonest(s, pid, Answered(result));
    }
  }

  ghost predicate IsPendingEntry(entry: Timed<Raw>) {
    entry.value.Readable? && entry.value.record.Pending? && entry.deadline == entry.value.record.createdAt + PENDING_TTL
  }

  /** Pending records may come and any record may go. */
  lemma WriteKeepsHonest(s: State, store: Store<Raw>)
    requires Honest(s)
    requires forall k :: k in store ==>
      (k in s.store && store[k] == s.store[k]) || IsPendingEntry(store[k])
    ensures Honest(s.(store := store))
  {
  }

  lemma StoreKeepsHonest(s: State, pid: nat, outcome: Outcome, createdAt: nat)
    requires Honest(s) && pid in s.procs
    requires WasReturned(s.log, s.procs[pid].request.key, s.procs[pid].request.hash, outcome)
    ensures Honest(StoreOutcome(s, pid, outcome, createdAt))
  {
    var t := StoreOutcome(s, pid, outcome, createdAt);
    var e := t.log[|s.log|];
    FaithfulAppend(s.log, e);
    WasReturnedGrows(s.log, e);
    WasReplayedGrows(s.log, e);
    forall k | k in t.store ensures Recorded(t.log, k, t.store[k]) {
      LastStoredAppend(s.log, e, k);
      assert k != e.key ==> Recorded(s.log, k, s.store[k]);
    }
  }

  lemma ReturnKeepsHonest(s: State, pid: nat, outcome: Outcome)
    requires Honest(s) && pid in s.procs && s.procs[pid].phase.Handling?
    ensures Honest(HandlerDone(s, pid, outcome))
  {
    var Proc(request, phase) := s.procs[pid];
    var e := Returned(request.key, request.hash, s.now, outcome);
    var t := s.(log := s.log + [e]);
    NoteKeepsHonest(s, e);
    assert t.log[|s.log|] == e;
    MoveKeepsHonest(t, pid, Committing(phase.since, outcome));
  }

  lemma ClaimKeepsHonest(s: State, pid: nat)
    requires Honest(s) && pid in s.procs && s.procs[pid].phase.Claiming?
    ensures Honest(Command(s, pid)) && forall applied :: Honest(Failure(s, pid, applied))
  {
    var request := s.procs[pid].request;
    var (store, claimed) := SetNx(s.store, s.now, request.key, PENDING_TTL, Readable(Pending(request.hash, s.now)));
    WriteKeepsHonest(s, store);
    var t := s.(store := store);
    MoveKeepsHonest(t, pid, Failed);
    MoveKeepsHonest(s, pid, Failed);
    MoveKeepsHonest(t, pid, Rereading);
    MoveKeepsHonest(t, pid, Handling(s.now));
    NoteKeepsHonest(Move(t, pid, Handling(s.now)), Begun(request.key, request.hash, s.now));
  }

  lemma FreeKeepsHonest(s: State, pid: nat)
    requires Honest(s) && pid in s.procs
    ensures Honest(Move(s, pid, Failed).(store := Del(s.store, s.procs[pid].request.key)))
  {
    MoveKeepsHonest(s, pid, Failed);
    WriteKeepsHonest(Move(s, pid, Failed), Del(s.store, s.procs[pid].request.key));
  }

  lemma CommandKeepsHonest(s: State, pid: nat)
    requires Honest(s) && pid in s.procs
    ensures Honest(Command(s, pid))
  {
    var Proc(request, phase) := s.procs[pid];
    var record := GetRecord(s.store, s.now, request.key);
    assert Carries(s.log, s.procs[pid]);
    match phase
    case Reading =>
      if record.Some? { AnswerKeepsHonest(s, pid, record.value); } else { MoveKeepsHonest(s, pid, Claiming); }
    case Rereading =>
      if record.Some? {
        AnswerKeepsHonest(s, pid, record.value);
      } else {
        MoveKeepsHonest(s, pid, Answered(InProgress));
      }
    case Claiming => ClaimKeepsHonest(s, pid);
    case Committing(_, _) => MoveKeepsHonest(s, pid, Command(s, pid).procs[pid].phase);
    case Storing(_, outcome, createdAt) =>
      StoreKeepsHonest(s, pid, outcome, createdAt);
      MoveKeepsHonest(StoreOutcome(s, pid, outcome, createdAt), pid, Finished(outcome));
    case Aborting(_, _) => MoveKeepsHonest(s, pid, Command(s, pid).procs[pid].phase);
    case Freeing(_) => FreeKeepsHonest(s, pid);
    case _ =>
  }

  lemma FailureKeepsHonest(s: State, pid: nat, applied: bool)
    requires Honest(s) && pid in s.procs
    ensures Honest(Failure(s, pid, applied))
  {
    assert Carries(s.log, s.procs[pid]);
    match s.procs[pid].phase
    case Claiming => ClaimKeepsHonest(s, pid);
    case Storing(since, outcome, createdAt) =>
      StoreKeepsHonest(s, pid, outcome, createdAt);
      MoveKeepsHonest(StoreOutcome(s, pid, outcome, createdAt), pid, Aborting(since, true));
      MoveKeepsHonest(s, pid, Aborting(since, false));
    case Freeing(_) =>
      FreeKeepsHonest(s, pid);
      MoveKeepsHonest(s, pid, Failed);
    case _ => MoveKeepsHonest(s, pid, Failure(s, pid, applied).procs[pid].phase);
  }

  lemma StepKeepsHonest(s: State, a: Action)
    requires Honest(s) && Enabled(s, a)
    ensures Honest(Next(s, a))
  {
    match a
    case Act(pid) => CommandKeepsHonest(s, pid);
    case Fault(pid, applied) => FailureKeepsHonest(s, pid, applied);
    case HandlerReturns(pid, status, response) => ReturnKeepsHonest(s, pid, Outcome(status.GetOr(201), response));
    case HandlerThrows(pid) => MoveKeepsHonest(s, pid, Aborting(s.procs[pid].phase.since, false));
    case Crash(pid) => MoveKeepsHonest(s, pid, Crashed);
    case Arrive(_, _) =>
    case Pass(_) =>
  }

  lemma {:induction false} RunKeepsHonest(run: seq<State>, i: nat)
    requires IsRun(run) && i < |run|
    ensures Honest(run[i])
  {
    if i == 0 {
    } else {
      RunKeepsHonest(run, i - 1);
      StepAt(Step, run, i - 1);
      var a :| Enabled(run[i - 1], a) && run[i] == Next(run[i - 1], a);
      StepKeepsHonest(run[i - 1], a);
    }
  }

  // ----- the invariant of timely runs

  /** The record a holder wrote is still there, untouched. */
  ghost predicate Owns(s: State, proc: Proc)
    requires Holding(proc.phase)
  {
    var key, since := proc.request.key, proc.phase.since;
    && since <= s.now
    && key in s.store
    && s.store[key].deadline >= since + PENDING_TTL
    && s.store[key].value.Readable?
    && s.store[key].value.record.requestHash == proc.request.hash
    && (s.store[key].value.record.Pending? ==> s.store[key].value.record.createdAt == since)
    && (proc.phase.Aborting? && proc.phase.stored <==> s.store[key].value.record.Committed?)
    && (proc.phase.Storing? ==> proc.phase.createdAt == since)
  }

  ghost predicate Ownership(s: State) {
    forall p :: p in s.procs && Holding(s.procs[p].phase) ==> Owns(s, s.procs[p])
  }

  ghost predicate Exclusion(s: State) {
    forall p, q :: p in s.procs && q in s.procs && Holding(s.procs[p].phase) && Holding(s.procs[q].phase) ==>
      s.procs[p].request.key == s.procs[q].request.key ==> p == q
  }

  /** A stored outcome stays in the store as long as it lives. */
  ghost predicate OutcomesKept(s: State) {
    forall k :: LastStored(s.log, k).Some? && s.now < LastStored(s.log, k).value.at + COMMITTED_TTL ==>
      k in s.store && s.store[k].value.Readable? && s.store[k].value.record.Committed?
  }

  /** A handler begins only when no stored outcome lives. */
  ghost predicate BeginsLate(past: seq<Event>, e: Event) {
    e.Begun? && LastStored(past, e.key).Some? ==> LastStored(past, e.key).value.at + COMMITTED_TTL <= e.at
  }

  ghost predicate LateBegins(log: seq<Event>) {
    forall i :: 0 <= i < |log| ==> BeginsLate(log[..i], log[i])
  }

  ghost predicate Guarded(s: State) {
    Ownership(s) && Exclusion(s) && OutcomesKept(s) && LateBegins(s.log)
  }

  ghost predicate Inv(s: State) {
    Honest(s) && Guarded(s)
  }

  lemma LateBeginsAppend(log: seq<Event>, e: Event)
    requires LateBegins(log) && BeginsLate(log, e)
    ensures LateBegins(log + [e])
  {
    forall i | 0 <= i < |log + [e]| ensures BeginsLate((log + [e])[..i], (log + [e])[i]) {
      assert (log + [e])[..i] == log[..i];
      assert i == |log| ==> log[..i] == log;
    }
  }

  lemma MoveKeepsGuarded(s: State, pid: nat, phase: Phase)
    requires Guarded(s) && pid in s.procs
    requires Holding(phase) ==> Holding(s.procs[pid].phase) && Owns(s, Proc(s.procs[pid].request, phase))
    ensures Guarded(Move(s, pid, phase))
  {
  }

  lemma NoteKeepsGuarded(s: State, e: Event)
    requires Guarded(s) && !e.Stored? && BeginsLate(s.log, e)
    ensures Guarded(s.(log := s.log + [e]))
  {
    LateBeginsAppend(s.log, e);
    forall k ensures LastStored(s.log + [e], k) == LastStored(s.log, k) {
      LastStoredAppend(s.log, e, k);
    }
  }

  lemma AnswerKeepsGuarded(s: State, pid: nat, record: Record)
    requires Guarded(s) && pid in s.procs
    ensures Guarded(Answer(s, pid, record))
  {
    var request := s.procs[pid].request;
    var result := ToBeginResult(record, request.hash);
    MoveKeepsGuarded(s, pid, Answered(result));
    if result.Replay? {
      NoteKeepsGuarded(Move(s, pid, Answered(result)), Replayed(request.key, request.hash, s.now, result.outcome));
    }
  }

  /** A key whose record lapsed has no holder and no living outcome. */
  lemma FreeKeyIsNobodys(s: State, key: string)
    requires Inv(s) && Timely(s) && Get(s.store, s.now, key).None?
    ensures forall p :: p in s.procs && Holding(s.procs[p].phase) ==> s.procs[p].request.key != key
    ensures LastStored(s.log, key).Some? ==> LastStored(s.log, key).value.at + COMMITTED_TTL <= s.now
  {
    forall p | p in s.procs && Holding(s.procs[p].phase) ensures s.procs[p].request.key != key {
      assert Owns(s, s.procs[p]);
    }
    assert key in s.store ==> Recorded(s.log, key, s.store[key]);
  }

  /** A pending record written over a missing or lapsed one, by a new holder or,
      when the SET NX reports an error, by nobody. */
  lemma PendingKeepsGuarded(s: State, pid: nat, store: Store<Raw>, phase: Phase)
    requires Inv(s) && Timely(s) && pid in s.procs && !Holding(s.procs[pid].phase)
    requires Get(s.store, s.now, s.procs[pid].request.key).None? && phase in {Handling(s.now), Failed}
    requires store == SetEx(s.store, s.now, s.procs[pid].request.key, PENDING_TTL,
                            Readable(Pending(s.procs[pid].request.hash, s.now)))
    ensures Guarded(Move(s, pid, phase).(store := store))
  {
    var t := Move(s, pid, phase).(store := store);
    FreeKeyIsNobodys(s, s.procs[pid].request.key);
    forall p | p in t.procs && Holding(t.procs[p].phase) ensures Owns(t, t.procs[p]) {
      assert p != pid ==> Owns(s, s.procs[p]);
    }
  }

  lemma ClaimKeepsGuarded(s: State, pid: nat)
    requires Inv(s) && Timely(s) && pid in s.procs && s.procs[pid].phase.Claiming?
    ensures Guarded(Command(s, pid)) && forall applied :: Guarded(Failure(s, pid, applied))
  {
    var request := s.procs[pid].request;
    MoveKeepsGuarded(s, pid, Failed);
    if Get(s.store, s.now, request.key).None? {
      var store := SetEx(s.store, s.now, request.key, PENDING_TTL, Readable(Pending(request.hash, s.now)));
      PendingKeepsGuarded(s, pid, store, Handling(s.now));
      PendingKeepsGuarded(s, pid, store, Failed);
      FreeKeyIsNobodys(s, request.key);
      NoteKeepsGuarded(Move(s, pid, Handling(s.now)).(store := store), Begun(request.key, request.hash, s.now));
    } else {
      MoveKeepsGuarded(s, pid, Rereading);
    }
  }

  lemma StoreKeepsGuarded(s: State, pid: nat, phase: Phase)
    requires Guarded(s) && pid in s.procs && s.procs[pid].phase.Storing?
    requires phase in {Finished(s.procs[pid].phase.outcome), Aborting(s.procs[pid].phase.since, true)}
    ensures Guarded(Move(StoreOutcome(s, pid, s.procs[pid].phase.outcome, s.procs[pid].phase.createdAt), pid, phase))
  {
    var Proc(request, Storing(since, outcome, createdAt)) := s.procs[pid];
    var u := StoreOutcome(s, pid, outcome, createdAt);
    var t := Move(u, pid, phase);
    var e := u.log[|s.log|];
    assert Owns(s, s.procs[pid]);
    LateBeginsAppend(s.log, e);
    forall p | p in t.procs && Holding(t.procs[p].phase) ensures Owns(t, t.procs[p]) {
      assert Owns(s, s.procs[p]);
    }
    forall k ensures LastStored(t.log, k) == if k == e.key then Some(e) else LastStored(s.log, k) {
      LastStoredAppend(s.log, e, k);
    }
  }

  lemma FreeKeepsGuarded(s: State, pid: nat)
    requires Inv(s) && pid in s.procs && s.procs[pid].phase.Freeing?
    ensures Guarded(Move(s, pid, Failed).(store := Del(s.store, s.procs[pid].request.key)))
  {
    assert Owns(s, s.procs[pid]);
    var t := Move(s, pid, Failed).(store := Del(s.store, s.procs[pid].request.key));
    forall p | p in t.procs && Holding(t.procs[p].phase) ensures Owns(t, t.procs[p]) {
      assert Owns(s, s.procs[p]);
    }
  }

  /** A holder in time finds its own record, committed only if it stored it. */
  lemma OwnRecordLives(s: State, pid: nat)
    requires Ownership(s) && Timely(s) && pid in s.procs && Holding(s.procs[pid].phase)
    ensures var Proc(request, phase) := s.procs[pid]; var record := GetRecord(s.store, s.now, request.key);
      && record.Some? && record.value.requestHash == request.hash
      && (record.value.Pending? ==> record.value.createdAt == phase.since)
      && (phase.Aborting? && phase.stored <==> record.value.Committed?)
  {
    assert Owns(s, s.procs[pid]);
  }

  lemma CommitReadKeepsGuarded(s: State, pid: nat)
    requires Guarded(s) && Timely(s) && pid in s.procs && s.procs[pid].phase.Committing?
    ensures Guarded(Command(s, pid))
  {
    var Committing(since, outcome) := s.procs[pid].phase;
    OwnRecordLives(s, pid);
    assert Owns(s, s.procs[pid]);
    MoveKeepsGuarded(s, pid, Storing(since, outcome, since));
  }

  lemma AbortReadKeepsGuarded(s: State, pid: nat)
    requires Guarded(s) && Timely(s) && pid in s.procs && s.procs[pid].phase.Aborting?
    ensures Guarded(Command(s, pid))
  {
    var Aborting(since, stored) := s.procs[pid].phase;
    OwnRecordLives(s, pid);
    assert Owns(s, s.procs[pid]);
    if stored {
      MoveKeepsGuarded(s, pid, Failed);
    } else {
      MoveKeepsGuarded(s, pid, Freeing(since));
    }
  }

  lemma CommandKeepsGuarded(s: State, pid: nat)
    requires Inv(s) && Timely(s) && pid in s.procs
    ensures Guarded(Command(s, pid))
  {
    var Proc(request, phase) := s.procs[pid];
    var record := GetRecord(s.store, s.now, request.key);
    match phase
    case Reading =>
      if record.Some? { AnswerKeepsGuarded(s, pid, record.value); } else { MoveKeepsGuarded(s, pid, Claiming); }
    case Rereading =>
      if record.Some? {
        AnswerKeepsGuarded(s, pid, record.value);
      } else {
        MoveKeepsGuarded(s, pid, Answered(InProgress));
      }
    case Claiming => ClaimKeepsGuarded(s, pid);
    case Committing(_, _) => CommitReadKeepsGuarded(s, pid);
    case Storing(_, outcome, _) => StoreKeepsGuarded(s, pid, Finished(outcome));
    case Aborting(_, _) => AbortReadKeepsGuarded(s, pid);
    case Freeing(_) => FreeKeepsGuarded(s, pid);
    case _ =>
  }

  lemma FailureKeepsGuarded(s: State, pid: nat, applied: bool)
    requires Inv(s) && Timely(s) && pid in s.procs
    ensures Guarded(Failure(s, pid, applied))
  {
    match s.procs[pid].phase
    case Claiming => ClaimKeepsGuarded(s, pid);
    case Storing(since, _, _) =>
      if applied {
        StoreKeepsGuarded(s, pid, Aborting(since, true));
      } else {
        MoveKeepsGuarded(s, pid, Aborting(since, false));
      }
    case Freeing(_) =>
      if applied { FreeKeepsGuarded(s, pid); } else { MoveKeepsGuarded(s, pid, Failed); }
    case _ => MoveKeepsGuarded(s, pid, Failure(s, pid, applied).procs[pid].phase);
  }

  lemma ReturnKeepsGuarded(s: State, pid: nat, outcome: Outcome)
    requires Guarded(s) && pid in s.procs && s.procs[pid].phase.Handling?
    ensures Guarded(HandlerDone(s, pid, outcome))
  {
    var Proc(request, phase) := s.procs[pid];
    var moved := Move(s, pid, Committing(phase.since, outcome));
    MoveKeepsGuarded(s, pid, Committing(phase.since, outcome));
    NoteKeepsGuarded(moved, Returned(request.key, request.hash, s.now, outcome));
  }

  lemma StepKeepsGuarded(s: State, a: Action)
    requires Inv(s) && Timely(s) && Enabled(s, a)
    ensures Guarded(Next(s, a))
  {
    match a
    case Act(pid) => CommandKeepsGuarded(s, pid);
    case Fault(pid, applied) => FailureKeepsGuarded(s, pid, applied);
    case HandlerReturns(pid, status, response) => ReturnKeepsGuarded(s, pid, Outcome(status.GetOr(201), response));
    case HandlerThrows(pid) => MoveKeepsGuarded(s, pid, Aborting(s.procs[pid].phase.since, false));
    case Crash(pid) => MoveKeepsGuarded(s, pid, Crashed);
    case Arrive(_, _) =>
    case Pass(_) =>
  }

  lemma StepKeepsInv(s: State, a: Action)
    requires Inv(s) && Timely(s) && Enabled(s, a)
    ensures Inv(Next(s, a))
  {
    StepKeepsHonest(s, a);
    StepKeepsGuarded(s, a);
  }

  lemma {:induction false} RunKeepsInv(run: seq<State>, i: nat)
    requires TimelyRun(run) && i < |run|
    ensures Inv(run[i])
  {
    if i == 0 {
    } else {
      RunKeepsInv(run, i - 1);
      StepAt(Step, run, i - 1);
      var a :| Enabled(run[i - 1], a) && run[i] == Next(run[i - 1], a);
      StepKeepsInv(run[i - 1], a);
    }
  }
}
