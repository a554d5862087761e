/**
 What becomes of an outcome: a request that finishes has stored it, and it is
 replayed for as long as it lives. Each read of the protocol is stated on the
 store entry it meets.
 */
module IdempotencyOutcomes {
  import opened Wrappers
  import opened Redis
  import opened Idempotency
  import opened IdempotencyProtocol
  import opened IdempotencyRuns
  import opened Runs

  // ----- what each read answers

  /** Both reads of begin answer by the entry they meet and write nothing. */
  lemma BeginReads(s: State, q: nat)
    requires q in s.procs && (s.procs[q].phase.Reading? || s.procs[q].phase.Rereading?)
    ensures var Proc(request, phase) := s.procs[q]; var t := Next(s, Act(q));
      && t.store == s.store && q in t.procs && t.procs[q].request == request
      && t.procs[q].phase == match Get<Raw>(s.store, s.now, request.key) {
        case Some(Readable(Pending(hash, _))) => Answered(if hash == request.hash then InProgress else Conflict)
        case Some(Readable(Committed(hash, _, outcome))) =>
          Answered(if hash == request.hash then Replay(outcome) else Conflict)
        case _ => if phase.Reading? then Claiming else Answered(InProgress)
      }
  {
  }

  /** The read of commitSuccess keeps the creation instant of the record it meets;
      a record of another request stops it. */
  lemma CommitReads(s: State, p: nat)
    requires p in s.procs && s.procs[p].phase.Committing?
    ensures var Proc(request, Committing(since, outcome)) := s.procs[p]; var t := Next(s, Act(p));
      && t.store == s.store && t.log == s.log && p in t.procs && t.procs[p].request == request
      && t.procs[p].phase == match Get<Raw>(s.store, s.now, request.key) {
        case Some(Readable(record)) =>
          if record.requestHash == request.hash then Storing(since, outcome, record.createdAt) else Finished(outcome)
        case _ => Storing(since, outcome, s.now)
      }
  {
  }

  /** The read of commitFailure goes on to the DEL for its own pending record only. */
  lemma AbortReads(s: State, p: nat)
    requires p in s.procs && s.procs[p].phase.Aborting?
    ensures var Proc(request, phase) := s.procs[p]; var t := Next(s, Act(p));
      && t.store == s.store && t.log == s.log && p in t.procs && t.procs[p].request == request
      && t.procs[p].phase == match Get<Raw>(s.store, s.now, request.key) {
        case Some(Readable(Pending(hash, _))) => if hash == request.hash then Freeing(phase.since) else Failed
        case _ => Failed
      }
  {
  }

  /** Where an error of each command leads, and what it may leave in the store: an
      error in begin ends the request, one in commitSuccess turns to commitFailure,
      one in commitFailure ends it. */
  lemma ErrorsLeadOn(s: State, p: nat, applied: bool)
    requires p in s.procs
    ensures var Proc(request, phase) := s.procs[p]; var t := Next(s, Fault(p, applied));
      && p in t.procs && t.procs[p].request == request
      && t.procs[p].phase == match phase {
        case Reading => Failed
        case Claiming => Failed
        case Rereading => Failed
        case Committing(since, _) => Aborting(since, false)
        case Storing(since, _, _) => Aborting(since, applied)
        case Aborting(_, _) => Failed
        case Freeing(_) => Failed
        case other => other
      }
      && (!applied || !(phase.Claiming? || phase.Storing? || phase.Freeing?) ==> t.store == s.store)
      && (applied && phase.Storing? ==> t.store == s.store[request.key := Timed(
            Readable(Committed(request.hash, phase.createdAt, phase.outcome)), s.now + COMMITTED_TTL)])
      && (applied && phase.Freeing? ==> t.store == s.store - {request.key})
  {
  }

  // ----- a request that finishes has stored its outcome

  ghost predicate WasStored(log: seq<Event>, request: Request, outcome: Outcome) {
    exists k, at: nat :: 0 <= k < |log| && log[k] == Stored(request.key, request.hash, at, outcome)
  }

  lemma LogGrows(s: State, a: Action)
    requires Enabled(s, a)
    ensures s.log <= Next(s, a).log
  {
    match a
    case Act(pid) => CommandGrows(s, pid);
    case Fault(pid, applied) => FailureGrows(s, pid, applied);
    case _ =>
  }

  lemma CommandGrows(s: State, pid: nat)
    requires pid in s.procs
    ensures s.log <= Command(s, pid).log
  {
  }

  lemma FailureGrows(s: State, pid: nat, applied: bool)
    requires pid in s.procs
    ensures s.log <= Failure(s, pid, applied).log
  {
  }

  lemma WasStoredStays(before: seq<Event>, after: seq<Event>, request: Request, outcome: Outcome)
    requires before <= after && WasStored(before, request, outcome)
    ensures WasStored(after, request, outcome)
  {
    var k, at: nat :| 0 <= k < |before| && before[k] == Stored(request.key, request.hash, at, outcome);
    assert after[k] == before[k];
  }

  /** The only ways to finish: write the committed record, for COMMITTED_TTL, or
      meet a record of another request. */
  lemma FinishStep(s: State, a: Action, p: nat)
    requires Enabled(s, a) && p in Next(s, a).procs && Next(s, a).procs[p].phase.Finished?
    ensures var t := Next(s, a); var Proc(request, Finished(outcome)) := t.procs[p];
      && p in s.procs && s.procs[p].request == request
      && (|| s.procs[p] == t.procs[p]
          || (&& s.procs[p].phase.Storing?
              && t.log == s.log + [Stored(request.key, request.hash, s.now, outcome)]
              && request.key in t.store
              && t.store[request.key] == Timed(
                Readable(Committed(request.hash, s.procs[p].phase.createdAt, outcome)), s.now + COMMITTED_TTL))
          || (&& s.procs[p].phase.Committing? && t.store == s.store
              && var record := GetRecord(s.store, s.now, request.key);
                record.Some? && record.value.requestHash != request.hash))
  {
    if a.Pass? || a.pid != p {
      if p in s.procs {
        OthersKeepTheirPlace(s, a, p);
      }
    } else if a.Act? && !s.procs[p].phase.Finished? {
      FinishCommand(s, p);
    }
  }

  lemma FinishCommand(s: State, p: nat)
    requires p in s.procs && Command(s, p).procs[p].phase.Finished? && !s.procs[p].phase.Finished?
    ensures var t := Command(s, p); var Proc(request, Finished(outcome)) := t.procs[p];
      && s.procs[p].request == request
      && (|| (&& s.procs[p].phase.Storing?
              && t.log == s.log + [Stored(request.key, request.hash, s.now, outcome)]
              && request.key in t.store
              && t.store[request.key] == Timed(
                Readable(Committed(request.hash, s.procs[p].phase.createdAt, outcome)), s.now + COMMITTED_TTL))
          || (&& s.procs[p].phase.Committing? && t.store == s.store
              && var record := GetRecord(s.store, s.now, request.key);
                record.Some? && record.value.requestHash != request.hash))
  {
  }

  lemma StepStores(s: State, a: Action, p: nat)
    requires Inv(s) && Timely(s) && Enabled(s, a) && p in Next(s, a).procs && Next(s, a).procs[p].phase.Finished?
    requires p in s.procs && s.procs[p].phase.Finished? ==>
      WasStored(s.log, s.procs[p].request, s.procs[p].phase.outcome)
    ensures WasStored(Next(s, a).log, Next(s, a).procs[p].request, Next(s, a).procs[p].phase.outcome)
  {
    var t := Next(s, a);
    FinishStep(s, a, p);
    if s.procs[p] == t.procs[p] {
      LogGrows(s, a);
      WasStoredStays(s.log, t.log, t.procs[p].request, t.procs[p].phase.outcome);
    } else if s.procs[p].phase.Committing? {
      OwnRecordLives(s, p);
    } else {
      var e := Stored(t.procs[p].request.key, t.procs[p].request.hash, s.now, t.procs[p].phase.outcome);
      assert t.log[|s.log|] == e;
    }
  }

  /** In timely runs a request that sent its handler's reply has stored the outcome. */
  lemma {:induction false} FinishedWasStored(run: seq<State>, i: nat, p: nat)
    requires TimelyRun(run) && i < |run| && p in run[i].procs && run[i].procs[p].phase.Finished?
    ensures WasStored(run[i].log, run[i].procs[p].request, run[i].procs[p].phase.outcome)
  {
    if i == 0 {
    } else {
      RunKeepsInv(run, i - 1);
      StepAt(Step, run, i - 1);
      var a :| Enabled(run[i - 1], a) && run[i] == Next(run[i - 1], a);
      if p in run[i - 1].procs && run[i - 1].procs[p].phase.Finished? {
        FinishedWasStored(run, i - 1, p);
      }
      StepStores(run[i - 1], a, p);
    }
  }

  // ----- and it is replayed while it lives

  lemma {:induction false} LastStoredIs(log: seq<Event>, key: string, k: nat)
    requires k < |log| && log[k].Stored? && log[k].key == key
    requires forall l :: k < l < |log| && log[l].Stored? ==> log[l].key != key
    ensures LastStored(log, key) == Some(log[k])
  {
    if k == |log| - 1 {
    } else {
      LastStoredIs(log[..|log| - 1], key, k);
    }
  }

  /** Less than COMMITTED_TTL after an outcome was stored, with no other stored under
      the key since, the store holds it, and any read of a begin replays it or, to a
      request of another hash, answers CONFLICT. */
  lemma StoredIsReplayed(run: seq<State>, i: nat, k: nat, q: nat)
    requires TimelyRun(run) && i < |run| && k < |run[i].log| && run[i].log[k].Stored?
    requires var log := run[i].log; forall l :: k < l < |log| && log[l].Stored? ==> log[l].key != log[k].key
    requires run[i].now < run[i].log[k].at + COMMITTED_TTL
    requires q in run[i].procs && run[i].procs[q].request.key == run[i].log[k].key
    requires run[i].procs[q].phase.Reading? || run[i].procs[q].phase.Rereading?
    ensures var Stored(key, hash, at, outcome) := run[i].log[k];
      && key in run[i].store
      && run[i].store[key].value.Readable? && run[i].store[key].value.record.Committed?
      && run[i].store[key].value.record.requestHash == hash && run[i].store[key].value.record.outcome == outcome
      && run[i].store[key].deadline == at + COMMITTED_TTL
      && q in Next(run[i], Act(q)).procs
      && Next(run[i], Act(q)).procs[q].phase ==
        Answered(if run[i].procs[q].request.hash == hash then Replay(outcome) else Conflict)
  {
    StoredIsKept(run, i, k);
    BeginReads(run[i], q);
  }

  lemma StoredIsKept(run: seq<State>, i: nat, k: nat)
    requires TimelyRun(run) && i < |run| && k < |run[i].log| && run[i].log[k].Stored?
    requires var log := run[i].log; forall l :: k < l < |log| && log[l].Stored? ==> log[l].key != log[k].key
    requires run[i].now < run[i].log[k].at + COMMITTED_TTL
    ensures var Stored(key, hash, at, outcome) := run[i].log[k];
      && key in run[i].store
      && run[i].store[key].value.Readable? && run[i].store[key].value.record.Committed?
      && run[i].store[key].value.record.requestHash == hash && run[i].store[key].value.record.outcome == outcome
      && run[i].store[key].deadline == at + COMMITTED_TTL
  {
    RunKeepsInv(run, i);
    var key := run[i].log[k].key;
    LastStoredIs(run[i].log, key, k);
    assert Recorded(run[i].log, key, run[i].store[key]);
  }
}
