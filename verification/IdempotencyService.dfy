/**
 The service and the interceptor as step-by-step code over the shared store, with
 other requests running between its commands and any command free to throw. A
 ghost copy of the protocol state advances with every command, so each call is
 shown to be part of a protocol run whatever the interleaving.
 */
module IdempotencyService {
  import opened Wrappers
  import opened Redis
  import opened Idempotency
  import opened IdempotencyProtocol
  import IdempotencyRuns
  import opened Runs

  datatype HandlerResult = Returns(status: Option<nat>, response: Option<string>) | Throws

  /** What the client receives. */
  datatype Reply = Send(statusCode: nat, body: Option<string>) | Refuse409 | Rethrow

  predicate IsReading(phase: Phase) {
    phase.Reading? || phase.Rereading? || phase.Committing? || phase.Aborting?
  }

  /** The GET of a process took a state to the next. */
  ghost predicate IsRead(before: State, after: State, pid: nat, proc: Proc, read: Option<Option<Record>>) {
    && pid in before.procs && before.procs[pid] == proc && before.now == after.now
    && match read
       case Some(record) =>
         record == GetRecord(before.store, before.now, proc.request.key) && after == Command(before, pid)
       case None => after == Failure(before, pid, false)
  }

  /** The reply that the final place of a request calls for. */
  predicate Fits(reply: Reply, phase: Phase, handled: HandlerResult) {
    match phase
    case Answered(Replay(outcome)) => reply == Send(outcome.statusCode, Some(outcome.response.GetOr("null")))
    case Answered(_) => reply == Refuse409
    case Finished(outcome) =>
      && handled.Returns?
      && outcome == Outcome(handled.status.GetOr(201), handled.response)
      && reply == Send(outcome.statusCode, outcome.response)
    case Failed => reply == Rethrow
    case _ => false
  }

  /** The reply sends the outcome, an undefined body being null or nothing. */
  predicate IsReply(reply: Reply, outcome: Outcome) {
    && reply.Send? && reply.statusCode == outcome.statusCode
    && (reply.body == outcome.response || reply.body == Some(outcome.response.GetOr("null")))
  }

  class Interceptor {
    var store: Store<Raw>
    var now: nat
    ghost var run: State

    ghost predicate Valid()
      reads this
    {
      run.store == store && run.now == now && Reaches(Step, INITIAL, run)
    }

    ghost predicate At(pid: nat, request: Request, phase: Phase)
      reads this
    {
      pid in run.procs && run.procs[pid] == Proc(request, phase)
    }

    constructor ()
      ensures Valid() && run == INITIAL
    {
      store, now := map[], 0;
      run := INITIAL;
      ReachesSelf(Step, INITIAL);
    }

    /** Time passes and other requests run: the caller learns nothing more. */
    method Await(ghost pid: nat, ghost from: State)
      requires Valid() && pid in run.procs && Reaches(Step, from, run)
      modifies this
      ensures Valid() && Reaches(Step, from, run)
      ensures pid in run.procs && run.procs[pid] == old(run.procs[pid])
    {
    }

    /** The protocol takes one step; store and clock were already changed to match. */
    ghost method Advance(from: State, a: Action)
      requires Reaches(Step, INITIAL, run) && Reaches(Step, from, run) && Enabled(run, a)
      requires Next(run, a).store == store && Next(run, a).now == now
      modifies this`run
      ensures run == Next(old(run), a) && Valid() && Reaches(Step, from, run)
    {
      ReachesNext(Step, INITIAL, run, Next(run, a));
      ReachesNext(Step, from, run, Next(run, a));
      run := Next(run, a);
    }

    /** The GET of any of the calls; None when it throws. */
    method ReadRecord(ghost pid: nat, request: Request, ghost from: State) returns (read: Option<Option<Record>>)
      requires Valid() && pid in run.procs && run.procs[pid].request == request && Reaches(Step, from, run)
      requires IsReading(run.procs[pid].phase)
      modifies this
      ensures Valid() && Reaches(Step, from, run)
      ensures exists before: State :: IsRead(before, run, pid, old(run.procs[pid]), read)
    {
      Await(pid, from);
      ghost var before := run;
      var fault: bool := *;
      if fault {
        Advance(from, Fault(pid, false));
        assert IsRead(before, run, pid, before.procs[pid], None);
        return None;
      }
      read := Some(GetRecord(store, now, request.key));
      Advance(from, Act(pid));
      assert IsRead(before, run, pid, before.procs[pid], read);
    }

    method Begin(ghost pid: nat, request: Request, ghost from: State) returns (result: Option<BeginResult>)
      requires Valid() && At(pid, request, Reading) && Reaches(Step, from, run)
      modifies this
      ensures Valid() && Reaches(Step, from, run)
      ensures At(pid, request, match result {
        case None => Failed
        case Some(New) => Handling(now)
        case Some(answer) => Answered(answer)
      })
    {
      var existing := ReadRecord(pid, request, from);
      if existing.None? {
        return None;
      }
      if existing.value.Some? {
        return Some(ToBeginResult(existing.value.value, request.hash));
      }
      var claimed := Claim(pid, request, from);
      if claimed.None? {
        return None;
      }
      if claimed.value {
        return Some(New);
      }
      var raced := ReadRecord(pid, request, from);
      if raced.None? {
        return None;
      }
      if raced.value.None? {
        return Some(InProgress);
      }
      return Some(ToBeginResult(raced.value.value, request.hash));
    }

    /** SET NX of the pending record: whether it was set, or None when it throws. */
    method Claim(ghost pid: nat, request: Request, ghost from: State) returns (claimed: Option<bool>)
      requires Valid() && At(pid, request, Claiming) && Reaches(Step, from, run)
      modifies this
      ensures Valid() && Reaches(Step, from, run)
      ensures At(pid, request, match claimed {
        case None => Failed
        case Some(true) => Handling(now)
        case Some(false) => Rereading
      })
    {
      Await(pid, from);
      var fault: bool, applied: bool := *, *;
      var (store', ok) := SetNx(store, now, request.key, PENDING_TTL, Readable(Pending(request.hash, now)));
      if !fault || applied {
        store := store';
      }
      if fault {
        Advance(from, Fault(pid, applied));
        return None;
      }
      Advance(from, Act(pid));
      return Some(ok);
    }

    /** False when a command throws; `stored` tells whether the SETEX took effect. */
    method CommitSuccess(ghost pid: nat, request: Request, ghost since: nat, outcome: Outcome, ghost from: State)
      returns (ok: bool, ghost stored: bool)
      requires Valid() && At(pid, request, Committing(since, outcome)) && Reaches(Step, from, run)
      modifies this
      ensures Valid() && Reaches(Step, from, run)
      ensures At(pid, request, if ok then Finished(outcome) else Aborting(since, stored))
    {
      stored := false;
      var existing := ReadRecord(pid, request, from);
      if existing.None? {
        return false, stored;
      }
      if existing.value.Some? && existing.value.value.requestHash != request.hash {
        return true, stored;
      }
      var createdAt := if existing.value.Some? then existing.value.value.createdAt else now;
      Await(pid, from);
      var fault: bool, applied: bool := *, *;
      if !fault || applied {
        store := SetEx(store, now, request.key, COMMITTED_TTL, Readable(Committed(request.hash, createdAt, outcome)));
      }
      if fault {
        Advance(from, Fault(pid, applied));
        stored := applied;
        return false, stored;
      }
      Advance(from, Act(pid));
      return true, stored;
    }

    /** An error of either command only ends the call: the interceptor drops it. */
    method CommitFailure(ghost pid: nat, request: Request, ghost since: nat, ghost stored: bool, ghost from: State)
      requires Valid() && At(pid, request, Aborting(since, stored)) && Reaches(Step, from, run)
      modifies this
      ensures Valid() && Reaches(Step, from, run) && At(pid, request, Failed)
    {
      var existing := ReadRecord(pid, request, from);
      if existing.None? || existing.value.None? {
        return;
      }
      if !existing.value.value.Pending? {
        return;
      }
      if existing.value.value.requestHash != request.hash {
        return;
      }
      Await(pid, from);
      var fault: bool, applied: bool := *, *;
      if !fault || applied {
        store := Del(store, request.key);
      }
      if fault {
        Advance(from, Fault(pid, applied));
      } else {
        Advance(from, Act(pid));
      }
    }

    /** A new request; `handled` is what its handler would do. An error of a command
        reaches the client like one of the handler. */
    method Intercept(ghost pid: nat, request: Request, handled: HandlerResult) returns (reply: Reply)
      requires Valid() && pid !in run.procs
      modifies this
      ensures Valid() && Reaches(Step, old(run), run)
      ensures pid in run.procs && run.procs[pid].request == request
      ensures Fits(reply, run.procs[pid].phase, handled)
      ensures reply.Send? ==> exists outcome ::
        IsReply(reply, outcome) && WasReturned(run.log, request.key, request.hash, outcome)
    {
      ghost var from := run;
      ReachesSelf(Step, run);
      Advance(from, Arrive(pid, request));
      reply := Handle(pid, request, handled, from);
      RepliedWasReturned(pid);
    }

    /** The same, once the request has arrived. */
    method Handle(ghost pid: nat, request: Request, handled: HandlerResult, ghost from: State) returns (reply: Reply)
      requires Valid() && At(pid, request, Reading) && Reaches(Step, from, run)
      modifies this
      ensures Valid() && Reaches(Step, from, run)
      ensures pid in run.procs && run.procs[pid].request == request
      ensures Fits(reply, run.procs[pid].phase, handled)
    {
      var result := Begin(pid, request, from);
      if result.None? {
        return Rethrow;
      }
      match result.value {
        case Conflict => return Refuse409;
        case InProgress => return Refuse409;
        case Replay(outcome) => return Send(outcome.statusCode, Some(outcome.response.GetOr("null")));
        case New =>
      }
      ghost var since, stored := now, false;
      Await(pid, from);
      match handled {
        case Returns(status, response) =>
          var outcome := Outcome(status.GetOr(201), response);
          Advance(from, HandlerReturns(pid, status, response));
          var ok;
          ok, stored := CommitSuccess(pid, request, since, outcome, from);
          if ok {
            return Send(outcome.statusCode, response);
          }
        case Throws =>
          Advance(from, HandlerThrows(pid));
      }
      CommitFailure(pid, request, since, stored, from);
      return Rethrow;
    }

    lemma RepliedWasReturned(pid: nat)
      requires Valid() && pid in run.procs
      ensures var Proc(request, phase) := run.procs[pid]; var sent := IdempotencyRuns.SentOutcome(phase);
        sent.Some? ==> WasReturned(run.log, request.key, request.hash, sent.value)
    {
      var path :| IsPath(Step, path) && path[0] == INITIAL && path[|path| - 1] == run;
      if IdempotencyRuns.SentOutcome(run.procs[pid].phase).Some? {
        IdempotencyRuns.RepliesWereReturned(path, |path| - 1, pid);
      }
    }
  }
}
