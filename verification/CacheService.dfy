/**
 getOrSetWithLock as step-by-step code over the shared store, with other callers
 running between its commands and any command free to throw. Each call is shown
 to be part of a run of the cache lock protocol that ends in the result the
 caller receives.
 */
module CacheService {
  import opened Wrappers
  import opened Redis
  import opened Runs
  import opened CacheLock
  import CacheLockRuns

  class RedisCacheService {
    var store: Store<string>
    var now: nat
    ghost const keys: set<string>
    ghost var run: State

    ghost predicate Valid()
      reads this
    {
      run.store == store && run.now == now && run.keys == keys && Reaches(Step, Initial(keys), run)
    }

    ghost predicate At(pid: nat, call: Call, phase: Phase)
      reads this
    {
      pid in run.procs && run.procs[pid] == Proc(call, phase)
    }

    constructor (ghost keys: set<string>)
      ensures Valid() && this.keys == keys && run == Initial(keys)
    {
      this.keys := keys;
      store, now := map[], 0;
      run := Initial(keys);
      ReachesSelf(Step, Initial(keys));
    }

    /** Time passes and other callers run. */
    method Await(ghost pid: nat, ghost from: State)
      requires Valid() && pid in run.procs && Reaches(Step, from, run)
      modifies this
      ensures Valid() && Reaches(Step, from, run)
      ensures pid in run.procs && run.procs[pid] == old(run.procs[pid])
    {
    }

    /** The protocol takes one step; store and clock were already changed to match. */
    ghost method Advance(from: State, a: Action)
      requires Reaches(Step, Initial(keys), run) && run.keys == keys && Reaches(Step, from, run) && Enabled(run, a)
      requires Next(run, a).store == store && Next(run, a).now == now
      modifies this`run
      ensures run == Next(old(run), a) && Valid() && Reaches(Step, from, run)
    {
      ReachesNext(Step, Initial(keys), run, Next(run, a));
      ReachesNext(Step, from, run, Next(run, a));
      run := Next(run, a);
    }

    /** The cache look-up: None after a miss, or after an error that is survived. */
    method Look(ghost pid: nat, call: Call, ghost from: State) returns (found: Option<Result>)
      requires Valid() && At(pid, call, Looking) && Reaches(Step, from, run)
      modifies this
      ensures Valid() && Reaches(Step, from, run)
      ensures At(pid, call, if found.Some? then Done(found.value) else Locking)
    {
      Await(pid, from);
      var fault: bool := *;
      if fault {
        Advance(from, Fault(pid, false));
        return if call.fallbackOnError then None else Some(Thrown);
      }
      var cached := Get(store, now, call.key);
      Advance(from, Act(pid));
      return if cached.Some? then Some(Value(cached.value)) else None;
    }

    /** Some(acquired), or None when the command throws. */
    method Lock(ghost pid: nat, call: Call, ghost from: State) returns (acquired: Option<bool>, ghost since: nat)
      requires Valid() && At(pid, call, Locking) && Reaches(Step, from, run)
      modifies this
      ensures Valid() && Reaches(Step, from, run)
      ensures match acquired {
        case None => At(pid, call, Done(Thrown))
        case Some(true) => At(pid, call, Computing(since))
        case Some(false) => At(pid, call, Waiting)
      }
    {
      Await(pid, from);
      since := now;
      var fault: bool, applied: bool := *, *;
      var (store', ok) := SetNx(store, now, LockKey(call.key), LOCK_TTL, LOCK_TEXT);
      if !fault || applied {
        store := store';
      }
      if fault {
        Advance(from, Fault(pid, applied));
        return None, since;
      }
      Advance(from, Act(pid));
      return Some(ok), since;
    }

    /** Under the lock: the callback, then the SETEX. */
    method Refill(ghost pid: nat, call: Call, callback: Result, ghost since: nat, ghost from: State)
      returns (result: Result)
      requires Valid() && At(pid, call, Computing(since)) && Reaches(Step, from, run)
      modifies this
      ensures Valid() && Reaches(Step, from, run) && At(pid, call, Unlocking(since, result))
      ensures result.Value? ==> result == callback
    {
      Await(pid, from);
      match callback {
        case Thrown =>
          Advance(from, CallbackThrows(pid));
          return Thrown;
        case Value(data) =>
          Advance(from, CallbackReturns(pid, data));
          Await(pid, from);
          var fault: bool, applied: bool := *, *;
          if !fault || applied {
            store := SetEx(store, now, call.key, call.ttl, data);
          }
          if fault {
            Advance(from, Fault(pid, applied));
            return if call.fallbackOnError then Value(data) else Thrown;
          }
          Advance(from, Act(pid));
          return Value(data);
      }
    }

    /** The finally block of the holder. */
    method Unlock(ghost pid: nat, call: Call, ghost since: nat, ghost result: Result, ghost from: State)
      requires Valid() && At(pid, call, Unlocking(since, result)) && Reaches(Step, from, run)
      modifies this
      ensures Valid() && Reaches(Step, from, run) && At(pid, call, Done(result))
    {
      Await(pid, from);
      var fault: bool, applied: bool := *, *;
      if !fault || applied {
        store := Del(store, LockKey(call.key));
      }
      if fault {
        Advance(from, Fault(pid, applied));
      } else {
        Advance(from, Act(pid));
      }
    }

    /** `attempts` bounds the retries; None when they run out. `callback` is what
        this caller's callback would do. */
    method GetOrSetWithLock(ghost pid: nat, call: Call, callback: Result, attempts: nat, ghost from: State)
      returns (result: Option<Result>)
      requires Valid() && At(pid, call, Looking) && Reaches(Step, from, run)
      modifies this
      ensures Valid() && Reaches(Step, from, run)
      ensures At(pid, call, if result.Some? then Done(result.value) else Looking)
      decreases attempts
    {
      var found := Look(pid, call, from);
      if found.Some? {
        return found;
      }
      var acquired, since := Lock(pid, call, from);
      if acquired.None? {
        return Some(Thrown);
      }
      if !acquired.value {
        Await(pid, from);
        Advance(from, Act(pid));
        if attempts == 0 {
          return None;
        }
        result := GetOrSetWithLock(pid, call, callback, attempts - 1, from);
        return;
      }
      var answer := Refill(pid, call, callback, since, from);
      Unlock(pid, call, since, answer, from);
      return Some(answer);
    }

    /** A new call: with lock keys apart from cache keys, a value it returns was
        produced by a callback for its key. */
    method GetOrSet(ghost pid: nat, call: Call, callback: Result, attempts: nat) returns (result: Option<Result>)
      requires Valid() && pid !in run.procs && call.key in keys
      modifies this
      ensures Valid() && Reaches(Step, old(run), run)
      ensures At(pid, call, if result.Some? then Done(result.value) else Looking)
      ensures LocksApart(keys) && result.Some? && result.value.Value? ==> (call.key, result.value.data) in run.produced
    {
      ghost var from := run;
      ReachesSelf(Step, run);
      Advance(from, Arrive(pid, call));
      result := GetOrSetWithLock(pid, call, callback, attempts, from);
      DoneWithProduced(pid);
    }

    lemma DoneWithProduced(pid: nat)
      requires Valid() && pid in run.procs
      ensures LocksApart(keys) && run.procs[pid].phase.Done? ==> CacheLockRuns.ReturnIsProduced(run, run.procs[pid])
    {
      if LocksApart(keys) && run.procs[pid].phase.Done? {
        var path :| IsPath(Step, path) && path[0] == Initial(keys) && path[|path| - 1] == run;
        RunKeepsSourced(path, keys, |path| - 1);
        assert CarriesProduced(run, run.procs[pid]);
      }
    }
  }
}
