/** What the cache lock guarantees over whole runs, and exactly when. */
module CacheLockRuns {
  import opened Wrappers
  import opened Redis
  import opened CacheLock
  import opened Runs

  /** At most one caller per key is between lock and unlock, and its DEL removes
      the very lock it set, and nothing else. */
  lemma LockIsExclusiveAndOwn(run: seq<State>, keys: set<string>, i: nat, p: nat)
    requires TimelyRun(run, keys) && LocksApart(keys) && i < |run|
    requires p in run[i].procs && Critical(run[i].procs[p].phase)
    ensures var s := run[i]; var Proc(call, phase) := s.procs[p];
      && (forall q :: q in s.procs && q != p && Critical(s.procs[q].phase) ==> s.procs[q].call.key != call.key)
      && LockKey(call.key) in s.store && s.store[LockKey(call.key)].deadline == phase.since + LOCK_TTL
      && (phase.Unlocking? ==>
            && Command(s, p).store == s.store - {LockKey(call.key)}
            && Command(s, p).procs[p].phase == Done(phase.result))
  {
    RunKeepsInv(run, keys, i);
    assert HoldsLock(run[i], run[i].procs[p]);
  }

  /** Normal exit: the value is cached, returned, and the lock released. */
  lemma ReturnReleasesTheLock(s: State, p: nat, data: string)
    requires p in s.procs && s.procs[p].phase.Computing?
    ensures var t := Command(Command(Next(s, CallbackReturns(p, data)), p), p);
      && t.procs[p].phase == Done(Value(data))
      && Get(t.store, t.now, LockKey(s.procs[p].call.key)).None?
      && s.procs[p].call.key in t.store && t.store[s.procs[p].call.key] == Timed(data, s.now + s.procs[p].call.ttl)
  {
    var Proc(call, phase) := s.procs[p];
    var t1 := Next(s, CallbackReturns(p, data));
    var t2 := Command(t1, p);
    assert |LockKey(call.key)| == |call.key| + 5;
    assert t2.procs[p].phase == Unlocking(phase.since, Value(data));
    assert t2.store == SetEx(s.store, s.now, call.key, call.ttl, data);
  }

  /** Exceptional exit: nothing is cached, the error goes on, the lock is released. */
  lemma ThrowReleasesTheLock(s: State, p: nat)
    requires p in s.procs && s.procs[p].phase.Computing?
    ensures var t := Command(Next(s, CallbackThrows(p)), p);
      && t.procs[p].phase == Done(Thrown)
      && t.store == s.store - {LockKey(s.procs[p].call.key)}
  {
  }

  // ----- every exit goes through the unlock

  lemma SettledStep(s: State, t: State, p: nat)
    requires Step(s, t) && p in s.procs && Settled(s.procs[p].phase)
    ensures p in t.procs && t.procs[p] == s.procs[p]
  {
  }

  lemma {:induction false} SettledStays(run: seq<State>, i: nat, j: nat, p: nat)
    requires IsPath(Step, run) && i <= j < |run| && p in run[i].procs && Settled(run[i].procs[p].phase)
    ensures p in run[j].procs && run[j].procs[p] == run[i].procs[p]
  {
    if i == j {
    } else {
      SettledStays(run, i, j - 1, p);
      StepAt(Step, run, j - 1);
      SettledStep(run[j - 1], run[j], p);
    }
  }

  /** The DEL of the finally block: its error, with or without effect, is only logged. */
  ghost predicate Unlocks(s: State, t: State, p: nat) {
    && p in s.procs && s.procs[p].phase.Unlocking?
    && p in t.procs && t.procs[p] == Proc(s.procs[p].call, Done(s.procs[p].phase.result))
    && (t.store == s.store - {LockKey(s.procs[p].call.key)} || t == Failure(s, p, false))
  }

  lemma ExitStep(s: State, t: State, p: nat)
    requires Step(s, t) && p in s.procs && Critical(s.procs[p].phase)
    ensures p in t.procs && t.procs[p].call == s.procs[p].call
    ensures Critical(t.procs[p].phase) || t.procs[p].phase.Crashed? || Unlocks(s, t, p)
  {
    var a :| Enabled(s, a) && t == Next(s, a);
    match a
    case Act(pid) => CommandExits(s, pid, p);
    case Fault(pid, applied) => FailureExits(s, pid, p, applied);
    case _ =>
  }

  lemma CommandExits(s: State, pid: nat, p: nat)
    requires pid in s.procs && p in s.procs && Critical(s.procs[p].phase)
    ensures var t := Command(s, pid);
      && p in t.procs && t.procs[p].call == s.procs[p].call
      && (Critical(t.procs[p].phase) || Unlocks(s, t, p))
  {
  }

  lemma FailureExits(s: State, pid: nat, p: nat, applied: bool)
    requires pid in s.procs && p in s.procs && Critical(s.procs[p].phase)
    ensures var t := Failure(s, pid, applied);
      && p in t.procs && t.procs[p].call == s.procs[p].call
      && (Critical(t.procs[p].phase) || Unlocks(s, t, p))
  {
  }

  /** In every run, whatever the others do: a caller that held a lock and is done,
      with a value or an error, has removed the lock on its way out, unless that very
      DEL threw without effect. */
  lemma EveryExitUnlocks(run: seq<State>, i: nat, j: nat, p: nat) returns (k: nat)
    requires IsPath(Step, run) && i <= j < |run|
    requires p in run[i].procs && Critical(run[i].procs[p].phase)
    requires p in run[j].procs && run[j].procs[p].phase.Done?
    ensures i <= k < j && Unlocks(run[k], run[k + 1], p)
    ensures run[k + 1].procs[p] == run[j].procs[p] && run[k].procs[p].call == run[i].procs[p].call
  {
    var call := run[i].procs[p].call;
    k := FirstExit(run, i, j, (s: State) => p in s.procs && s.procs[p].call == call && Critical(s.procs[p].phase));
    StepAt(Step, run, k);
    ExitStep(run[k], run[k + 1], p);
    SettledStays(run, k + 1, j, p);
  }

  // ----- where returned values come from

  ghost predicate Provenance(run: seq<State>) {
    forall i: nat, p: nat :: i < |run| && p in run[i].procs && run[i].procs[p].phase.Done? ==>
      ReturnIsProduced(run[i], run[i].procs[p])
  }

  ghost predicate ReturnIsProduced(s: State, proc: Proc)
    requires proc.phase.Done?
  {
    proc.phase.result.Value? ==> (proc.call.key, proc.phase.result.data) in s.produced
  }

  /** A pair enters `produced` only when a callback running under the lock of that key returns it. */
  lemma {:induction false} ProducedByACallback(run: seq<State>, keys: set<string>, i: nat, k: string, data: string)
    returns (j: nat, p: nat)
    requires IsRun(run, keys) && i < |run| && (k, data) in run[i].produced
    ensures j < i && p in run[j].procs && run[j].procs[p].call.key == k && run[j].procs[p].phase.Computing?
    ensures run[j + 1] == Next(run[j], CallbackReturns(p, data))
  {
    StepAt(Step, run, i - 1);
    var a :| Enabled(run[i - 1], a) && run[i] == Next(run[i - 1], a);
    if (k, data) in run[i - 1].produced {
      j, p := ProducedByACallback(run, keys, i - 1, k, data);
    } else {
      ProducedOnlyByReturns(run[i - 1], a);
      j, p := i - 1, a.pid;
    }
  }

  lemma ProducedOnlyByReturns(s: State, a: Action)
    requires Enabled(s, a)
    ensures Next(s, a).produced ==
      if a.CallbackReturns? then s.produced + {(s.procs[a.pid].call.key, a.data)} else s.produced
  {
  }

  /** Every returned value was produced by a callback for its key exactly when no
      cache key in use is the lock key of another, in all runs and already in the
      timely ones. */
  lemma ProvenanceExactlyWhenLocksApart(keys: set<string>)
    ensures (forall run: seq<State> :: IsRun(run, keys) ==> Provenance(run)) <==> LocksApart(keys)
    ensures (forall run: seq<State> :: TimelyRun(run, keys) ==> Provenance(run)) <==> LocksApart(keys)
  {
    if LocksApart(keys) {
      forall run: seq<State> | IsRun(run, keys) ensures Provenance(run) {
        forall i: nat, p: nat | i < |run| && p in run[i].procs && run[i].procs[p].phase.Done?
          ensures ReturnIsProduced(run[i], run[i].procs[p])
        {
          RunKeepsSourced(run, keys, i);
          assert CarriesProduced(run[i], run[i].procs[p]);
        }
      }
    } else {
      var a, b :| a in keys && b in keys && a == LockKey(b);
      var run := LockIsRead(keys, b);
      assert !ReturnIsProduced(run[|run| - 1], run[|run| - 1].procs[1]);
      assert !Provenance(run);
    }
  }

  // ----- exactly when the lock is safe

  ghost predicate Exclusive(run: seq<State>) {
    forall i :: 0 <= i < |run| ==> OneHolder(run[i])
  }

  /** A holder's lock entry is its own, so its DEL removes no other. */
  ghost predicate OwnLocks(run: seq<State>) {
    forall i, p :: 0 <= i < |run| && p in run[i].procs && Critical(run[i].procs[p].phase) ==>
      HoldsLock(run[i], run[i].procs[p])
  }

  // runs of a few steps

  lemma Extend(run: seq<State>, keys: set<string>, a: Action, bound: nat) returns (longer: seq<State>)
    requires RunWithin(run, keys, bound)
    requires Enabled(run[|run| - 1], a) && Within(Next(run[|run| - 1], a), bound)
    ensures longer == run + [Next(run[|run| - 1], a)] && RunWithin(longer, keys, bound)
  {
    longer := run + [Next(run[|run| - 1], a)];
    assert Step(run[|run| - 1], Next(run[|run| - 1], a));
    ExtendPath(Step, run, Next(run[|run| - 1], a));
  }

  function LockStore(key: string, at: nat): Store<string> {
    map[LockKey(key) := Timed(LOCK_TEXT, at + LOCK_TTL)]
  }

  /** A new caller misses the cache, finds the lock free and takes it. */
  lemma Enter(run: seq<State>, keys: set<string>, pid: nat, key: string, bound: nat) returns (longer: seq<State>)
    requires RunWithin(run, keys, bound) && bound > 0 && key in run[|run| - 1].keys
    requires var s := run[|run| - 1];
      pid !in s.procs && Get(s.store, s.now, key).None? && Get(s.store, s.now, LockKey(key)).None?
    ensures RunWithin(longer, keys, bound) && |longer| == |run| + 3
    ensures var s := run[|run| - 1];
      longer[|longer| - 1] == s.(store := s.store + LockStore(key, s.now),
                                 procs := s.procs[pid := Proc(Call(key, 1, true), Computing(s.now))])
  {
    var s := run[|run| - 1];
    longer := Extend(run, keys, Arrive(pid, Call(key, 1, true)), bound);
    longer := Extend(longer, keys, Act(pid), bound);
    assert longer[|longer| - 1] == s.(procs := s.procs[pid := Proc(Call(key, 1, true), Locking)]);
    longer := Extend(longer, keys, Act(pid), bound);
    assert longer[|longer| - 1].store == s.store + LockStore(key, s.now);
  }

  lemma FirstCallerLocks(keys: set<string>, key: string, bound: nat) returns (run: seq<State>)
    requires key in keys && bound > 0
    ensures RunWithin(run, keys, bound)
    ensures run[|run| - 1] ==
      State(0, LockStore(key, 0), map[0 := Proc(Call(key, 1, true), Computing(0))], keys, {})
  {
    run := Enter([Initial(keys)], keys, 0, key, bound);
    assert run[|run| - 1].store == LockStore(key, 0);
  }

  /** A caller of "lock:k" reads the lock of k as if it were cached data. */
  lemma LockIsRead(keys: set<string>, b: string) returns (run: seq<State>)
    requires b in keys && LockKey(b) in keys
    ensures TimelyRun(run, keys) && run[|run| - 1].produced == {}
    ensures var procs := run[|run| - 1].procs;
      1 in procs && procs[1] == Proc(Call(LockKey(b), 1, true), Done(Value(LOCK_TEXT)))
  {
    run := FirstCallerLocks(keys, b, LOCK_TTL);
    run := Extend(run, keys, Arrive(1, Call(LockKey(b), 1, true)), LOCK_TTL);
    run := Extend(run, keys, Act(1), LOCK_TTL);
  }

  /** Invalidating "lock:k" as a cache key frees the lock of k under its holder, */
  lemma LockIsInvalidated(keys: set<string>, b: string, bound: nat) returns (run: seq<State>)
    requires b in keys && LockKey(b) in keys && bound > 0
    ensures RunWithin(run, keys, bound)
    ensures run[|run| - 1] == State(0, map[], map[0 := Proc(Call(b, 1, true), Computing(0))], keys, {})
  {
    run := FirstCallerLocks(keys, b, bound);
    run := Extend(run, keys, Invalidate(LockKey(b)), bound);
  }

  /** and lets a second caller in at once. */
  lemma TwoHoldersAtOnce(keys: set<string>, b: string, bound: nat) returns (run: seq<State>)
    requires b in keys && LockKey(b) in keys && bound > 0
    ensures RunWithin(run, keys, bound) && !Exclusive(run)
  {
    run := LockIsInvalidated(keys, b, bound);
    run := Enter(run, keys, 1, b, bound);
    TwoHolders(run, |run| - 1, 0, 1);
  }

  lemma TwoHolders(run: seq<State>, i: nat, p: nat, q: nat)
    requires i < |run| && p in run[i].procs && q in run[i].procs && p != q
    requires Critical(run[i].procs[p].phase) && Critical(run[i].procs[q].phase)
    requires run[i].procs[p].call.key == run[i].procs[q].call.key
    ensures !Exclusive(run)
  {
    assert !OneHolder(run[i]);
  }

  /** A caller that outlives its lock is joined by the next one. */
  lemma SlowCallerIsNotAlone(keys: set<string>, key: string, bound: nat) returns (run: seq<State>)
    requires key in keys && bound > LOCK_TTL
    ensures RunWithin(run, keys, bound)
    ensures run[|run| - 1] == State(
      LOCK_TTL, LockStore(key, LOCK_TTL),
      map[0 := Proc(Call(key, 1, true), Computing(0)), 1 := Proc(Call(key, 1, true), Computing(LOCK_TTL))], keys, {})
  {
    run := FirstCallerLocks(keys, key, bound);
    run := Extend(run, keys, Pass(LOCK_TTL), bound);
    assert |LockKey(key)| == |key| + 5;
    run := Enter(run, keys, 1, key, bound);
  }

  /** On its way out it removes the lock of that next one. */
  lemma SlowCallerUnlocksAnother(keys: set<string>, key: string, bound: nat) returns (run: seq<State>)
    requires key in keys && bound > LOCK_TTL
    ensures RunWithin(run, keys, bound)
    ensures var s := run[|run| - 1];
      && s.store == map[] && s.procs.Keys == {0, 1}
      && s.procs[0].phase.Done? && s.procs[1] == Proc(Call(key, 1, true), Computing(LOCK_TTL))
  {
    run := SlowCallerIsNotAlone(keys, key, bound);
    run := Extend(run, keys, CallbackThrows(0), bound);
    assert run[|run| - 1].procs[0].phase == Unlocking(0, Thrown);
    assert run[|run| - 1].procs[1].phase == Computing(LOCK_TTL);
    run := Extend(run, keys, Act(0), bound);
  }

  // the exact condition

  /** No caller at all, no time under the lock at all, or lock keys apart from
      cache keys and callers faster than the lock's lifetime. */
  ghost predicate LockSuffices(keys: set<string>, bound: nat) {
    keys == {} || bound == 0 || (LocksApart(keys) && bound <= LOCK_TTL)
  }

  lemma {:induction false} SinceIsPast(run: seq<State>, keys: set<string>, i: nat, p: nat)
    requires IsRun(run, keys) && i < |run| && p in run[i].procs && Critical(run[i].procs[p].phase)
    ensures run[i].procs[p].phase.since <= run[i].now
  {
    if i == 0 {
    } else {
      StepAt(Step, run, i - 1);
      SinceStep(run[i - 1], run[i], p);
      if p in run[i - 1].procs && Critical(run[i - 1].procs[p].phase) {
        SinceIsPast(run, keys, i - 1, p);
      }
    }
  }

  lemma SinceStep(s: State, t: State, p: nat)
    requires Step(s, t) && p in t.procs && Critical(t.procs[p].phase)
    ensures s.now <= t.now
    ensures t.procs[p].phase.since == s.now
      || (p in s.procs && Critical(s.procs[p].phase) && t.procs[p].phase.since == s.procs[p].phase.since)
  {
    var a :| Enabled(s, a) && t == Next(s, a);
    match a
    case Act(pid) => CommandSince(s, pid, p);
    case _ =>
  }

  lemma CommandSince(s: State, pid: nat, p: nat)
    requires pid in s.procs && p in Command(s, pid).procs && Critical(Command(s, pid).procs[p].phase)
    ensures var t := Command(s, pid);
      && t.now == s.now && p in s.procs
      && (t.procs[p].phase.since == s.now
          || (Critical(s.procs[p].phase) && t.procs[p].phase.since == s.procs[p].phase.since))
  {
  }

  lemma SafeWhenItSuffices(run: seq<State>, keys: set<string>, bound: nat)
    requires LockSuffices(keys, bound) && RunWithin(run, keys, bound)
    ensures Exclusive(run) && OwnLocks(run)
  {
    forall i | 0 <= i < |run| ensures Locked(run[i]) {
      if LocksApart(keys) && bound <= LOCK_TTL {
        RunKeepsInv(run, keys, i);
      } else {
        forall p | p in run[i].procs ensures !Critical(run[i].procs[p].phase) {
          if keys == {} {
            RunKeepsSourced(run, keys, i);
          } else if Critical(run[i].procs[p].phase) {
            SinceIsPast(run, keys, i, p);
          }
        }
      }
    }
  }

  /** Exclusion, and removal of one's own lock only, each hold in all runs whose
      callers stay under the lock for less than a bound exactly when lock keys are
      apart from cache keys and the bound is at most LOCK_TTL (or nobody can hold). */
  lemma LockIsSafeExactly(keys: set<string>, bound: nat)
    ensures (forall run: seq<State> :: RunWithin(run, keys, bound) ==> Exclusive(run)) <==> LockSuffices(keys, bound)
    ensures (forall run: seq<State> :: RunWithin(run, keys, bound) ==> OwnLocks(run)) <==> LockSuffices(keys, bound)
  {
    if LockSuffices(keys, bound) {
      forall run: seq<State> | RunWithin(run, keys, bound) ensures Exclusive(run) && OwnLocks(run) {
        SafeWhenItSuffices(run, keys, bound);
      }
    } else {
      var lost, joined := UnsafeRuns(keys, bound);
      assert !OwnLocks(lost) && !Exclusive(joined);
    }
  }

  lemma UnsafeRuns(keys: set<string>, bound: nat) returns (lost: seq<State>, joined: seq<State>)
    requires !LockSuffices(keys, bound)
    ensures RunWithin(lost, keys, bound) && !OwnLocks(lost)
    ensures RunWithin(joined, keys, bound) && !Exclusive(joined)
  {
    if bound > LOCK_TTL {
      var key :| key in keys;
      joined := SlowCallerIsNotAlone(keys, key, bound);
      TwoHolders(joined, |joined| - 1, 0, 1);
      lost := joined;
    } else {
      var a, b :| a in keys && b in keys && a == LockKey(b);
      lost := LockIsInvalidated(keys, b, bound);
      joined := TwoHoldersAtOnce(keys, b, bound);
    }
    assert 0 in lost[|lost| - 1].procs && !HoldsLock(lost[|lost| - 1], lost[|lost| - 1].procs[0]);
  }
}
