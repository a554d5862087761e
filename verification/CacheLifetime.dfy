/**
 How long a cached value lives, and which errors reach the caller: each command of
 getOrSetWithLock stated on the store entry it meets or leaves.
 */
module CacheLifetime {
  import opened Wrappers
  import opened Redis
  import opened Runs
  import opened CacheLock

  // ----- what each command does

  /** The SETEX, also one that reports an error after taking effect, keeps the value
      for the time to live of the call. */
  lemma SaveStep(s: State, p: nat, a: Action)
    requires p in s.procs && s.procs[p].phase.Saving? && a in {Act(p), Fault(p, true), Fault(p, false)}
    ensures var Proc(call, Saving(since, data)) := s.procs[p]; var t := Next(s, a);
      && t.now == s.now && t.produced == s.produced
      && t.store == if a == Fault(p, false) then s.store else s.store[call.key := Timed(data, s.now + call.ttl)]
  {
  }

  /** The look-up returns a live value and leads to the lock otherwise. */
  lemma LookStep(s: State, q: nat)
    requires q in s.procs && s.procs[q].phase.Looking?
    ensures var call := s.procs[q].call; var t := Next(s, Act(q));
      && t.store == s.store && t.produced == s.produced && q in t.procs
      && t.procs[q] == Proc(call,
        if call.key in s.store && s.now < s.store[call.key].deadline then Done(Value(s.store[call.key].value))
        else Locking)
  {
  }

  /** SET NX takes a free or lapsed lock for LOCK_TTL; a caller that finds it taken
      waits and looks again. */
  lemma LockStep(s: State, q: nat)
    requires q in s.procs && (s.procs[q].phase.Locking? || s.procs[q].phase.Waiting?)
    ensures var call := s.procs[q].call; var t := Next(s, Act(q)); var lock := "lock:" + call.key;
      && t.produced == s.produced && q in t.procs && t.procs[q].call == call
      && (s.procs[q].phase.Waiting? ==> t.store == s.store && t.procs[q].phase == Looking)
      && (s.procs[q].phase.Locking? ==>
            if lock in s.store && s.now < s.store[lock].deadline
            then t.store == s.store && t.procs[q].phase == Waiting
            else t.store == s.store[lock := Timed("1", s.now + LOCK_TTL)] && t.procs[q].phase == Computing(s.now))
  {
  }

  /** An invalidation removes the value, and a look-up after it misses. */
  lemma InvalidateStep(s: State, key: string, q: nat)
    requires key in s.keys && q in s.procs && s.procs[q].phase.Looking? && s.procs[q].call.key == key
    ensures var t := Next(s, Invalidate(key));
      && t.store == s.store - {key} && t.procs == s.procs
      && q in Next(t, Act(q)).procs && Next(t, Act(q)).procs[q].phase == Locking
  {
  }

  // ----- how long a value lives

  /** The commands that can change the entry of a key. */
  predicate Writes(s: State, a: Action, key: string)
    requires Enabled(s, a)
  {
    match a
    case Invalidate(k) => k == key
    case Act(pid) => ProcWrites(s.procs[pid], key)
    case Fault(pid, _) => ProcWrites(s.procs[pid], key)
    case _ => false
  }

  predicate ProcWrites(proc: Proc, key: string) {
    || (proc.phase.Saving? && proc.call.key == key)
    || ((proc.phase.Locking? || proc.phase.Unlocking?) && "lock:" + proc.call.key == key)
  }

  predicate SameEntry(s: State, t: State, key: string) {
    (key in s.store <==> key in t.store) && (key in s.store ==> s.store[key] == t.store[key])
  }

  lemma OthersKeepTheEntry(s: State, a: Action, key: string)
    requires Enabled(s, a) && !Writes(s, a, key)
    ensures SameEntry(s, Next(s, a), key)
  {
    match a
    case Act(pid) => CommandKeepsTheEntry(s, pid, key);
    case Fault(pid, applied) => FailureKeepsTheEntry(s, pid, applied, key);
    case _ =>
  }

  lemma CommandKeepsTheEntry(s: State, pid: nat, key: string)
    requires pid in s.procs && !ProcWrites(s.procs[pid], key)
    ensures SameEntry(s, Command(s, pid), key)
  {
  }

  lemma FailureKeepsTheEntry(s: State, pid: nat, applied: bool, key: string)
    requires pid in s.procs && !ProcWrites(s.procs[pid], key)
    ensures SameEntry(s, Failure(s, pid, applied), key)
  {
  }

  ghost predicate Quiet(s: State, t: State, key: string) {
    exists a :: Enabled(s, a) && t == Next(s, a) && !Writes(s, a, key)
  }

  lemma QuietStep(s: State, t: State, key: string)
    requires Quiet(s, t, key)
    ensures SameEntry(s, t, key)
  {
    var a :| Enabled(s, a) && t == Next(s, a) && !Writes(s, a, key);
    OthersKeepTheEntry(s, a, key);
  }

  lemma {:induction false} EntryStays(run: seq<State>, i: nat, j: nat, key: string)
    requires i <= j < |run| && forall l :: i <= l < j ==> Quiet(run[l], run[l + 1], key)
    ensures SameEntry(run[i], run[j], key)
  {
    if i == j {
    } else {
      EntryStays(run, i, j - 1, key);
      QuietStep(run[j - 1], run[j], key);
    }
  }

  /** After a SETEX, with nothing else writing the key, a look-up less than the time
      to live later returns the value and runs no callback; from then on it misses. */
  lemma CachedForItsTtl(run: seq<State>, i: nat, j: nat, p: nat, q: nat)
    requires i < j < |run| && p in run[i].procs && run[i].procs[p].phase.Saving?
    requires run[i + 1] == Next(run[i], Act(p)) || run[i + 1] == Next(run[i], Fault(p, true))
    requires forall l :: i < l < j ==> Quiet(run[l], run[l + 1], run[i].procs[p].call.key)
    requires q in run[j].procs && run[j].procs[q].phase.Looking?
    requires run[j].procs[q].call.key == run[i].procs[p].call.key
    ensures var Proc(call, Saving(_, data)) := run[i].procs[p]; var t := Next(run[j], Act(q));
      && call.key in run[j].store && run[j].store[call.key] == Timed(data, run[i].now + call.ttl)
      && t.produced == run[j].produced && q in t.procs
      && t.procs[q].phase == if run[j].now < run[i].now + call.ttl then Done(Value(data)) else Locking
  {
    var a := if run[i + 1] == Next(run[i], Act(p)) then Act(p) else Fault(p, true);
    SaveStep(run[i], p, a);
    EntryStays(run, i + 1, j, run[i].procs[p].call.key);
    LookStep(run[j], q);
  }

  // ----- which errors reach the caller

  predicate Throwing(phase: Phase) {
    phase == Done(Thrown) || (phase.Unlocking? && phase.result.Thrown?)
  }

  /** A caller comes to throw exactly when its callback throws, its SET NX throws, or,
      without fallbackOnError, its look-up or its SETEX throws. */
  lemma ThrowsExactlyWhen(s: State, a: Action, p: nat)
    requires Enabled(s, a) && p in s.procs && !Throwing(s.procs[p].phase)
    ensures p in Next(s, a).procs
    ensures Throwing(Next(s, a).procs[p].phase) <==>
      var Proc(call, phase) := s.procs[p];
      || a == CallbackThrows(p)
      || (a.Fault? && a.pid == p
          && (phase.Locking? || (!call.fallbackOnError && (phase.Looking? || phase.Saving?))))
  {
    match a
    case Act(pid) => CommandThrowsNothing(s, pid, p);
    case Fault(pid, applied) => FaultThrows(s, pid, applied, p);
    case _ =>
  }

  lemma CommandThrowsNothing(s: State, pid: nat, p: nat)
    requires pid in s.procs && p in s.procs && !Throwing(s.procs[p].phase)
    ensures p in Command(s, pid).procs && !Throwing(Command(s, pid).procs[p].phase)
  {
  }

  lemma FaultThrows(s: State, pid: nat, applied: bool, p: nat)
    requires pid in s.procs && p in s.procs && !Throwing(s.procs[p].phase)
    ensures p in Failure(s, pid, applied).procs
    ensures Throwing(Failure(s, pid, applied).procs[p].phase) <==>
      var Proc(call, phase) := s.procs[p];
      pid == p && (phase.Locking? || (!call.fallbackOnError && (phase.Looking? || phase.Saving?)))
  {
  }
}
