/**
 getOrSetWithLock as a protocol: look in the cache, take the lock, run the
 callback, store, unlock. Every Redis command is one step and callers
 interleave. Data stand for their JSON text. Cached values and locks live in one
 key space, as they do in Redis.
 */
module CacheLock {
  import opened Redis
  import opened Runs

  const LOCK_TTL: nat := 10 * 1000
  const LOCK_TEXT := "1"

  function LockKey(key: string): string {
    "lock:" + key
  }

  datatype Result = Value(data: string) | Thrown

  /** `since` is the instant the caller's SET NX succeeded. */
  datatype Phase =
    | Looking                               // GET is next
    | Locking                               // SET NX is next
    | Waiting                               // lock taken by another: 100 ms, then look again
    | Computing(since: nat)                 // the callback runs
    | Saving(since: nat, data: string)      // SETEX is next
    | Unlocking(since: nat, result: Result) // DEL of the lock is next
    | Done(result: Result)
    | Crashed                               // the process died

  predicate Critical(phase: Phase) {
    phase.Computing? || phase.Saving? || phase.Unlocking?
  }

  predicate Settled(phase: Phase) {
    phase.Done? || phase.Crashed?
  }

  datatype Call = Call(key: string, ttl: nat, fallbackOnError: bool)

  datatype Proc = Proc(call: Call, phase: Phase)

  /** `keys` are the cache keys in use; `produced` is what callbacks returned. */
  datatype State = State(
    now: nat, store: Store<string>, procs: map<nat, Proc>, keys: set<string>, produced: set<(string, string)>)

  datatype Action =
    | Arrive(pid: nat, call: Call)
    | Pass(elapsed: nat)
    | Act(pid: nat)                         // the next Redis command, or the end of the wait
    | CallbackReturns(pid: nat, data: string)
    | CallbackThrows(pid: nat)
    | Fault(pid: nat, applied: bool)        // the next Redis command throws, with or without effect
    | Crash(pid: nat)
    | Invalidate(key: string)               // invalidate(key) by anybody

  function Initial(keys: set<string>): State {
    State(0, map[], map[], keys, {})
  }

  function Move(s: State, pid: nat, phase: Phase): State
    requires pid in s.procs
  {
    s.(procs := s.procs[pid := s.procs[pid].(phase := phase)])
  }

  function Command(s: State, pid: nat): State
    requires pid in s.procs
  {
    var Proc(call, phase) := s.procs[pid];
    match phase
    case Looking =>
      (match Get<string>(s.store, s.now, call.key)
       case Some(data) => Move(s, pid, Done(Value(data)))
       case None => Move(s, pid, Locking))
    case Locking =>
      var (store, acquired) := SetNx(s.store, s.now, LockKey(call.key), LOCK_TTL, LOCK_TEXT);
      Move(s, pid, if acquired then Computing(s.now) else Waiting).(store := store)
    case Waiting => Move(s, pid, Looking)
    case Saving(since, data) =>
      Move(s, pid, Unlocking(since, Value(data))).(store := SetEx(s.store, s.now, call.key, call.ttl, data))
    case Unlocking(_, result) =>
      Move(s, pid, Done(result)).(store := Del(s.store, LockKey(call.key)))
    case _ => s
  }

  /** A throwing GET or SETEX is survived when fallbackOnError is set; a throwing
      DEL always; a throwing SET NX never. */
  function Failure(s: State, pid: nat, applied: bool): State
    requires pid in s.procs
  {
    var Proc(call, phase) := s.procs[pid];
    match phase
    case Looking => Move(s, pid, if call.fallbackOnError then Locking else Done(Thrown))
    case Locking =>
      var (store, _) := SetNx(s.store, s.now, LockKey(call.key), LOCK_TTL, LOCK_TEXT);
      Move(s, pid, Done(Thrown)).(store := if applied then store else s.store)
    case Saving(since, data) =>
      Move(s, pid, Unlocking(since, if call.fallbackOnError then Value(data) else Thrown))
        .(store := if applied then SetEx(s.store, s.now, call.key, call.ttl, data) else s.store)
    case Unlocking(_, result) =>
      Move(s, pid, Done(result)).(store := if applied then Del(s.store, LockKey(call.key)) else s.store)
    case _ => s
  }

  predicate Enabled(s: State, a: Action) {
    match a
    case Arrive(pid, call) => pid !in s.procs && call.key in s.keys
    case Pass(_) => true
    case Act(pid) => pid in s.procs
    case CallbackReturns(pid, _) => pid in s.procs && s.procs[pid].phase.Computing?
    case CallbackThrows(pid) => pid in s.procs && s.procs[pid].phase.Computing?
    case Fault(pid, _) => pid in s.procs
    case Crash(pid) => pid in s.procs && !Settled(s.procs[pid].phase)
    case Invalidate(key) => key in s.keys
  }

  function Next(s: State, a: Action): State
    requires Enabled(s, a)
  {
    match a
    case Arrive(pid, call) => s.(procs := s.procs[pid := Proc(call, Looking)])
    case Pass(elapsed) => s.(now := s.now + elapsed)
    case Act(pid) => Command(s, pid)
    case CallbackReturns(pid, data) =>
      Move(s, pid, Saving(s.procs[pid].phase.since, data)).(produced := s.produced + {(s.procs[pid].call.key, data)})
    case CallbackThrows(pid) => Move(s, pid, Unlocking(s.procs[pid].phase.since, Thrown))
    case Fault(pid, applied) => Failure(s, pid, applied)
    case Crash(pid) => Move(s, pid, Crashed)
    case Invalidate(key) => s.(store := Del(s.store, key))
  }

  ghost predicate Step(s: State, t: State) {
    exists a :: Enabled(s, a) && t == Next(s, a)
  }

  ghost predicate IsRun(run: seq<State>, keys: set<string>) {
    IsPath(Step, run) && run[0] == Initial(keys)
  }

  /** Every holder locked less than `bound` ago. */
  ghost predicate Within(s: State, bound: nat) {
    forall p :: p in s.procs && Critical(s.procs[p].phase) ==> s.now < s.procs[p].phase.since + bound
  }

  ghost predicate RunWithin(run: seq<State>, keys: set<string>, bound: nat) {
    IsRun(run, keys) && forall i :: 0 <= i < |run| ==> Within(run[i], bound)
  }

  /** No caller outlives its lock. */
  ghost predicate Timely(s: State) {
    Within(s, LOCK_TTL)
  }

  ghost predicate TimelyRun(run: seq<State>, keys: set<string>) {
    RunWithin(run, keys, LOCK_TTL)
  }

  /** No cache key in use is the lock key of another. */
  ghost predicate LocksApart(keys: set<string>) {
    forall a, b :: a in keys && b in keys ==> a != LockKey(b)
  }

  // ----- mutual exclusion and provenance

  ghost predicate HoldsLock(s: State, proc: Proc)
    requires Critical(proc.phase)
  {
    var lock := LockKey(proc.call.key);
    lock in s.store && s.store[lock].deadline == proc.phase.since + LOCK_TTL
  }

  ghost predicate OneHolder(s: State) {
    forall p, q :: p in s.procs && q in s.procs && Critical(s.procs[p].phase) && Critical(s.procs[q].phase) ==>
      s.procs[p].call.key == s.procs[q].call.key ==> p == q
  }

  ghost predicate Locked(s: State) {
    && (forall p :: p in s.procs && Critical(s.procs[p].phase) ==> HoldsLock(s, s.procs[p]))
    && OneHolder(s)
  }

  /** The data a phase carries came from a callback for the key. */
  ghost predicate CarriesProduced(s: State, proc: Proc) {
    match proc.phase
    case Saving(_, data) => (proc.call.key, data) in s.produced
    case Unlocking(_, Value(data)) => (proc.call.key, data) in s.produced
    case Done(Value(data)) => (proc.call.key, data) in s.produced
    case _ => true
  }

  ghost predicate Sourced(s: State) {
    && (forall k :: k in s.keys && k in s.store ==> (k, s.store[k].value) in s.produced)
    && (forall p :: p in s.procs ==> s.procs[p].call.key in s.keys && CarriesProduced(s, s.procs[p]))
  }

  ghost predicate Inv(s: State) {
    Locked(s) && Sourced(s)
  }

  lemma LockKeyInjective(a: string, b: string)
    ensures LockKey(a) == LockKey(b) ==> a == b
  {
    assert LockKey(a)[5..] == a && LockKey(b)[5..] == b;
  }

  /** Writes outside the lock keys in use leave the locks alone. */
  lemma MoveKeepsLocked(s: State, pid: nat, phase: Phase, store: Store<string>)
    requires Locked(s) && pid in s.procs
    requires Critical(phase) ==> Critical(s.procs[pid].phase) && phase.since == s.procs[pid].phase.since
    requires forall p :: p in s.procs && Critical(s.procs[p].phase) && (p != pid || Critical(phase)) ==>
      var lock := LockKey(s.procs[p].call.key); lock in store && lock in s.store && store[lock] == s.store[lock]
    ensures Locked(Move(s, pid, phase).(store := store))
  {
  }

  lemma AcquireKeepsLocked(s: State, pid: nat)
    requires Locked(s) && Timely(s) && pid in s.procs && s.procs[pid].phase.Locking?
    requires Get(s.store, s.now, LockKey(s.procs[pid].call.key)).None?
    ensures Locked(Command(s, pid))
  {
    var key := s.procs[pid].call.key;
    forall p | p in s.procs && Critical(s.procs[p].phase)
      ensures p != pid && LockKey(s.procs[p].call.key) != LockKey(key)
    {
      assert HoldsLock(s, s.procs[p]);
    }
    var t := Command(s, pid);
    forall p | p in t.procs && Critical(t.procs[p].phase) ensures HoldsLock(t, t.procs[p]) {
      assert p != pid ==> HoldsLock(s, s.procs[p]);
    }
  }

  lemma UnlockKeepsLocked(s: State, pid: nat, result: Result)
    requires Locked(s) && pid in s.procs && s.procs[pid].phase.Unlocking?
    ensures Locked(Move(s, pid, Done(result)).(store := Del(s.store, LockKey(s.procs[pid].call.key))))
  {
    forall p | p in s.procs && p != pid && Critical(s.procs[p].phase)
      ensures HoldsLock(s, s.procs[p]) && LockKey(s.procs[p].call.key) != LockKey(s.procs[pid].call.key)
    {
      LockKeyInjective(s.procs[p].call.key, s.procs[pid].call.key);
    }
    MoveKeepsLocked(s, pid, Done(result), Del(s.store, LockKey(s.procs[pid].call.key)));
  }

  lemma CommandKeepsLocked(s: State, pid: nat)
    requires Inv(s) && LocksApart(s.keys) && Timely(s) && pid in s.procs
    ensures Locked(Command(s, pid))
  {
    var Proc(call, phase) := s.procs[pid];
    match phase
    case Looking =>
      var found := Get(s.store, s.now, call.key);
      MoveKeepsLocked(s, pid, if found.Some? then Done(Value(found.value)) else Locking, s.store);
    case Locking =>
      if Get(s.store, s.now, LockKey(call.key)).None? {
        AcquireKeepsLocked(s, pid);
      } else {
        MoveKeepsLocked(s, pid, Waiting, s.store);
      }
    case Waiting => MoveKeepsLocked(s, pid, Looking, s.store);
    case Saving(since, data) =>
      MoveKeepsLocked(s, pid, Unlocking(since, Value(data)), SetEx(s.store, s.now, call.key, call.ttl, data));
    case Unlocking(_, result) => UnlockKeepsLocked(s, pid, result);
    case _ =>
  }

  /** A lock set by a SET NX that reports an error belongs to nobody. */
  lemma StrayLockKeepsLocked(s: State, pid: nat)
    requires Locked(s) && Timely(s) && pid in s.procs && s.procs[pid].phase.Locking?
    ensures var (store, _) := SetNx(s.store, s.now, LockKey(s.procs[pid].call.key), LOCK_TTL, LOCK_TEXT);
      Locked(Move(s, pid, Done(Thrown)).(store := store))
  {
    var (store, _) := SetNx(s.store, s.now, LockKey(s.procs[pid].call.key), LOCK_TTL, LOCK_TEXT);
    forall p | p in s.procs && Critical(s.procs[p].phase)
      ensures var lock := LockKey(s.procs[p].call.key); lock in store && lock in s.store && store[lock] == s.store[lock]
    {
      assert HoldsLock(s, s.procs[p]);
    }
    MoveKeepsLocked(s, pid, Done(Thrown), store);
  }

  lemma FailureKeepsLocked(s: State, pid: nat, applied: bool)
    requires Inv(s) && LocksApart(s.keys) && Timely(s) && pid in s.procs
    ensures Locked(Failure(s, pid, applied))
  {
    var Proc(call, phase) := s.procs[pid];
    match phase
    case Looking => MoveKeepsLocked(s, pid, if call.fallbackOnError then Locking else Done(Thrown), s.store);
    case Locking =>
      if applied { StrayLockKeepsLocked(s, pid); } else { MoveKeepsLocked(s, pid, Done(Thrown), s.store); }
    case Saving(since, data) =>
      MoveKeepsLocked(s, pid, Unlocking(since, if call.fallbackOnError then Value(data) else Thrown),
                      if applied then SetEx(s.store, s.now, call.key, call.ttl, data) else s.store);
    case Unlocking(_, result) =>
      if applied { UnlockKeepsLocked(s, pid, result); } else { MoveKeepsLocked(s, pid, Done(result), s.store); }
    case _ =>
  }

  lemma StepKeepsLocked(s: State, a: Action)
    requires Inv(s) && LocksApart(s.keys) && Timely(s) && Enabled(s, a)
    ensures Locked(Next(s, a))
  {
    match a
    case Act(pid) => CommandKeepsLocked(s, pid);
    case Fault(pid, applied) => FailureKeepsLocked(s, pid, applied);
    case CallbackReturns(pid, data) => MoveKeepsLocked(s, pid, Saving(s.procs[pid].phase.since, data), s.store);
    case CallbackThrows(pid) => MoveKeepsLocked(s, pid, Unlocking(s.procs[pid].phase.since, Thrown), s.store);
    case _ =>
  }

  /** A caller moves on with produced data; the cache keys in use hold produced data. */
  lemma MoveKeepsSourced(s: State, pid: nat, phase: Phase, store: Store<string>)
    requires Sourced(s) && pid in s.procs && CarriesProduced(s, Proc(s.procs[pid].call, phase))
    requires forall k :: k in s.keys && k in store ==> (k, store[k].value) in s.produced
    ensures Sourced(Move(s, pid, phase).(store := store))
  {
    var t := Move(s, pid, phase).(store := store);
    forall p | p in t.procs ensures t.procs[p].call.key in t.keys && CarriesProduced(t, t.procs[p]) {
      assert p != pid ==> CarriesProduced(s, s.procs[p]);
    }
  }

  lemma CommandKeepsSourced(s: State, pid: nat)
    requires Sourced(s) && LocksApart(s.keys) && pid in s.procs
    ensures Sourced(Command(s, pid))
  {
    var t := Command(s, pid);
    assert CarriesProduced(s, s.procs[pid]);
    MoveKeepsSourced(s, pid, t.procs[pid].phase, t.store);
  }

  lemma FailureKeepsSourced(s: State, pid: nat, applied: bool)
    requires Sourced(s) && LocksApart(s.keys) && pid in s.procs
    ensures Sourced(Failure(s, pid, applied))
  {
    var t := Failure(s, pid, applied);
    assert CarriesProduced(s, s.procs[pid]);
    MoveKeepsSourced(s, pid, t.procs[pid].phase, t.store);
  }

  lemma ReturnKeepsSourced(s: State, pid: nat, data: string)
    requires Sourced(s) && Enabled(s, CallbackReturns(pid, data))
    ensures Sourced(Next(s, CallbackReturns(pid, data)))
  {
    var grown := s.(produced := s.produced + {(s.procs[pid].call.key, data)});
    forall p | p in s.procs ensures CarriesProduced(grown, s.procs[p]) {
      assert CarriesProduced(s, s.procs[p]);
    }
    MoveKeepsSourced(grown, pid, Saving(s.procs[pid].phase.since, data), s.store);
  }

  lemma StepKeepsSourced(s: State, a: Action)
    requires Sourced(s) && LocksApart(s.keys) && Enabled(s, a)
    ensures Sourced(Next(s, a)) && Next(s, a).keys == s.keys
  {
    match a
    case Act(pid) => CommandKeepsSourced(s, pid);
    case Fault(pid, applied) => FailureKeepsSourced(s, pid, applied);
    case CallbackReturns(pid, data) => ReturnKeepsSourced(s, pid, data);
    case CallbackThrows(pid) => MoveKeepsSourced(s, pid, Unlocking(s.procs[pid].phase.since, Thrown), s.store);
    case Crash(pid) => MoveKeepsSourced(s, pid, Crashed, s.store);
    case _ =>
      forall p | p in s.procs ensures CarriesProduced(Next(s, a), s.procs[p]) {
        assert CarriesProduced(s, s.procs[p]);
      }
  }

  lemma {:induction false} RunKeepsSourced(run: seq<State>, keys: set<string>, i: nat)
    requires IsRun(run, keys) && LocksApart(keys) && i < |run|
    ensures Sourced(run[i]) && run[i].keys == keys
  {
    if i == 0 {
    } else {
      RunKeepsSourced(run, keys, i - 1);
      StepAt(Step, run, i - 1);
      var a :| Enabled(run[i - 1], a) && run[i] == Next(run[i - 1], a);
      StepKeepsSourced(run[i - 1], a);
    }
  }

  lemma {:induction false} RunKeepsInv(run: seq<State>, keys: set<string>, i: nat)
    requires TimelyRun(run, keys) && LocksApart(keys) && i < |run|
    ensures Inv(run[i]) && run[i].keys == keys
  {
    RunKeepsSourced(run, keys, i);
    if i == 0 {
    } else {
      RunKeepsInv(run, keys, i - 1);
      StepAt(Step, run, i - 1);
      var a :| Enabled(run[i - 1], a) && run[i] == Next(run[i - 1], a);
      StepKeepsLocked(run[i - 1], a);
    }
  }
}
