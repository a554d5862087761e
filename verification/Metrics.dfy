/** The in-memory metrics of realtime connections and events. */
module Metrics {

  datatype Priority = CRITICAL | HIGH | NORMAL

  datatype Entry = Entry(userId: string, role: string)

  /** The connection part of the collector. */
  datatype Connections = Connections(
    total: int, active: int, byRole: map<string, int>, index: map<string, Entry>)

  /** The event part; `latencySum` and `samples` make the average. */
  datatype Events = Events(
    total: int, byType: map<string, int>, byPriority: map<Priority, int>, latencySum: real, samples: int, failed: int)

  function Count<K(==)>(counts: map<K, int>, key: K): int {
    if key in counts then counts[key] else 0
  }

  function Max(a: int, b: int): int { if a < b then b else a }

  const NO_CONNECTIONS := Connections(0, 0, map[], map[])
  const NO_EVENTS := Events(0, map[], map[CRITICAL := 0, HIGH := 0, NORMAL := 0], 0.0, 0, 0)

  function Connected(c: Connections, socketId: string, userId: string, role: string): Connections {
    Connections(c.total + 1, c.active + 1, c.byRole[role := Count(c.byRole, role) + 1],
                c.index[socketId := Entry(userId, role)])
  }

  function Disconnected(c: Connections, socketId: string): Connections {
    if socketId !in c.index then c
    else
      var role := c.index[socketId].role;
      Connections(c.total, Max(0, c.active - 1), c.byRole[role := Max(0, Count(c.byRole, role) - 1)],
                  c.index - {socketId})
  }

  function Emitted(e: Events, eventType: string, priority: Priority, latencyMs: real): Events {
    Events(e.total + 1, e.byType[eventType := Count(e.byType, eventType) + 1],
           e.byPriority[priority := Count(e.byPriority, priority) + 1],
           e.latencySum + latencyMs, e.samples + 1, e.failed)
  }

  class MetricsCollector {
    var totalConnections: int
    var activeConnections: int
    var connectionByRole: map<string, int>
    var connectionIndex: map<string, Entry>
    var totalEvents: int
    var eventsByType: map<string, int>
    var eventsByPriority: map<Priority, int>
    var totalLatencyMs: real
    var latencySamples: int
    var failedDeliveries: int

    ghost function Conns(): Connections
      reads this
    {
      Connections(totalConnections, activeConnections, connectionByRole, connectionIndex)
    }

    ghost function Evts(): Events
      reads this
    {
      Events(totalEvents, eventsByType, eventsByPriority, totalLatencyMs, latencySamples, failedDeliveries)
    }

    constructor ()
      ensures Conns() == NO_CONNECTIONS && Evts() == NO_EVENTS
    {
      totalConnections, activeConnections, connectionByRole, connectionIndex := 0, 0, map[], map[];
      totalEvents, eventsByType, totalLatencyMs, latencySamples, failedDeliveries := 0, map[], 0.0, 0, 0;
      eventsByPriority := map[CRITICAL := 0, HIGH := 0, NORMAL := 0];
    }

    method TrackConnection(socketId: string, userId: string, role: string)
      modifies this
      ensures Conns() == Connected(old(Conns()), socketId, userId, role) && Evts() == old(Evts())
    {
      totalConnections := totalConnections + 1;
      activeConnections := activeConnections + 1;
      connectionIndex := connectionIndex[socketId := Entry(userId, role)];
      connectionByRole := connectionByRole[role := Count(connectionByRole, role) + 1];
    }

    method TrackDisconnection(socketId: string)
      modifies this
      ensures Conns() == Disconnected(old(Conns()), socketId) && Evts() == old(Evts())
    {
      if socketId !in connectionIndex {
        return;
      }
      var entry := connectionIndex[socketId];
      connectionIndex := connectionIndex - {socketId};
      activeConnections := Max(0, activeConnections - 1);
      var current := Count(connectionByRole, entry.role);
      connectionByRole := connectionByRole[entry.role := Max(0, current - 1)];
    }

    method TrackEventEmit(eventType: string, priority: Priority, latencyMs: real)
      modifies this
      ensures Evts() == Emitted(old(Evts()), eventType, priority, latencyMs) && Conns() == old(Conns())
    {
      totalEvents := totalEvents + 1;
      eventsByType := eventsByType[eventType := Count(eventsByType, eventType) + 1];
      eventsByPriority := eventsByPriority[priority := Count(eventsByPriority, priority) + 1];
      totalLatencyMs := totalLatencyMs + latencyMs;
      latencySamples := latencySamples + 1;
    }

    method TrackEventDeliveryFailure()
      modifies this
      ensures Evts() == old(Evts()).(failed := old(Evts()).failed + 1) && Conns() == old(Conns())
    {
      failedDeliveries := failedDeliveries + 1;
    }

    method ResetMetrics()
      modifies this
      ensures Conns() == NO_CONNECTIONS
      ensures Evts() == NO_EVENTS.(byPriority := old(Evts()).byPriority[CRITICAL := 0][HIGH := 0][NORMAL := 0])
    {
      totalConnections, activeConnections, connectionByRole, connectionIndex := 0, 0, map[], map[];
      totalEvents, eventsByType, totalLatencyMs, latencySamples, failedDeliveries := 0, map[], 0.0, 0, 0;
      eventsByPriority := eventsByPriority[CRITICAL := 0][HIGH := 0][NORMAL := 0];
    }
  }

  // ----- sums of counters

  ghost function Sum<K(!new)>(keys: set<K>, counts: map<K, int>): int {
    if keys == {} then 0
    else
      var k :| k in keys;
      Count(counts, k) + Sum(keys - {k}, counts)
  }

  lemma {:induction false} SumSplit<K(!new)>(keys: set<K>, counts: map<K, int>, k: K)
    requires k in keys
    ensures Sum(keys, counts) == Count(counts, k) + Sum(keys - {k}, counts)
  {
    var j :| j in keys && Sum(keys, counts) == Count(counts, j) + Sum(keys - {j}, counts);
    if j != k {
      SumSplit(keys - {j}, counts, k);
      SumSplit(keys - {k}, counts, j);
      assert keys - {j} - {k} == keys - {k} - {j};
    }
  }

  lemma {:induction false} SumAgrees<K(!new)>(keys: set<K>, a: map<K, int>, b: map<K, int>)
    requires forall k :: k in keys ==> Count(a, k) == Count(b, k)
    ensures Sum(keys, a) == Sum(keys, b)
  {
    if keys == {} {
    } else {
      var k :| k in keys;
      SumSplit(keys, a, k);
      SumSplit(keys, b, k);
      SumAgrees(keys - {k}, a, b);
    }
  }

  /** Setting one counter changes the sum by the difference. */
  lemma SumUpdate<K(!new)>(counts: map<K, int>, key: K, value: int)
    ensures Sum(counts[key := value].Keys, counts[key := value])
      == Sum(counts.Keys, counts) + value - Count(counts, key)
  {
    var updated := counts[key := value];
    SumSplit(updated.Keys, updated, key);
    var others := counts.Keys - {key};
    assert updated.Keys - {key} == others;
    SumAgrees(others, counts, updated);
    if key in counts {
      SumSplit(counts.Keys, counts, key);
    } else {
      assert others == counts.Keys;
    }
  }

  // ----- conservation

  function WithRole(index: map<string, Entry>, role: string): set<string> {
    set s | s in index && index[s].role == role
  }

  /** Active connections are the tracked sockets, in all and role by role. */
  ghost predicate Conserved(c: Connections) {
    && c.active == |c.index|
    && (forall role :: Count(c.byRole, role) == |WithRole(c.index, role)|)
    && Sum(c.byRole.Keys, c.byRole) == c.active
  }

  lemma WithRoleAdded(index: map<string, Entry>, socketId: string, entry: Entry, r: string)
    requires socketId !in index
    ensures |WithRole(index[socketId := entry], r)| == |WithRole(index, r)| + if r == entry.role then 1 else 0
  {
    assert WithRole(index[socketId := entry], r) == WithRole(index, r) + if r == entry.role then {socketId} else {};
  }

  lemma RoleStaysExact(c: Connections, socketId: string, userId: string, role: string, r: string)
    requires Conserved(c) && socketId !in c.index
    ensures Count(Connected(c, socketId, userId, role).byRole, r)
      == |WithRole(Connected(c, socketId, userId, role).index, r)|
  {
    WithRoleAdded(c.index, socketId, Entry(userId, role), r);
  }

  lemma NewSocketConserves(c: Connections, socketId: string, userId: string, role: string)
    requires Conserved(c) && socketId !in c.index
    ensures Conserved(Connected(c, socketId, userId, role))
  {
    var t := Connected(c, socketId, userId, role);
    assert t.index.Keys == c.index.Keys + {socketId};
    forall r ensures Count(t.byRole, r) == |WithRole(t.index, r)| {
      RoleStaysExact(c, socketId, userId, role, r);
    }
    SumUpdate(c.byRole, role, Count(c.byRole, role) + 1);
  }

  /** Tracking a connection keeps the books exactly when the socket was not tracked. */
  lemma ConnectConserves(c: Connections, socketId: string, userId: string, role: string)
    requires Conserved(c)
    ensures Conserved(Connected(c, socketId, userId, role)) <==> socketId !in c.index
  {
    if socketId !in c.index {
      NewSocketConserves(c, socketId, userId, role);
    } else {
      assert Connected(c, socketId, userId, role).index.Keys == c.index.Keys;
    }
  }

  /** Dropping one keeps the books, and no clamp at zero ever bites. */
  lemma DisconnectConserves(c: Connections, socketId: string)
    requires Conserved(c)
    ensures Conserved(Disconnected(c, socketId))
    ensures socketId in c.index ==>
      && Disconnected(c, socketId).active == c.active - 1
      && var role := c.index[socketId].role;
        Count(Disconnected(c, socketId).byRole, role) == Count(c.byRole, role) - 1
  {
    if socketId in c.index {
      var t, role := Disconnected(c, socketId), c.index[socketId].role;
      assert t.index.Keys == c.index.Keys - {socketId};
      assert socketId in WithRole(c.index, role);
      forall r ensures Count(t.byRole, r) == |WithRole(t.index, r)| {
        WithRoleRemoved(c.index, socketId, r);
      }
      SumUpdate(c.byRole, role, Count(c.byRole, role) - 1);
    }
  }

  datatype Op =
    | Connect(socketId: string, userId: string, role: string)
    | Disconnect(socketId: string)
    | Emit(eventType: string, priority: Priority, latencyMs: real)
    | Fail
    | Reset

  function ConnsAfter(ops: seq<Op>): Connections {
    if ops == [] then NO_CONNECTIONS
    else
      var before := ConnsAfter(ops[..|ops| - 1]);
      match ops[|ops| - 1]
      case Connect(s, u, r) => Connected(before, s, u, r)
      case Disconnect(s) => Disconnected(before, s)
      case Reset => NO_CONNECTIONS
      case _ => before
  }

  function EventsAfter(ops: seq<Op>): Events {
    if ops == [] then NO_EVENTS
    else
      var before := EventsAfter(ops[..|ops| - 1]);
      match ops[|ops| - 1]
      case Emit(t, p, latency) => Emitted(before, t, p, latency)
      case Fail => before.(failed := before.failed + 1)
      case Reset => NO_EVENTS.(byPriority := before.byPriority[CRITICAL := 0][HIGH := 0][NORMAL := 0])
      case _ => before
  }

  /** Connections tracked, since the last reset, under an id that was tracked already. */
  function Reconnects(ops: seq<Op>): nat {
    if ops == [] then 0
    else
      var before := ops[..|ops| - 1];
      match ops[|ops| - 1]
      case Connect(s, _, _) => Reconnects(before) + if s in ConnsAfter(before).index then 1 else 0
      case Reset => 0
      case _ => Reconnects(before)
  }

  /** Each reconnect leaves the active count one too high, until a reset. */
  lemma {:induction false} ActiveCountsReconnects(ops: seq<Op>)
    ensures ConnsAfter(ops).active == |ConnsAfter(ops).index| + Reconnects(ops)
  {
    if ops == [] {
    } else {
      var before := ops[..|ops| - 1];
      ActiveCountsReconnects(before);
      var index := ConnsAfter(before).index;
      match ops[|ops| - 1]
      case Connect(s, u, r) => assert index[s := Entry(u, r)].Keys == index.Keys + {s};
      case Disconnect(s) => assert (index - {s}).Keys == index.Keys - {s};
      case _ =>
    }
  }

  /** In every run, resets with open sockets included, the books balance exactly when
      no socket was tracked twice since the last reset. */
  lemma {:induction false} RunsConserve(ops: seq<Op>)
    ensures Conserved(ConnsAfter(ops)) <==> Reconnects(ops) == 0
  {
    ActiveCountsReconnects(ops);
    if ops == [] {
    } else if Reconnects(ops) == 0 {
      var before := ops[..|ops| - 1];
      RunsConserve(before);
      match ops[|ops| - 1]
      case Connect(s, u, r) => ConnectConserves(ConnsAfter(before), s, u, r);
      case Disconnect(s) => DisconnectConserves(ConnsAfter(before), s);
      case _ =>
    }
  }

  /** Each role counts at least its sockets, and the roles sum to the active count. */
  ghost predicate Covered(c: Connections) {
    && (forall role :: Count(c.byRole, role) >= |WithRole(c.index, role)|)
    && Sum(c.byRole.Keys, c.byRole) == c.active >= |c.index|
  }

  lemma {:induction false} SubsetSize(a: set<string>, b: set<string>)
    requires a <= b
    ensures |a| <= |b|
  {
    if a == {} {
    } else {
      var x :| x in a;
      SubsetSize(a - {x}, b - {x});
    }
  }

  lemma RoleCoversNewSocket(c: Connections, socketId: string, userId: string, role: string, r: string)
    requires Covered(c)
    ensures Count(Connected(c, socketId, userId, role).byRole, r)
      >= |WithRole(Connected(c, socketId, userId, role).index, r)|
  {
    var before, added := WithRole(c.index, r), if r == role then {socketId} else {};
    SubsetSize(WithRole(c.index[socketId := Entry(userId, role)], r), before + added);
  }

  lemma ConnectCovers(c: Connections, socketId: string, userId: string, role: string)
    requires Covered(c)
    ensures Covered(Connected(c, socketId, userId, role))
  {
    var t := Connected(c, socketId, userId, role);
    forall r ensures Count(t.byRole, r) >= |WithRole(t.index, r)| {
      RoleCoversNewSocket(c, socketId, userId, role, r);
    }
    SumUpdate(c.byRole, role, Count(c.byRole, role) + 1);
    assert t.index.Keys == c.index.Keys + {socketId};
  }

  lemma TrackedIsCounted(c: Connections, socketId: string)
    requires Covered(c) && socketId in c.index
    ensures c.active >= 1 && Count(c.byRole, c.index[socketId].role) >= 1
  {
    assert socketId in WithRole(c.index, c.index[socketId].role);
  }

  lemma WithRoleRemoved(index: map<string, Entry>, socketId: string, r: string)
    requires socketId in index
    ensures |WithRole(index - {socketId}, r)| == |WithRole(index, r)| - if r == index[socketId].role then 1 else 0
  {
    assert WithRole(index - {socketId}, r) == WithRole(index, r) - {socketId};
    assert socketId in WithRole(index, r) <==> r == index[socketId].role;
  }

  lemma RoleStaysCovered(c: Connections, socketId: string, r: string)
    requires Covered(c) && socketId in c.index
    ensures Count(Disconnected(c, socketId).byRole, r) >= |WithRole(Disconnected(c, socketId).index, r)|
  {
    TrackedIsCounted(c, socketId);
    WithRoleRemoved(c.index, socketId, r);
  }

  lemma DisconnectCovers(c: Connections, socketId: string)
    requires Covered(c) && socketId in c.index
    ensures Covered(Disconnected(c, socketId))
  {
    var role := c.index[socketId].role;
    TrackedIsCounted(c, socketId);
    forall r ensures Count(Disconnected(c, socketId).byRole, r) >= |WithRole(Disconnected(c, socketId).index, r)| {
      RoleStaysCovered(c, socketId, r);
    }
    SumUpdate(c.byRole, role, Count(c.byRole, role) - 1);
    assert (c.index - {socketId}).Keys == c.index.Keys - {socketId};
  }

  lemma {:induction false} RunsCover(ops: seq<Op>)
    ensures Covered(ConnsAfter(ops))
  {
    if ops == [] {
    } else {
      var before := ops[..|ops| - 1];
      RunsCover(before);
      match ops[|ops| - 1]
      case Connect(s, u, r) => ConnectCovers(ConnsAfter(before), s, u, r);
      case Disconnect(s) =>
        if s in ConnsAfter(before).index { DisconnectCovers(ConnsAfter(before), s); }
      case _ =>
    }
  }

  /** In every run, reconnects included, neither clamp at zero ever changes a value. */
  lemma ClampsNeverBite(ops: seq<Op>, socketId: string)
    requires socketId in ConnsAfter(ops).index
    ensures var c := ConnsAfter(ops); var role := c.index[socketId].role;
      && Disconnected(c, socketId).active == c.active - 1
      && Count(Disconnected(c, socketId).byRole, role) == Count(c.byRole, role) - 1
  {
    RunsCover(ops);
    TrackedIsCounted(ConnsAfter(ops), socketId);
  }

  /** Events are counted once by type, once by priority and once as a latency sample. */
  lemma {:induction false} EventsConserve(ops: seq<Op>)
    ensures var e := EventsAfter(ops);
      && Sum(e.byType.Keys, e.byType) == e.total == e.samples
      && Count(e.byPriority, CRITICAL) + Count(e.byPriority, HIGH) + Count(e.byPriority, NORMAL) == e.total
  {
    if ops == [] {
    } else {
      EventsConserve(ops[..|ops| - 1]);
      var before := EventsAfter(ops[..|ops| - 1]);
      match ops[|ops| - 1]
      case Emit(t, p, _) =>
        SumUpdate(before.byType, t, Count(before.byType, t) + 1);
        assert p.CRITICAL? || p.HIGH? || p.NORMAL?;
      case _ =>
    }
  }

  // ----- what is counted, on the log of calls

  /** The operations since the last reset. */
  function SinceReset(ops: seq<Op>): seq<Op> {
    if ops == [] || ops[|ops| - 1].Reset? then [] else SinceReset(ops[..|ops| - 1]) + [ops[|ops| - 1]]
  }

  function Connects(ops: seq<Op>): nat {
    if ops == [] then 0 else Connects(ops[..|ops| - 1]) + if ops[|ops| - 1].Connect? then 1 else 0
  }

  function Fails(ops: seq<Op>): nat {
    if ops == [] then 0 else Fails(ops[..|ops| - 1]) + if ops[|ops| - 1].Fail? then 1 else 0
  }

  function EmitsOfType(ops: seq<Op>, eventType: string): nat {
    if ops == [] then 0
    else
      var last := ops[|ops| - 1];
      EmitsOfType(ops[..|ops| - 1], eventType) + if last.Emit? && last.eventType == eventType then 1 else 0
  }

  function EmitsOfPriority(ops: seq<Op>, priority: Priority): nat {
    if ops == [] then 0
    else
      var last := ops[|ops| - 1];
      EmitsOfPriority(ops[..|ops| - 1], priority) + if last.Emit? && last.priority == priority then 1 else 0
  }

  function Latencies(ops: seq<Op>): real {
    if ops == [] then 0.0
    else Latencies(ops[..|ops| - 1]) + if ops[|ops| - 1].Emit? then ops[|ops| - 1].latencyMs else 0.0
  }

  lemma RecentGrows(ops: seq<Op>)
    requires ops != [] && !ops[|ops| - 1].Reset?
    ensures var recent := SinceReset(ops);
      && recent != [] && recent[|recent| - 1] == ops[|ops| - 1]
      && recent[..|recent| - 1] == SinceReset(ops[..|ops| - 1])
  {
  }

  lemma {:induction false} ConnectsAreCounted(ops: seq<Op>)
    ensures ConnsAfter(ops).total == Connects(SinceReset(ops))
  {
    if ops == [] {
    } else {
      ConnectsAreCounted(ops[..|ops| - 1]);
      if !ops[|ops| - 1].Reset? {
        RecentGrows(ops);
      }
    }
  }

  lemma {:induction false} FailsAreCounted(ops: seq<Op>)
    ensures EventsAfter(ops).failed == Fails(SinceReset(ops))
  {
    if ops == [] {
    } else {
      FailsAreCounted(ops[..|ops| - 1]);
      if !ops[|ops| - 1].Reset? {
        RecentGrows(ops);
      }
    }
  }

  lemma {:induction false} LatenciesAreSummed(ops: seq<Op>)
    ensures EventsAfter(ops).latencySum == Latencies(SinceReset(ops))
  {
    if ops == [] {
    } else {
      LatenciesAreSummed(ops[..|ops| - 1]);
      if !ops[|ops| - 1].Reset? {
        RecentGrows(ops);
      }
    }
  }

  lemma EmittedCounts(e: Events, last: Op, eventType: string, priority: Priority)
    requires last.Emit?
    ensures var after := Emitted(e, last.eventType, last.priority, last.latencyMs);
      && Count(after.byType, eventType) == Count(e.byType, eventType) + (if last.eventType == eventType then 1 else 0)
      && Count(after.byPriority, priority)
        == Count(e.byPriority, priority) + (if last.priority == priority then 1 else 0)
  {
  }

  lemma EmitsGrow(ops: seq<Op>, eventType: string, priority: Priority)
    requires ops != [] && !ops[|ops| - 1].Reset?
    ensures var last, before := ops[|ops| - 1], SinceReset(ops[..|ops| - 1]);
      && EmitsOfType(SinceReset(ops), eventType) ==
        EmitsOfType(before, eventType) + (if last.Emit? && last.eventType == eventType then 1 else 0)
      && EmitsOfPriority(SinceReset(ops), priority) ==
        EmitsOfPriority(before, priority) + (if last.Emit? && last.priority == priority then 1 else 0)
  {
    RecentGrows(ops);
  }

  lemma {:induction false} EmitsAreCounted(ops: seq<Op>, eventType: string, priority: Priority)
    ensures Count(EventsAfter(ops).byType, eventType) == EmitsOfType(SinceReset(ops), eventType)
    ensures Count(EventsAfter(ops).byPriority, priority) == EmitsOfPriority(SinceReset(ops), priority)
  {
    if ops == [] {
    } else {
      var last, before := ops[|ops| - 1], ops[..|ops| - 1];
      EmitsAreCounted(before, eventType, priority);
      if !last.Reset? {
        EmitsGrow(ops, eventType, priority);
      }
      if last.Emit? {
        EmittedCounts(EventsAfter(before), last, eventType, priority);
      }
    }
  }

  /** Each counter is the number of its own calls since the last reset. */
  lemma CountersAreCounts(ops: seq<Op>, eventType: string, priority: Priority)
    ensures var recent := SinceReset(ops);
      && ConnsAfter(ops).total == Connects(recent)
      && Count(EventsAfter(ops).byType, eventType) == EmitsOfType(recent, eventType)
      && Count(EventsAfter(ops).byPriority, priority) == EmitsOfPriority(recent, priority)
      && EventsAfter(ops).failed == Fails(recent)
      && EventsAfter(ops).latencySum == Latencies(recent)
  {
    ConnectsAreCounted(ops);
    FailsAreCounted(ops);
    LatenciesAreSummed(ops);
    EmitsAreCounted(ops, eventType, priority);
  }

  /** The entry of the last connect of a socket, unless it was disconnected or reset since. */
  function LastConnect(ops: seq<Op>, socketId: string): seq<Entry> {
    if ops == [] then []
    else
      match ops[|ops| - 1]
      case Connect(s, u, r) => if s == socketId then [Entry(u, r)] else LastConnect(ops[..|ops| - 1], socketId)
      case Disconnect(s) => if s == socketId then [] else LastConnect(ops[..|ops| - 1], socketId)
      case Reset => []
      case _ => LastConnect(ops[..|ops| - 1], socketId)
  }

  /** The index holds for each socket the user and role it last connected with. */
  lemma {:induction false} IndexIsExact(ops: seq<Op>, socketId: string)
    ensures LastConnect(ops, socketId) ==
      var index := ConnsAfter(ops).index; if socketId in index then [index[socketId]] else []
  {
    if ops == [] {
    } else {
      IndexIsExact(ops[..|ops| - 1], socketId);
    }
  }
}
