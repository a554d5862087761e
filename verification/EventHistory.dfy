/**
 Room history in a Redis sorted set: members are serialized events, ordered by
 (score, member), and each save adds its event, trims the set to its highest
 hundred and prolongs its life, with other saves running between these commands.
 Instants and lifetimes are in milliseconds.
 */
module EventHistory {
  import opened Wrappers

  const MAX_EVENTS_PER_ROOM: nat := 100
  const DEFAULT_TTL: nat := 60 * 60 * 1000

  datatype Event = Event(id: string, timestamp: int, body: string)

  /** A sorted-set entry. */
  datatype Entry = Entry(score: int, member: string)

  /** JSON.stringify and JSON.parse, of which only the round trip matters. */
  datatype Codec = Codec(stringify: Event -> string, parse: string -> Option<Event>) {
    ghost predicate RoundTrips() {
      forall e :: parse(stringify(e)) == Some(e)
    }

    function ToEntry(e: Event): Entry {
      Entry(e.timestamp, stringify(e))
    }
  }

  // ----- the order of a sorted set

  predicate TextLess(a: string, b: string) {
    if b == "" then false
    else if a == "" then true
    else a[0] < b[0] || (a[0] == b[0] && TextLess(a[1..], b[1..]))
  }

  lemma {:induction false} TextTotal(a: string, b: string)
    ensures TextLess(a, b) || a == b || TextLess(b, a)
    ensures !(TextLess(a, b) && TextLess(b, a))
    ensures !TextLess(a, a)
  {
    if a != "" && b != "" {
      TextTotal(a[1..], b[1..]);
      assert a[0] == b[0] && a[1..] == b[1..] ==> a == [a[0]] + a[1..] == b;
    }
    if a == "" {
    } else {
      TextTotal(a[1..], a[1..]);
    }
  }

  lemma {:induction false} TextTrans(a: string, b: string, c: string)
    requires TextLess(a, b) && TextLess(b, c)
    ensures TextLess(a, c)
  {
    if a != "" && a[0] == b[0] == c[0] {
      TextTrans(a[1..], b[1..], c[1..]);
    }
  }

  predicate Less(a: Entry, b: Entry) {
    a.score < b.score || (a.score == b.score && TextLess(a.member, b.member))
  }

  lemma LessTotal(a: Entry, b: Entry)
    ensures Less(a, b) || a == b || Less(b, a)
    ensures !(Less(a, b) && Less(b, a)) && !Less(a, a)
  {
    TextTotal(a.member, b.member);
  }

  lemma LessTrans(a: Entry, b: Entry, c: Entry)
    requires Less(a, b) && Less(b, c)
    ensures Less(a, c)
  {
    if a.score == b.score == c.score {
      TextTrans(a.member, b.member, c.member);
    }
  }

  ghost predicate Sorted(s: seq<Entry>) {
    forall i, j :: 0 <= i < j < |s| ==> Less(s[i], s[j])
  }

  // ----- sorted-set commands, on the sorted sequence of entries

  function Remove(s: seq<Entry>, member: string): seq<Entry> {
    if s == [] then []
    else if s[0].member == member then Remove(s[1..], member)
    else [s[0]] + Remove(s[1..], member)
  }

  function Insert(s: seq<Entry>, e: Entry): seq<Entry> {
    if s == [] || Less(e, s[0]) then [e] + s else [s[0]] + Insert(s[1..], e)
  }

  /** ZADD moves a member it already has to its new score. */
  function ZAdd(s: seq<Entry>, e: Entry): seq<Entry> {
    Insert(Remove(s, e.member), e)
  }

  /** A rank as Redis reads it: negative ranks count from the end. */
  function Rank(s: seq<Entry>, rank: int): int {
    if rank < 0 then |s| + rank else rank
  }

  function Clamp(low: int, x: int, high: int): (r: int)
    requires low <= high
    ensures low <= r <= high
  {
    if x < low then low else if x > high then high else x
  }

  /** ZREMRANGEBYRANK key 0 stop */
  function ZRemRange(s: seq<Entry>, stop: int): seq<Entry> {
    s[Clamp(0, Rank(s, stop) + 1, |s|)..]
  }

  /** ZRANGEBYSCORE key low +inf */
  function ZRangeByScore(s: seq<Entry>, low: int): seq<Entry> {
    if s == [] then []
    else if s[0].score >= low then [s[0]] + ZRangeByScore(s[1..], low)
    else ZRangeByScore(s[1..], low)
  }

  function Reverse<T>(s: seq<T>): (r: seq<T>)
    ensures |r| == |s| && forall i :: 0 <= i < |s| ==> r[i] == s[|s| - 1 - i]
  {
    if s == [] then [] else Reverse(s[1..]) + [s[0]]
  }

  /** ZREVRANGE key 0 stop */
  function ZRevRange(s: seq<Entry>, stop: int): seq<Entry> {
    Reverse(s)[..Clamp(0, Rank(s, stop) + 1, |s|)]
  }

  // ----- one room

  /** A sorted set as stored; without a deadline it stays. */
  datatype Room = Room(entries: seq<Entry>, deadline: Option<nat>)

  /** The writing commands the manager issues. */
  datatype Command = Add(event: Event) | Trim | Expire(ttl: nat) | Delete

  datatype Op = Op(command: Command, at: nat)

  /** A lapsed set reads as a missing one. */
  function Live(room: Option<Room>, now: nat): Option<Room> {
    if room.Some? && (room.value.deadline.None? || now < room.value.deadline.value) then room else None
  }

  function EntriesIn(room: Option<Room>): seq<Entry> {
    if room.Some? then room.value.entries else []
  }

  /** ZADD makes a missing set, without a deadline; the others leave it missing. */
  function Next(codec: Codec, room: Option<Room>, op: Op): Option<Room> {
    var live := Live(room, op.at);
    match op.command
    case Add(event) =>
      Some(Room(ZAdd(EntriesIn(live), codec.ToEntry(event)), if live.Some? then live.value.deadline else None))
    case Trim =>
      if live.None? then None
      else Some(live.value.(entries := ZRemRange(live.value.entries, -(MAX_EVENTS_PER_ROOM as int) - 1)))
    case Expire(ttl) => if live.None? then None else Some(live.value.(deadline := Some(op.at + ttl)))
    case Delete => None
  }

  function RoomAfter(codec: Codec, ops: seq<Op>): Option<Room> {
    if ops == [] then None else Next(codec, RoomAfter(codec, ops[..|ops| - 1]), ops[|ops| - 1])
  }

  lemma RoomAfterAppend(codec: Codec, ops: seq<Op>, op: Op)
    ensures RoomAfter(codec, ops + [op]) == Next(codec, RoomAfter(codec, ops), op)
  {
    assert (ops + [op])[..|ops|] == ops;
  }

  /** The commands issued on each room. */
  type History = map<string, seq<Op>>

  ghost function OpsOn(history: History, room: string): seq<Op> {
    if room in history then history[room] else []
  }

  ghost predicate Grown(before: History, after: History) {
    forall room :: OpsOn(before, room) <= OpsOn(after, room)
  }

  lemma GrownTrans(a: History, b: History, c: History)
    requires Grown(a, b) && Grown(b, c)
    ensures Grown(a, c)
  {
    forall room ensures OpsOn(a, room) <= OpsOn(c, room) {
      assert OpsOn(a, room) <= OpsOn(b, room) <= OpsOn(c, room);
    }
  }

  function StoredIn(rooms: map<string, Room>, room: string): Option<Room> {
    if room in rooms then Some(rooms[room]) else None
  }

  function Put(rooms: map<string, Room>, room: string, after: Option<Room>): map<string, Room> {
    if after.Some? then rooms[room := after.value] else rooms - {room}
  }

  /** What is stored is what the commands issued so far leave. */
  ghost predicate Records(codec: Codec, rooms: map<string, Room>, issued: History) {
    forall room :: StoredIn(rooms, room) == RoomAfter(codec, OpsOn(issued, room))
  }

  ghost function Issued(issued: History, room: string, op: Op): History {
    issued[room := OpsOn(issued, room) + [op]]
  }

  lemma IssueKeepsRecords(codec: Codec, rooms: map<string, Room>, issued: History, room: string, op: Op)
    requires Records(codec, rooms, issued)
    ensures Records(codec, Put(rooms, room, Next(codec, StoredIn(rooms, room), op)), Issued(issued, room, op))
    ensures Grown(issued, Issued(issued, room, op))
  {
    var after := Put(rooms, room, Next(codec, StoredIn(rooms, room), op));
    RoomAfterAppend(codec, OpsOn(issued, room), op);
    forall r ensures StoredIn(after, r) == RoomAfter(codec, OpsOn(Issued(issued, room, op), r)) {
      if r == room {
        assert StoredIn(after, r) == Next(codec, StoredIn(rooms, room), op);
      } else {
        assert StoredIn(after, r) == StoredIn(rooms, r) && OpsOn(Issued(issued, room, op), r) == OpsOn(issued, r);
      }
    }
  }

  /** The last k entries, or all. */
  function Last(s: seq<Entry>, k: nat): seq<Entry> {
    if |s| <= k then s else s[|s| - k..]
  }

  /** How many entries a request for `count` recent ones gets: with a count of zero
      or less, the stop rank count - 1 is taken as counted from the end. */
  function Served(count: int, size: nat): nat {
    if count >= 1 then (if count <= size then count else size) else Clamp(0, size + count, size)
  }

  // ----- the manager

  class EventHistoryManager {
    const codec: Codec
    var rooms: map<string, Room>
    var now: nat
    /** The commands issued so far, by whatever save. */
    ghost var issued: History

    function Entries(room: string): seq<Entry>
      reads this
    {
      EntriesIn(Live(StoredIn(rooms, room), now))
    }

    ghost predicate Valid()
      reads this
    {
      Records(codec, rooms, issued)
    }

    constructor (codec: Codec)
      ensures this.codec == codec && rooms == map[] && issued == map[] && Valid()
    {
      this.codec, rooms, now := codec, map[], 0;
      issued := map[];
    }

    /** Time passes and other calls issue commands. */
    method Await()
      requires Valid()
      modifies this
      ensures Valid() && now >= old(now) && Grown(old(issued), issued)
    {
    }

    method Send(room: string, command: Command)
      requires Valid()
      modifies this`rooms, this`issued
      ensures Valid() && issued == Issued(old(issued), room, Op(command, now))
      ensures Grown(old(issued), issued)
    {
      IssueKeepsRecords(codec, rooms, issued, room, Op(command, now));
      rooms := Put(rooms, room, Next(codec, StoredIn(rooms, room), Op(command, now)));
      issued := Issued(issued, room, Op(command, now));
    }

    /** The three commands of a save stand in this order in the history of the room,
        at positions `add`, `trim` and `expire`, with any others between them. */
    method SaveEvent(room: string, event: Event, ttl: Option<nat>)
      returns (ghost add: nat, ghost trim: nat, ghost expire: nat)
      requires Valid()
      modifies this
      ensures Valid() && Grown(old(issued), issued)
      ensures var ops := OpsOn(issued, room);
        && |OpsOn(old(issued), room)| == add < trim < expire == |ops| - 1
        && ops[add].command == Add(event) && ops[trim].command == Trim
        && ops[expire].command == Expire(ttl.GetOr(DEFAULT_TTL))
    {
      add := |OpsOn(issued, room)|;
      Send(room, Add(event));
      ghost var added := issued;
      Await();
      trim := |OpsOn(issued, room)|;
      GrownTrans(old(issued), added, issued);
      ghost var awaited := issued;
      Send(room, Trim);
      GrownTrans(added, awaited, issued);
      ghost var trimmed := issued;
      Await();
      expire := |OpsOn(issued, room)|;
      GrownTrans(added, trimmed, issued);
      awaited := issued;
      Send(room, Expire(ttl.GetOr(DEFAULT_TTL)));
      GrownTrans(added, awaited, issued);
      GrownTrans(trimmed, awaited, issued);
      GrownTrans(old(issued), added, issued);
      assert OpsOn(added, room) <= OpsOn(issued, room) && OpsOn(trimmed, room) <= OpsOn(issued, room);
    }

    method ClearHistory(room: string)
      requires Valid()
      modifies this`rooms, this`issued
      ensures Valid() && issued == Issued(old(issued), room, Op(Delete, now))
    {
      Send(room, Delete);
    }

    /** What parses, in order. */
    method DeserializeEvents(entries: seq<Entry>) returns (events: seq<Event>)
      ensures events == Parsed(codec, entries)
    {
      events := [];
      for i := 0 to |entries|
        invariant events == Parsed(codec, entries[..i])
      {
        ParsedAppend(codec, entries[..i], entries[i]);
        assert entries[..i + 1] == entries[..i] + [entries[i]];
        var parsed := codec.parse(entries[i].member);
        if parsed.Some? {
          events := events + [parsed.value];
        }
      }
      assert entries[..|entries|] == entries;
    }

    method GetEventsSince(room: string, timestamp: int) returns (events: seq<Event>)
      ensures events == Parsed(codec, ZRangeByScore(Entries(room), timestamp))
    {
      events := DeserializeEvents(ZRangeByScore(Entries(room), timestamp));
    }

    method GetRecentEvents(room: string, count: int) returns (events: seq<Event>)
      ensures var entries := Entries(room);
        events == Reverse(Parsed(codec, Reverse(Last(entries, Served(count, |entries|)))))
    {
      var entries := Entries(room);
      var found := ZRevRange(entries, count - 1);
      assert found == Reverse(Last(entries, Served(count, |entries|)));
      var newestFirst := DeserializeEvents(found);
      events := Reverse(newestFirst);
    }
  }

  function Parsed(codec: Codec, entries: seq<Entry>): seq<Event> {
    if entries == [] then []
    else
      match codec.parse(entries[0].member)
      case Some(e) => [e] + Parsed(codec, entries[1..])
      case None => Parsed(codec, entries[1..])
  }

  lemma {:induction false} ParsedAppend(codec: Codec, entries: seq<Entry>, e: Entry)
    ensures Parsed(codec, entries + [e]) == Parsed(codec, entries) +
      (match codec.parse(e.member) case Some(event) => [event] case None => [])
  {
    if entries == [] {
    } else {
      ParsedAppend(codec, entries[1..], e);
      assert (entries + [e])[1..] == entries[1..] + [e];
    }
  }
}
