/**
 The two-way presence index: a set of sockets per room key and a list of room
 keys per socket key. Each operation is one step, keys do not expire.
 */
module Presence {
  import opened Text

  function RoomKey(userId: string, surface: string): string {
    "realtime:notification:room:" + (userId + ":" + surface)
  }

  /** Colon-free user ids make room keys unambiguous. */
  lemma RoomKeysAreDistinct(u: string, r: string, v: string, t: string)
    requires Free(u, ':') && Free(v, ':')
    ensures RoomKey(u, r) == RoomKey(v, t) <==> u == v && r == t
  {
    if RoomKey(u, r) == RoomKey(v, t) {
      assert u + ":" + r == RoomKey(u, r)[27..] && v + ":" + t == RoomKey(v, t)[27..];
      SplitAtFirst(u, v, ':', r, t);
    }
  }

  type Rooms = map<string, set<string>>
  type Sockets = map<string, seq<string>>

  ghost predicate NoDuplicates(s: seq<string>) {
    forall i, j :: 0 <= i < j < |s| ==> s[i] != s[j]
  }

  predicate InRoom(rooms: Rooms, room: string, socket: string) {
    room in rooms && socket in rooms[room]
  }

  predicate Lists(sockets: Sockets, socket: string, room: string) {
    socket in sockets && room in sockets[socket]
  }

  /** Both indexes tell one story; Redis keeps no empty set, the service no empty list. */
  ghost predicate Agree(rooms: Rooms, sockets: Sockets) {
    && (forall r :: r in rooms ==> rooms[r] != {})
    && (forall s :: s in sockets ==> sockets[s] != [] && NoDuplicates(sockets[s]))
    && (forall r, s :: InRoom(rooms, r, s) <==> Lists(sockets, s, r))
  }

  // ----- Redis commands and the list edits of the service

  function SAdd(rooms: Rooms, room: string, socket: string): Rooms {
    rooms[room := (if room in rooms then rooms[room] else {}) + {socket}]
  }

  /** SREM drops the key with its last member. */
  function SRem(rooms: Rooms, room: string, socket: string): (after: Rooms)
    ensures forall r, s :: InRoom(after, r, s) <==> InRoom(rooms, r, s) && !(r == room && s == socket)
    ensures (forall r :: r in rooms ==> rooms[r] != {}) ==> forall r :: r in after ==> after[r] != {}
  {
    if room !in rooms then rooms
    else
      var left := rooms[room] - {socket};
      assert forall s :: s in left <==> s in rooms[room] && s != socket;
      if left == {} then rooms - {room} else rooms[room := left]
  }

  function Cleared(rooms: Rooms, listed: seq<string>, socket: string): (after: Rooms)
    ensures forall r, s :: InRoom(after, r, s) <==> InRoom(rooms, r, s) && !(s == socket && r in listed)
    ensures (forall r :: r in rooms ==> rooms[r] != {}) ==> forall r :: r in after ==> after[r] != {}
    decreases listed
  {
    if listed == [] then rooms else Cleared(SRem(rooms, listed[0], socket), listed[1..], socket)
  }

  function Added(rooms: seq<string>, room: string): seq<string> {
    if room in rooms then rooms else rooms + [room]
  }

  function Without(rooms: seq<string>, room: string): (rest: seq<string>)
    ensures forall r :: r in rest <==> r in rooms && r != room
  {
    if rooms == [] then []
    else if rooms[0] == room then Without(rooms[1..], room)
    else [rooms[0]] + Without(rooms[1..], room)
  }

  lemma {:induction false} WithoutKeepsDistinct(rooms: seq<string>, room: string)
    requires NoDuplicates(rooms)
    ensures NoDuplicates(Without(rooms, room))
  {
    if rooms == [] {
    } else {
      WithoutKeepsDistinct(rooms[1..], room);
      var rest := Without(rooms[1..], room);
      forall i | 0 <= i < |rest| ensures rest[i] != rooms[0] {
        assert rest[i] in rest;
      }
    }
  }

  // ----- the service

  class RoomPresenceService {
    var rooms: Rooms
    var sockets: Sockets

    constructor ()
      ensures rooms == map[] && sockets == map[]
      ensures Agree(rooms, sockets)
    {
      rooms, sockets := map[], map[];
    }

    ghost function State(): Index
      reads this
    {
      Index(rooms, sockets)
    }

    method MarkPresent(userId: string, surface: string, socketId: string)
      modifies this
      ensures State() == Apply(old(State()), Mark(RoomKey(userId, surface), socketId))
    {
      var roomKey := RoomKey(userId, surface);
      var listed := if socketId in sockets then sockets[socketId] else [];
      if roomKey !in listed {
        listed := listed + [roomKey];
      }
      rooms := SAdd(rooms, roomKey, socketId);
      sockets := sockets[socketId := listed];
    }

    method UnmarkPresent(userId: string, surface: string, socketId: string)
      modifies this
      ensures State() == Apply(old(State()), Unmark(RoomKey(userId, surface), socketId))
    {
      var roomKey := RoomKey(userId, surface);
      if socketId !in sockets {
        rooms := SRem(rooms, roomKey, socketId);
        return;
      }
      var left := Without(sockets[socketId], roomKey);
      rooms := SRem(rooms, roomKey, socketId);
      if |left| > 0 {
        sockets := sockets[socketId := left];
      } else {
        sockets := sockets - {socketId};
      }
    }

    method ClearSocket(socketId: string)
      modifies this
      ensures State() == Apply(old(State()), Clear(socketId))
    {
      if socketId !in sockets {
        return;
      }
      var listed := sockets[socketId];
      for i := 0 to |listed|
        invariant sockets == old(sockets)
        invariant Cleared(rooms, listed[i..], socketId) == Cleared(old(rooms), listed, socketId)
      {
        rooms := SRem(rooms, listed[i], socketId);
        assert listed[i..][1..] == listed[i + 1..];
      }
      sockets := sockets - {socketId};
    }

    /** Looks for a member whose socket key exists, dropping those whose key is
        gone; members come in any order. */
    method IsSurfacePresent(userId: string, surface: string) returns (present: bool)
      modifies this`rooms
      ensures present <==> exists s :: InRoom(old(rooms), RoomKey(userId, surface), s) && s in sockets
      ensures forall r, s :: InRoom(rooms, r, s) ==> InRoom(old(rooms), r, s)
      ensures forall r, s :: InRoom(old(rooms), r, s) && !InRoom(rooms, r, s) ==> s !in sockets
      ensures (forall s :: InRoom(old(rooms), RoomKey(userId, surface), s) ==> s in sockets) ==> rooms == old(rooms)
    {
      var roomKey := RoomKey(userId, surface);
      ghost var start := rooms;
      var unseen := if roomKey in rooms then rooms[roomKey] else {};
      while unseen != {}
        invariant roomKey in start ==> unseen <= start[roomKey]
        invariant roomKey !in start ==> unseen == {}
        invariant forall s :: InRoom(start, roomKey, s) && s !in unseen ==> s !in sockets
        invariant forall r, s :: InRoom(rooms, r, s) ==> InRoom(start, r, s)
        invariant forall r, s :: InRoom(start, r, s) && !InRoom(rooms, r, s) ==> s !in sockets
        invariant rooms == start || exists s :: InRoom(start, roomKey, s) && s !in sockets
        decreases unseen
      {
        var socketId :| socketId in unseen;
        if socketId in sockets {
          return true;
        }
        rooms := SRem(rooms, roomKey, socketId);
        unseen := unseen - {socketId};
        assert InRoom(start, roomKey, socketId);
      }
      return false;
    }
  }

  // ----- whole runs

  datatype Op = Mark(room: string, socket: string) | Unmark(room: string, socket: string) | Clear(socket: string)

  datatype Index = Index(rooms: Rooms, sockets: Sockets)

  /** The new index after one operation, as the methods above leave it. */
  function Apply(index: Index, op: Op): Index {
    var Index(rooms, sockets) := index;
    match op
    case Mark(r, s) =>
      Index(SAdd(rooms, r, s), sockets[s := Added(if s in sockets then sockets[s] else [], r)])
    case Unmark(r, s) =>
      if s !in sockets then Index(SRem(rooms, r, s), sockets)
      else
        var left := Without(sockets[s], r);
        Index(SRem(rooms, r, s), if left == [] then sockets - {s} else sockets[s := left])
    case Clear(s) =>
      if s !in sockets then index else Index(Cleared(rooms, sockets[s], s), sockets - {s})
  }

  function IndexAfter(ops: seq<Op>): Index {
    if ops == [] then Index(map[], map[]) else Apply(IndexAfter(ops[..|ops| - 1]), ops[|ops| - 1])
  }

  /** The abstract relation: who is present where. */
  function Relation(ops: seq<Op>): set<(string, string)> {
    if ops == [] then {}
    else
      var before := Relation(ops[..|ops| - 1]);
      match ops[|ops| - 1]
      case Mark(r, s) => before + {(r, s)}
      case Unmark(r, s) => before - {(r, s)}
      case Clear(s) => set p | p in before && p.1 != s
  }

  lemma MarkKeepsAgreement(index: Index, r: string, s: string)
    requires Agree(index.rooms, index.sockets)
    ensures var after := Apply(index, Mark(r, s));
      && Agree(after.rooms, after.sockets)
      && forall x, y :: InRoom(after.rooms, x, y) <==> InRoom(index.rooms, x, y) || (x == r && y == s)
  {
    var after := Apply(index, Mark(r, s));
    var listed := if s in index.sockets then index.sockets[s] else [];
    assert forall x :: x in Added(listed, r) <==> x in listed || x == r;
    assert forall x, y :: InRoom(after.rooms, x, y) <==> InRoom(index.rooms, x, y) || (x == r && y == s);
    assert forall x, y :: Lists(after.sockets, y, x) <==> Lists(index.sockets, y, x) || (x == r && y == s);
  }

  lemma UnmarkKeepsAgreement(index: Index, r: string, s: string)
    requires Agree(index.rooms, index.sockets)
    ensures var after := Apply(index, Unmark(r, s));
      && Agree(after.rooms, after.sockets)
      && forall x, y :: InRoom(after.rooms, x, y) <==> InRoom(index.rooms, x, y) && !(x == r && y == s)
  {
    var after := Apply(index, Unmark(r, s));
    if s in index.sockets {
      WithoutKeepsDistinct(index.sockets[s], r);
    }
    assert forall x, y :: Lists(after.sockets, y, x) <==> Lists(index.sockets, y, x) && !(x == r && y == s);
  }

  lemma ClearKeepsAgreement(index: Index, s: string)
    requires Agree(index.rooms, index.sockets)
    ensures var after := Apply(index, Clear(s));
      && Agree(after.rooms, after.sockets)
      && forall x, y :: InRoom(after.rooms, x, y) <==> InRoom(index.rooms, x, y) && y != s
  {
    var after := Apply(index, Clear(s));
    assert forall x :: InRoom(index.rooms, x, s) <==> Lists(index.sockets, s, x);
    assert forall x, y :: InRoom(after.rooms, x, y) <==> InRoom(index.rooms, x, y) && y != s;
    assert forall x, y :: Lists(after.sockets, y, x) <==> Lists(index.sockets, y, x) && y != s;
  }

  /** In every run the two indexes agree, with each other and with the relation. */
  lemma {:induction false} IndexesRefineTheRelation(ops: seq<Op>)
    ensures Agree(IndexAfter(ops).rooms, IndexAfter(ops).sockets)
    ensures forall r, s :: InRoom(IndexAfter(ops).rooms, r, s) <==> (r, s) in Relation(ops)
    ensures forall r, s :: Lists(IndexAfter(ops).sockets, s, r) <==> (r, s) in Relation(ops)
  {
    if ops == [] {
    } else {
      var before := ops[..|ops| - 1];
      IndexesRefineTheRelation(before);
      match ops[|ops| - 1]
      case Mark(r, s) => MarkKeepsAgreement(IndexAfter(before), r, s);
      case Unmark(r, s) => UnmarkKeepsAgreement(IndexAfter(before), r, s);
      case Clear(s) => ClearKeepsAgreement(IndexAfter(before), s);
    }
  }

  /** After any run, the query answers the relation and its pruning touches nothing. */
  method QueryAnswersTheRelation(
    service: RoomPresenceService, userId: string, surface: string, ghost ops: seq<Op>) returns (present: bool)
    requires Index(service.rooms, service.sockets) == IndexAfter(ops)
    modifies service`rooms
    ensures present <==> exists s :: (RoomKey(userId, surface), s) in Relation(ops)
    ensures service.rooms == old(service.rooms)
  {
    IndexesRefineTheRelation(ops);
    present := service.IsSurfacePresent(userId, surface);
    assert forall r, s :: InRoom(old(service.rooms), r, s) ==> Lists(service.sockets, s, r);
  }
}
