/**
 The presence index when keys may lapse at any moment and queries prune. The two
 indexes then no longer agree, but a cleared socket is not counted before it is
 marked again.
 */
module PresenceExpiry {
  import opened Presence

  /** A room or a socket key may lapse; a query drops a member whose socket key is gone. */
  datatype Change =
    | Done(op: Op)
    | RoomLapses(room: string)
    | SocketLapses(socket: string)
    | Pruned(room: string, socket: string)

  function Changed(index: Index, change: Change): Index {
    var Index(rooms, sockets) := index;
    match change
    case Done(op) => Apply(index, op)
    case RoomLapses(r) => Index(rooms - {r}, sockets)
    case SocketLapses(s) => Index(rooms, sockets - {s})
    case Pruned(r, s) => if s in sockets then index else Index(SRem(rooms, r, s), sockets)
  }

  function IndexAfter(changes: seq<Change>): Index {
    if changes == [] then Index(map[], map[])
    else Changed(IndexAfter(changes[..|changes| - 1]), changes[|changes| - 1])
  }

  /** The query counts a member whose socket key exists. */
  predicate Counted(index: Index, room: string, socket: string) {
    InRoom(index.rooms, room, socket) && socket in index.sockets
  }

  /** The rooms a socket was marked in and not unmarked, since it was cleared or lapsed. */
  function Marked(changes: seq<Change>, socket: string): seq<string> {
    if changes == [] then []
    else
      var before := Marked(changes[..|changes| - 1], socket);
      match changes[|changes| - 1]
      case Done(Mark(r, s)) => if s == socket then Added(before, r) else before
      case Done(Unmark(r, s)) => if s == socket then Without(before, r) else before
      case Done(Clear(s)) => if s == socket then [] else before
      case SocketLapses(s) => if s == socket then [] else before
      case _ => before
  }

  /** The socket key holds exactly these rooms, and exists exactly when there are some. */
  lemma {:induction false} SocketKeyIsExact(changes: seq<Change>, socket: string)
    ensures var sockets := IndexAfter(changes).sockets;
      && (socket in sockets <==> Marked(changes, socket) != [])
      && (socket in sockets ==> sockets[socket] == Marked(changes, socket))
  {
    if changes == [] {
    } else {
      SocketKeyIsExact(changes[..|changes| - 1], socket);
    }
  }

  lemma {:induction false} UnmarkedAfterClear(changes: seq<Change>, i: nat, socket: string)
    requires i < |changes| && changes[i] == Done(Clear(socket))
    requires forall k :: i < k < |changes| && changes[k].Done? && changes[k].op.Mark? ==> changes[k].op.socket != socket
    ensures Marked(changes, socket) == []
  {
    if i == |changes| - 1 {
    } else {
      UnmarkedAfterClear(changes[..|changes| - 1], i, socket);
    }
  }

  /** Whatever lapses, a cleared socket is counted nowhere until it is marked again. */
  lemma ClearedIsNotCounted(changes: seq<Change>, i: nat, socket: string)
    requires i < |changes| && changes[i] == Done(Clear(socket))
    requires forall k :: i < k < |changes| && changes[k].Done? && changes[k].op.Mark? ==> changes[k].op.socket != socket
    ensures forall room :: !Counted(IndexAfter(changes), room, socket)
  {
    UnmarkedAfterClear(changes, i, socket);
    SocketKeyIsExact(changes, socket);
  }

  /** A clear leaves the socket in exactly the rooms that its key no longer lists. */
  lemma ClearLeavesUnlisted(index: Index, room: string, socket: string)
    ensures InRoom(Apply(index, Clear(socket)).rooms, room, socket) <==>
      InRoom(index.rooms, room, socket) && !Lists(index.sockets, socket, room)
  {
  }

  lemma FirstMark(index: Index, room: string, socket: string)
    requires index.rooms == map[] && index.sockets == map[]
    ensures Apply(index, Mark(room, socket)) == Index(map[room := {socket}], map[socket := [room]])
  {
    var none: seq<string> := [];
    assert Added(none, room) == none + [room] == [room];
    assert SAdd(index.rooms, room, socket) == map[room := {} + {socket}];
    assert {} + {socket} == {socket};
  }

  /** So a mark elsewhere brings back a room from which the socket was cleared after
      its key had lapsed. */
  lemma LapsedRoomComesBack(room: string, elsewhere: string, socket: string)
    requires room != elsewhere
    ensures var cleared := [Done(Mark(room, socket)), SocketLapses(socket), Done(Clear(socket))];
      && !Counted(IndexAfter(cleared), room, socket)
      && Counted(IndexAfter(cleared + [Done(Mark(elsewhere, socket))]), room, socket)
  {
    var marked := [Done(Mark(room, socket))];
    var lapsed := marked + [SocketLapses(socket)];
    var cleared := lapsed + [Done(Clear(socket))];
    assert cleared == [Done(Mark(room, socket)), SocketLapses(socket), Done(Clear(socket))];
    assert marked[..0] == [] && lapsed[..1] == marked && cleared[..2] == lapsed;
    FirstMark(IndexAfter([]), room, socket);
    assert IndexAfter(marked) == Index(map[room := {socket}], map[socket := [room]]);
    assert IndexAfter(cleared) == IndexAfter(lapsed) == Index(map[room := {socket}], map[]);
    assert (cleared + [Done(Mark(elsewhere, socket))])[..3] == cleared;
  }
}
